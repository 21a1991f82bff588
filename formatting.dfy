/**
 * The score formatters of the backend: elapsed milliseconds as "H:MM:SS.mmm",
 * score deltas as "+N" / "±0" / "-N", and the switch between the two by
 * category kind. Each formatter has a parser beside it, and the lemmas prove
 * that parsing a formatted value gives the value back.
 */
module Formatting {
  import opened Wrappers

  // ---------------------------------------------------------------------------
  // Decimal digits
  // ---------------------------------------------------------------------------

  predicate IsDigit(c: char) { '0' <= c <= '9' }

  predicate AllDigits(s: string) { forall i :: 0 <= i < |s| ==> IsDigit(s[i]) }

  function DigitChar(d: nat): (c: char)
    requires d < 10
    ensures IsDigit(c)
  {
    ['0', '1', '2', '3', '4', '5', '6', '7', '8', '9'][d]
  }

  function DigitValue(c: char): (d: nat)
    requires IsDigit(c)
    ensures d < 10
  {
    (c as int - '0' as int) as nat
  }

  lemma DigitRoundTrip(d: nat)
    requires d < 10
    ensures DigitValue(DigitChar(d)) == d
  {
  }

  /** Python's str() of a non-negative int: no leading zeros, "0" for zero. */
  function DigitsOf(n: nat): (s: string)
    ensures 1 <= |s| && AllDigits(s)
    ensures n < 10 <==> |s| == 1
    ensures |s| > 1 ==> s[0] != '0'
  {
    if n < 10 then [DigitChar(n)] else DigitsOf(n / 10) + [DigitChar(n % 10)]
  }

  /** Value of a string of decimal digits; the empty string is worth 0. */
  function ParseNat(s: string): nat
    requires AllDigits(s)
  {
    if s == [] then 0 else ParseNat(s[..|s| - 1]) * 10 + DigitValue(s[|s| - 1])
  }

  lemma {:induction false} ParseDigitsOf(n: nat)
    ensures ParseNat(DigitsOf(n)) == n
  {
    if n < 10 {
      DigitRoundTrip(n);
    } else {
      var s := DigitsOf(n);
      assert s[..|s| - 1] == DigitsOf(n / 10);
      ParseDigitsOf(n / 10);
      DigitRoundTrip(n % 10);
    }
  }

  function Zeros(k: nat): (s: string)
    ensures |s| == k && AllDigits(s)
  {
    if k == 0 then [] else Zeros(k - 1) + ['0']
  }

  /** The `{x:0w}` format: left-pad with zeros to width w. */
  function ZeroPad(s: string, w: nat): (r: string)
    ensures |r| == if |s| >= w then |s| else w
    ensures AllDigits(s) ==> AllDigits(r)
  {
    if |s| >= w then s else Zeros(w - |s|) + s
  }

  lemma {:induction false} ParseLeadingZeros(k: nat, s: string)
    requires AllDigits(s)
    ensures AllDigits(Zeros(k) + s) && ParseNat(Zeros(k) + s) == ParseNat(s)
    decreases |s|
  {
    var z := Zeros(k) + s;
    if s == [] {
      assert z == Zeros(k);
      ParseZeros(k);
    } else {
      var init := s[..|s| - 1];
      assert z[..|z| - 1] == Zeros(k) + init;
      ParseLeadingZeros(k, init);
    }
  }

  lemma {:induction false} ParseZeros(k: nat)
    ensures ParseNat(Zeros(k)) == 0
  {
    if k > 0 {
      assert Zeros(k)[..k - 1] == Zeros(k - 1);
      ParseZeros(k - 1);
    }
  }

  lemma ParsePadded(n: nat, w: nat)
    ensures AllDigits(ZeroPad(DigitsOf(n), w))
    ensures ParseNat(ZeroPad(DigitsOf(n), w)) == n
  {
    var s := DigitsOf(n);
    ParseDigitsOf(n);
    if |s| < w {
      ParseLeadingZeros(w - |s|, s);
    }
  }

  /** Python's str() of an int: a minus sign before the digits of a negative number. */
  function IntToString(n: int): (s: string)
    ensures 1 <= |s|
    ensures s[0] == '-' <==> n < 0
  {
    if n < 0 then "-" + DigitsOf(-n) else DigitsOf(n)
  }

  function ParseInt(s: string): Option<int>
  {
    if |s| > 1 && s[0] == '-' && AllDigits(s[1..]) then Some(-(ParseNat(s[1..]) as int))
    else if |s| > 0 && AllDigits(s) then Some(ParseNat(s))
    else None
  }

  lemma ParseIntToString(n: int)
    ensures ParseInt(IntToString(n)) == Some(n)
  {
    if n < 0 {
      ParseNegative(n);
    } else {
      ParseNonNegative(n);
    }
  }

  lemma ParseNegative(n: int)
    requires n < 0
    ensures ParseInt("-" + DigitsOf(-n)) == Some(n)
  {
    ParseDigitsOf(-n);
    ParseMinus(DigitsOf(-n), n);
  }

  lemma ParseMinus(d: string, n: int)
    requires |d| > 0 && AllDigits(d) && ParseNat(d) == -n
    ensures ParseInt("-" + d) == Some(n)
  {
    assert ("-" + d)[1..] == d;
  }

  lemma ParseNonNegative(n: nat)
    ensures ParseInt(DigitsOf(n)) == Some(n)
  {
    var s := DigitsOf(n);
    assert IsDigit(s[0]);
    ParseDigitsOf(n);
  }

  // ---------------------------------------------------------------------------
  // Splitting at a separator (the inverse of joining with it)
  // ---------------------------------------------------------------------------

  /** The pieces of s between occurrences of c; always at least one piece. */
  function Split(s: string, c: char): (parts: seq<string>)
    ensures |parts| >= 1
  {
    if s == [] then [[]]
    else
      var rest := Split(s[1..], c);
      if s[0] == c then [[]] + rest else [[s[0]] + rest[0]] + rest[1..]
  }

  lemma {:induction false} SplitNoSeparator(a: string, c: char)
    requires c !in a
    ensures Split(a, c) == [a]
  {
    if a != [] {
      SplitNoSeparator(a[1..], c);
      assert [a[0]] + a[1..] == a;
    }
  }

  lemma {:induction false} SplitAtSeparator(a: string, c: char, b: string)
    requires c !in a
    ensures Split(a + [c] + b, c) == [a] + Split(b, c)
  {
    if a == [] {
      assert a + [c] + b == [c] + b;
      assert ([c] + b)[1..] == b;
    } else {
      assert (a + [c] + b)[1..] == a[1..] + [c] + b;
      SplitAtSeparator(a[1..], c, b);
      assert [a[0]] + a[1..] == a;
    }
  }

  lemma DigitsHaveNoSeparator(s: string, c: char)
    requires AllDigits(s) && !IsDigit(c)
    ensures c !in s
  {
  }

  // ---------------------------------------------------------------------------
  // ms_to_time
  // ---------------------------------------------------------------------------

  const MsPerSecond: int := 1000
  const MsPerMinute: int := 60000
  const MsPerHour: int := 3600000

  /**
   * The three components ms_to_time prints. Python floors its divisions and
   * its % is never negative for a positive divisor, which is what Dafny's
   * Euclidean / and % do here.
   */
  datatype TimeParts = TimeParts(hours: int, minutes: nat, secondsMs: nat)

  function Parts(ms: int): (p: TimeParts)
    ensures p.minutes < 60 && p.secondsMs < MsPerMinute
    ensures p.hours * MsPerHour + p.minutes * MsPerMinute + p.secondsMs == ms
    ensures ms >= 0 ==> p.hours >= 0
  {
    TimeParts(ms / MsPerHour, (ms / MsPerMinute) % 60, ms % MsPerMinute)
  }

  /** `{seconds:.3f}` for a seconds value below 60 given in milliseconds. */
  function Seconds(secondsMs: nat): string
  {
    DigitsOf(secondsMs / MsPerSecond) + "." + ZeroPad(DigitsOf(secondsMs % MsPerSecond), 3)
  }

  /** `{seconds:06.3f}`: the same with the integer part padded to two digits. */
  function PaddedSeconds(secondsMs: nat): string
  {
    ZeroPad(DigitsOf(secondsMs / MsPerSecond), 2) + "." + ZeroPad(DigitsOf(secondsMs % MsPerSecond), 3)
  }

  /** ms_to_time: "H:MM:SS.mmm" with hours, else "M:SS.mmm" with minutes, else "S.mmm". */
  function MsToTime(ms: int): string
  {
    var p := Parts(ms);
    if p.hours != 0 then
      IntToString(p.hours) + ":" + ZeroPad(DigitsOf(p.minutes), 2) + ":" + PaddedSeconds(p.secondsMs)
    else if p.minutes != 0 then
      DigitsOf(p.minutes) + ":" + PaddedSeconds(p.secondsMs)
    else
      Seconds(p.secondsMs)
  }

  /** Reads "S.mmm" (any number of integer digits, exactly three decimals) as milliseconds. */
  function ParseSeconds(s: string): Option<nat>
  {
    var parts := Split(s, '.');
    if |parts| == 2 && |parts[0]| > 0 && AllDigits(parts[0]) && |parts[1]| == 3 && AllDigits(parts[1])
    then Some(ParseNat(parts[0]) * MsPerSecond + ParseNat(parts[1]))
    else None
  }

  /** Reads any of the three shapes MsToTime prints back into milliseconds. */
  function ParseTime(s: string): Option<int>
  {
    ParseFields(Split(s, ':'))
  }

  /** Seconds alone, minutes and seconds, or hours, minutes and seconds. */
  function ParseFields(parts: seq<string>): Option<int>
  {
    if |parts| == 1 then
      match ParseSeconds(parts[0])
      case Some(sec) => Some(sec)
      case None => None
    else if |parts| == 2 && |parts[0]| > 0 && AllDigits(parts[0]) then
      match ParseSeconds(parts[1])
      case Some(sec) => Some(ParseNat(parts[0]) * MsPerMinute + sec)
      case None => None
    else if |parts| == 3 && |parts[1]| > 0 && AllDigits(parts[1]) then
      match (ParseInt(parts[0]), ParseSeconds(parts[2]))
      case (Some(h), Some(sec)) => Some(h * MsPerHour + ParseNat(parts[1]) * MsPerMinute + sec)
      case _ => None
    else None
  }

  /** Numbers below 10^k have at most k digits (k = 2, 3 are the ones used). */
  lemma DigitsBound(n: nat)
    ensures n < 100 ==> |DigitsOf(n)| <= 2
    ensures n < 1000 ==> |DigitsOf(n)| <= 3
  {
    if n >= 10 {
      assert |DigitsOf(n / 10)| == 1 || n >= 100;
      if n >= 100 && n < 1000 {
        assert |DigitsOf(n / 100)| == 1;
        assert DigitsOf(n / 10) == DigitsOf(n / 100) + [DigitChar((n / 10) % 10)];
      }
    }
  }

  lemma {:induction false} ParseDecimal(whole: string, frac: string)
    requires |whole| > 0 && AllDigits(whole) && |frac| == 3 && AllDigits(frac)
    ensures ':' !in whole + "." + frac
    ensures ParseSeconds(whole + "." + frac) == Some(ParseNat(whole) * MsPerSecond + ParseNat(frac))
  {
    DigitsHaveNoSeparator(whole, '.');
    DigitsHaveNoSeparator(frac, '.');
    DigitsHaveNoSeparator(whole + frac, ':');
    SplitAtSeparator(whole, '.', frac);
    SplitNoSeparator(frac, '.');
    assert whole + "." + frac == whole + ['.'] + frac;
  }

  /** The same, for a total computed elsewhere. */
  lemma ParseDecimalTotal(whole: string, frac: string, total: nat)
    requires |whole| > 0 && AllDigits(whole) && |frac| == 3 && AllDigits(frac)
    requires total == ParseNat(whole) * MsPerSecond + ParseNat(frac)
    ensures ':' !in whole + "." + frac
    ensures ParseSeconds(whole + "." + frac) == Some(total)
  {
    ParseDecimal(whole, frac);
  }

  lemma FieldsOfSeconds(secondsMs: nat)
    requires secondsMs < MsPerMinute
    ensures |ZeroPad(DigitsOf(secondsMs % MsPerSecond), 3)| == 3
    ensures |ZeroPad(DigitsOf(secondsMs / MsPerSecond), 2)| == 2
    ensures |PaddedSeconds(secondsMs)| == 6
  {
    DigitsBound(secondsMs % MsPerSecond);
    DigitsBound(secondsMs / MsPerSecond);
  }

  lemma SecondsParse(secondsMs: nat, padded: bool)
    requires secondsMs < MsPerMinute
    ensures var t := if padded then PaddedSeconds(secondsMs) else Seconds(secondsMs);
      ':' !in t && ParseSeconds(t) == Some(secondsMs)
  {
    var w := secondsMs / MsPerSecond;
    var f := secondsMs % MsPerSecond;
    var frac := ZeroPad(DigitsOf(f), 3);
    DigitsBound(f);
    ParsePadded(f, 3);
    if padded {
      ParsePadded(w, 2);
      ParseDecimalTotal(ZeroPad(DigitsOf(w), 2), frac, secondsMs);
    } else {
      ParseDigitsOf(w);
      ParseDecimalTotal(DigitsOf(w), frac, secondsMs);
    }
  }

  /** The hour, minute and second fields MsToTime joins with ':'. */
  function TimeFields(p: TimeParts): seq<string>
  {
    if p.hours != 0 then [IntToString(p.hours), ZeroPad(DigitsOf(p.minutes), 2), PaddedSeconds(p.secondsMs)]
    else if p.minutes != 0 then [DigitsOf(p.minutes), PaddedSeconds(p.secondsMs)]
    else [Seconds(p.secondsMs)]
  }

  lemma NoColonInHours(h: int)
    ensures ':' !in IntToString(h)
  {
    if h < 0 {
      assert IntToString(h) == "-" + DigitsOf(-h);
      DigitsHaveNoSeparator(DigitsOf(-h), ':');
    } else {
      DigitsHaveNoSeparator(DigitsOf(h), ':');
    }
  }

  lemma SplitTwo(a: string, b: string)
    requires ':' !in a && ':' !in b
    ensures Split(a + ":" + b, ':') == [a, b]
  {
    assert a + ":" + b == a + [':'] + b;
    SplitAtSeparator(a, ':', b);
    SplitNoSeparator(b, ':');
  }

  lemma SplitThree(a: string, b: string, c: string)
    requires ':' !in a && ':' !in b && ':' !in c
    ensures Split(a + ":" + b + ":" + c, ':') == [a, b, c]
  {
    assert a + ":" + b + ":" + c == a + [':'] + (b + ":" + c);
    SplitAtSeparator(a, ':', b + ":" + c);
    SplitTwo(b, c);
  }

  lemma SplitMsToTime(ms: int)
    ensures Split(MsToTime(ms), ':') == TimeFields(Parts(ms))
  {
    var p := Parts(ms);
    var padded := p.hours != 0 || p.minutes != 0;
    SecondsParse(p.secondsMs, padded);
    if p.hours != 0 {
      NoColonInHours(p.hours);
      DigitsHaveNoSeparator(ZeroPad(DigitsOf(p.minutes), 2), ':');
      SplitThree(IntToString(p.hours), ZeroPad(DigitsOf(p.minutes), 2), PaddedSeconds(p.secondsMs));
    } else if p.minutes != 0 {
      DigitsHaveNoSeparator(DigitsOf(p.minutes), ':');
      SplitTwo(DigitsOf(p.minutes), PaddedSeconds(p.secondsMs));
    } else {
      SplitNoSeparator(Seconds(p.secondsMs), ':');
    }
  }

  /**
   * The three shapes: with hours, "H:MM:SS.mmm" (minutes two digits, seconds
   * six characters with three decimals); with minutes only, "M:SS.mmm"; else "S.mmm".
   */
  lemma MsToTimeShape(ms: int)
    ensures var p := Parts(ms); var f := Split(MsToTime(ms), ':');
      (p.hours != 0 ==> |f| == 3 && f[0] == IntToString(p.hours) && |f[1]| == 2 && |f[2]| == 6 && f[2][2] == '.') &&
      (p.hours == 0 && p.minutes != 0 ==> |f| == 2 && f[0] == DigitsOf(p.minutes) && |f[1]| == 6 && f[1][2] == '.') &&
      (p.hours == 0 && p.minutes == 0 ==> |f| == 1 && f[0] == Seconds(p.secondsMs))
  {
    var p := Parts(ms);
    SplitMsToTime(ms);
    FieldsOfSeconds(p.secondsMs);
  }

  /**
   * The round trip: whatever ms_to_time prints, reading the hours, minutes,
   * seconds and milliseconds back gives the number of milliseconds it was
   * given, for negative inputs too.
   */
  lemma ParseMsToTime(ms: int)
    ensures ParseTime(MsToTime(ms)) == Some(ms)
  {
    SplitMsToTime(ms);
    var p := Parts(ms);
    if p.hours != 0 {
      ParseHoursCase(p, ms);
    } else if p.minutes != 0 {
      ParseMinutesCase(p, ms);
    } else {
      ParseSecondsCase(p, ms);
    }
  }

  // Each step below receives the total it must produce, so that the
  // arithmetic is done where the strings are still abstract.

  lemma ParseHoursCase(p: TimeParts, ms: int)
    requires p.hours != 0 && p.secondsMs < MsPerMinute
    requires ms == p.hours * MsPerHour + p.minutes * MsPerMinute + p.secondsMs
    ensures ParseFields(TimeFields(p)) == Some(ms)
  {
    SecondsParse(p.secondsMs, true);
    ParseIntToString(p.hours);
    ParsePadded(p.minutes, 2);
    ParseThreeFields(IntToString(p.hours), ZeroPad(DigitsOf(p.minutes), 2), PaddedSeconds(p.secondsMs), p.hours, p.minutes, p.secondsMs, ms);
  }

  lemma ParseMinutesCase(p: TimeParts, ms: int)
    requires p.hours == 0 && p.minutes != 0 && p.secondsMs < MsPerMinute
    requires ms == p.minutes * MsPerMinute + p.secondsMs
    ensures ParseFields(TimeFields(p)) == Some(ms)
  {
    SecondsParse(p.secondsMs, true);
    ParseDigitsOf(p.minutes);
    ParseTwoFields(DigitsOf(p.minutes), PaddedSeconds(p.secondsMs), p.minutes, p.secondsMs, ms);
  }

  lemma ParseSecondsCase(p: TimeParts, ms: int)
    requires p.hours == 0 && p.minutes == 0 && p.secondsMs < MsPerMinute
    requires ms == p.secondsMs
    ensures ParseFields(TimeFields(p)) == Some(ms)
  {
    SecondsParse(p.secondsMs, false);
    ParseOneField(Seconds(p.secondsMs), ms);
  }

  lemma ParseOneField(a: string, total: int)
    requires ParseSeconds(a) == Some(total)
    ensures ParseFields([a]) == Some(total)
  {
  }

  lemma ParseTwoFields(a: string, b: string, m: nat, sec: nat, total: int)
    requires |a| > 0 && AllDigits(a) && ParseNat(a) == m && ParseSeconds(b) == Some(sec)
    requires total == m * MsPerMinute + sec
    ensures ParseFields([a, b]) == Some(total)
  {
  }

  lemma ParseThreeFields(a: string, b: string, c: string, h: int, m: nat, sec: nat, total: int)
    requires ParseInt(a) == Some(h) && |b| > 0 && AllDigits(b) && ParseNat(b) == m && ParseSeconds(c) == Some(sec)
    requires total == h * MsPerHour + m * MsPerMinute + sec
    ensures ParseFields([a, b, c]) == Some(total)
  {
  }

  // ---------------------------------------------------------------------------
  // num_to_delta and format_score
  // ---------------------------------------------------------------------------

  const PlusMinusZero: string := "\U{00B1}0"
  const EmDash: string := "\U{2014}"

  /** num_to_delta: "+N" above zero, "±0" at zero, Python's "-N" below. */
  function NumToDelta(n: int): string
  {
    if n > 0 then "+" + IntToString(n)
    else if n == 0 then PlusMinusZero
    else IntToString(n)
  }

  function ParseDelta(s: string): Option<int>
  {
    if s == PlusMinusZero then Some(0)
    else if |s| > 1 && s[0] == '+' && AllDigits(s[1..]) then Some(ParseNat(s[1..]))
    else if |s| > 1 && s[0] == '-' then ParseInt(s)
    else None
  }

  lemma ParseNumToDelta(n: int)
    ensures ParseDelta(NumToDelta(n)) == Some(n)
  {
    ParseIntToString(n);
    if n > 0 {
      assert NumToDelta(n)[1..] == DigitsOf(n);
      ParseDigitsOf(n);
    }
  }

  /** The first character tells the three delta cases apart. */
  lemma NumToDeltaSign(n: int)
    ensures var s := NumToDelta(n);
      |s| >= 2 && (s[0] == '+' <==> n > 0) && (s[0] == '-' <==> n < 0) && (s == PlusMinusZero <==> n == 0)
  {
    if n < 0 {
      assert |DigitsOf(-n)| >= 1;
    }
  }

  /** format_score: an em dash for a missing score, else the category's formatter. */
  function FormatScore(score: Option<int>, speedrun: bool): string
  {
    match score
    case None => EmDash
    case Some(v) => if speedrun then MsToTime(v) else NumToDelta(v)
  }

  function ParseScore(s: string, speedrun: bool): Option<Option<int>>
  {
    if s == EmDash then Some(None)
    else
      match (if speedrun then ParseTime(s) else ParseDelta(s))
      case Some(v) => Some(Some(v))
      case None => None
  }

  lemma FormattedNumberIsNotDash(v: int)
    ensures MsToTime(v) != EmDash && NumToDelta(v) != EmDash
  {
    ParseMsToTime(v);
    NumToDeltaSign(v);
  }

  /** format_score loses nothing: the score, or its absence, can be read back. */
  lemma ParseFormatScore(score: Option<int>, speedrun: bool)
    ensures ParseScore(FormatScore(score, speedrun), speedrun) == Some(score)
  {
    match score
    case None =>
    case Some(v) =>
      FormattedNumberIsNotDash(v);
      ParseMsToTime(v);
      ParseNumToDelta(v);
  }
}
