/**
 * The matchmaker: an admission counter that holds back matchmaking while
 * players keep joining, the enumeration of candidate groups of 2 to 8 queued
 * players per category, the quality score of a group, and the greedy loop
 * that commits the best remaining group and discards every group that shares
 * a player with it.
 */
module Matchmaking {
  import opened Wrappers
  import opened Records
  import MatchCreation

  const MinMatchSize: nat := 2
  const MaxMatchSize: nat := 8

  function Min(a: nat, b: nat): nat { if a <= b then a else b }

  function Elems(c: seq<PlayerId>): set<PlayerId>
  {
    set p | p in c
  }

  lemma {:induction false} DistinctElems(c: seq<PlayerId>)
    requires Distinct(c)
    ensures |Elems(c)| == |c|
  {
    if c != [] {
      var rest := c[1..];
      assert Distinct(rest);
      DistinctElems(rest);
      assert Elems(c) == {c[0]} + Elems(rest);
      assert c[0] !in Elems(rest);
    }
  }

  // ---------------------------------------------------------------------------
  // Candidate groups: itertools.combinations(players, r) for r in 2..min(n, 8)
  // ---------------------------------------------------------------------------

  /** The r-element combinations of xs, each in the order of xs. */
  function Combinations(xs: seq<PlayerId>, r: nat): set<seq<PlayerId>>
    decreases |xs|
  {
    if r == 0 then {[]}
    else if xs == [] then {}
    else (set c | c in Combinations(xs[1..], r - 1) :: [xs[0]] + c) + Combinations(xs[1..], r)
  }

  /** Combinations of every size from 2 up to hi. */
  function CombinationsUpTo(xs: seq<PlayerId>, hi: nat): set<seq<PlayerId>>
  {
    if hi < MinMatchSize then {} else CombinationsUpTo(xs, hi - 1) + Combinations(xs, hi)
  }

  /** The candidate groups of one category's queued players. */
  function Candidates(pool: seq<PlayerId>): set<seq<PlayerId>>
  {
    CombinationsUpTo(pool, Min(|pool|, MaxMatchSize))
  }

  lemma {:induction false} CombinationsSound(xs: seq<PlayerId>, r: nat, c: seq<PlayerId>)
    requires c in Combinations(xs, r)
    ensures |c| == r && Elems(c) <= Elems(xs)
    ensures Distinct(xs) ==> Distinct(c)
    decreases |xs|
  {
    if r > 0 {
      var rest := xs[1..];
      if c in Combinations(rest, r) {
        CombinationsSound(rest, r, c);
        assert Distinct(xs) ==> Distinct(rest);
      } else {
        var c' :| c' in Combinations(rest, r - 1) && c == [xs[0]] + c';
        CombinationsSound(rest, r - 1, c');
        assert Elems(c) == {xs[0]} + Elems(c');
        assert Elems(xs) == {xs[0]} + Elems(rest);
        assert Distinct(xs) ==> Distinct(rest) && xs[0] !in Elems(rest);
      }
    }
  }

  lemma {:induction false} CombinationsComplete(xs: seq<PlayerId>, r: nat, s: set<PlayerId>) returns (c: seq<PlayerId>)
    requires Distinct(xs) && s <= Elems(xs) && |s| == r
    ensures c in Combinations(xs, r) && Elems(c) == s
    decreases |xs|
  {
    if r == 0 {
      assert s == {};
      c := [];
      assert Elems(c) == s;
    } else {
      assert xs != [];
      var rest := xs[1..];
      assert Distinct(rest);
      assert Elems(xs) == {xs[0]} + Elems(rest);
      if xs[0] in s {
        var s' := s - {xs[0]};
        assert s' <= Elems(rest);
        var c' := CombinationsComplete(rest, r - 1, s');
        ConsCombination(xs, r, c');
        c := [xs[0]] + c';
        assert Elems(c) == {xs[0]} + s';
      } else {
        assert s <= Elems(rest);
        c := CombinationsComplete(rest, r, s);
        assert c in Combinations(xs, r);
      }
    }
  }

  lemma ConsCombination(xs: seq<PlayerId>, r: nat, c: seq<PlayerId>)
    requires xs != [] && r > 0 && c in Combinations(xs[1..], r - 1)
    ensures [xs[0]] + c in Combinations(xs, r)
    ensures Elems([xs[0]] + c) == {xs[0]} + Elems(c)
  {
  }

  lemma {:induction false} CombinationsUnique(xs: seq<PlayerId>, r: nat, c1: seq<PlayerId>, c2: seq<PlayerId>)
    requires Distinct(xs) && c1 in Combinations(xs, r) && c2 in Combinations(xs, r) && Elems(c1) == Elems(c2)
    ensures c1 == c2
    decreases |xs|
  {
    if r > 0 {
      var rest := xs[1..];
      assert Distinct(rest);
      assert xs[0] !in Elems(rest);
      var first1 := c1 !in Combinations(rest, r);
      var first2 := c2 !in Combinations(rest, r);
      if c1 in Combinations(rest, r) { CombinationsSound(rest, r, c1); }
      if c2 in Combinations(rest, r) { CombinationsSound(rest, r, c2); }
      if first1 && first2 {
        var d1 :| d1 in Combinations(rest, r - 1) && c1 == [xs[0]] + d1;
        var d2 :| d2 in Combinations(rest, r - 1) && c2 == [xs[0]] + d2;
        CombinationsSound(rest, r - 1, d1);
        CombinationsSound(rest, r - 1, d2);
        assert Elems(d1) == Elems(c1) - {xs[0]};
        assert Elems(d2) == Elems(c2) - {xs[0]};
        CombinationsUnique(rest, r - 1, d1, d2);
      } else if !first1 && !first2 {
        CombinationsUnique(rest, r, c1, c2);
      } else {
        assert false;
      }
    }
  }

  lemma {:induction false} InCombinationsUpTo(xs: seq<PlayerId>, hi: nat, c: seq<PlayerId>)
    ensures c in CombinationsUpTo(xs, hi) <==> MinMatchSize <= |c| <= hi && c in Combinations(xs, |c|)
    decreases hi
  {
    if hi >= MinMatchSize {
      InCombinationsUpTo(xs, hi - 1, c);
      if c in Combinations(xs, hi) { CombinationsSound(xs, hi, c); }
    }
  }

  /** Every candidate is a group of 2 to min(n, 8) distinct queued players. */
  lemma CandidatesAreGroups(pool: seq<PlayerId>, c: seq<PlayerId>)
    requires Distinct(pool) && c in Candidates(pool)
    ensures Distinct(c) && Elems(c) <= Elems(pool)
    ensures MinMatchSize <= |c| <= Min(|pool|, MaxMatchSize)
  {
    InCombinationsUpTo(pool, Min(|pool|, MaxMatchSize), c);
    CombinationsSound(pool, |c|, c);
  }

  /** Every group of 2 to 8 queued players is a candidate ... */
  lemma EveryGroupIsACandidate(pool: seq<PlayerId>, s: set<PlayerId>) returns (c: seq<PlayerId>)
    requires Distinct(pool) && s <= Elems(pool) && MinMatchSize <= |s| <= MaxMatchSize
    ensures c in Candidates(pool) && Elems(c) == s
  {
    c := CombinationsComplete(pool, |s|, s);
    CombinationsSound(pool, |s|, c);
    DistinctElems(pool);
    assert |s| <= |pool| by { SubsetSize(s, Elems(pool)); }
    InCombinationsUpTo(pool, Min(|pool|, MaxMatchSize), c);
  }

  /** ... exactly once. */
  lemma CandidatesAreUnique(pool: seq<PlayerId>, c1: seq<PlayerId>, c2: seq<PlayerId>)
    requires Distinct(pool) && c1 in Candidates(pool) && c2 in Candidates(pool) && Elems(c1) == Elems(c2)
    ensures c1 == c2
  {
    CandidatesAreGroups(pool, c1);
    CandidatesAreGroups(pool, c2);
    DistinctElems(c1);
    DistinctElems(c2);
    InCombinationsUpTo(pool, Min(|pool|, MaxMatchSize), c1);
    InCombinationsUpTo(pool, Min(|pool|, MaxMatchSize), c2);
    CombinationsUnique(pool, |c1|, c1, c2);
  }

  lemma SubsetSize<T>(a: set<T>, b: set<T>)
    requires a <= b
    ensures |a| <= |b|
  {
    assert b == a + (b - a);
  }

  /** A category with fewer than two queued players has no candidates. */
  lemma NoCandidatesBelowTwo(pool: seq<PlayerId>)
    requires |pool| < MinMatchSize
    ensures Candidates(pool) == {}
  {
  }

  // ---------------------------------------------------------------------------
  // Quality of a candidate group
  // ---------------------------------------------------------------------------

  function Sum(xs: seq<real>): real
  {
    if xs == [] then 0.0 else xs[0] + Sum(xs[1..])
  }

  function SquaredDeviations(xs: seq<real>, mean: real): (r: real)
    ensures r >= 0.0
  {
    if xs == [] then 0.0
    else
      var d := xs[0] - mean;
      SquareNonNegative(d);
      d * d + SquaredDeviations(xs[1..], mean)
  }

  lemma SquareNonNegative(d: real)
    ensures d * d >= 0.0
  {
    if d < 0.0 {
      assert d * d == (-d) * (-d);
    }
  }

  /** Population variance. */
  function Variance(xs: seq<real>): (v: real)
    requires |xs| > 0
    ensures v >= 0.0
  {
    SquaredDeviations(xs, Sum(xs) / (|xs| as real)) / (|xs| as real)
  }

  /** What the model needs of the square root it is given. */
  ghost predicate IsSquareRoot(sqrt: real -> real)
  {
    sqrt(0.0) == 0.0 && forall v :: 0.0 <= v ==> 0.0 <= sqrt(v)
  }

  /** stdev, with the empty list (a ZeroDivisionError in the source) read as 0. */
  function Stdev(xs: seq<real>, sqrt: real -> real): (d: real)
    requires IsSquareRoot(sqrt)
    ensures d >= 0.0
  {
    if |xs| == 0 then 0.0 else sqrt(Variance(xs))
  }

  lemma StdevOfAtMostOne(xs: seq<real>, sqrt: real -> real)
    requires IsSquareRoot(sqrt) && |xs| <= 1
    ensures Stdev(xs, sqrt) == 0.0
  {
    if |xs| == 1 {
      assert xs[1..] == [];
      assert Sum(xs) / 1.0 == xs[0];
      assert SquaredDeviations(xs, xs[0]) == 0.0;
    }
  }

  /** The ratings of the group's members that have one, in group order. */
  function RatingsOf(c: seq<PlayerId>, elos: map<PlayerId, Rating>): (rs: seq<Rating>)
    ensures |rs| <= |c|
  {
    if c == [] then []
    else if c[0] in elos then [elos[c[0]]] + RatingsOf(c[1..], elos)
    else RatingsOf(c[1..], elos)
  }

  function Mus(rs: seq<Rating>): seq<real>
  {
    seq(|rs|, i requires 0 <= i < |rs| => rs[i].mu)
  }

  function Sigmas(rs: seq<Rating>): seq<real>
  {
    seq(|rs|, i requires 0 <= i < |rs| => rs[i].sigma)
  }

  /**
   * Matchmaker.score: n^2 / (mu spread + sigma spread / 5 + 1), each spread a
   * standard deviation normalised by the starting value.
   */
  function Quality(c: seq<PlayerId>, elos: map<PlayerId, Rating>, sqrt: real -> real): (q: real)
    requires IsSquareRoot(sqrt)
    ensures 0.0 <= q <= (|c| * |c|) as real
    ensures |c| > 0 ==> q > 0.0
  {
    var rs := RatingsOf(c, elos);
    var muSpread := Stdev(Mus(rs), sqrt) / StartingMu;
    var sigmaSpread := Stdev(Sigmas(rs), sqrt) / StartingSigma;
    var n2 := (|c| * |c|) as real;
    var d := muSpread + sigmaSpread / 5.0 + 1.0;
    DivideByAtLeastOne(n2, d);
    n2 / d
  }

  lemma DivideByAtLeastOne(a: real, d: real)
    requires a >= 0.0 && d >= 1.0
    ensures 0.0 <= a / d <= a
    ensures a > 0.0 ==> a / d > 0.0
  {
  }

  /** With at most one rated member both spreads vanish and the score is n^2. */
  lemma QualityOfAtMostOneRated(c: seq<PlayerId>, elos: map<PlayerId, Rating>, sqrt: real -> real)
    requires IsSquareRoot(sqrt) && |RatingsOf(c, elos)| <= 1
    ensures Quality(c, elos, sqrt) == (|c| * |c|) as real
  {
    var rs := RatingsOf(c, elos);
    StdevOfAtMostOne(Mus(rs), sqrt);
    StdevOfAtMostOne(Sigmas(rs), sqrt);
  }

  /** Two rating tables agree on every member of the group. */
  predicate AgreeOn(c: seq<PlayerId>, e1: map<PlayerId, Rating>, e2: map<PlayerId, Rating>)
  {
    forall i :: 0 <= i < |c| ==> (c[i] in e1 <==> c[i] in e2) && (c[i] in e1 ==> e1[c[i]] == e2[c[i]])
  }

  /** The score reads only the ratings of the group's own members. */
  lemma QualityReadsOnlyMembers(c: seq<PlayerId>, e1: map<PlayerId, Rating>, e2: map<PlayerId, Rating>, sqrt: real -> real)
    requires IsSquareRoot(sqrt) && AgreeOn(c, e1, e2)
    ensures Quality(c, e1, sqrt) == Quality(c, e2, sqrt)
  {
    SameRatings(c, e1, e2);
  }

  lemma {:induction false} SameRatings(c: seq<PlayerId>, e1: map<PlayerId, Rating>, e2: map<PlayerId, Rating>)
    requires AgreeOn(c, e1, e2)
    ensures RatingsOf(c, e1) == RatingsOf(c, e2)
  {
    if c != [] {
      assert AgreeOn(c[1..], e1, e2) by {
        forall i | 0 <= i < |c| - 1 ensures c[1..][i] == c[i + 1] { }
      }
      SameRatings(c[1..], e1, e2);
    }
  }

  // ---------------------------------------------------------------------------
  // The greedy loop of matchmake, on values
  // ---------------------------------------------------------------------------

  /** The players of the groups picked so far. */
  function Used(chosen: seq<seq<PlayerId>>): set<PlayerId>
  {
    if chosen == [] then {} else Used(chosen[..|chosen| - 1]) + Elems(chosen[|chosen| - 1])
  }

  /** xs without the members of s, order kept. */
  function Without(xs: seq<PlayerId>, s: set<PlayerId>): (r: seq<PlayerId>)
    ensures forall p :: p in r <==> p in xs && p !in s
    ensures Distinct(xs) ==> Distinct(r)
  {
    if xs == [] then []
    else if xs[0] in s then Without(xs[1..], s)
    else [xs[0]] + Without(xs[1..], s)
  }

  /** list.remove: drops the first occurrence of x, which must be there. */
  function RemoveFirst(xs: seq<PlayerId>, x: PlayerId): (r: seq<PlayerId>)
    requires x in xs
    ensures |r| == |xs| - 1
    ensures multiset(r) == multiset(xs) - multiset{x}
  {
    assert xs == [xs[0]] + xs[1..];
    if xs[0] == x then xs[1..] else [xs[0]] + RemoveFirst(xs[1..], x)
  }

  lemma {:induction false} RemoveFromWithout(xs: seq<PlayerId>, s: set<PlayerId>, x: PlayerId)
    requires Distinct(xs) && x in xs && x !in s
    ensures x in Without(xs, s)
    ensures RemoveFirst(Without(xs, s), x) == Without(xs, s + {x})
  {
    assert Distinct(xs[1..]);
    if xs[0] != x {
      RemoveFromWithout(xs[1..], s, x);
    } else {
      assert x !in xs[1..];
      WithoutAbsent(xs[1..], s, x);
    }
  }

  lemma {:induction false} WithoutNothing(xs: seq<PlayerId>)
    ensures Without(xs, {}) == xs
  {
    if xs != [] {
      WithoutNothing(xs[1..]);
    }
  }

  lemma {:induction false} WithoutAbsent(xs: seq<PlayerId>, s: set<PlayerId>, x: PlayerId)
    requires x !in xs
    ensures Without(xs, s + {x}) == Without(xs, s)
  {
    if xs != [] {
      WithoutAbsent(xs[1..], s, x);
    }
  }

  /** any(player in match for player in best_match) */
  predicate SharesPlayer(c: seq<PlayerId>, best: seq<PlayerId>)
  {
    exists j :: 0 <= j < |best| && best[j] in c
  }

  lemma SharesPlayerIff(c: seq<PlayerId>, best: seq<PlayerId>)
    ensures SharesPlayer(c, best) <==> !(Elems(c) !! Elems(best))
  {
    if SharesPlayer(c, best) {
      var j :| 0 <= j < |best| && best[j] in c;
      assert best[j] in Elems(c) * Elems(best);
    }
    if !SharesPlayer(c, best) {
      assert forall p :: p in Elems(c) ==> p !in Elems(best);
    }
  }

  lemma {:induction false} MaxExists(m: map<seq<PlayerId>, real>) returns (b: seq<PlayerId>)
    requires |m| > 0
    ensures b in m && forall c :: c in m ==> m[c] <= m[b]
    decreases |m|
  {
    var k :| k in m;
    var m' := m - {k};
    if |m'| == 0 {
      assert forall c :: c in m ==> c == k;
      b := k;
    } else {
      var b' := MaxExists(m');
      b := if m[k] <= m[b'] then b' else k;
      forall c | c in m
        ensures m[c] <= m[b]
      {
        if c != k {
          assert c in m';
        }
      }
    }
  }

  /** The inner loop over set(match_to_score.keys()): discard every group that shares a player with best. */
  method DropOverlapping(scores: map<seq<PlayerId>, real>, best: seq<PlayerId>) returns (kept: map<seq<PlayerId>, real>)
    ensures kept.Keys <= scores.Keys
    ensures forall c :: c in scores ==> (c in kept <==> Elems(c) !! Elems(best))
    ensures forall c :: c in kept ==> kept[c] == scores[c]
  {
    kept := scores;
    var pending := scores.Keys;
    while pending != {}
      invariant pending <= scores.Keys && kept.Keys <= scores.Keys
      invariant forall c :: c in scores ==> (c in kept <==> c in pending || Elems(c) !! Elems(best))
      invariant forall c :: c in kept ==> kept[c] == scores[c]
      decreases pending
    {
      var c :| c in pending;
      SharesPlayerIff(c, best);
      if SharesPlayer(c, best) {
        kept := kept - {c};
      }
      pending := pending - {c};
    }
  }

  /** for player in best_match: category_players.remove(player) */
  method RemovePlayers(rest: seq<PlayerId>, ghost pool: seq<PlayerId>, ghost used: set<PlayerId>, best: seq<PlayerId>)
    returns (rest': seq<PlayerId>)
    requires Distinct(pool) && Distinct(best) && Elems(best) <= Elems(pool) && Elems(best) !! used
    requires rest == Without(pool, used)
    ensures rest' == Without(pool, used + Elems(best))
  {
    rest' := rest;
    assert used + Elems(best[..0]) == used;
    for j := 0 to |best|
      invariant rest' == Without(pool, used + Elems(best[..j]))
    {
      RemoveStep(pool, used, best, j);
      rest' := RemoveFirst(rest', best[j]);
    }
    assert best[..|best|] == best;
  }

  lemma RemoveStep(pool: seq<PlayerId>, used: set<PlayerId>, best: seq<PlayerId>, j: nat)
    requires Distinct(pool) && Distinct(best) && Elems(best) <= Elems(pool) && Elems(best) !! used
    requires j < |best|
    ensures best[j] in Without(pool, used + Elems(best[..j]))
    ensures RemoveFirst(Without(pool, used + Elems(best[..j])), best[j]) == Without(pool, used + Elems(best[..j + 1]))
  {
    var before := used + Elems(best[..j]);
    assert best[j] !in Elems(best[..j]);
    assert best[j] in Elems(best);
    RemoveFromWithout(pool, before, best[j]);
    ElemsStep(best, j);
    assert before + {best[j]} == used + Elems(best[..j + 1]);
  }

  lemma ElemsStep(xs: seq<PlayerId>, j: nat)
    requires j < |xs|
    ensures Elems(xs[..j + 1]) == Elems(xs[..j]) + {xs[j]}
  {
    assert xs[..j + 1] == xs[..j] + [xs[j]];
  }

  /** What the picks made so far promise. */
  ghost predicate Picks(scores: map<seq<PlayerId>, real>, chosen: seq<seq<PlayerId>>)
  {
    && (forall k :: 0 <= k < |chosen| ==> chosen[k] in scores)
    && (forall k :: 0 <= k < |chosen| ==> Elems(chosen[k]) !! Used(chosen[..k]))
    && (forall k, c :: 0 <= k < |chosen| && c in scores && Elems(c) !! Used(chosen[..k]) ==> scores[c] <= scores[chosen[k]])
  }

  /** The groups still on offer are exactly those that avoid the used players. */
  ghost predicate Remaining(scores: map<seq<PlayerId>, real>, remaining: map<seq<PlayerId>, real>, used: set<PlayerId>)
  {
    && remaining.Keys <= scores.Keys
    && (forall c :: c in scores ==> (c in remaining <==> Elems(c) !! used))
    && (forall c :: c in remaining ==> remaining[c] == scores[c])
  }

  lemma PickStep(scores: map<seq<PlayerId>, real>, chosen: seq<seq<PlayerId>>, remaining: map<seq<PlayerId>, real>, best: seq<PlayerId>)
    requires Picks(scores, chosen) && Remaining(scores, remaining, Used(chosen))
    requires best in remaining && forall c :: c in remaining ==> remaining[c] <= remaining[best]
    ensures Picks(scores, chosen + [best])
    ensures Used(chosen + [best]) == Used(chosen) + Elems(best)
  {
    var next := chosen + [best];
    assert next[..|next| - 1] == chosen;
    assert forall k :: 0 <= k < |chosen| ==> next[..k] == chosen[..k];
  }

  lemma RemainingStep(scores: map<seq<PlayerId>, real>, remaining: map<seq<PlayerId>, real>, used: set<PlayerId>,
                      best: seq<PlayerId>, kept: map<seq<PlayerId>, real>)
    requires Remaining(scores, remaining, used) && best in remaining && best != []
    requires kept.Keys <= (remaining - {best}).Keys
    requires forall c :: c in remaining - {best} ==> (c in kept <==> Elems(c) !! Elems(best))
    requires forall c :: c in kept ==> kept[c] == (remaining - {best})[c]
    ensures Remaining(scores, kept, used + Elems(best))
  {
    assert best[0] in Elems(best);
  }

  /**
   * The while loop of matchmake for one category: repeatedly take a group of
   * highest score, remove its players from the pool and discard every group
   * that shares a player with it. The picks are pairwise disjoint, each pick
   * scores at least as high as every group still available when it was taken,
   * and every candidate shares a player with some pick.
   */
  method SelectMatches(scores: map<seq<PlayerId>, real>, pool: seq<PlayerId>)
    returns (chosen: seq<seq<PlayerId>>, rest: seq<PlayerId>)
    requires Distinct(pool)
    requires forall c :: c in scores ==> c != [] && Distinct(c) && Elems(c) <= Elems(pool)
    ensures forall k :: 0 <= k < |chosen| ==> chosen[k] in scores
    ensures forall k :: 0 <= k < |chosen| ==> Elems(chosen[k]) !! Used(chosen[..k])
    ensures forall k, c :: 0 <= k < |chosen| && c in scores && Elems(c) !! Used(chosen[..k]) ==> scores[c] <= scores[chosen[k]]
    ensures forall c :: c in scores ==> !(Elems(c) !! Used(chosen))
    ensures rest == Without(pool, Used(chosen))
  {
    chosen := [];
    rest := pool;
    WithoutNothing(pool);
    var remaining := scores;
    while |remaining| > 0
      invariant Picks(scores, chosen) && Remaining(scores, remaining, Used(chosen))
      invariant rest == Without(pool, Used(chosen))
      decreases |remaining|
    {
      var best;
      best, remaining, rest := PickBest(scores, pool, chosen, remaining, rest);
      chosen := chosen + [best];
    }
  }

  /**
   * One turn of the greedy loop: take a group of highest score, remove its
   * players from the pool and discard the groups that overlap it.
   */
  method PickBest(scores: map<seq<PlayerId>, real>, pool: seq<PlayerId>, ghost chosen: seq<seq<PlayerId>>,
                  remaining: map<seq<PlayerId>, real>, rest: seq<PlayerId>)
    returns (best: seq<PlayerId>, kept: map<seq<PlayerId>, real>, rest': seq<PlayerId>)
    requires Distinct(pool)
    requires forall c :: c in scores ==> c != [] && Distinct(c) && Elems(c) <= Elems(pool)
    requires Picks(scores, chosen) && Remaining(scores, remaining, Used(chosen))
    requires rest == Without(pool, Used(chosen))
    requires |remaining| > 0
    ensures best in remaining && forall c :: c in remaining ==> remaining[c] <= remaining[best]
    ensures Picks(scores, chosen + [best]) && Remaining(scores, kept, Used(chosen + [best]))
    ensures rest' == Without(pool, Used(chosen + [best]))
    ensures |kept| < |remaining|
  {
    ghost var top := MaxExists(remaining);
    best :| best in remaining && forall c :: c in remaining ==> remaining[c] <= remaining[best];
    rest' := RemovePlayers(rest, pool, Used(chosen), best);
    kept := DropOverlapping(remaining - {best}, best);
    RemainingStep(scores, remaining, Used(chosen), best, kept);
    PickStep(scores, chosen, remaining, best);
    FewerGroups(remaining, best, kept);
  }

  /** Popping the pick and dropping groups strictly shrinks match_to_score: the loop terminates. */
  lemma FewerGroups(remaining: map<seq<PlayerId>, real>, best: seq<PlayerId>, kept: map<seq<PlayerId>, real>)
    requires best in remaining && kept.Keys <= (remaining - {best}).Keys
    ensures |kept| < |remaining|
  {
    assert (remaining - {best}).Keys == remaining.Keys - {best};
    SubsetSize(kept.Keys, remaining.Keys - {best});
    assert |kept| == |kept.Keys| && |remaining| == |remaining.Keys|;
  }

  // ---------------------------------------------------------------------------
  // Committing the picks: one create_match call per group, one player per team
  // ---------------------------------------------------------------------------

  /** teams = [[player] for player in best_match] */
  function Singletons(c: seq<PlayerId>): (teams: seq<seq<PlayerId>>)
    ensures |teams| == |c| && forall i :: 0 <= i < |c| ==> teams[i] == [c[i]]
  {
    seq(|c|, i requires 0 <= i < |c| => [c[i]])
  }

  lemma SingletonMembers(c: seq<PlayerId>)
    ensures MatchCreation.Members(Singletons(c)) == Elems(c)
  {
    var teams := Singletons(c);
    forall p | p in Elems(c) ensures p in MatchCreation.Members(teams) {
      var i :| 0 <= i < |c| && c[i] == p;
      assert teams[i][0] == p;
    }
  }

  /** Everyone in the matches, match by match. */
  function AllPlayers(ms: seq<Match>): seq<PlayerId>
  {
    if ms == [] then [] else AllPlayers(ms[..|ms| - 1]) + MatchPlayers(ms[|ms| - 1])
  }

  /** The picks, concatenated. */
  function Flat(chosen: seq<seq<PlayerId>>): seq<PlayerId>
  {
    if chosen == [] then [] else Flat(chosen[..|chosen| - 1]) + chosen[|chosen| - 1]
  }

  lemma {:induction false} SingletonTeamsPlayers(teams: seq<Team>, c: seq<PlayerId>)
    requires |teams| == |c|
    requires forall i :: 0 <= i < |c| ==> |teams[i].members| == 1 && teams[i].members[0].player == c[i]
    ensures TeamsPlayers(teams) == c
  {
    if c != [] {
      SingletonTeamsPlayers(teams[1..], c[1..]);
      assert PlayersOf(teams[0].members) == [c[0]];
    }
  }

  lemma {:induction false} AllPlayersAppend(a: seq<Match>, b: seq<Match>)
    ensures AllPlayers(a + b) == AllPlayers(a) + AllPlayers(b)
    decreases |b|
  {
    if b != [] {
      var b' := b[..|b| - 1];
      assert (a + b)[..|a + b| - 1] == a + b';
      assert (a + b)[|a + b| - 1] == b[|b| - 1];
      AllPlayersAppend(a, b');
      assert AllPlayers(a + b) == AllPlayers(a + b') + MatchPlayers(b[|b| - 1]);
      assert AllPlayers(b) == AllPlayers(b') + MatchPlayers(b[|b| - 1]);
    } else {
      assert a + b == a;
    }
  }

  lemma DistinctConcat(a: seq<PlayerId>, b: seq<PlayerId>)
    requires Distinct(a) && Distinct(b) && Elems(a) !! Elems(b)
    ensures Distinct(a + b)
  {
    forall i, j | 0 <= i < j < |a + b| ensures (a + b)[i] != (a + b)[j] {
      if i < |a| && j >= |a| {
        assert (a + b)[i] in Elems(a);
        assert (a + b)[j] in Elems(b);
      }
    }
  }

  /** Disjoint distinct picks concatenate to a list without repetitions. */
  lemma {:induction false} FlatDistinct(chosen: seq<seq<PlayerId>>)
    requires forall k :: 0 <= k < |chosen| ==> Distinct(chosen[k]) && Elems(chosen[k]) !! Used(chosen[..k])
    ensures Distinct(Flat(chosen)) && Elems(Flat(chosen)) == Used(chosen)
  {
    if chosen != [] {
      var n := |chosen| - 1;
      var init := chosen[..n];
      assert forall k :: 0 <= k < n ==> init[..k] == chosen[..k];
      FlatDistinct(init);
      assert chosen[..n] == init;
      DistinctConcat(Flat(init), chosen[n]);
      assert Elems(Flat(init) + chosen[n]) == Elems(Flat(init)) + Elems(chosen[n]);
    }
  }

  /** A match as the matchmaker creates it for the group c: one player per team, in group order, lettered A, B, C, ... */
  predicate CreatedFor(m: Match, c: seq<PlayerId>, game: GameId, initial: Status)
  {
    && MatchPlayers(m) == c && |m.teams| == |c| && |c| <= |MatchCreation.TeamLetters|
    && m.game == game && m.status == initial && m.finishedAt == None
    && (forall i :: 0 <= i < |m.teams| ==> m.teams[i].teamNum == MatchCreation.TeamLetters[i])
    && forall t :: t in m.teams ==> |t.members| == 1
  }

  /** Every team-player of m carries its player's rating for the match's game, as elos holds it. */
  predicate Snapshots(m: Match, elos: map<(PlayerId, GameId), Rating>)
  {
    forall i, j :: 0 <= i < |m.teams| && 0 <= j < |m.teams[i].members| ==>
      (m.teams[i].members[j].player, m.game) in elos &&
      m.teams[i].members[j] == MatchCreation.Snapshot(m.teams[i].members[j].player, elos[(m.teams[i].members[j].player, m.game)])
  }

  /** Ratings are only ever added, so a snapshot stays the rating its player holds. */
  lemma SnapshotsKept(ms: seq<Match>, elos: map<(PlayerId, GameId), Rating>, elos': map<(PlayerId, GameId), Rating>)
    requires forall k :: k in elos ==> k in elos' && elos'[k] == elos[k]
    requires forall m :: m in ms ==> Snapshots(m, elos)
    ensures forall m :: m in ms ==> Snapshots(m, elos')
  {
  }

  lemma CreatedForSingletons(m: Match, c: seq<PlayerId>, game: GameId, initial: Status, elos: map<(PlayerId, GameId), Rating>)
    requires m.game == game && m.status == initial && m.finishedAt == None && |m.teams| == |c| <= |MatchCreation.TeamLetters|
    requires forall i :: 0 <= i < |c| ==>
      m.teams[i].teamNum == MatchCreation.TeamLetters[i] && |m.teams[i].members| == |Singletons(c)[i]|
    requires forall i, j :: 0 <= i < |c| && 0 <= j < |Singletons(c)[i]| ==>
      (Singletons(c)[i][j], game) in elos &&
      m.teams[i].members[j] == MatchCreation.Snapshot(Singletons(c)[i][j], elos[(Singletons(c)[i][j], game)])
    ensures CreatedFor(m, c, game, initial)
    ensures Snapshots(m, elos)
  {
    forall i | 0 <= i < |c| ensures |m.teams[i].members| == 1 && m.teams[i].members[0].player == c[i] {
      assert Singletons(c)[i][0] == c[i];
    }
    SingletonTeamsPlayers(m.teams, c);
  }

  lemma PrefixStep(chosen: seq<seq<PlayerId>>, k: nat)
    requires k < |chosen|
    ensures Used(chosen[..k + 1]) == Used(chosen[..k]) + Elems(chosen[k])
    ensures Flat(chosen[..k + 1]) == Flat(chosen[..k]) + chosen[k]
  {
    assert chosen[..k + 1][..k] == chosen[..k];
  }

  lemma AllPlayersStep(ms: seq<Match>, m: Match)
    ensures AllPlayers(ms + [m]) == AllPlayers(ms) + MatchPlayers(m)
  {
    assert (ms + [m])[..|ms|] == ms;
  }

  /** The inner part of the greedy loop that writes: create each picked match in turn. */
  method CommitMatches(db: Store, chosen: seq<seq<PlayerId>>, game: GameId, initial: Status) returns (created: seq<Match>)
    requires forall k :: 0 <= k < |chosen| ==> |chosen[k]| <= MaxMatchSize && Elems(chosen[k]) <= db.players.Keys
    modifies db
    ensures |created| == |chosen|
    ensures forall k :: 0 <= k < |chosen| ==> CreatedFor(created[k], chosen[k], game, initial)
    ensures AllPlayers(created) == Flat(chosen)
    ensures forall m :: m in created ==> Snapshots(m, db.elos)
    ensures db.players == MatchCreation.Dequeued(old(db.players), Used(chosen))
    ensures db.elos == MatchCreation.WithStartingRatings(old(db.elos), Used(chosen), game)
    ensures db.matches == old(db.matches) + created
    ensures db.ratingUpdates == old(db.ratingUpdates)
  {
    created := [];
    for k := 0 to |chosen|
      invariant CommittedUpTo(chosen, k, game, initial, created, db.players, db.elos, old(db.players), old(db.elos))
      invariant db.matches == old(db.matches) + created
      invariant db.ratingUpdates == old(db.ratingUpdates)
    {
      var m := CommitOne(db, chosen, k, game, initial, old(db.players), old(db.elos), created);
      created := created + [m];
    }
    assert chosen[..|chosen|] == chosen;
  }

  /** The commit loop's invariant: the first k picks are created, in order, and their players dequeued and rated. */
  ghost predicate CommittedUpTo(chosen: seq<seq<PlayerId>>, k: nat, game: GameId, initial: Status, created: seq<Match>,
                                players: map<PlayerId, Player>, elos: map<(PlayerId, GameId), Rating>,
                                players0: map<PlayerId, Player>, elos0: map<(PlayerId, GameId), Rating>)
  {
    && k <= |chosen| && |created| == k
    && (forall i :: 0 <= i < k ==> CreatedFor(created[i], chosen[i], game, initial))
    && AllPlayers(created) == Flat(chosen[..k])
    && (forall m :: m in created ==> Snapshots(m, elos))
    && players == MatchCreation.Dequeued(players0, Used(chosen[..k]))
    && elos == MatchCreation.WithStartingRatings(elos0, Used(chosen[..k]), game)
  }

  /** One turn of the commit loop: create the match for chosen[k]. */
  method CommitOne(db: Store, chosen: seq<seq<PlayerId>>, k: nat, game: GameId, initial: Status,
                   ghost players0: map<PlayerId, Player>, ghost elos0: map<(PlayerId, GameId), Rating>, ghost created: seq<Match>)
    returns (m: Match)
    requires k < |chosen| && |chosen[k]| <= MaxMatchSize && Elems(chosen[k]) <= players0.Keys
    requires CommittedUpTo(chosen, k, game, initial, created, db.players, db.elos, players0, elos0)
    modifies db
    ensures CreatedFor(m, chosen[k], game, initial)
    ensures CommittedUpTo(chosen, k + 1, game, initial, created + [m], db.players, db.elos, players0, elos0)
    ensures db.matches == old(db.matches) + [m]
    ensures db.ratingUpdates == old(db.ratingUpdates)
  {
    var c := chosen[k];
    assert db.players.Keys == players0.Keys;
    SingletonMembers(c);
    ghost var elos := db.elos;
    m := MatchCreation.CreateMatch(db, Singletons(c), game, initial);
    CreatedForSingletons(m, c, game, initial, db.elos);
    MatchCreation.StartingRatingsGrow(elos, Elems(c), game);
    SnapshotsKept(created, elos, db.elos);
    PrefixStep(chosen, k);
    MatchCreation.DequeuedTwice(players0, Used(chosen[..k]), Elems(c));
    MatchCreation.StartingRatingsTwice(elos0, Used(chosen[..k]), Elems(c), game);
    AllPlayersStep(created, m);
    assert forall i :: 0 <= i < k ==> (created + [m])[i] == created[i];
  }

  // ---------------------------------------------------------------------------
  // One category, then all of them
  // ---------------------------------------------------------------------------

  /** The queued players who queue for the category. */
  function QueuedFor(players: map<PlayerId, Player>, cat: CategoryId): set<PlayerId>
  {
    set p | p in players && players[p].inQueue && cat in players[p].queuesFor
  }

  /** players.filter(queues_for=category), in the order given. */
  function CategoryPool(order: seq<PlayerId>, players: map<PlayerId, Player>, cat: CategoryId): (pool: seq<PlayerId>)
    ensures forall p :: p in pool <==> p in order && p in QueuedFor(players, cat)
    ensures Distinct(order) ==> Distinct(pool)
  {
    if order == [] then []
    else
      var p := order[0];
      var rest := CategoryPool(order[1..], players, cat);
      assert Distinct(order) ==> Distinct(order[1..]) && p !in order[1..];
      if p in players && players[p].inQueue && cat in players[p].queuesFor then [p] + rest else rest
  }

  /** With an order listing every player, the pool is the category's whole queue. */
  lemma PoolIsQueue(order: seq<PlayerId>, players: map<PlayerId, Player>, cat: CategoryId)
    requires Distinct(order) && players.Keys <= Elems(order)
    ensures Distinct(CategoryPool(order, players, cat))
    ensures Elems(CategoryPool(order, players, cat)) == QueuedFor(players, cat)
  {
  }

  /** The ratings the pool's members hold for the game (the elos set of matchmake). */
  function PoolRatings(pool: seq<PlayerId>, elos: map<(PlayerId, GameId), Rating>, game: GameId): (r: map<PlayerId, Rating>)
    ensures forall p :: p in r <==> p in pool && (p, game) in elos
    ensures forall p :: p in r ==> r[p] == elos[(p, game)]
  {
    map p | p in pool && (p, game) in elos :: elos[(p, game)]
  }

  /** Taking players out of the queue only shrinks a category's queue. */
  lemma QueuedForDequeued(players: map<PlayerId, Player>, s: set<PlayerId>, cat: CategoryId)
    ensures QueuedFor(MatchCreation.Dequeued(players, s), cat) == QueuedFor(players, cat) - s
    ensures Queued(MatchCreation.Dequeued(players, s)) == Queued(players) - s
  {
  }

  lemma DequeuedNothing(players: map<PlayerId, Player>)
    ensures MatchCreation.Dequeued(players, {}) == players
  {
  }

  /**
   * Once every candidate shares a player with a pick, at most one player of
   * the pool is left over: two left-over players would form a candidate pair.
   */
  lemma AtMostOneLeft(pool: seq<PlayerId>, chosen: seq<seq<PlayerId>>)
    requires Distinct(pool)
    requires forall c :: c in Candidates(pool) ==> !(Elems(c) !! Used(chosen))
    ensures |Elems(pool) - Used(chosen)| <= 1
  {
    var left := Elems(pool) - Used(chosen);
    if |left| >= 2 {
      assert left != {};
      var a := MemberOf(pool, left);
      assert |left - {a}| == |left| - 1;
      assert left - {a} != {};
      var b := MemberOf(pool, left - {a});
      var c := EveryGroupIsACandidate(pool, {a, b});
      assert false;
    }
  }

  /** Some member of a non-empty set of pool players. */
  lemma {:induction false} MemberOf(pool: seq<PlayerId>, s: set<PlayerId>) returns (x: PlayerId)
    requires s <= Elems(pool) && s != {}
    ensures x in s
    decreases |pool|
  {
    if pool == [] {
      assert false;
    } else if pool[0] in s {
      x := pool[0];
    } else {
      assert s <= Elems(pool[1..]);
      x := MemberOf(pool[1..], s);
    }
  }

  lemma {:induction false} PlayersInAllPlayers(ms: seq<Match>, k: nat)
    requires k < |ms|
    ensures Elems(MatchPlayers(ms[k])) <= Elems(AllPlayers(ms))
    decreases |ms|
  {
    var n := |ms| - 1;
    var init, last := AllPlayers(ms[..n]), MatchPlayers(ms[n]);
    assert AllPlayers(ms) == init + last;
    assert Elems(init + last) == Elems(init) + Elems(last);
    if k < n {
      assert ms[..n][k] == ms[k];
      PlayersInAllPlayers(ms[..n], k);
    }
  }

  /** A match the matchmaker creates: 2 to 8 teams of one player each, lettered in order, not yet finished. */
  predicate Shaped(m: Match, initial: Status)
  {
    && MinMatchSize <= |m.teams| <= MaxMatchSize
    && m.status == initial && m.finishedAt == None
    && (forall i :: 0 <= i < |m.teams| ==> m.teams[i].teamNum == MatchCreation.TeamLetters[i])
    && forall t :: t in m.teams ==> |t.members| == 1
  }

  /** match_to_score: every candidate with its score. */
  function Scores(pool: seq<PlayerId>, ratings: map<PlayerId, Rating>, sqrt: real -> real): (scores: map<seq<PlayerId>, real>)
    requires IsSquareRoot(sqrt) && Distinct(pool)
    ensures scores.Keys == Candidates(pool)
    ensures forall c :: c in scores ==> c != [] && Distinct(c) && Elems(c) <= Elems(pool)
    ensures forall c :: c in scores ==> scores[c] == Quality(c, ratings, sqrt)
  {
    var scores := map c | c in Candidates(pool) :: Quality(c, ratings, sqrt);
    forall c | c in scores
      ensures c != [] && Distinct(c) && Elems(c) <= Elems(pool)
    {
      CandidatesAreGroups(pool, c);
    }
    scores
  }

  /** The players of each match, match by match. */
  function Picked(ms: seq<Match>): (picks: seq<seq<PlayerId>>)
    ensures |picks| == |ms| && forall k :: 0 <= k < |ms| ==> picks[k] == MatchPlayers(ms[k])
  {
    seq(|ms|, k requires 0 <= k < |ms| => MatchPlayers(ms[k]))
  }

  /**
   * The greedy choice of matchmake, stated on its picks: every pick is a
   * candidate, scores at least as high as every candidate that avoids the
   * players of the earlier picks (the `max` of the loop), and once the loop
   * ends every candidate shares a player with some pick.
   */
  ghost predicate Greedy(picks: seq<seq<PlayerId>>, pool: seq<PlayerId>, ratings: map<PlayerId, Rating>, sqrt: real -> real)
  {
    && IsSquareRoot(sqrt)
    && (forall k :: 0 <= k < |picks| ==> picks[k] in Candidates(pool))
    && (forall k, c :: 0 <= k < |picks| && c in Candidates(pool) && Elems(c) !! Used(picks[..k]) ==>
          Quality(c, ratings, sqrt) <= Quality(picks[k], ratings, sqrt))
    && (forall c :: c in Candidates(pool) ==> !(Elems(c) !! Used(picks)))
  }

  /** Picks that are greedy on match_to_score are greedy on the candidates' quality. */
  lemma GreedyByScores(scores: map<seq<PlayerId>, real>, pool: seq<PlayerId>, ratings: map<PlayerId, Rating>,
                       sqrt: real -> real, chosen: seq<seq<PlayerId>>)
    requires IsSquareRoot(sqrt)
    requires scores.Keys == Candidates(pool) && forall c :: c in scores ==> scores[c] == Quality(c, ratings, sqrt)
    requires forall k :: 0 <= k < |chosen| ==> chosen[k] in scores
    requires forall k, c :: 0 <= k < |chosen| && c in scores && Elems(c) !! Used(chosen[..k]) ==> scores[c] <= scores[chosen[k]]
    requires forall c :: c in scores ==> !(Elems(c) !! Used(chosen))
    ensures Greedy(chosen, pool, ratings, sqrt)
  {
  }

  lemma PicksAreGroups(pool: seq<PlayerId>, chosen: seq<seq<PlayerId>>)
    requires Distinct(pool) && forall k :: 0 <= k < |chosen| ==> chosen[k] in Candidates(pool)
    ensures forall k :: 0 <= k < |chosen| ==>
      MinMatchSize <= |chosen[k]| <= MaxMatchSize && Distinct(chosen[k]) && Elems(chosen[k]) <= Elems(pool)
  {
    forall k | 0 <= k < |chosen|
      ensures MinMatchSize <= |chosen[k]| <= MaxMatchSize && Distinct(chosen[k]) && Elems(chosen[k]) <= Elems(pool)
    {
      CandidatesAreGroups(pool, chosen[k]);
    }
  }

  /**
   * The part of the category step that only reads: the pool, the scores of
   * its candidates and the greedy picks. The picks are candidates, pairwise
   * disjoint, each a best-scoring remaining candidate, and leave at most one
   * pool player over.
   */
  method PlanCategory(players: map<PlayerId, Player>, elos: map<(PlayerId, GameId), Rating>, cat: Category,
                      order: seq<PlayerId>, sqrt: real -> real)
    returns (pool: seq<PlayerId>, chosen: seq<seq<PlayerId>>)
    requires IsSquareRoot(sqrt) && Distinct(order) && players.Keys <= Elems(order)
    ensures pool == CategoryPool(order, players, cat.id)
    ensures Distinct(pool) && Elems(pool) == QueuedFor(players, cat.id)
    ensures Greedy(chosen, pool, PoolRatings(pool, elos, cat.game), sqrt)
    ensures forall k :: 0 <= k < |chosen| ==>
      MinMatchSize <= |chosen[k]| <= MaxMatchSize && Distinct(chosen[k]) && Elems(chosen[k]) <= Elems(pool)
    ensures forall k :: 0 <= k < |chosen| ==> Elems(chosen[k]) !! Used(chosen[..k])
    ensures |Elems(pool) - Used(chosen)| <= 1
  {
    pool := CategoryPool(order, players, cat.id);
    PoolIsQueue(order, players, cat.id);
    if |pool| < MinMatchSize {
      DistinctElems(pool);
      NoCandidatesBelowTwo(pool);
      return pool, [];
    }
    var scores := Scores(pool, PoolRatings(pool, elos, cat.game), sqrt);
    var rest;
    chosen, rest := SelectMatches(scores, pool);
    GreedyByScores(scores, pool, PoolRatings(pool, elos, cat.game), sqrt, chosen);
    PicksAreGroups(pool, chosen);
    AtMostOneLeft(pool, chosen);
  }

  /**
   * The body of `for category in categories`: pool the category's queued
   * players, score every candidate, pick greedily and create the picks. Every
   * player of a created match was queued for the category, no player is in
   * two matches, and at most one player of the category is left queueing.
   */
  method MatchCategory(db: Store, cat: Category, order: seq<PlayerId>, sqrt: real -> real, initial: Status)
    returns (created: seq<Match>)
    requires IsSquareRoot(sqrt) && Distinct(order) && db.players.Keys <= Elems(order)
    modifies db
    ensures db.players == MatchCreation.Dequeued(old(db.players), Elems(AllPlayers(created)))
    ensures db.elos == MatchCreation.WithStartingRatings(old(db.elos), Elems(AllPlayers(created)), cat.game)
    ensures db.matches == old(db.matches) + created
    ensures db.ratingUpdates == old(db.ratingUpdates)
    ensures Distinct(AllPlayers(created))
    ensures Elems(AllPlayers(created)) <= QueuedFor(old(db.players), cat.id)
    ensures forall m :: m in created ==> Shaped(m, initial) && m.game == cat.game && Snapshots(m, db.elos)
    ensures |QueuedFor(db.players, cat.id)| <= 1
    ensures GreedyTurn(created, cat, order, old(db.players), old(db.elos), sqrt)
  {
    var pool, chosen := PlanCategory(db.players, db.elos, cat, order, sqrt);
    created := CommitMatches(db, chosen, cat.game, initial);
    assert Picked(created) == chosen;
    FlatDistinct(chosen);
    UsedWithin(chosen, Elems(pool));
    QueuedForDequeued(old(db.players), Used(chosen), cat.id);
    CreatedAreShaped(chosen, created, cat.game, initial);
  }

  /**
   * Category cat's turn was greedy: its matches' players are greedy picks
   * among the candidates of the category's pool, scored with the ratings the
   * store held when the turn began.
   */
  ghost predicate GreedyTurn(created: seq<Match>, cat: Category, order: seq<PlayerId>,
                             players: map<PlayerId, Player>, elos: map<(PlayerId, GameId), Rating>, sqrt: real -> real)
  {
    var pool := CategoryPool(order, players, cat.id);
    Greedy(Picked(created), pool, PoolRatings(pool, elos, cat.game), sqrt)
  }

  /** The ratings table after the matches ms were created in turn, each adding its players' missing ratings for its game. */
  function StartingRatingsFor(elos: map<(PlayerId, GameId), Rating>, ms: seq<Match>): (r: map<(PlayerId, GameId), Rating>)
    ensures forall k :: k in elos ==> k in r && r[k] == elos[k]
    decreases |ms|
  {
    if ms == [] then elos
    else
      var n := |ms| - 1;
      var before := StartingRatingsFor(elos, ms[..n]);
      MatchCreation.StartingRatingsGrow(before, Elems(MatchPlayers(ms[n])), ms[n].game);
      MatchCreation.WithStartingRatings(before, Elems(MatchPlayers(ms[n])), ms[n].game)
  }

  /** Matches of one game add, in turn, what one create call for all their players would add. */
  lemma {:induction false} SameGameRatings(elos: map<(PlayerId, GameId), Rating>, ms: seq<Match>, game: GameId)
    requires forall m :: m in ms ==> m.game == game
    ensures StartingRatingsFor(elos, ms) == MatchCreation.WithStartingRatings(elos, Elems(AllPlayers(ms)), game)
    decreases |ms|
  {
    if ms == [] {
      MatchCreation.StartingRatingsNothing(elos, game);
    } else {
      var n := |ms| - 1;
      assert forall m :: m in ms[..n] ==> m in ms;
      SameGameRatings(elos, ms[..n], game);
      assert ms[n] in ms;
      MatchCreation.StartingRatingsTwice(elos, Elems(AllPlayers(ms[..n])), Elems(MatchPlayers(ms[n])), game);
      assert Elems(AllPlayers(ms)) == Elems(AllPlayers(ms[..n])) + Elems(MatchPlayers(ms[n])) by {
        assert AllPlayers(ms) == AllPlayers(ms[..n]) + MatchPlayers(ms[n]);
      }
    }
  }

  lemma {:induction false} StartingRatingsForAppend(elos: map<(PlayerId, GameId), Rating>, a: seq<Match>, b: seq<Match>)
    ensures StartingRatingsFor(elos, a + b) == StartingRatingsFor(StartingRatingsFor(elos, a), b)
    decreases |b|
  {
    if b == [] {
      assert a + b == a;
    } else {
      var n := |b| - 1;
      assert (a + b)[..|a + b| - 1] == a + b[..n];
      assert (a + b)[|a + b| - 1] == b[n];
      StartingRatingsForAppend(elos, a, b[..n]);
    }
  }

  /** The matches of the category turns, turn after turn. */
  function Concat(blocks: seq<seq<Match>>): seq<Match>
  {
    if blocks == [] then [] else Concat(blocks[..|blocks| - 1]) + blocks[|blocks| - 1]
  }

  /** The part of the store matchmake reads and writes: the players and the ratings. */
  datatype StoreState = StoreState(players: map<PlayerId, Player>, elos: map<(PlayerId, GameId), Rating>)

  /** The store after the matches ms were created from s: their players dequeued, their missing ratings added. */
  function AfterTurn(s: StoreState, ms: seq<Match>): StoreState
  {
    StoreState(MatchCreation.Dequeued(s.players, Elems(AllPlayers(ms))), StartingRatingsFor(s.elos, ms))
  }

  /**
   * starts[n] is the store turn n began from: the first turn began from
   * players0 and elos0, each later turn from what the turn before left, and
   * current is what the last turn left.
   */
  ghost predicate TurnsChain(starts: seq<StoreState>, blocks: seq<seq<Match>>,
                             players0: map<PlayerId, Player>, elos0: map<(PlayerId, GameId), Rating>, current: StoreState)
    decreases |starts|
  {
    && |starts| == |blocks|
    && if starts == [] then current == StoreState(players0, elos0)
       else
         var n := |starts| - 1;
         TurnsChain(starts[..n], blocks[..n], players0, elos0, starts[n]) && current == AfterTurn(starts[n], blocks[n])
  }

  /** Every turn of the loop over categories was greedy: turn n matched categories[n] in orders[n] from the store starts[n]. */
  ghost predicate GreedyTurns(blocks: seq<seq<Match>>, categories: seq<Category>, orders: seq<seq<PlayerId>>,
                              starts: seq<StoreState>, sqrt: real -> real)
  {
    && |blocks| == |starts| && |blocks| <= |categories| && |blocks| <= |orders|
    && forall n :: 0 <= n < |blocks| ==>
         GreedyTurn(blocks[n], categories[n], orders[n], starts[n].players, starts[n].elos, sqrt)
  }

  lemma TurnsStep(blocks: seq<seq<Match>>, added: seq<Match>, starts: seq<StoreState>, start: StoreState, current: StoreState,
                  categories: seq<Category>, orders: seq<seq<PlayerId>>,
                  players0: map<PlayerId, Player>, elos0: map<(PlayerId, GameId), Rating>, sqrt: real -> real)
    requires TurnsChain(starts, blocks, players0, elos0, start) && GreedyTurns(blocks, categories, orders, starts, sqrt)
    requires |blocks| < |categories| && |blocks| < |orders|
    requires GreedyTurn(added, categories[|blocks|], orders[|blocks|], start.players, start.elos, sqrt)
    requires current == AfterTurn(start, added)
    ensures TurnsChain(starts + [start], blocks + [added], players0, elos0, current)
    ensures GreedyTurns(blocks + [added], categories, orders, starts + [start], sqrt)
  {
    assert (starts + [start])[..|starts|] == starts;
    assert (blocks + [added])[..|blocks|] == blocks;
  }

  lemma {:induction false} UsedWithin(chosen: seq<seq<PlayerId>>, s: set<PlayerId>)
    requires forall k :: 0 <= k < |chosen| ==> Elems(chosen[k]) <= s
    ensures Used(chosen) <= s
  {
    if chosen != [] {
      var n := |chosen| - 1;
      assert forall k :: 0 <= k < n ==> chosen[..n][k] == chosen[k];
      UsedWithin(chosen[..n], s);
    }
  }

  lemma CreatedAreShaped(chosen: seq<seq<PlayerId>>, created: seq<Match>, game: GameId, initial: Status)
    requires |created| == |chosen|
    requires forall k :: 0 <= k < |chosen| ==> MinMatchSize <= |chosen[k]| <= MaxMatchSize
    requires forall k :: 0 <= k < |chosen| ==> CreatedFor(created[k], chosen[k], game, initial)
    ensures forall m :: m in created ==> Shaped(m, initial) && m.game == game
  {
    forall m | m in created
      ensures Shaped(m, initial) && m.game == game
    {
      var k :| 0 <= k < |created| && created[k] == m;
      assert CreatedFor(created[k], chosen[k], game, initial);
    }
  }

  /** Every player of a created match was queued for one of the categories, in the same game. */
  ghost predicate FromCategory(m: Match, categories: seq<Category>, players: map<PlayerId, Player>)
  {
    FromFirst(m, categories, |categories|, players)
  }

  /** ... one of the first n categories. */
  ghost predicate FromFirst(m: Match, categories: seq<Category>, n: nat, players: map<PlayerId, Player>)
  {
    exists i :: 0 <= i < n && i < |categories| && m.game == categories[i].game && Elems(MatchPlayers(m)) <= QueuedFor(players, categories[i].id)
  }

  lemma RunStep(players0: map<PlayerId, Player>, elos0: map<(PlayerId, GameId), Rating>,
                players: map<PlayerId, Player>, elos: map<(PlayerId, GameId), Rating>,
                players': map<PlayerId, Player>, elos': map<(PlayerId, GameId), Rating>,
                categories: seq<Category>, n: nat, created: seq<Match>, added: seq<Match>, initial: Status)
    requires n < |categories|
    requires players == MatchCreation.Dequeued(players0, Elems(AllPlayers(created)))
    requires elos == StartingRatingsFor(elos0, created)
    requires Distinct(AllPlayers(created))
    requires Elems(AllPlayers(created)) <= Queued(players0)
    requires forall m :: m in created ==> Shaped(m, initial) && FromFirst(m, categories, n, players0)
    requires forall i :: 0 <= i < n ==> |QueuedFor(players, categories[i].id)| <= 1
    requires players' == MatchCreation.Dequeued(players, Elems(AllPlayers(added)))
    requires elos' == MatchCreation.WithStartingRatings(elos, Elems(AllPlayers(added)), categories[n].game)
    requires Distinct(AllPlayers(added))
    requires Elems(AllPlayers(added)) <= QueuedFor(players, categories[n].id)
    requires forall m :: m in added ==> Shaped(m, initial) && m.game == categories[n].game
    requires |QueuedFor(players', categories[n].id)| <= 1
    ensures players' == MatchCreation.Dequeued(players0, Elems(AllPlayers(created + added)))
    ensures elos' == StartingRatingsFor(elos0, created + added)
    ensures Distinct(AllPlayers(created + added))
    ensures Elems(AllPlayers(created + added)) <= Queued(players0)
    ensures forall m :: m in created + added ==> Shaped(m, initial) && FromFirst(m, categories, n + 1, players0)
    ensures forall i :: 0 <= i < n + 1 ==> |QueuedFor(players', categories[i].id)| <= 1
  {
    var before, now := Elems(AllPlayers(created)), Elems(AllPlayers(added));
    AllPlayersUnion(created, added);
    RunStepPlayers(players0, players, players', before, now, categories[n].id);
    SameGameRatings(elos, added, categories[n].game);
    StartingRatingsForAppend(elos0, created, added);
    DistinctRun(created, added, QueuedFor(players, categories[n].id));
    QueueBoundsStep(players, players', categories, n, now);
    FromCategoryStep(players0, players, categories, n, created, added);
  }

  lemma AllPlayersUnion(a: seq<Match>, b: seq<Match>)
    ensures Elems(AllPlayers(a + b)) == Elems(AllPlayers(a)) + Elems(AllPlayers(b))
  {
    AllPlayersAppend(a, b);
    assert Elems(AllPlayers(a) + AllPlayers(b)) == Elems(AllPlayers(a)) + Elems(AllPlayers(b));
  }

  lemma RunStepPlayers(players0: map<PlayerId, Player>, players: map<PlayerId, Player>, players': map<PlayerId, Player>,
                       before: set<PlayerId>, now: set<PlayerId>, cat: CategoryId)
    requires players == MatchCreation.Dequeued(players0, before)
    requires players' == MatchCreation.Dequeued(players, now)
    requires now <= QueuedFor(players, cat)
    ensures players' == MatchCreation.Dequeued(players0, before + now)
    ensures now <= Queued(players0) && now !! before
    ensures QueuedFor(players, cat) <= QueuedFor(players0, cat)
  {
    QueuedForDequeued(players0, before, cat);
    MatchCreation.DequeuedTwice(players0, before, now);
  }

  lemma DistinctRun(created: seq<Match>, added: seq<Match>, pool: set<PlayerId>)
    requires Distinct(AllPlayers(created)) && Distinct(AllPlayers(added))
    requires Elems(AllPlayers(added)) !! Elems(AllPlayers(created))
    ensures Distinct(AllPlayers(created + added))
  {
    AllPlayersAppend(created, added);
    DistinctConcat(AllPlayers(created), AllPlayers(added));
  }

  lemma QueueBoundsStep(players: map<PlayerId, Player>, players': map<PlayerId, Player>,
                        categories: seq<Category>, n: nat, now: set<PlayerId>)
    requires n < |categories|
    requires players' == MatchCreation.Dequeued(players, now)
    requires forall i :: 0 <= i < n ==> |QueuedFor(players, categories[i].id)| <= 1
    requires |QueuedFor(players', categories[n].id)| <= 1
    ensures forall i :: 0 <= i < n + 1 ==> |QueuedFor(players', categories[i].id)| <= 1
  {
    forall i | 0 <= i < n
      ensures |QueuedFor(players', categories[i].id)| <= 1
    {
      QueuedForDequeued(players, now, categories[i].id);
      SubsetSize(QueuedFor(players', categories[i].id), QueuedFor(players, categories[i].id));
    }
  }

  lemma FromCategoryStep(players0: map<PlayerId, Player>, players: map<PlayerId, Player>,
                         categories: seq<Category>, n: nat, created: seq<Match>, added: seq<Match>)
    requires n < |categories|
    requires forall m :: m in created ==> FromFirst(m, categories, n, players0)
    requires QueuedFor(players, categories[n].id) <= QueuedFor(players0, categories[n].id)
    requires Elems(AllPlayers(added)) <= QueuedFor(players, categories[n].id)
    requires forall m :: m in added ==> m.game == categories[n].game
    ensures forall m :: m in created + added ==> FromFirst(m, categories, n + 1, players0)
  {
    forall m | m in created + added
      ensures FromFirst(m, categories, n + 1, players0)
    {
      if m in created {
        var i :| 0 <= i < n && i < |categories| && m.game == categories[i].game && Elems(MatchPlayers(m)) <= QueuedFor(players0, categories[i].id);
      } else {
        var k :| 0 <= k < |added| && added[k] == m;
        PlayersInAllPlayers(added, k);
      }
    }
  }

  /**
   * `for category in categories`, from the first category to the last.
   * blocks[n] are the matches created in the turn of categories[n].
   */
  method RunCategories(db: Store, categories: seq<Category>, orders: seq<seq<PlayerId>>, sqrt: real -> real, initial: Status)
    returns (created: seq<Match>, ghost blocks: seq<seq<Match>>, ghost starts: seq<StoreState>)
    requires IsSquareRoot(sqrt) && |orders| == |categories|
    requires forall i :: 0 <= i < |orders| ==> Distinct(orders[i]) && db.players.Keys <= Elems(orders[i])
    modifies db
    ensures forall i :: 0 <= i < |categories| ==> |QueuedFor(db.players, categories[i].id)| <= 1
    ensures db.players == MatchCreation.Dequeued(old(db.players), Elems(AllPlayers(created)))
    ensures db.elos == StartingRatingsFor(old(db.elos), created)
    ensures db.matches == old(db.matches) + created
    ensures db.ratingUpdates == old(db.ratingUpdates)
    ensures Distinct(AllPlayers(created))
    ensures Elems(AllPlayers(created)) <= Queued(old(db.players))
    ensures forall m :: m in created ==> Shaped(m, initial) && FromCategory(m, categories, old(db.players)) && Snapshots(m, db.elos)
    ensures |blocks| == |categories| && created == Concat(blocks)
    ensures TurnsChain(starts, blocks, old(db.players), old(db.elos), StoreState(db.players, db.elos))
    ensures GreedyTurns(blocks, categories, orders, starts, sqrt)
  {
    created := [];
    blocks, starts := [], [];
    ghost var players0, elos0 := db.players, db.elos;
    RanNothing(categories, orders, sqrt, initial, players0, elos0);
    for n := 0 to |categories|
      invariant RanUpTo(categories, orders, n, sqrt, initial, players0, elos0, created, blocks, db.players, db.elos)
      invariant TurnsChain(starts, blocks, players0, elos0, StoreState(db.players, db.elos))
      invariant GreedyTurns(blocks, categories, orders, starts, sqrt)
      invariant db.matches == old(db.matches) + created
      invariant db.ratingUpdates == old(db.ratingUpdates)
    {
      ghost var start := StoreState(db.players, db.elos);
      var added := CategoryRound(db, categories, orders, n, sqrt, initial, players0, elos0, old(db.matches), created, blocks, starts, start);
      created := created + added;
      blocks, starts := blocks + [added], starts + [start];
    }
    RanAll(categories, orders, sqrt, initial, players0, elos0, created, blocks, db.players, db.elos);
  }

  lemma RanNothing(categories: seq<Category>, orders: seq<seq<PlayerId>>, sqrt: real -> real, initial: Status,
                   players0: map<PlayerId, Player>, elos0: map<(PlayerId, GameId), Rating>)
    ensures RanUpTo(categories, orders, 0, sqrt, initial, players0, elos0, [], [], players0, elos0)
  {
    DequeuedNothing(players0);
    assert Elems(AllPlayers([])) == {};
  }

  /** After the last turn, the loop's invariant says what RunCategories promises. */
  lemma RanAll(categories: seq<Category>, orders: seq<seq<PlayerId>>, sqrt: real -> real, initial: Status,
               players0: map<PlayerId, Player>, elos0: map<(PlayerId, GameId), Rating>,
               created: seq<Match>, blocks: seq<seq<Match>>,
               players: map<PlayerId, Player>, elos: map<(PlayerId, GameId), Rating>)
    requires RanUpTo(categories, orders, |categories|, sqrt, initial, players0, elos0, created, blocks, players, elos)
    ensures forall i :: 0 <= i < |categories| ==> |QueuedFor(players, categories[i].id)| <= 1
    ensures players == MatchCreation.Dequeued(players0, Elems(AllPlayers(created)))
    ensures elos == StartingRatingsFor(elos0, created)
    ensures Distinct(AllPlayers(created))
    ensures Elems(AllPlayers(created)) <= Queued(players0)
    ensures forall m :: m in created ==> Shaped(m, initial) && FromCategory(m, categories, players0) && Snapshots(m, elos)
    ensures |blocks| == |categories| && created == Concat(blocks)
  {
  }

  /** The loop over categories after n turns: what the first n turns promise. */
  ghost predicate RanUpTo(categories: seq<Category>, orders: seq<seq<PlayerId>>, n: nat, sqrt: real -> real, initial: Status,
                          players0: map<PlayerId, Player>, elos0: map<(PlayerId, GameId), Rating>,
                          created: seq<Match>, blocks: seq<seq<Match>>,
                          players: map<PlayerId, Player>, elos: map<(PlayerId, GameId), Rating>)
  {
    && n <= |categories|
    && players == MatchCreation.Dequeued(players0, Elems(AllPlayers(created)))
    && elos == StartingRatingsFor(elos0, created)
    && Distinct(AllPlayers(created))
    && Elems(AllPlayers(created)) <= Queued(players0)
    && (forall m :: m in created ==> Shaped(m, initial) && FromFirst(m, categories, n, players0) && Snapshots(m, elos))
    && (forall i :: 0 <= i < n ==> |QueuedFor(players, categories[i].id)| <= 1)
    && |blocks| == n && created == Concat(blocks)
  }

  /** One turn of the loop over categories: match categories[n] and extend what the earlier turns promise. */
  method CategoryRound(db: Store, categories: seq<Category>, orders: seq<seq<PlayerId>>, n: nat, sqrt: real -> real,
                       initial: Status, ghost players0: map<PlayerId, Player>, ghost elos0: map<(PlayerId, GameId), Rating>,
                       ghost matches0: seq<Match>, ghost created: seq<Match>, ghost blocks: seq<seq<Match>>,
                       ghost starts: seq<StoreState>, ghost start: StoreState)
    returns (added: seq<Match>)
    requires IsSquareRoot(sqrt) && n < |orders| == |categories|
    requires Distinct(orders[n]) && players0.Keys <= Elems(orders[n])
    requires RanUpTo(categories, orders, n, sqrt, initial, players0, elos0, created, blocks, db.players, db.elos)
    requires start == StoreState(db.players, db.elos) && db.matches == matches0 + created
    requires TurnsChain(starts, blocks, players0, elos0, start) && GreedyTurns(blocks, categories, orders, starts, sqrt)
    modifies db
    ensures RanUpTo(categories, orders, n + 1, sqrt, initial, players0, elos0, created + added, blocks + [added], db.players, db.elos)
    ensures TurnsChain(starts + [start], blocks + [added], players0, elos0, StoreState(db.players, db.elos))
    ensures GreedyTurns(blocks + [added], categories, orders, starts + [start], sqrt)
    ensures db.matches == matches0 + (created + added)
    ensures db.ratingUpdates == old(db.ratingUpdates)
  {
    ghost var players, elos := db.players, db.elos;
    assert db.players.Keys == players0.Keys;
    added := MatchCategory(db, categories[n], orders[n], sqrt, initial);
    RoundStep(categories, orders, n, sqrt, initial, players0, elos0, created, blocks, players, elos, added, db.players, db.elos);
    TurnsStep(blocks, added, starts, start, StoreState(db.players, db.elos), categories, orders, players0, elos0, sqrt);
    AppendAssoc(matches0, created, added);
  }

  lemma AppendAssoc(a: seq<Match>, b: seq<Match>, c: seq<Match>)
    ensures (a + b) + c == a + (b + c)
  {
  }

  lemma RoundStep(categories: seq<Category>, orders: seq<seq<PlayerId>>, n: nat, sqrt: real -> real, initial: Status,
                  players0: map<PlayerId, Player>, elos0: map<(PlayerId, GameId), Rating>,
                  created: seq<Match>, blocks: seq<seq<Match>>,
                  players: map<PlayerId, Player>, elos: map<(PlayerId, GameId), Rating>,
                  added: seq<Match>, players': map<PlayerId, Player>, elos': map<(PlayerId, GameId), Rating>)
    requires n < |orders| == |categories|
    requires RanUpTo(categories, orders, n, sqrt, initial, players0, elos0, created, blocks, players, elos)
    requires players' == MatchCreation.Dequeued(players, Elems(AllPlayers(added)))
    requires elos' == MatchCreation.WithStartingRatings(elos, Elems(AllPlayers(added)), categories[n].game)
    requires Distinct(AllPlayers(added))
    requires Elems(AllPlayers(added)) <= QueuedFor(players, categories[n].id)
    requires forall m :: m in added ==> Shaped(m, initial) && m.game == categories[n].game && Snapshots(m, elos')
    requires |QueuedFor(players', categories[n].id)| <= 1
    ensures RanUpTo(categories, orders, n + 1, sqrt, initial, players0, elos0, created + added, blocks + [added], players', elos')
    ensures StoreState(players', elos') == AfterTurn(StoreState(players, elos), added)
  {
    RunStep(players0, elos0, players, elos, players', elos', categories, n, created, added, initial);
    MatchCreation.StartingRatingsGrow(elos, Elems(AllPlayers(added)), categories[n].game);
    SnapshotsKept(created, elos, elos');
    SameGameRatings(elos, added, categories[n].game);
    var longer := blocks + [added];
    assert longer[..|blocks|] == blocks;
    RanUpToIntro(categories, orders, n + 1, sqrt, initial, players0, elos0, created + added, longer, players', elos');
  }

  lemma RanUpToIntro(categories: seq<Category>, orders: seq<seq<PlayerId>>, n: nat, sqrt: real -> real, initial: Status,
                     players0: map<PlayerId, Player>, elos0: map<(PlayerId, GameId), Rating>,
                     created: seq<Match>, blocks: seq<seq<Match>>,
                     players: map<PlayerId, Player>, elos: map<(PlayerId, GameId), Rating>)
    requires n <= |categories|
    requires players == MatchCreation.Dequeued(players0, Elems(AllPlayers(created)))
    requires elos == StartingRatingsFor(elos0, created)
    requires Distinct(AllPlayers(created))
    requires Elems(AllPlayers(created)) <= Queued(players0)
    requires forall m :: m in created ==> Shaped(m, initial) && FromFirst(m, categories, n, players0)
    requires forall m :: m in created ==> Snapshots(m, elos)
    requires forall i :: 0 <= i < n ==> |QueuedFor(players, categories[i].id)| <= 1
    requires |blocks| == n && created == Concat(blocks)
    ensures RanUpTo(categories, orders, n, sqrt, initial, players0, elos0, created, blocks, players, elos)
  {
  }

  // ---------------------------------------------------------------------------
  // The matchmaker object
  // ---------------------------------------------------------------------------

  /**
   * The matchmaker. Its counter holds matchmaking back: every player who joins
   * an already running queue of at least two adds one, and every matchmaking
   * round that finds at least two queued players spends one instead of
   * matching.
   */
  class Matchmaker {
    var counter: nat

    constructor ()
      ensures counter == 0
    {
      counter := 0;
    }

    /** add_player: called before the player's queue flag is set. */
    method AddPlayer(db: Store, player: PlayerId)
      modifies this
      ensures player !in Queued(db.players) && |Queued(db.players)| >= MinMatchSize ==> counter == old(counter) + 1
      ensures player in Queued(db.players) || |Queued(db.players)| < MinMatchSize ==> counter == old(counter)
    {
      var queued := Queued(db.players);
      if player !in queued && |queued| >= MinMatchSize {
        counter := counter + 1;
      }
    }

    /**
     * matchmake. Categories come in the (random) order given; orders[i] is
     * the (random) order of players used for categories[i] and lists every
     * player. The matches it creates are returned in creation order.
     */
    method Matchmake(db: Store, categories: seq<Category>, orders: seq<seq<PlayerId>>, sqrt: real -> real, initial: Status)
      returns (created: seq<Match>, ghost blocks: seq<seq<Match>>, ghost starts: seq<StoreState>)
      requires IsSquareRoot(sqrt) && |orders| == |categories|
      requires forall i :: 0 <= i < |orders| ==> Distinct(orders[i]) && db.players.Keys <= Elems(orders[i])
      modifies this, db
      ensures |Queued(old(db.players))| < MinMatchSize ==> counter == old(counter) && created == [] && unchanged(db)
      ensures |Queued(old(db.players))| >= MinMatchSize && old(counter) > 0 ==>
        counter == old(counter) - 1 && created == [] && unchanged(db)
      ensures |Queued(old(db.players))| >= MinMatchSize && old(counter) == 0 ==>
        counter == 0 && forall i :: 0 <= i < |categories| ==> |QueuedFor(db.players, categories[i].id)| <= 1
      ensures |Queued(old(db.players))| >= MinMatchSize && old(counter) == 0 ==>
        |blocks| == |categories| && created == Concat(blocks) &&
        TurnsChain(starts, blocks, old(db.players), old(db.elos), StoreState(db.players, db.elos)) &&
        GreedyTurns(blocks, categories, orders, starts, sqrt)
      ensures db.players == MatchCreation.Dequeued(old(db.players), Elems(AllPlayers(created)))
      ensures db.elos == StartingRatingsFor(old(db.elos), created)
      ensures db.matches == old(db.matches) + created
      ensures db.ratingUpdates == old(db.ratingUpdates)
      ensures Distinct(AllPlayers(created))
      ensures Elems(AllPlayers(created)) <= Queued(old(db.players))
      ensures forall m :: m in created ==> Shaped(m, initial) && FromCategory(m, categories, old(db.players)) && Snapshots(m, db.elos)
    {
      created, blocks, starts := [], [], [];
      DequeuedNothing(db.players);
      assert Elems(AllPlayers([])) == {};
      var queued := Queued(db.players);
      if |queued| < MinMatchSize {
        return;
      }
      if counter > 0 {
        counter := counter - 1;
        return;
      }
      created, blocks, starts := RunCategories(db, categories, orders, sqrt, initial);
    }
  }
}
