/**
 * The two ranking queries: the rating leaderboard of a game and the score
 * list of a category. Both rank with the SQL RANK() window function
 * (competition ranking: 1 + the number of rows ordered strictly before the
 * row, so ties share a rank and the next rank skips ahead).
 */
module Ranking {
  import opened Wrappers
  import opened Records

  // ---------------------------------------------------------------------------
  // Counting and filtering
  // ---------------------------------------------------------------------------

  function CountWhere<T>(xs: seq<T>, p: T -> bool): (n: nat)
    ensures n <= |xs|
  {
    if xs == [] then 0 else (if p(xs[0]) then 1 else 0) + CountWhere(xs[1..], p)
  }

  function Filter<T(!new)>(xs: seq<T>, p: T -> bool): (r: seq<T>)
    ensures forall x :: x in r <==> x in xs && p(x)
    ensures |r| == CountWhere(xs, p)
  {
    if xs == [] then [] else (if p(xs[0]) then [xs[0]] else []) + Filter(xs[1..], p)
  }

  lemma {:induction false} CountAppend<T>(a: seq<T>, b: seq<T>, p: T -> bool)
    ensures CountWhere(a + b, p) == CountWhere(a, p) + CountWhere(b, p)
  {
    if a != [] {
      assert (a + b)[1..] == a[1..] + b;
      CountAppend(a[1..], b, p);
    } else {
      assert a + b == b;
    }
  }

  lemma {:induction false} CountSame<T>(xs: seq<T>, p: T -> bool, q: T -> bool)
    requires forall i :: 0 <= i < |xs| ==> p(xs[i]) == q(xs[i])
    ensures CountWhere(xs, p) == CountWhere(xs, q)
  {
    if xs != [] {
      assert forall i :: 0 <= i < |xs| - 1 ==> xs[1..][i] == xs[i + 1];
      CountSame(xs[1..], p, q);
    }
  }

  lemma {:induction false} CountMono<T>(xs: seq<T>, p: T -> bool, q: T -> bool)
    requires forall i :: 0 <= i < |xs| ==> p(xs[i]) ==> q(xs[i])
    ensures CountWhere(xs, p) <= CountWhere(xs, q)
    ensures (exists i :: 0 <= i < |xs| && q(xs[i]) && !p(xs[i])) ==> CountWhere(xs, p) < CountWhere(xs, q)
  {
    if xs != [] {
      assert forall i :: 0 <= i < |xs| - 1 ==> xs[1..][i] == xs[i + 1];
      CountMono(xs[1..], p, q);
      if exists i :: 0 <= i < |xs| && q(xs[i]) && !p(xs[i]) {
        var i :| 0 <= i < |xs| && q(xs[i]) && !p(xs[i]);
        if i > 0 {
          assert xs[1..][i - 1] == xs[i];
        }
      }
    }
  }

  lemma {:induction false} CountMultiset<T>(a: seq<T>, b: seq<T>, p: T -> bool)
    requires multiset(a) == multiset(b)
    ensures CountWhere(a, p) == CountWhere(b, p)
    decreases |a|
  {
    if a == [] {
      assert |b| == |multiset(b)| == 0;
    } else {
      var x := a[0];
      assert x in multiset(b);
      var k :| 0 <= k < |b| && b[k] == x;
      var b' := b[..k] + b[k + 1..];
      assert b == b[..k] + [x] + b[k + 1..];
      assert a == [x] + a[1..];
      assert multiset(b) == multiset(b[..k]) + multiset{x} + multiset(b[k + 1..]);
      assert multiset(b') == multiset(b[..k]) + multiset(b[k + 1..]);
      assert multiset(a) == multiset{x} + multiset(a[1..]);
      assert multiset(a[1..]) == multiset(a) - multiset{x};
      assert multiset(b') == multiset(b) - multiset{x};
      CountMultiset(a[1..], b', p);
      CountAppend(b[..k] + [x], b[k + 1..], p);
      CountAppend(b[..k], [x], p);
      CountAppend(b[..k], b[k + 1..], p);
    }
  }

  /** Counting inside a filtered list is counting both conditions in the whole list. */
  lemma {:induction false} CountFiltered<T(!new)>(xs: seq<T>, q: T -> bool, p: T -> bool, both: T -> bool)
    requires forall i :: 0 <= i < |xs| ==> both(xs[i]) == (q(xs[i]) && p(xs[i]))
    ensures CountWhere(Filter(xs, q), p) == CountWhere(xs, both)
  {
    if xs != [] {
      assert forall i :: 0 <= i < |xs| - 1 ==> xs[1..][i] == xs[i + 1];
      CountFiltered(xs[1..], q, p, both);
      CountAppend(if q(xs[0]) then [xs[0]] else [], Filter(xs[1..], q), p);
    }
  }

  // ---------------------------------------------------------------------------
  // LeaderboardDetail: one game's ratings, best mu first, ranked
  // ---------------------------------------------------------------------------

  /** A row of the ratings table. */
  datatype EloRow = EloRow(player: PlayerId, game: GameId, rating: Rating)

  datatype BoardRow = BoardRow(elo: EloRow, rank: nat)

  predicate ForGame(r: EloRow, game: GameId) { r.game == game }

  /** Rows whose mu is strictly greater than mu: the rows RANK() orders strictly before. */
  function Above(rows: seq<EloRow>, mu: real): nat
  {
    CountWhere(rows, (r: EloRow) => r.rating.mu > mu)
  }

  predicate SortedByMu(rows: seq<EloRow>)
  {
    forall i, j :: 0 <= i < j < |rows| ==> rows[i].rating.mu >= rows[j].rating.mu
  }

  function InsertByMu(x: EloRow, sorted: seq<EloRow>): (r: seq<EloRow>)
    requires SortedByMu(sorted)
    ensures SortedByMu(r) && multiset(r) == multiset(sorted) + multiset{x}
  {
    if sorted == [] || x.rating.mu >= sorted[0].rating.mu then [x] + sorted
    else
      var rest := InsertByMu(x, sorted[1..]);
      assert sorted == [sorted[0]] + sorted[1..];
      HeadBoundsRest(x, sorted, rest);
      [sorted[0]] + rest
  }

  /** What is inserted behind the head of a sorted list has a mu no larger than the head's. */
  lemma HeadBoundsRest(x: EloRow, sorted: seq<EloRow>, rest: seq<EloRow>)
    requires SortedByMu(sorted) && sorted != [] && x.rating.mu < sorted[0].rating.mu
    requires multiset(rest) == multiset(sorted[1..]) + multiset{x}
    ensures forall j :: 0 <= j < |rest| ==> rest[j].rating.mu <= sorted[0].rating.mu
  {
    forall j | 0 <= j < |rest|
      ensures rest[j].rating.mu <= sorted[0].rating.mu
    {
      assert rest[j] in multiset(rest);
      if rest[j] != x {
        assert rest[j] in multiset(sorted[1..]);
        var k :| 0 <= k < |sorted[1..]| && sorted[1..][k] == rest[j];
        assert sorted[k + 1] == rest[j];
      }
    }
  }

  /** order_by("-mu"); the order among equal mu is left to the database and not modelled. */
  function SortByMu(rows: seq<EloRow>): (r: seq<EloRow>)
    ensures SortedByMu(r) && multiset(r) == multiset(rows)
  {
    if rows == [] then []
    else
      assert rows == [rows[0]] + rows[1..];
      InsertByMu(rows[0], SortByMu(rows[1..]))
  }

  function Elos(board: seq<BoardRow>): (es: seq<EloRow>)
    ensures |es| == |board| && forall i :: 0 <= i < |board| ==> es[i] == board[i].elo
  {
    seq(|board|, i requires 0 <= i < |board| => board[i].elo)
  }

  /**
   * LeaderboardDetail.get_queryset: the game's ratings, sorted by mu
   * descending, each with its competition rank among the game's ratings.
   */
  function Leaderboard(rows: seq<EloRow>, game: GameId): (board: seq<BoardRow>)
    ensures multiset(Elos(board)) == multiset(Filter(rows, r => ForGame(r, game)))
    ensures SortedByMu(Elos(board))
    ensures forall i :: 0 <= i < |board| ==>
      board[i].rank == 1 + Above(Filter(rows, r => ForGame(r, game)), board[i].elo.rating.mu)
  {
    var gameRows := Filter(rows, r => ForGame(r, game));
    var sorted := SortByMu(gameRows);
    var board := seq(|sorted|, i requires 0 <= i < |sorted| => BoardRow(sorted[i], 1 + Above(sorted, sorted[i].rating.mu)));
    assert Elos(board) == sorted;
    forall i | 0 <= i < |board|
      ensures board[i].rank == 1 + Above(gameRows, board[i].elo.rating.mu)
    {
      CountMultiset(sorted, gameRows, (r: EloRow) => r.rating.mu > sorted[i].rating.mu);
    }
    board
  }

  /** Every row of the game is on the board, and only those. */
  lemma LeaderboardRows(rows: seq<EloRow>, game: GameId, r: EloRow)
    ensures r in Elos(Leaderboard(rows, game)) <==> r in rows && r.game == game
  {
    var board := Leaderboard(rows, game);
    assert r in Elos(board) <==> r in multiset(Elos(board));
  }

  /**
   * The ranks agree with RANK()'s positional definition over the sorted
   * board: 1 + the number of rows before this one that are not its peers.
   * So the top row has rank 1, peers share a rank, and a row with a lower mu
   * has a strictly larger rank.
   */
  lemma LeaderboardRankIsPositional(rows: seq<EloRow>, game: GameId, i: nat)
    requires i < |Leaderboard(rows, game)|
    ensures var board := Leaderboard(rows, game);
      board[i].rank == 1 + CountWhere(Elos(board)[..i], (r: EloRow) => r.rating.mu != board[i].elo.rating.mu)
  {
    var board := Leaderboard(rows, game);
    var es := Elos(board);
    CountMultiset(es, Filter(rows, r => ForGame(r, game)), (r: EloRow) => r.rating.mu > es[i].rating.mu);
    SortedRankIsPositional(es, i);
  }

  lemma SortedRankIsPositional(es: seq<EloRow>, i: nat)
    requires SortedByMu(es) && i < |es|
    ensures Above(es, es[i].rating.mu) == CountWhere(es[..i], (r: EloRow) => r.rating.mu != es[i].rating.mu)
  {
    var mu := es[i].rating.mu;
    assert es == es[..i] + es[i..];
    CountAppend(es[..i], es[i..], (r: EloRow) => r.rating.mu > mu);
    CountSame(es[..i], (r: EloRow) => r.rating.mu > mu, (r: EloRow) => r.rating.mu != mu);
    CountSame(es[i..], (r: EloRow) => r.rating.mu > mu, (r: EloRow) => false);
    CountNone(es[i..]);
  }

  lemma {:induction false} CountNone(xs: seq<EloRow>)
    ensures CountWhere(xs, (r: EloRow) => false) == 0
  {
    if xs != [] {
      CountNone(xs[1..]);
    }
  }

  /** A strictly greater mu gives a strictly better (smaller) rank; equal mu, the same rank. */
  lemma LeaderboardRankOrder(rows: seq<EloRow>, game: GameId, i: nat, j: nat)
    requires i < |Leaderboard(rows, game)| && j < |Leaderboard(rows, game)|
    ensures var board := Leaderboard(rows, game);
      (board[i].elo.rating.mu > board[j].elo.rating.mu ==> board[i].rank < board[j].rank) &&
      (board[i].elo.rating.mu == board[j].elo.rating.mu ==> board[i].rank == board[j].rank)
  {
    var board := Leaderboard(rows, game);
    var g := Filter(rows, r => ForGame(r, game));
    var a, b := board[i].elo.rating.mu, board[j].elo.rating.mu;
    if a > b {
      assert Elos(board)[i] in multiset(Elos(board));
      AboveOrder(g, board[i].elo, b);
    }
  }

  lemma AboveOrder(g: seq<EloRow>, top: EloRow, b: real)
    requires top in g && top.rating.mu > b
    ensures Above(g, top.rating.mu) < Above(g, b)
  {
    var k :| 0 <= k < |g| && g[k] == top;
    CountMono(g, (r: EloRow) => r.rating.mu > top.rating.mu, (r: EloRow) => r.rating.mu > b);
  }


  // ---------------------------------------------------------------------------
  // ScoresDetail: a category's finished scores with three ranks
  // ---------------------------------------------------------------------------

  /** A team-player row: its id, player, category, match status and start time, and raw score (null until reported). */
  datatype ScoreRow = ScoreRow(id: nat, player: PlayerId, category: CategoryId, score: Option<int>, status: Status, started: int)

  datatype RankedScore = RankedScore(row: ScoreRow, overallRank: nat, playerRank: nat, nonObsoleteRank: Option<nat>)

  predicate CountsFor(r: ScoreRow, cat: CategoryId)
  {
    r.category == cat && r.status == Finished
  }

  /** TeamPlayer.objects.filter(category=category, match__status="Finished") */
  function FinishedRows(rows: seq<ScoreRow>, cat: CategoryId): (f: seq<ScoreRow>)
    ensures forall r :: r in f <==> r in rows && r.category == cat && r.status == Finished
  {
    Filter(rows, r => CountsFor(r, cat))
  }

  /**
   * a sorts strictly before b under order_by(score ASC): lower scores first
   * whatever the category, and null scores last.
   */
  predicate Better(a: Option<int>, b: Option<int>)
  {
    a.Some? && (b.None? || a.value < b.value)
  }

  /** 1 + the number of rows with a strictly better score: RANK() over score ASC. */
  function OverallRank(rows: seq<ScoreRow>, r: ScoreRow): nat
  {
    1 + CountWhere(rows, (x: ScoreRow) => Better(x.score, r.score))
  }

  /** The same RANK() partitioned by player. */
  function PlayerRank(rows: seq<ScoreRow>, r: ScoreRow): nat
  {
    1 + CountWhere(rows, (x: ScoreRow) => x.player == r.player && Better(x.score, r.score))
  }

  /** order_by("player", "score", "match__timestamp_started"): the order the best row is chosen in. */
  predicate Earlier(a: ScoreRow, b: ScoreRow)
  {
    Better(a.score, b.score) || (a.score == b.score && a.started < b.started)
  }

  /**
   * distinct("player"): row i is its player's best row: no row of the player
   * comes before it, and among rows that tie with it, it is the first (the
   * database's choice among full ties is not specified; the model takes the
   * first in table order).
   */
  predicate IsBest(rows: seq<ScoreRow>, i: nat)
    requires i < |rows|
  {
    forall j :: 0 <= j < |rows| && j != i && rows[j].player == rows[i].player ==>
      Earlier(rows[i], rows[j]) || (!Earlier(rows[j], rows[i]) && i < j)
  }

  lemma EarlierIsStrictWeakOrder(a: ScoreRow, b: ScoreRow, c: ScoreRow)
    ensures !Earlier(a, a)
    ensures Earlier(a, b) ==> !Earlier(b, a)
    ensures Earlier(a, b) && Earlier(b, c) ==> Earlier(a, c)
    ensures Earlier(a, b) && !Earlier(c, b) ==> Earlier(a, c)
  {
  }

  /** Each player has at most one best row ... */
  lemma BestIsUnique(rows: seq<ScoreRow>, i: nat, k: nat)
    requires i < |rows| && k < |rows| && rows[i].player == rows[k].player
    requires IsBest(rows, i) && IsBest(rows, k)
    ensures i == k
  {
    if i != k {
      EarlierIsStrictWeakOrder(rows[i], rows[k], rows[k]);
    }
  }

  /** ... and every player with a row has one: the best row is the row of least score, earliest start. */
  lemma BestExists(rows: seq<ScoreRow>, p: PlayerId)
    requires exists j :: 0 <= j < |rows| && rows[j].player == p
    ensures exists i :: 0 <= i < |rows| && rows[i].player == p && IsBest(rows, i)
  {
    var i := BestInPrefix(rows, p, |rows|);
    assert IsBest(rows, i);
  }

  /** The best row of p among the first n rows. */
  ghost predicate BestBefore(rows: seq<ScoreRow>, n: nat, i: nat)
    requires i < n <= |rows|
  {
    forall j :: 0 <= j < n && j != i && rows[j].player == rows[i].player ==>
      Earlier(rows[i], rows[j]) || (!Earlier(rows[j], rows[i]) && i < j)
  }

  lemma {:induction false} BestInPrefix(rows: seq<ScoreRow>, p: PlayerId, n: nat) returns (i: nat)
    requires n <= |rows|
    requires exists j :: 0 <= j < n && rows[j].player == p
    ensures i < n && rows[i].player == p && BestBefore(rows, n, i)
  {
    var m := n - 1;
    if rows[m].player != p {
      i := BestInPrefix(rows, p, m);
      assert BestBefore(rows, n, i);
    } else if !exists j :: 0 <= j < m && rows[j].player == p {
      i := m;
      assert BestBefore(rows, n, m);
    } else {
      var k := BestInPrefix(rows, p, m);
      if Earlier(rows[m], rows[k]) {
        forall j | 0 <= j < n && j != m && rows[j].player == p
          ensures Earlier(rows[m], rows[j])
        {
          EarlierIsStrictWeakOrder(rows[m], rows[k], rows[j]);
          if j != k {
            EarlierIsStrictWeakOrder(rows[k], rows[j], rows[k]);
          }
        }
        i := m;
        assert BestBefore(rows, n, m);
      } else {
        i := k;
        assert BestBefore(rows, n, k);
      }
    }
  }

  /** The best rows, in table order. */
  function BestRows(rows: seq<ScoreRow>): (best: seq<ScoreRow>)
  {
    BestRowsFrom(rows, 0)
  }

  function BestRowsFrom(rows: seq<ScoreRow>, k: nat): (best: seq<ScoreRow>)
    requires k <= |rows|
    ensures forall r :: r in best ==> exists i :: k <= i < |rows| && IsBest(rows, i) && rows[i] == r
    ensures forall i :: k <= i < |rows| && IsBest(rows, i) ==> rows[i] in best
    decreases |rows| - k
  {
    if k == |rows| then []
    else (if IsBest(rows, k) then [rows[k]] else []) + BestRowsFrom(rows, k + 1)
  }

  /**
   * The ranks as written: non_obsolete_rank is the same unpartitioned RANK()
   * as overall_rank, attached to the best rows only.
   */
  function AnnotateAsWritten(rows: seq<ScoreRow>, cat: CategoryId): (ranked: seq<RankedScore>)
  {
    var f := FinishedRows(rows, cat);
    seq(|f|, i requires 0 <= i < |f| =>
      RankedScore(f[i], OverallRank(f, f[i]), PlayerRank(f, f[i]),
                  if IsBest(f, i) then Some(OverallRank(f, f[i])) else None))
  }

  /**
   * The ranks as intended: non_obsolete_rank is the rank of the row within
   * the best rows only.
   */
  function Annotate(rows: seq<ScoreRow>, cat: CategoryId): (ranked: seq<RankedScore>)
  {
    var f := FinishedRows(rows, cat);
    seq(|f|, i requires 0 <= i < |f| =>
      RankedScore(f[i], OverallRank(f, f[i]), PlayerRank(f, f[i]),
                  if IsBest(f, i) then Some(OverallRank(BestRows(f), f[i])) else None))
  }

  /**
   * The filters of the score list, applied after ranking, so filtering never
   * changes a rank. obsoleteGiven says whether the `obsolete` query parameter
   * is present at all: its value is never read, so `?obsolete=false` also
   * shows the obsolete rows.
   */
  function Shown(ranked: seq<RankedScore>, player: Option<PlayerId>, obsoleteGiven: bool): seq<RankedScore>
  {
    var shown := if player.Some? then Filter(ranked, (x: RankedScore) => x.row.player == player.value) else ranked;
    if player.None? && !obsoleteGiven then Filter(shown, (x: RankedScore) => x.nonObsoleteRank.Some?) else shown
  }

  /** The score list as the query computes it: the ranks as written, then the filters. */
  function ScoreList(rows: seq<ScoreRow>, cat: CategoryId, player: Option<PlayerId>, obsoleteGiven: bool): seq<RankedScore>
  {
    Shown(AnnotateAsWritten(rows, cat), player, obsoleteGiven)
  }

  /** The score list with non_obsolete_rank ranked among the best rows, as intended. */
  function ScoreListIntended(rows: seq<ScoreRow>, cat: CategoryId, player: Option<PlayerId>, obsoleteGiven: bool): seq<RankedScore>
  {
    Shown(Annotate(rows, cat), player, obsoleteGiven)
  }

  /**
   * A ranked list of the finished rows f: one entry per row, in order, with
   * the overall and per-player ranks, and a non_obsolete_rank exactly on the
   * rows that are their player's best.
   */
  ghost predicate MarksBest(f: seq<ScoreRow>, ranked: seq<RankedScore>)
  {
    && |ranked| == |f|
    && forall i :: 0 <= i < |f| ==>
         && ranked[i].row == f[i]
         && ranked[i].overallRank == OverallRank(f, f[i])
         && ranked[i].playerRank == PlayerRank(f, f[i])
         && (ranked[i].nonObsoleteRank.Some? <==> IsBest(f, i))
  }

  // ---------------------------------------------------------------------------
  // Properties of the ranks
  // ---------------------------------------------------------------------------

  /** A row's overall rank lies between 1 and the number of rows. */
  lemma OverallRankBounds(rows: seq<ScoreRow>, r: ScoreRow)
    requires r in rows
    ensures 1 <= OverallRank(rows, r) <= |rows|
  {
    var k :| 0 <= k < |rows| && rows[k] == r;
    CountMono(rows, (x: ScoreRow) => Better(x.score, r.score), (x: ScoreRow) => true);
    CountAll(rows);
  }

  lemma {:induction false} CountAll(xs: seq<ScoreRow>)
    ensures CountWhere(xs, (x: ScoreRow) => true) == |xs|
  {
    if xs != [] {
      CountAll(xs[1..]);
    }
  }

  /** Competition ranking: a strictly better score ranks strictly higher, an equal score the same. */
  lemma OverallRankOrder(rows: seq<ScoreRow>, a: ScoreRow, b: ScoreRow)
    requires a in rows
    ensures Better(a.score, b.score) ==> OverallRank(rows, a) < OverallRank(rows, b)
    ensures a.score == b.score ==> OverallRank(rows, a) == OverallRank(rows, b)
  {
    if Better(a.score, b.score) {
      var k :| 0 <= k < |rows| && rows[k] == a;
      CountMono(rows, (x: ScoreRow) => Better(x.score, a.score), (x: ScoreRow) => Better(x.score, b.score));
    }
  }

  /** player_rank is the overall rank computed over the player's own rows only. */
  lemma PlayerRankIsOwnRank(rows: seq<ScoreRow>, r: ScoreRow)
    ensures PlayerRank(rows, r) == OverallRank(Filter(rows, (x: ScoreRow) => x.player == r.player), r)
  {
    CountFiltered(rows, (x: ScoreRow) => x.player == r.player, (x: ScoreRow) => Better(x.score, r.score),
                  (x: ScoreRow) => x.player == r.player && Better(x.score, r.score));
  }

  /** A player's rank never exceeds their overall rank. */
  lemma PlayerRankAtMostOverall(rows: seq<ScoreRow>, r: ScoreRow)
    ensures PlayerRank(rows, r) <= OverallRank(rows, r)
  {
    CountMono(rows, (x: ScoreRow) => x.player == r.player && Better(x.score, r.score), (x: ScoreRow) => Better(x.score, r.score));
  }

  /**
   * In any list that marks the best rows, every player with a finished row
   * has exactly one entry carrying a non_obsolete_rank.
   */
  lemma MarkedOncePerPlayer(f: seq<ScoreRow>, ranked: seq<RankedScore>, i: nat, k: nat)
    requires MarksBest(f, ranked) && i < |ranked| && k < |ranked|
    ensures ranked[i].nonObsoleteRank.Some? && ranked[k].nonObsoleteRank.Some? && ranked[i].row.player == ranked[k].row.player ==> i == k
    ensures exists j :: 0 <= j < |ranked| && ranked[j].row.player == ranked[i].row.player && ranked[j].nonObsoleteRank.Some?
  {
    if IsBest(f, i) && IsBest(f, k) && f[i].player == f[k].player {
      BestIsUnique(f, i, k);
    }
    var j := BestInPrefix(f, f[i].player, |f|);
    assert IsBest(f, j);
  }

  /**
   * One non-obsolete row per player: in the ranked list the query builds,
   * every player with a finished score has exactly one row carrying a
   * non_obsolete_rank.
   */
  lemma OneBestRowPerPlayer(rows: seq<ScoreRow>, cat: CategoryId, i: nat, k: nat)
    requires i < |AnnotateAsWritten(rows, cat)| && k < |AnnotateAsWritten(rows, cat)|
    ensures var ranked := AnnotateAsWritten(rows, cat);
      ranked[i].nonObsoleteRank.Some? && ranked[k].nonObsoleteRank.Some? && ranked[i].row.player == ranked[k].row.player ==> i == k
    ensures var ranked := AnnotateAsWritten(rows, cat);
      exists j :: 0 <= j < |ranked| && ranked[j].row.player == ranked[i].row.player && ranked[j].nonObsoleteRank.Some?
  {
    AnnotateAt(rows, cat);
    MarkedOncePerPlayer(FinishedRows(rows, cat), AnnotateAsWritten(rows, cat), i, k);
  }

  /** The ranked list as written has one entry per finished row, in order, and marks the best rows. */
  lemma AnnotateAt(rows: seq<ScoreRow>, cat: CategoryId)
    ensures MarksBest(FinishedRows(rows, cat), AnnotateAsWritten(rows, cat))
  {
  }

  /**
   * As written, a row's non_obsolete_rank, where present, is its overall
   * rank: the window ranks among all finished rows of the category.
   */
  lemma NonObsoleteRankIsOverall(rows: seq<ScoreRow>, cat: CategoryId, i: nat)
    requires i < |AnnotateAsWritten(rows, cat)|
    ensures var x := AnnotateAsWritten(rows, cat)[i];
      x.nonObsoleteRank.Some? ==> x.nonObsoleteRank.value == x.overallRank
  {
  }

  /** The intended ranked list marks the best rows in the same way. */
  lemma AnnotateIntendedAt(rows: seq<ScoreRow>, cat: CategoryId)
    ensures MarksBest(FinishedRows(rows, cat), Annotate(rows, cat))
  {
  }

  lemma {:induction false} BestRowsCount(rows: seq<ScoreRow>, k: nat, p: ScoreRow -> bool)
    requires k <= |rows|
    ensures CountWhere(BestRowsFrom(rows, k), p) <= CountWhere(rows[k..], p)
    decreases |rows| - k
  {
    if k < |rows| {
      BestRowsCount(rows, k + 1, p);
      assert rows[k..] == [rows[k]] + rows[k + 1..];
      CountAppend([rows[k]], rows[k + 1..], p);
      CountAppend(if IsBest(rows, k) then [rows[k]] else [], BestRowsFrom(rows, k + 1), p);
    }
  }

  /**
   * The intended non_obsolete_rank of a best row lies between 1 and its
   * overall rank: fewer rows compete for it.
   */
  lemma NonObsoleteRankBounds(rows: seq<ScoreRow>, cat: CategoryId, i: nat)
    requires i < |Annotate(rows, cat)|
    ensures var x := Annotate(rows, cat)[i];
      x.nonObsoleteRank.Some? ==> 1 <= x.nonObsoleteRank.value <= x.overallRank
  {
    var f := FinishedRows(rows, cat);
    BestRowsCount(f, 0, (x: ScoreRow) => Better(x.score, f[i].score));
    assert f[0..] == f;
  }

  /** With a player given, the list is all of that player's finished rows, ranks as in the full list. */
  lemma ScoreListForPlayer(rows: seq<ScoreRow>, cat: CategoryId, p: PlayerId, obsoleteGiven: bool, x: RankedScore)
    ensures x in ScoreList(rows, cat, Some(p), obsoleteGiven) <==> x in AnnotateAsWritten(rows, cat) && x.row.player == p
  {
  }

  lemma ShownDefault(f: seq<ScoreRow>, ranked: seq<RankedScore>, x: RankedScore, y: RankedScore)
    requires MarksBest(f, ranked)
    ensures x in Shown(ranked, None, false) <==> x in ranked && x.nonObsoleteRank.Some?
    ensures x in Shown(ranked, None, false) && y in Shown(ranked, None, false) && x.row.player == y.row.player ==> x == y
  {
    if x in Shown(ranked, None, false) && y in Shown(ranked, None, false) && x.row.player == y.row.player {
      var i :| 0 <= i < |ranked| && ranked[i] == x;
      var k :| 0 <= k < |ranked| && ranked[k] == y;
      MarkedOncePerPlayer(f, ranked, i, k);
    }
  }

  /**
   * With neither a player nor the obsolete flag, the list holds exactly the
   * best rows, at most one per player, and each shows its overall rank as its
   * non_obsolete_rank.
   */
  lemma ScoreListDefault(rows: seq<ScoreRow>, cat: CategoryId, x: RankedScore, y: RankedScore)
    ensures x in ScoreList(rows, cat, None, false) <==> x in AnnotateAsWritten(rows, cat) && x.nonObsoleteRank.Some?
    ensures x in ScoreList(rows, cat, None, false) && y in ScoreList(rows, cat, None, false) && x.row.player == y.row.player ==> x == y
    ensures x in ScoreList(rows, cat, None, false) ==> x.nonObsoleteRank == Some(x.overallRank)
  {
    AnnotateAt(rows, cat);
    ShownDefault(FinishedRows(rows, cat), AnnotateAsWritten(rows, cat), x, y);
    if x in ScoreList(rows, cat, None, false) {
      var ranked := AnnotateAsWritten(rows, cat);
      var i :| 0 <= i < |ranked| && ranked[i] == x;
      NonObsoleteRankIsOverall(rows, cat, i);
    }
  }

  /**
   * The intended default list: exactly the best rows, at most one per player,
   * each ranked among the best rows, between 1 and its overall rank.
   */
  lemma ScoreListIntendedDefault(rows: seq<ScoreRow>, cat: CategoryId, x: RankedScore, y: RankedScore)
    ensures x in ScoreListIntended(rows, cat, None, false) <==> x in Annotate(rows, cat) && x.nonObsoleteRank.Some?
    ensures x in ScoreListIntended(rows, cat, None, false) && y in ScoreListIntended(rows, cat, None, false) && x.row.player == y.row.player ==> x == y
    ensures x in ScoreListIntended(rows, cat, None, false) ==> 1 <= x.nonObsoleteRank.value <= x.overallRank
  {
    AnnotateIntendedAt(rows, cat);
    ShownDefault(FinishedRows(rows, cat), Annotate(rows, cat), x, y);
    if x in ScoreListIntended(rows, cat, None, false) {
      var ranked := Annotate(rows, cat);
      var i :| 0 <= i < |ranked| && ranked[i] == x;
      NonObsoleteRankBounds(rows, cat, i);
    }
  }

  // ---------------------------------------------------------------------------
  // Worked examples
  // ---------------------------------------------------------------------------

  /** A finished score of the given category, started at time `started`. */
  function FinishedScore(id: nat, player: PlayerId, cat: CategoryId, score: int, started: int): ScoreRow
  {
    ScoreRow(id, player, cat, Some(score), Status.Finished, started)
  }

  /** One step of RANK(): the first row counts when it is strictly better. */
  lemma OverallRankStep(rows: seq<ScoreRow>, r: ScoreRow)
    requires rows != []
    ensures OverallRank(rows, r) == (if Better(rows[0].score, r.score) then 1 else 0) + OverallRank(rows[1..], r)
  {
  }

  function Ind(b: bool): nat { if b then 1 else 0 }

  lemma OverallRankOfTwo(a: ScoreRow, b: ScoreRow, r: ScoreRow)
    ensures OverallRank([a, b], r) == 1 + Ind(Better(a.score, r.score)) + Ind(Better(b.score, r.score))
  {
    OverallRankStep([a, b], r);
    assert [a, b][1..] == [b];
    OverallRankStep([b], r);
    assert [b][1..] == [];
  }

  lemma OverallRankOfFour(a: ScoreRow, b: ScoreRow, c: ScoreRow, d: ScoreRow, r: ScoreRow)
    ensures OverallRank([a, b, c, d], r) ==
      1 + Ind(Better(a.score, r.score)) + Ind(Better(b.score, r.score)) + Ind(Better(c.score, r.score)) + Ind(Better(d.score, r.score))
  {
    OverallRankStep([a, b, c, d], r);
    assert [a, b, c, d][1..] == [b, c, d];
    OverallRankStep([b, c, d], r);
    assert [b, c, d][1..] == [c, d];
    OverallRankOfTwo(c, d, r);
  }

  lemma OverallRankOfFive(a: ScoreRow, b: ScoreRow, c: ScoreRow, d: ScoreRow, e: ScoreRow, r: ScoreRow)
    ensures OverallRank([a, b, c, d, e], r) == Ind(Better(a.score, r.score)) + OverallRank([b, c, d, e], r)
  {
    OverallRankStep([a, b, c, d, e], r);
    assert [a, b, c, d, e][1..] == [b, c, d, e];
  }

  /** When every row is a finished row of the category, the filter keeps them all. */
  lemma {:induction false} FinishedRowsKeepsAll(rows: seq<ScoreRow>, cat: CategoryId)
    requires forall i :: 0 <= i < |rows| ==> CountsFor(rows[i], cat)
    ensures FinishedRows(rows, cat) == rows
  {
    if rows != [] {
      assert forall i :: 0 <= i < |rows| - 1 ==> rows[1..][i] == rows[i + 1];
      FinishedRowsKeepsAll(rows[1..], cat);
      assert FinishedRows(rows, cat) == [rows[0]] + FinishedRows(rows[1..], cat);
    }
  }

  /** Scores 10, 10, 20, 30 rank 1, 1, 3, 4. */
  lemma CompetitionRankingExample()
    ensures var rows := [FinishedScore(1, 1, 0, 10, 0), FinishedScore(2, 2, 0, 10, 1), FinishedScore(3, 3, 0, 20, 2), FinishedScore(4, 4, 0, 30, 3)];
      OverallRank(rows, rows[0]) == 1 && OverallRank(rows, rows[1]) == 1 &&
      OverallRank(rows, rows[2]) == 3 && OverallRank(rows, rows[3]) == 4
  {
    var a, b, c, d := FinishedScore(1, 1, 0, 10, 0), FinishedScore(2, 2, 0, 10, 1), FinishedScore(3, 3, 0, 20, 2), FinishedScore(4, 4, 0, 30, 3);
    OverallRankOfFour(a, b, c, d, a);
    OverallRankOfFour(a, b, c, d, b);
    OverallRankOfFour(a, b, c, d, c);
    OverallRankOfFour(a, b, c, d, d);
  }

  /** Player 1 scores 50, 40, 60; player 2 scores 30, 35, all in finished matches of category 0. */
  function TwoPlayerHistory(): seq<ScoreRow>
  {
    [FinishedScore(1, 1, 0, 50, 0), FinishedScore(2, 1, 0, 40, 1), FinishedScore(3, 1, 0, 60, 2),
     FinishedScore(4, 2, 0, 30, 3), FinishedScore(5, 2, 0, 35, 4)]
  }

  lemma TwoPlayerRowsAllCount()
    ensures FinishedRows(TwoPlayerHistory(), 0) == TwoPlayerHistory()
  {
    FinishedRowsKeepsAll(TwoPlayerHistory(), 0);
  }

  /** Player 1's best row is its 40 (index 1), player 2's its 30 (index 3). */
  lemma TwoPlayerBest()
    ensures var h := TwoPlayerHistory();
      !IsBest(h, 0) && IsBest(h, 1) && !IsBest(h, 2) && IsBest(h, 3) && !IsBest(h, 4)
  {
    var h := TwoPlayerHistory();
    assert !IsBest(h, 0) by { assert h[1].player == h[0].player && Earlier(h[1], h[0]); }
    assert !IsBest(h, 2) by { assert h[1].player == h[2].player && Earlier(h[1], h[2]); }
    assert !IsBest(h, 4) by { assert h[3].player == h[4].player && Earlier(h[3], h[4]); }
  }

  lemma BestRowsOfFive(f: seq<ScoreRow>)
    requires |f| == 5 && !IsBest(f, 0) && IsBest(f, 1) && !IsBest(f, 2) && IsBest(f, 3) && !IsBest(f, 4)
    ensures BestRows(f) == [f[1], f[3]]
  {
    assert BestRowsFrom(f, 4) == [];
    assert BestRowsFrom(f, 3) == [f[3]];
    assert BestRowsFrom(f, 2) == [f[3]];
    assert BestRowsFrom(f, 1) == [f[1], f[3]];
  }

  lemma TwoPlayerBestRows()
    ensures var f := FinishedRows(TwoPlayerHistory(), 0);
      BestRows(f) == [f[1], f[3]]
  {
    TwoPlayerRowsAllCount();
    TwoPlayerBest();
    BestRowsOfFive(TwoPlayerHistory());
  }

  lemma AnnotateAsWrittenAt(rows: seq<ScoreRow>, cat: CategoryId, i: nat)
    requires i < |FinishedRows(rows, cat)|
    ensures var f := FinishedRows(rows, cat);
      i < |AnnotateAsWritten(rows, cat)| &&
      AnnotateAsWritten(rows, cat)[i].nonObsoleteRank == if IsBest(f, i) then Some(OverallRank(f, f[i])) else None
  {
  }

  lemma AnnotateRankAt(rows: seq<ScoreRow>, cat: CategoryId, i: nat)
    requires i < |FinishedRows(rows, cat)|
    ensures var f := FinishedRows(rows, cat);
      i < |Annotate(rows, cat)| &&
      Annotate(rows, cat)[i].nonObsoleteRank == if IsBest(f, i) then Some(OverallRank(BestRows(f), f[i])) else None
  {
  }

  /** Among all five rows, the 40 comes after the 30 and the 35. */
  lemma TwoPlayerOverallRank()
    ensures OverallRank(TwoPlayerHistory(), TwoPlayerHistory()[1]) == 3
  {
    var h := TwoPlayerHistory();
    assert h == [h[0], h[1], h[2], h[3], h[4]];
    OverallRankOfFive(h[0], h[1], h[2], h[3], h[4], h[1]);
    OverallRankOfFour(h[1], h[2], h[3], h[4], h[1]);
  }

  /** Among the best rows alone, the 40 comes after the 30 only. */
  lemma TwoPlayerBestRanks()
    ensures var h := TwoPlayerHistory();
      OverallRank(BestRows(h), h[1]) == 2 && OverallRank(BestRows(h), h[3]) == 1
  {
    var h := TwoPlayerHistory();
    TwoPlayerRowsAllCount();
    TwoPlayerBestRows();
    RanksOfTwo(h[1], h[3]);
  }

  lemma RanksOfTwo(a: ScoreRow, b: ScoreRow)
    requires a.score.Some? && b.score.Some? && b.score.value < a.score.value
    ensures OverallRank([a, b], a) == 2 && OverallRank([a, b], b) == 1
  {
    OverallRankOfTwo(a, b, a);
    OverallRankOfTwo(a, b, b);
  }

  /**
   * As written, player 1's best row (40) gets non_obsolete_rank 3, its
   * overall rank, although it is second among the best rows (30, 40).
   */
  lemma NonObsoleteRankAsWrittenIsOverall()
    ensures AnnotateAsWritten(TwoPlayerHistory(), 0)[1].nonObsoleteRank == Some(3)
  {
    TwoPlayerRowsAllCount();
    TwoPlayerBest();
    AnnotateAsWrittenAt(TwoPlayerHistory(), 0, 1);
    TwoPlayerOverallRank();
  }

  /** As intended, the same row ranks 2 among the best rows, and player 2's best row ranks 1. */
  lemma NonObsoleteRankWithinBestRows()
    ensures Annotate(TwoPlayerHistory(), 0)[1].nonObsoleteRank == Some(2)
    ensures Annotate(TwoPlayerHistory(), 0)[3].nonObsoleteRank == Some(1)
    ensures Annotate(TwoPlayerHistory(), 0)[0].nonObsoleteRank == None
  {
    var h := TwoPlayerHistory();
    TwoPlayerRowsAllCount();
    TwoPlayerBest();
    TwoPlayerBestRows();
    TwoPlayerBestRanks();
    AnnotateRankAt(h, 0, 0);
    AnnotateRankAt(h, 0, 1);
    AnnotateRankAt(h, 0, 3);
  }
}
