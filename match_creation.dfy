/**
 * create_match: open a match, give its teams the letters A, B, C, ..., take
 * every member out of the queue, create a starting rating for members who
 * have none for the game, and snapshot each member's rating on their
 * team-player record.
 */
module MatchCreation {
  import opened Wrappers
  import opened Records

  const TeamLetters: string := "ABCDEFGHIJKLMNOPQRSTUVWXYZ"

  /** Everyone who is on one of the teams. */
  function Members(teams: seq<seq<PlayerId>>): set<PlayerId>
  {
    set i, j | 0 <= i < |teams| && 0 <= j < |teams[i]| :: teams[i][j]
  }

  /** The players among the first n team members. */
  function Prefix(team: seq<PlayerId>, n: nat): set<PlayerId>
    requires n <= |team|
  {
    set b | 0 <= b < n :: team[b]
  }

  /** The players map after everyone in s has been taken out of the queue. */
  function Dequeued(players: map<PlayerId, Player>, s: set<PlayerId>): map<PlayerId, Player>
  {
    map p | p in players :: if p in s then players[p].(inQueue := false) else players[p]
  }

  /** The ratings table after a starting rating was created for everyone in s who had none for the game. */
  function WithStartingRatings(elos: map<(PlayerId, GameId), Rating>, s: set<PlayerId>, game: GameId)
    : map<(PlayerId, GameId), Rating>
  {
    map k | k in elos.Keys + (set p | p in s :: (p, game)) :: if k in elos then elos[k] else DefaultRating
  }

  /** The team-player record of p, carrying a snapshot of p's rating. */
  function Snapshot(p: PlayerId, r: Rating): TeamPlayer
  {
    TeamPlayer(p, r.mu, r.sigma)
  }

  /**
   * create_match(teams, game). More than 26 teams would run past the letters
   * and fail; the matchmaker passes at most 8.
   */
  method CreateMatch(db: Store, teams: seq<seq<PlayerId>>, game: GameId, initial: Status) returns (m: Match)
    requires |teams| <= |TeamLetters|
    requires forall i, j :: 0 <= i < |teams| && 0 <= j < |teams[i]| ==> teams[i][j] in db.players
    modifies db
    ensures db.players == Dequeued(old(db.players), Members(teams))
    ensures db.elos == WithStartingRatings(old(db.elos), Members(teams), game)
    ensures db.matches == old(db.matches) + [m]
    ensures db.ratingUpdates == old(db.ratingUpdates)
    ensures m.game == game && m.status == initial && m.finishedAt == None
    ensures |m.teams| == |teams|
    ensures forall i :: 0 <= i < |teams| ==>
      m.teams[i].teamNum == TeamLetters[i] && |m.teams[i].members| == |teams[i]|
    ensures forall i, j :: 0 <= i < |teams| && 0 <= j < |teams[i]| ==>
      (teams[i][j], game) in db.elos && m.teams[i].members[j] == Snapshot(teams[i][j], db.elos[(teams[i][j], game)])
  {
    var players, elos, built := BuildTeams(db.players, db.elos, teams, game);
    m := Match(game, built, initial, None);
    db.players, db.elos := players, elos;
    db.matches := db.matches + [m];
  }

  /** The outer loop of create_match: the teams, lettered in order. */
  method BuildTeams(players: map<PlayerId, Player>, elos: map<(PlayerId, GameId), Rating>,
                    teams: seq<seq<PlayerId>>, game: GameId)
    returns (players': map<PlayerId, Player>, elos': map<(PlayerId, GameId), Rating>, built: seq<Team>)
    requires |teams| <= |TeamLetters|
    requires forall i, j :: 0 <= i < |teams| && 0 <= j < |teams[i]| ==> teams[i][j] in players
    ensures players' == Dequeued(players, Members(teams))
    ensures elos' == WithStartingRatings(elos, Members(teams), game)
    ensures |built| == |teams|
    ensures forall i :: 0 <= i < |teams| ==>
      built[i].teamNum == TeamLetters[i] && |built[i].members| == |teams[i]|
    ensures forall i, j :: 0 <= i < |teams| && 0 <= j < |teams[i]| ==>
      (teams[i][j], game) in elos' && built[i].members[j] == Snapshot(teams[i][j], elos'[(teams[i][j], game)])
  {
    players', elos' := players, elos;
    built := [];
    ghost var done: set<PlayerId> := {};
    for i := 0 to |teams|
      invariant done == Members(teams[..i])
      invariant players' == Dequeued(players, done)
      invariant elos' == WithStartingRatings(elos, done, game)
      invariant |built| == i
      invariant BuiltFor(built, teams, elos', game)
    {
      ghost var elosBefore := elos';
      ghost var added := Prefix(teams[i], |teams[i]|);
      var members;
      players', elos', members := AddMembers(players', elos', teams[i], game);
      MembersStep(teams, i);
      DequeuedTwice(players, done, added);
      StartingRatingsTwice(elos, done, added, game);
      StartingRatingsGrow(elosBefore, added, game);
      done := done + added;
      BuiltForStep(built, teams, members, elosBefore, elos', game);
      built := built + [Team(TeamLetters[i], members)];
    }
    assert teams[..|teams|] == teams;
  }

  /** The first |built| teams are lettered in order and hold the snapshots of their members' ratings. */
  ghost predicate BuiltFor(built: seq<Team>, teams: seq<seq<PlayerId>>, elos: map<(PlayerId, GameId), Rating>, game: GameId)
  {
    && |built| <= |teams| && |built| <= |TeamLetters|
    && (forall a :: 0 <= a < |built| ==> built[a].teamNum == TeamLetters[a] && |built[a].members| == |teams[a]|)
    && (forall a, b :: 0 <= a < |built| && 0 <= b < |teams[a]| ==>
          (teams[a][b], game) in elos && built[a].members[b] == Snapshot(teams[a][b], elos[(teams[a][b], game)]))
  }

  lemma BuiltForStep(built: seq<Team>, teams: seq<seq<PlayerId>>, members: seq<TeamPlayer>,
                     elos: map<(PlayerId, GameId), Rating>, elos': map<(PlayerId, GameId), Rating>, game: GameId)
    requires BuiltFor(built, teams, elos, game) && |built| < |teams| && |built| < |TeamLetters|
    requires forall k :: k in elos ==> k in elos' && elos'[k] == elos[k]
    requires |members| == |teams[|built|]|
    requires forall b :: 0 <= b < |members| ==>
      (teams[|built|][b], game) in elos' && members[b] == Snapshot(teams[|built|][b], elos'[(teams[|built|][b], game)])
    ensures BuiltFor(built + [Team(TeamLetters[|built|], members)], teams, elos', game)
  {
    var n := |built|;
    var longer := built + [Team(TeamLetters[n], members)];
    forall a | 0 <= a < |longer|
      ensures longer[a].teamNum == TeamLetters[a] && |longer[a].members| == |teams[a]|
    {
      if a < n { assert longer[a] == built[a]; }
    }
    forall a, b | 0 <= a < |longer| && 0 <= b < |teams[a]|
      ensures (teams[a][b], game) in elos' && longer[a].members[b] == Snapshot(teams[a][b], elos'[(teams[a][b], game)])
    {
      if a < n { assert longer[a] == built[a]; } else { assert longer[a].members == members; }
    }
  }

  /** The inner loop of create_match: one team's members, in order. */
  method AddMembers(players: map<PlayerId, Player>, elos: map<(PlayerId, GameId), Rating>,
                    team: seq<PlayerId>, game: GameId)
    returns (players': map<PlayerId, Player>, elos': map<(PlayerId, GameId), Rating>, members: seq<TeamPlayer>)
    requires forall b :: 0 <= b < |team| ==> team[b] in players
    ensures players' == Dequeued(players, Prefix(team, |team|))
    ensures elos' == WithStartingRatings(elos, Prefix(team, |team|), game)
    ensures |members| == |team|
    ensures forall b :: 0 <= b < |team| ==>
      (team[b], game) in elos' && members[b] == Snapshot(team[b], elos'[(team[b], game)])
  {
    players', elos' := players, elos;
    members := [];
    for j := 0 to |team|
      invariant players' == Dequeued(players, Prefix(team, j))
      invariant elos' == WithStartingRatings(elos, Prefix(team, j), game)
      invariant |members| == j
      invariant forall b :: 0 <= b < j ==>
        (team[b], game) in elos' && members[b] == Snapshot(team[b], elos'[(team[b], game)])
    {
      players', elos', members := AddMember(players, elos, team, game, j, players', elos', members);
    }
  }

  /** One iteration of the inner loop: member j of the team. */
  method AddMember(players: map<PlayerId, Player>, elos: map<(PlayerId, GameId), Rating>,
                   team: seq<PlayerId>, game: GameId, j: nat,
                   current: map<PlayerId, Player>, currentElos: map<(PlayerId, GameId), Rating>, members: seq<TeamPlayer>)
    returns (players': map<PlayerId, Player>, elos': map<(PlayerId, GameId), Rating>, members': seq<TeamPlayer>)
    requires j < |team| && forall b :: 0 <= b < |team| ==> team[b] in players
    requires current == Dequeued(players, Prefix(team, j))
    requires currentElos == WithStartingRatings(elos, Prefix(team, j), game)
    requires |members| == j
    requires forall b :: 0 <= b < j ==>
      (team[b], game) in currentElos && members[b] == Snapshot(team[b], currentElos[(team[b], game)])
    ensures players' == Dequeued(players, Prefix(team, j + 1))
    ensures elos' == WithStartingRatings(elos, Prefix(team, j + 1), game)
    ensures |members'| == j + 1
    ensures forall b :: 0 <= b < j + 1 ==>
      (team[b], game) in elos' && members'[b] == Snapshot(team[b], elos'[(team[b], game)])
  {
    var player := team[j];
    assert Prefix(team, j + 1) == Prefix(team, j) + {player};
    // make the player stop queueing
    DequeuedStep(players, Prefix(team, j), player);
    players' := current[player := current[player].(inQueue := false)];
    // find the player's rating, or create the starting one
    StartingRatingsStep(elos, Prefix(team, j), player, game);
    elos' := currentElos;
    if (player, game) !in elos' {
      elos' := elos'[(player, game) := DefaultRating];
    }
    assert forall b :: 0 <= b < j ==> elos'[(team[b], game)] == currentElos[(team[b], game)];
    members' := members + [Snapshot(player, elos'[(player, game)])];
  }

  lemma MembersStep(teams: seq<seq<PlayerId>>, i: nat)
    requires i < |teams|
    ensures Members(teams[..i + 1]) == Members(teams[..i]) + Prefix(teams[i], |teams[i]|)
  {
    var lhs, rhs := Members(teams[..i + 1]), Members(teams[..i]) + Prefix(teams[i], |teams[i]|);
    forall p | p in lhs ensures p in rhs {
      var a, b :| 0 <= a < i + 1 && 0 <= b < |teams[..i + 1][a]| && teams[..i + 1][a][b] == p;
      if a < i { assert teams[..i][a][b] == p; }
    }
    forall p | p in rhs ensures p in lhs {
      if p in Members(teams[..i]) {
        var a, b :| 0 <= a < i && 0 <= b < |teams[..i][a]| && teams[..i][a][b] == p;
        assert teams[..i + 1][a][b] == p;
      } else {
        var b :| 0 <= b < |teams[i]| && teams[i][b] == p;
        assert teams[..i + 1][i][b] == p;
      }
    }
  }

  lemma DequeuedStep(players: map<PlayerId, Player>, s: set<PlayerId>, x: PlayerId)
    requires x in players
    ensures var cur := Dequeued(players, s);
      Dequeued(players, s + {x}) == cur[x := cur[x].(inQueue := false)]
  {
    var cur := Dequeued(players, s);
    assert Dequeued(players, s + {x}).Keys == cur[x := cur[x].(inQueue := false)].Keys;
  }

  lemma StartingRatingsStep(elos: map<(PlayerId, GameId), Rating>, s: set<PlayerId>, x: PlayerId, game: GameId)
    ensures var cur := WithStartingRatings(elos, s, game);
      WithStartingRatings(elos, s + {x}, game) == if (x, game) in cur then cur else cur[(x, game) := DefaultRating]
  {
    var cur := WithStartingRatings(elos, s, game);
    var target := if (x, game) in cur then cur else cur[(x, game) := DefaultRating];
    assert (set p | p in s + {x} :: (p, game)) == (set p | p in s :: (p, game)) + {(x, game)};
    assert WithStartingRatings(elos, s + {x}, game).Keys == target.Keys;
  }

  lemma DequeuedTwice(players: map<PlayerId, Player>, a: set<PlayerId>, b: set<PlayerId>)
    ensures Dequeued(Dequeued(players, a), b) == Dequeued(players, a + b)
  {
    assert Dequeued(Dequeued(players, a), b).Keys == Dequeued(players, a + b).Keys;
  }

  lemma StartingRatingsTwice(elos: map<(PlayerId, GameId), Rating>, a: set<PlayerId>, b: set<PlayerId>, game: GameId)
    ensures WithStartingRatings(WithStartingRatings(elos, a, game), b, game) == WithStartingRatings(elos, a + b, game)
  {
    assert (set p | p in a + b :: (p, game)) == (set p | p in a :: (p, game)) + (set p | p in b :: (p, game));
    assert WithStartingRatings(WithStartingRatings(elos, a, game), b, game).Keys == WithStartingRatings(elos, a + b, game).Keys;
  }

  /** Creating starting ratings never overwrites a rating that exists. */
  lemma StartingRatingsGrow(elos: map<(PlayerId, GameId), Rating>, s: set<PlayerId>, game: GameId)
    ensures forall k :: k in elos ==> k in WithStartingRatings(elos, s, game) && WithStartingRatings(elos, s, game)[k] == elos[k]
  {
  }

  /** Every member of every team has left the queue; nobody else's record changed. */
  lemma CreatedMatchDequeues(players: map<PlayerId, Player>, teams: seq<seq<PlayerId>>, p: PlayerId)
    requires p in players
    ensures p in Members(teams) ==> !Dequeued(players, Members(teams))[p].inQueue
    ensures p !in Members(teams) ==> Dequeued(players, Members(teams))[p] == players[p]
  {
  }

  /**
   * After creation every member has a rating for the game: the one they had,
   * or the starting rating if they had none; nobody else gains one.
   */
  lemma StartingRatingsExactly(elos: map<(PlayerId, GameId), Rating>, s: set<PlayerId>, game: GameId, k: (PlayerId, GameId))
    ensures k in WithStartingRatings(elos, s, game) <==> k in elos || (k.0 in s && k.1 == game)
    ensures k in elos ==> WithStartingRatings(elos, s, game)[k] == elos[k]
    ensures k !in elos && k.0 in s && k.1 == game ==> WithStartingRatings(elos, s, game)[k] == DefaultRating
  {
    if k.0 in s && k.1 == game {
      var p := k.0;
      assert (p, game) in (set q | q in s :: (q, game));
      assert k == (p, game);
    }
  }

  lemma StartingRatingsNothing(elos: map<(PlayerId, GameId), Rating>, game: GameId)
    ensures WithStartingRatings(elos, {}, game) == elos
  {
  }
}
