/**
 * The records the core reads and writes: players with their queue state,
 * per-game ratings, matches with their teams, and the in-memory store that
 * stands for the database tables.
 */
module Records {
  import opened Wrappers

  /** A player is identified by their Discord id. */
  type PlayerId = int
  type GameId = int
  type CategoryId = int
  type MatchId = nat

  /** A skill rating: mean and uncertainty. */
  datatype Rating = Rating(mu: real, sigma: real)

  /** The rating model's starting values: mu = 1500, sigma = 1500 / 3 (elo.py). */
  const StartingMu: real := 1500.0
  const StartingSigma: real := 500.0
  const DefaultRating: Rating := Rating(StartingMu, StartingSigma)

  datatype Player = Player(inQueue: bool, queuesFor: set<CategoryId>, currentMatch: Option<MatchId>)

  datatype Category = Category(id: CategoryId, game: GameId, speedrun: bool)

  datatype Status =
    | WaitingForLivestreams
    | WaitingForAgrees
    | Ongoing
    | ResultContested
    | Finished
    | Cancelled

  /** A team member with the rating snapshot taken when the match was created. */
  datatype TeamPlayer = TeamPlayer(player: PlayerId, muBefore: real, sigmaBefore: real)

  datatype Team = Team(teamNum: char, members: seq<TeamPlayer>)

  datatype Match = Match(game: GameId, teams: seq<Team>, status: Status, finishedAt: Option<int>)

  /** Players of a match, team by team. */
  function MatchPlayers(m: Match): seq<PlayerId>
  {
    TeamsPlayers(m.teams)
  }

  function TeamsPlayers(teams: seq<Team>): (ps: seq<PlayerId>)
    ensures forall p :: p in ps <==> exists i, j :: 0 <= i < |teams| && 0 <= j < |teams[i].members| && teams[i].members[j].player == p
    ensures (forall t :: t in teams ==> |t.members| == 1) ==> |ps| == |teams|
  {
    if teams == [] then []
    else
      var rest := TeamsPlayers(teams[1..]);
      assert forall p :: p in rest <==> exists i, j :: 1 <= i < |teams| && 0 <= j < |teams[i].members| && teams[i].members[j].player == p by {
        forall p ensures p in rest <==> exists i, j :: 1 <= i < |teams| && 0 <= j < |teams[i].members| && teams[i].members[j].player == p {
          if p in rest {
            var i, j :| 0 <= i < |teams[1..]| && 0 <= j < |teams[1..][i].members| && teams[1..][i].members[j].player == p;
            assert teams[i + 1].members[j].player == p;
          }
          if exists i, j :: 1 <= i < |teams| && 0 <= j < |teams[i].members| && teams[i].members[j].player == p {
            var i, j :| 1 <= i < |teams| && 0 <= j < |teams[i].members| && teams[i].members[j].player == p;
            assert teams[1..][i - 1].members[j].player == p;
          }
        }
      }
      PlayersOf(teams[0].members) + rest
  }

  function PlayersOf(members: seq<TeamPlayer>): (ps: seq<PlayerId>)
    ensures |ps| == |members| && forall j :: 0 <= j < |members| ==> ps[j] == members[j].player
  {
    seq(|members|, j requires 0 <= j < |members| => members[j].player)
  }

  /** The players currently queueing (the `in_queue=True` filter). */
  function Queued(players: map<PlayerId, Player>): (q: set<PlayerId>)
    ensures forall p :: p in q <==> p in players && players[p].inQueue
  {
    set p | p in players && players[p].inQueue
  }

  predicate Distinct<T(==)>(xs: seq<T>)
  {
    forall i, j :: 0 <= i < j < |xs| ==> xs[i] != xs[j]
  }

  /**
   * The database tables the core touches. `ratingUpdates` records, in order,
   * the matches the rating update (assign_elo) was run for; the update itself
   * is not part of this model.
   */
  class Store {
    var players: map<PlayerId, Player>
    var elos: map<(PlayerId, GameId), Rating>
    var matches: seq<Match>
    var ratingUpdates: seq<MatchId>

    constructor (players: map<PlayerId, Player>, elos: map<(PlayerId, GameId), Rating>, matches: seq<Match>)
      ensures this.players == players && this.elos == elos && this.matches == matches
      ensures ratingUpdates == []
    {
      this.players := players;
      this.elos := elos;
      this.matches := matches;
      this.ratingUpdates := [];
    }
  }
}
