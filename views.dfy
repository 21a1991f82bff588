/**
 * The two update endpoints with logic of their own: a match status update,
 * which decides when the rating update runs, and a player update, which
 * decides when a player may join the queue and tells the matchmaker.
 */
module Views {
  import opened Wrappers
  import opened Records
  import opened Matchmaking

  /** The API errors of the two endpoints. */
  datatype ApiError =
    | NotFound        // get_object_or_404
    | AlreadyInMatch  // "Player is already in a match"
    | NotQueueing     // "Player is not queueing for a category"

  // ---------------------------------------------------------------------------
  // MatchDetail.update
  // ---------------------------------------------------------------------------

  /** The rating update runs when Finished is requested, unless the result was contested. */
  predicate TriggersRatingUpdate(previous: Status, requested: Option<Status>)
  {
    requested == Some(Status.Finished) && previous != ResultContested
  }

  /**
   * The match after the update: a requested status replaces the old one
   * (a partial update), and a request for Finished stamps the finish time.
   */
  function Updated(m: Match, requested: Option<Status>, now: int): (r: Match)
    ensures r.game == m.game && r.teams == m.teams
    ensures requested.Some? ==> r.status == requested.value
    ensures requested.None? ==> r.status == m.status
    ensures requested == Some(Status.Finished) ==> r.finishedAt == Some(now)
    ensures requested != Some(Status.Finished) ==> r.finishedAt == m.finishedAt
  {
    var stamped := if requested == Some(Status.Finished) then m.(finishedAt := Some(now)) else m;
    stamped.(status := requested.GetOr(m.status))
  }

  /**
   * MatchDetail.update on match `id` at time `now`. The rating update is
   * recorded by appending the match id to db.ratingUpdates.
   */
  method UpdateMatch(db: Store, id: int, requested: Option<Status>, now: int) returns (r: Result<Match, ApiError>)
    modifies db
    ensures r.Failure? <==> !(0 <= id < |old(db.matches)|)
    ensures r.Failure? ==> r.error == NotFound && unchanged(db)
    ensures r.Success? ==>
      r.value == Updated(old(db.matches)[id], requested, now) &&
      db.matches == old(db.matches)[id := r.value] &&
      db.ratingUpdates == old(db.ratingUpdates) + (if TriggersRatingUpdate(old(db.matches)[id].status, requested) then [id] else [])
    ensures r.Success? && requested == Some(Status.Finished) ==> r.value.status == Status.Finished && r.value.finishedAt == Some(now)
    ensures r.Success? && (old(db.matches)[id].status == ResultContested || requested != Some(Status.Finished)) ==>
      db.ratingUpdates == old(db.ratingUpdates)
    ensures db.players == old(db.players) && db.elos == old(db.elos)
  {
    if !(0 <= id < |db.matches|) {
      return Failure(NotFound);
    }
    var m := db.matches[id];
    var previous := m.status;
    if requested == Some(Status.Finished) {
      m := m.(finishedAt := Some(now));
      if previous == ResultContested {
        // the retroactive result change is a stub in the source
      } else {
        db.ratingUpdates := db.ratingUpdates + [id];
      }
    }
    if requested.Some? {
      m := m.(status := requested.value);
    }
    db.matches := db.matches[id := m];
    return Success(m);
  }

  /**
   * Requesting Finished twice rates the match twice: the second request
   * sees Finished, which is not a contested result.
   */
  lemma FinishingTwiceRatesTwice(m: Match, now: int, later: int)
    requires m.status != ResultContested
    ensures TriggersRatingUpdate(m.status, Some(Status.Finished))
    ensures var once := Updated(m, Some(Status.Finished), now);
      TriggersRatingUpdate(once.status, Some(Status.Finished)) &&
      Updated(once, Some(Status.Finished), later).finishedAt == Some(later)
  {
  }

  /** The same request applied twice gives the same match, apart from the finish time. */
  lemma UpdateIdempotent(m: Match, requested: Option<Status>, now: int, later: int)
    ensures var once := Updated(m, requested, now);
      var twice := Updated(once, requested, later);
      twice.status == once.status && twice.teams == once.teams && twice.game == once.game &&
      (requested != Some(Status.Finished) ==> twice == once)
  {
  }

  // ---------------------------------------------------------------------------
  // PlayerDetail.update
  // ---------------------------------------------------------------------------

  /** Why a player may not join the queue, if they may not. */
  function JoinRefusal(p: Player): (e: Option<ApiError>)
    ensures e.None? <==> p.currentMatch.None? && p.queuesFor != {}
    ensures e == Some(AlreadyInMatch) <==> p.currentMatch.Some?
  {
    if p.currentMatch.Some? then Some(AlreadyInMatch)
    else if p.queuesFor == {} then Some(NotQueueing)
    else None
  }

  /** The player after the update: a given in_queue flag replaces the old one. */
  function WithQueueFlag(p: Player, inQueue: Option<bool>): (r: Player)
    ensures r.queuesFor == p.queuesFor && r.currentMatch == p.currentMatch
    ensures r.inQueue == if inQueue.Some? then inQueue.value else p.inQueue
  {
    p.(inQueue := inQueue.GetOr(p.inQueue))
  }

  /**
   * The request bumps the matchmaker's counter: it sets in_queue, the player
   * was not queued yet, and enough players were queued for a match.
   */
  predicate AdmitsNewPlayer(players: map<PlayerId, Player>, id: PlayerId, inQueue: Option<bool>)
  {
    inQueue == Some(true) && id !in Queued(players) && |Queued(players)| >= MinMatchSize
  }

  /**
   * PlayerDetail.update of player `id`. Only a request that sets in_queue
   * to true is checked; it reaches add_player before the flag is stored.
   */
  method UpdatePlayer(db: Store, mm: Matchmaker, id: PlayerId, inQueue: Option<bool>) returns (r: Result<Player, ApiError>)
    modifies db, mm
    ensures r.Failure? <==>
      id !in old(db.players) || (inQueue == Some(true) && JoinRefusal(old(db.players)[id]).Some?)
    ensures r.Failure? ==> unchanged(db) && unchanged(mm)
    ensures r.Failure? && id !in old(db.players) ==> r.error == NotFound
    ensures r.Failure? && id in old(db.players) ==> Some(r.error) == JoinRefusal(old(db.players)[id])
    ensures r.Success? ==>
      r.value == WithQueueFlag(old(db.players)[id], inQueue) &&
      db.players == old(db.players)[id := r.value]
    ensures r.Success? && AdmitsNewPlayer(old(db.players), id, inQueue) ==> mm.counter == old(mm.counter) + 1
    ensures r.Success? && !AdmitsNewPlayer(old(db.players), id, inQueue) ==> mm.counter == old(mm.counter)
    ensures db.elos == old(db.elos) && db.matches == old(db.matches) && db.ratingUpdates == old(db.ratingUpdates)
  {
    if id !in db.players {
      return Failure(NotFound);
    }
    var p := db.players[id];
    if inQueue == Some(true) {
      var refusal := JoinRefusal(p);
      if refusal.Some? {
        return Failure(refusal.value);
      }
      mm.AddPlayer(db, id);
    }
    var updated := WithQueueFlag(p, inQueue);
    db.players := db.players[id := updated];
    return Success(updated);
  }

  /** Joining adds exactly that player to the queue. */
  lemma JoinAddsToQueue(players: map<PlayerId, Player>, id: PlayerId)
    requires id in players
    ensures Queued(players[id := WithQueueFlag(players[id], Some(true))]) == Queued(players) + {id}
  {
  }

  /** Leaving removes exactly that player from the queue. */
  lemma LeaveRemovesFromQueue(players: map<PlayerId, Player>, id: PlayerId)
    requires id in players
    ensures Queued(players[id := WithQueueFlag(players[id], Some(false))]) == Queued(players) - {id}
  {
  }
}
