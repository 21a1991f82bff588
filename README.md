# WiiGolfQ backend: matchmaking, score formatting and rankings

WiiGolfQ is a competitive queue for Wii golf games. Players join a queue for
one or more categories. A matchmaker groups queued players into matches of one-player teams.
Finished matches feed a per-game rating leaderboard and a per-category score list.
This project models the three pieces of real logic in the backend and proves properties about them:

- **Matchmaking** (`Matchmaking`):
  - the matchmaker object and its admission counter;
  - candidate enumeration: every group of 2 to min(n, 8) queued players of a category;
  - the greedy loop, which takes a best-scoring group, creates its match and drops every group that overlaps it.
- **Match creation and score formatting** (`MatchCreation`, `Formatting`):
  - `create_match`:
    - letters the teams A, B, C, …;
    - takes every member out of the queue;
    - creates a starting rating only where one is missing;
    - snapshots each member's rating.
  - `ms_to_time`, `num_to_delta` and `format_score`, each with a parser proving that nothing is lost.
- **Rankings and update rules** (`Ranking`, `Views`):
  - the leaderboard and score-list queries, including the SQL `RANK()` window function (competition ranking), the best score per player, and filtering after ranking;
  - the match-status rule that decides when the rating update runs;
  - the queue-join guard on player updates.

The database is an in-memory `Records.Store`: a players map, a ratings map keyed by (player, game),
the list of matches, and `ratingUpdates`, the list of match ids the rating update was run for.
`Wrappers` holds `Option` and `Result`.

## Model

| member | source | states |
|---|---|---|
| Matchmaking.Matchmaker.constructor | wgl_api/matchmaking.py:15-16 | a new matchmaker's counter is 0 |
| Matchmaking.Matchmaker.AddPlayer | wgl_api/matchmaking.py:47-54 | the counter goes up by exactly 1 when the player is not queued and at least 2 players are; otherwise it is unchanged |
| Matchmaking.Matchmaker.Matchmake | wgl_api/matchmaking.py:56-124 | fewer than 2 queued: no matches, counter and store unchanged. At least 2 and counter > 0: counter drops by exactly 1, no matches. Otherwise the counter stays 0 and every category has at most one queued player left. The players of created matches are exactly the ones dequeued and are pairwise distinct. Every match has 2..8 one-player teams drawn from one category's queue, and each team-player carries its player's rating in the match's game. The ratings afterwards are exactly the old ones plus a starting rating for each matched player who had none in the match's game. The new matches are appended in order. When matching runs, they split into one block per category, and each block is a greedy choice made from the store the previous category's turn left |
| Matchmaking.RunCategories | wgl_api/matchmaking.py:74-121 | `for category in categories`: afterwards every category has at most one queued player; the matches are appended in order, their players are distinct, drawn from their category's queue and dequeued; the ratings are exactly the old ones plus the missing starting ratings; every team-player snapshots its rating. The matches split into one block per category; turn n starts from the store turn n-1 left, and its block is greedy for categories[n] from that store |
| Matchmaking.MatchCategory | wgl_api/matchmaking.py:76-121 | one category: created players were queued for it and are distinct; they and only they leave the queue; each gets a rating for the category's game if missing; each match is shaped 2..8 one-player teams with its players' ratings snapshotted; at most 1 player of the category stays queued. The created matches' player groups are a greedy choice over the category's pool and ratings before the turn |
| Matchmaking.CategoryRound | wgl_api/matchmaking.py:75-121 | one turn of the loop over categories: the guarantees of the first n turns extend to n + 1, the turn's start store joins the chain of start stores, and the turn's block is greedy from that store |
| Matchmaking.RoundStep | wgl_api/matchmaking.py:75-121 | the matches of one category's turn extend the earlier turns' guarantees, and the store after the turn is the start store with the turn's players dequeued and their missing ratings added |
| Matchmaking.TurnsStep | wgl_api/matchmaking.py:75-121 | a greedy turn from the store the earlier turns left extends the chain of start stores and the per-turn greedy property by one turn |
| Matchmaking.GreedyTurn | wgl_api/matchmaking.py:76-121 | one category's turn was greedy: its matches' player groups meet Greedy for the category's pool and ratings in the given store |
| Matchmaking.TurnsChain | wgl_api/matchmaking.py:74-121 | the first turn starts from the store matchmake began with, each later turn from what the turn before left (AfterTurn), and the current store is what the last turn left |
| Matchmaking.GreedyTurns | wgl_api/matchmaking.py:74-121 | turn n was greedy for categories[n] in orders[n] from its start store |
| Matchmaking.AfterTurn | wgl_api/matchmaking.py:107-116 | the store after a turn: its matches' players dequeued, their missing ratings added |
| Matchmaking.StartingRatingsFor | wgl_api/matchmaking.py:111 | the ratings after a sequence of create_match calls: each match adds the starting rating for its players in its game where one is missing; existing ratings are kept |
| Matchmaking.SameGameRatings | wgl_api/matchmaking.py:109-111 | matches of one game add exactly the starting ratings for all their players in that game |
| Matchmaking.StartingRatingsForAppend | wgl_api/matchmaking.py:109-111 | the ratings after two runs of matches in turn are the ratings after the two runs together |
| Matchmaking.PlanCategory | wgl_api/matchmaking.py:76-102 | the pool is exactly the category's queued players, without repetition. Each pick is a candidate of 2..8 distinct pool players, disjoint from the earlier picks, and at most one pool player is left unpicked. The picks are greedy (Greedy) for the pool and its ratings |
| Matchmaking.Greedy | wgl_api/matchmaking.py:100-121 | every pick is a candidate of the pool; each pick scores at least as high as every candidate disjoint from the earlier picks; afterwards every candidate overlaps some pick |
| Matchmaking.GreedyByScores | wgl_api/matchmaking.py:93-121 | picks made by the greedy loop over `match_to_score` are greedy over the candidates and their qualities |
| Matchmaking.PicksAreGroups | wgl_api/matchmaking.py:87-91 | every pick taken from the score dictionary is a repetition-free group of 2..8 pool players |
| Matchmaking.Picked | wgl_api/matchmaking.py:110 | the player group of each created match, in order |
| Matchmaking.PickBest | wgl_api/matchmaking.py:100-121 | one turn of the while loop: the pick has the highest score left; the picks and the dictionary left keep their meaning with the pick added; the pool loses the pick's players; the dictionary shrinks |
| Matchmaking.Candidates | wgl_api/matchmaking.py:87-91 | `possible_matches`: the r-combinations of the pool for r from 2 to min(n, 8); their properties are CandidatesAreGroups, EveryGroupIsACandidate and CandidatesAreUnique |
| Matchmaking.Combinations | wgl_api/matchmaking.py:88-91 | `itertools.combinations(pool, r)`: with the first player and r - 1 of the rest, or r of the rest; CombinationsSound and CombinationsComplete state what it yields |
| Matchmaking.SelectMatches | wgl_api/matchmaking.py:100-121 | every pick is a scored group; each pick is disjoint from the earlier picks. Each pick scores at least as high as every group still disjoint from the earlier picks (the `max` at line 102). Afterwards every group overlaps some pick, so the dictionary is empty, and the pool is the original pool minus the picked players |
| Matchmaking.DropOverlapping | wgl_api/matchmaking.py:119-121 | a group is kept iff it shares no player with the pick, with its score unchanged |
| Matchmaking.RemovePlayers | wgl_api/matchmaking.py:115-116 | removing the pick's players one by one leaves the pool without every player used so far |
| Matchmaking.RemoveFirst | wgl_api/matchmaking.py:116 | `list.remove` deletes one occurrence of the player: one element fewer, and the same elements with that one taken out (as a multiset) |
| Matchmaking.Without | wgl_api/matchmaking.py:115-116 | the pool without a set of players keeps exactly the other players, still without repetition |
| Matchmaking.RemoveFromWithout | wgl_api/matchmaking.py:116 | removing one more player from a repetition-free pool equals excluding it from the start |
| Matchmaking.SharesPlayerIff | wgl_api/matchmaking.py:120 | the `any(player in match …)` test holds iff the two groups share a player |
| Matchmaking.MaxExists | wgl_api/matchmaking.py:102 | a non-empty score dictionary has a key of maximal score, and the lemma names one |
| Matchmaking.CommitMatches | wgl_api/matchmaking.py:107-116 | one create_match per pick, in order, with one-player teams; the created matches' players are the picks' players in order; exactly they leave the queue; every team-player snapshots its rating |
| Matchmaking.CommitOne | wgl_api/matchmaking.py:109-112 | one create_match for pick k, with one-player teams: the match is made for the pick, and the commit guarantees cover one more pick |
| Matchmaking.Snapshots | wgl_api/utils.py:25-31 | every team-player of the match carries the mu and sigma of its player's rating in the match's game |
| Matchmaking.SnapshotsKept | wgl_api/utils.py:25-28 | ratings that only gain keys keep the snapshots right: a later create_match never rewrites an earlier rating |
| Matchmaking.Singletons | wgl_api/matchmaking.py:110 | each player of the pick becomes a team of its own, in order |
| Matchmaking.SingletonMembers | wgl_api/matchmaking.py:110 | the members of the one-player teams are the pick's players |
| Matchmaking.CreatedForSingletons | wgl_api/matchmaking.py:110-111 | a match created from one-player teams has one team per player, in order, with one member each, and its team-players snapshot their ratings |
| Matchmaking.FlatDistinct | wgl_api/matchmaking.py:115-121 | disjoint, repetition-free picks list every player at most once |
| Matchmaking.CategoryPool | wgl_api/matchmaking.py:76 | the category's players, in the given order: exactly the ordered players who are queued and queue for the category |
| Matchmaking.PoolIsQueue | wgl_api/matchmaking.py:76 | with an order listing every player, the pool is the category's whole queue, without repetition |
| Matchmaking.PoolRatings | wgl_api/matchmaking.py:81-85 | the category's `elos` set: exactly the pool players with a rating for the category's game, with that rating |
| Matchmaking.Scores | wgl_api/matchmaking.py:87-96 | `match_to_score` has exactly the candidates as keys, each mapped to its quality; every key is a non-empty repetition-free group of pool players |
| Matchmaking.CandidatesAreGroups | wgl_api/matchmaking.py:87-91 | every candidate is a repetition-free group of pool players of size 2..min(n, 8) |
| Matchmaking.EveryGroupIsACandidate | wgl_api/matchmaking.py:87-91 | every set of 2..8 pool players is a candidate |
| Matchmaking.CandidatesAreUnique | wgl_api/matchmaking.py:87-91 | no set of players appears as two candidates (`combinations` yields each subset once) |
| Matchmaking.CombinationsUnique | wgl_api/matchmaking.py:88-91 | two r-combinations of a repetition-free pool with the same players are equal |
| Matchmaking.NoCandidatesBelowTwo | wgl_api/matchmaking.py:78-79 | a category with fewer than 2 queued players has no candidates |
| Matchmaking.CombinationsSound | wgl_api/matchmaking.py:88-91 | every r-combination has r players, all taken from the pool, and none repeated when the pool has no repeats |
| Matchmaking.CombinationsComplete | wgl_api/matchmaking.py:88-91 | every r-subset of the pool is some r-combination |
| Matchmaking.AtMostOneLeft | wgl_api/matchmaking.py:100-121 | once every candidate overlaps a pick, at most one pool player is left unpicked |
| Matchmaking.Quality | wgl_api/matchmaking.py:18-45 | the score of a group of n players is in (0, n²]: n² divided by at least 1 |
| Matchmaking.QualityOfAtMostOneRated | wgl_api/matchmaking.py:27-45 | with at most one rated member both spreads are 0 and the score is exactly n² |
| Matchmaking.QualityReadsOnlyMembers | wgl_api/matchmaking.py:29-34 | two rating tables that agree on the group's members give the group the same score |
| Matchmaking.Stdev | wgl_api/matchmaking.py:28-36 | the deviation is never negative, for any abstract square root |
| Matchmaking.StdevOfAtMostOne | wgl_api/matchmaking.py:9-11 | one value (or none) has deviation 0 |
| Matchmaking.Variance | wgl_api/matchmaking.py:10-11 | the variance is never negative |
| Matchmaking.QueuedForDequeued | wgl_api/matchmaking.py:76 | taking players out of the queue removes exactly them from every category's queue |
| MatchCreation.CreateMatch | wgl_api/utils.py:4-36 | the match has the given game and one team per given team, lettered A, B, C, … in order. Every member of every team leaves the queue and nobody else changes. Every member has a rating for the game afterwards: the old one, or the starting rating if none existed. Each team-player carries its member's mu and sigma. The match is appended to the matches |
| MatchCreation.BuildTeams | wgl_api/utils.py:14-34 | the loop over teams: letters in order, members dequeued and rated, snapshots taken |
| MatchCreation.AddMembers | wgl_api/utils.py:16-32 | the loop over one team's players: each leaves the queue, gets a rating if it has none, and its team-player snapshots that rating |
| MatchCreation.Dequeued | wgl_api/utils.py:21-23 | the players after `in_queue = False` for a set of players: those players no longer queued, every other record unchanged (stated by CreatedMatchDequeues) |
| MatchCreation.WithStartingRatings | wgl_api/utils.py:25-28 | `Elo.objects.create` where no rating exists for (player, game): stated by StartingRatingsExactly and StartingRatingsGrow |
| MatchCreation.Snapshot | wgl_api/utils.py:30-31 | a team-player with the rating's mu and sigma as mu_before and sigma_before |
| MatchCreation.DequeuedTwice | wgl_api/utils.py:22-23 | dequeuing two groups in turn is dequeuing their union |
| MatchCreation.StartingRatingsTwice | wgl_api/utils.py:26-28 | creating starting ratings for two groups in turn is doing it for their union |
| MatchCreation.StartingRatingsGrow | wgl_api/utils.py:26-28 | creating starting ratings never overwrites an existing rating |
| MatchCreation.StartingRatingsExactly | wgl_api/utils.py:26-28 | afterwards a (player, game) key holds a rating iff it did before or the player is a member and the game is this one; a new rating is the starting rating |
| MatchCreation.CreatedMatchDequeues | wgl_api/utils.py:14-23 | every team member ends with in_queue false; any other player's record is unchanged |
| Formatting.Parts | wgl_api/utils.py:40-46 | minutes are in [0, 59] and seconds under 60 s; hours·3600000 + minutes·60000 + seconds = ms; hours are non-negative for non-negative ms |
| Formatting.MsToTime | wgl_api/utils.py:39-53 | `ms_to_time`: hours, two-digit minutes and zero-padded seconds when there are hours; minutes and padded seconds when there are minutes; otherwise the seconds alone, with three decimals. MsToTimeShape and ParseMsToTime state its output |
| Formatting.ParseTime | wgl_api/utils.py:39-53 | the reader for ms_to_time's output: one, two or three colon-separated fields; ParseMsToTime proves it inverts MsToTime |
| Formatting.NumToDelta | wgl_api/utils.py:56-62 | `num_to_delta`: "+n" for positive n, "±0" for 0, the plain number otherwise; NumToDeltaSign and ParseNumToDelta state its output |
| Formatting.ParseDelta | wgl_api/utils.py:56-62 | the reader for num_to_delta's output; ParseNumToDelta proves it inverts NumToDelta |
| Formatting.FormatScore | wgl_api/utils.py:65-72 | `format_score`: the em dash for no score, ms_to_time in a speedrun category, num_to_delta otherwise; ParseFormatScore states that it loses nothing |
| Formatting.ParseScore | wgl_api/utils.py:65-72 | the reader for format_score's output; ParseFormatScore proves it inverts FormatScore |
| Formatting.MsToTimeShape | wgl_api/utils.py:48-53 | with hours: three fields, minutes two digits, seconds six characters with the point third. With minutes only: two fields. Otherwise: the seconds alone |
| Formatting.ParseMsToTime | wgl_api/utils.py:39-53 | reading ms_to_time's output back as hours, minutes, seconds and milliseconds gives the input back |
| Formatting.ParseNumToDelta | wgl_api/utils.py:56-62 | reading num_to_delta's output back gives the number back |
| Formatting.NumToDeltaSign | wgl_api/utils.py:56-62 | the output starts with "+" iff the number is positive, with "-" iff negative, and is "±0" iff it is 0 |
| Formatting.ParseFormatScore | wgl_api/utils.py:65-72 | format_score loses nothing: a missing score reads back as missing, a number as that number, in either kind of category |
| Formatting.FormattedNumberIsNotDash | wgl_api/utils.py:65-72 | no number formats as the em dash, so "—" means exactly "no score" |
| Formatting.ParseIntToString | wgl_api/utils.py:49-62 | Python's decimal printing of an integer reads back to the integer |
| Formatting.ParsePadded | wgl_api/utils.py:49 | zero padding to a width (`:02`, `:06.3f`) does not change the value read back |
| Ranking.Leaderboard | wgl_api/views.py:358-365 | the board holds exactly the game's ratings (as a multiset), sorted by mu descending. Each row's rank is 1 + the number of the game's ratings with strictly greater mu |
| Ranking.LeaderboardRows | wgl_api/views.py:362 | a rating row is on the board iff it belongs to the game |
| Ranking.LeaderboardRankIsPositional | wgl_api/views.py:363-364 | each rank is 1 + the number of rows above it on the board with a different mu: RANK() over the sorted order |
| Ranking.LeaderboardRankOrder | wgl_api/views.py:363 | a strictly higher mu gives a strictly smaller rank; equal mu, equal rank |
| Ranking.FinishedRows | wgl_api/views.py:392 | a row is scored iff it belongs to the category and its match is Finished |
| Ranking.OverallRankBounds | wgl_api/views.py:397-400 | an overall rank lies between 1 and the number of rows |
| Ranking.OverallRankOrder | wgl_api/views.py:397-400 | a strictly lower score (a present score before a missing one) ranks strictly higher; equal scores rank equally, whatever the category's speedrun flag |
| Ranking.CompetitionRankingExample | wgl_api/views.py:397-400 | the scores 10, 10, 20, 30 rank 1, 1, 3, 4 |
| Ranking.OverallRank | wgl_api/views.py:397-400 | `overall_rank`: 1 + the number of rows with a strictly better score (RANK() over score ascending, nulls last); OverallRankBounds and OverallRankOrder state its properties |
| Ranking.PlayerRank | wgl_api/views.py:401-405 | `player_rank`: the same RANK() partitioned by player; PlayerRankIsOwnRank and PlayerRankAtMostOverall state its properties |
| Ranking.PlayerRankIsOwnRank | wgl_api/views.py:401-405 | player_rank is the overall rank computed over the player's own rows |
| Ranking.PlayerRankAtMostOverall | wgl_api/views.py:396-406 | a row's player_rank never exceeds its overall rank |
| Ranking.EarlierIsStrictWeakOrder | wgl_api/views.py:412-416 | (score, start time) ordering is irreflexive, asymmetric and transitive, and incomparability is transitive |
| Ranking.IsBest | wgl_api/views.py:412-416 | `distinct("player")` over (player, score, start time): no row of the player comes before the row, and among full ties it is the first; BestIsUnique and BestExists state that it picks one row per player |
| Ranking.BestRows | wgl_api/views.py:412-416 | `best_scores_per_player`: the best rows in table order; BestRowsFrom states its membership |
| Ranking.BestIsUnique | wgl_api/views.py:412-416 | a player has at most one best row |
| Ranking.BestExists | wgl_api/views.py:412-416 | every player with a row has a best row |
| Ranking.BestRowsFrom | wgl_api/views.py:412-416 | the best rows are exactly the rows that are their player's best |
| Ranking.OneBestRowPerPlayer | wgl_api/views.py:412-431 | in the ranked list the query builds, a row has a non_obsolete_rank iff it is its player's best row. Every player with a finished row has one such row, and two such rows of the same player are the same row |
| Ranking.AnnotateAt | wgl_api/views.py:396-431 | the ranked list the query builds has one entry per finished row, in order, with its overall and player ranks, and an entry has a non_obsolete_rank iff its row is its player's best (MarksBest) |
| Ranking.AnnotateAsWritten | wgl_api/views.py:390-431 | the annotations as the query computes them: overall_rank and player_rank on every finished row; non_obsolete_rank, on the best rows only, is the same unpartitioned RANK() as overall_rank. AnnotateAt and NonObsoleteRankIsOverall state it |
| Ranking.NonObsoleteRankIsOverall | wgl_api/views.py:419-431 | as written, a non_obsolete_rank, where present, equals the row's overall rank |
| Ranking.Annotate | wgl_api/views.py:419-431 | the evidently intended annotations: as AnnotateAsWritten, except that a best row's non_obsolete_rank is its RANK() among the best rows. AnnotateIntendedAt and NonObsoleteRankBounds state it |
| Ranking.AnnotateIntendedAt | wgl_api/views.py:396-431 | the intended ranked list marks the best rows in the same way (MarksBest) |
| Ranking.MarksBest | wgl_api/views.py:396-431 | a ranked list of the finished rows: one entry per row, in order, with its overall and player ranks, and a non_obsolete_rank exactly on the best rows |
| Ranking.MarkedOncePerPlayer | wgl_api/views.py:412-431 | in any list that marks the best rows, each player with a row has exactly one entry carrying a non_obsolete_rank |
| Ranking.NonObsoleteRankBounds | wgl_api/views.py:419-431 | a non_obsolete_rank (computed among the best rows) lies between 1 and the row's overall rank |
| Ranking.NonObsoleteRankAsWrittenIsOverall | wgl_api/views.py:419-431 | as written, a best row's non_obsolete_rank is its overall rank: in the worked history, player 1's best 40 gets 3 |
| Ranking.NonObsoleteRankWithinBestRows | wgl_api/views.py:419-431 | as intended, the same row ranks 2 among the best rows (30, 40), player 2's best ranks 1, and a non-best row has none |
| Ranking.TwoPlayerBestRows | wgl_api/views.py:412-416 | in the worked history the best rows are player 1's 40 and player 2's 30 |
| Ranking.ScoreList | wgl_api/views.py:390-446 | `ScoresDetail.get_queryset`: the annotations as written, then the filters (Shown). ScoreListForPlayer and ScoreListDefault state what it returns |
| Ranking.Shown | wgl_api/views.py:433-444 | the filters after the CTE: a given player keeps that player's rows; with neither a player nor the obsolete flag only rows with a non_obsolete_rank are kept; filtering never changes a rank |
| Ranking.ShownDefault | wgl_api/views.py:440-444 | the default filter of a list that marks the best rows keeps exactly the entries with a non_obsolete_rank, at most one per player |
| Ranking.ScoreListIntended | wgl_api/views.py:390-446 | the score list over the intended annotations (Annotate), with the same filters |
| Ranking.ScoreListForPlayer | wgl_api/views.py:433-438 | with a player given, the list holds exactly that player's ranked rows, with the ranks of the full list |
| Ranking.ScoreListDefault | wgl_api/views.py:440-444 | with neither a player nor the obsolete flag, the list holds exactly the rows with a non_obsolete_rank, at most one per player, and each shows its overall rank as its non_obsolete_rank |
| Ranking.ScoreListIntendedDefault | wgl_api/views.py:419-444 | the intended default list holds exactly the best rows, at most one per player, each with a non_obsolete_rank between 1 and its overall rank |
| Views.UpdateMatch | wgl_api/views.py:174-199 | unknown match: NotFound, nothing changes. Otherwise the match gets the requested status, or keeps its own. A request for Finished leaves the match Finished with the finish time set. The rating update is recorded iff Finished is requested and the previous status was not Result contested: a contested result, or any other request, records none. The model stores no rating change: the rating update is only the `ratingUpdates` event, so players and ratings stay as they were |
| Views.TriggersRatingUpdate | wgl_api/views.py:182-191 | the rule for running the rating update: Finished is requested and the previous status was not Result contested |
| Views.Updated | wgl_api/views.py:179-195 | the match keeps its game and teams; a requested status replaces the old one; only a request for Finished changes the finish time, to now |
| Views.FinishingTwiceRatesTwice | wgl_api/views.py:182-191 | requesting Finished on an already Finished match triggers the rating update again |
| Views.UpdateIdempotent | wgl_api/views.py:193-195 | repeating a request gives the same match; only a repeated Finished request moves the finish time |
| Views.UpdatePlayer | wgl_api/views.py:135-147 | unknown player: NotFound. A request for in_queue = true fails iff the player has a current match (AlreadyInMatch, checked first) or queues for no category (NotQueueing); a failure changes nothing. On success the requested flag is stored. The counter goes up by 1 exactly when the joining player was not queued and at least 2 were, per add_player. Nothing else changes |
| Views.JoinRefusal | wgl_api/views.py:139-143 | a player may join iff they have no current match and queue for some category; a current match is reported first |
| Views.WithQueueFlag | wgl_api/views.py:147 | a given in_queue replaces the stored one; nothing else about the player changes |
| Views.JoinAddsToQueue | wgl_api/views.py:139-147 | joining adds exactly that player to the queue |
| Views.LeaveRemovesFromQueue | wgl_api/views.py:147 | leaving removes exactly that player from the queue |

## Left out

- The database, Django ORM and HTTP layer are not modelled. The store is four in-memory collections. `get_object_or_404` and the serializer become `Result` values, and `print` is dropped.
- The random orders `order_by("?")` (wgl_api/matchmaking.py:74, 76) are parameters. Categories come as a given sequence, and each category gets a given player order that lists every player. Ties in `max` are resolved by an arbitrary maximal group.
- Matchmaking.Quality: floating point is not modelled. The score is computed over `real`. The square root is a parameter, required only to give 0 at 0 and to be non-negative on non-negatives. The score's bounds and its dependence on members' ratings alone hold for any such function.
- Matchmaking.MatchCategory: the model first selects every pick (PlanCategory) and then creates the matches (CommitMatches). The source calls create_match inside the while loop (wgl_api/matchmaking.py:100-121). Both orders give the same result, because create_match neither reads nor writes `match_to_score` or `category_players`, and the scores are all computed before the loop.
- Matchmaking.Matchmaker.Matchmake: the `len(players) > 1` test at wgl_api/matchmaking.py:100 reads the queryset taken before matching and is not modelled. The loop ends because the dictionary empties.
- Matchmaking.Matchmaker.Matchmake: the match is created with the category's game. The source passes the category itself as `game` (wgl_api/matchmaking.py:111) where create_match expects a game. The model uses `category.game`, the key under which the same loop read the ratings (line 83).
- The initial status of a new match is a parameter. The Match model's default is not part of this model.
- Views.UpdateMatch: the rating update `assign_elo` (imported at wgl_api/views.py:23, called at line 191) has no body in wgl_api/elo.py, which defines only `STARTING_ELO` and `MODEL`. It is modelled as an event only: the match id is appended to `ratingUpdates`, and no rating changes. The frame `db.elos == old(db.elos)` holds because of this reduction, not because the source leaves ratings alone.
- Records.DefaultRating: a rating created by create_match (wgl_api/utils.py:28) is assumed to start at mu 1500 and sigma 500. These are the rating model's values (`MODEL` in wgl_api/elo.py:5-9). The Elo model in wgl_api/models.py:106-110 has a single `elo` decimal field, with no mu, sigma or default, so these values are an assumption.
- MatchCreation.CreateMatch: requires at most 26 teams. In the source a 27th team raises IndexError at wgl_api/utils.py:15, after the match and 26 teams already exist. That error path is not modelled. The only caller passes one-player teams of a group of at most 8 players (wgl_api/matchmaking.py:88, 110), so the requires holds wherever create_match is called.
- Formatting.MsToTime: works on exact integers with Python's floor division and non-negative remainder. It is modelled for every integer, negative ones included. The rounding of `ms / 1000` as a float is not modelled, so inputs beyond about 2^52 are out of reach.
- Python's `str.format` is modelled only for the three formats used: `{hours}`, `{minutes:02}` and `{seconds:06.3f}`/`{seconds:.3f}`.
- Views.UpdateMatch: only valid statuses can be requested. A serializer rejection of an invalid status is not modelled; in the source it would come after the finish time was set and the rating update had run. The retroactive result-change stub (wgl_api/views.py:186-188) does nothing, and neither does the model.
- Views.UpdatePlayer: only the in_queue field of the request is modelled. Other fields (username, categories) pass through the serializer unmodelled.
- Views.UpdatePlayer: the guards and add_player run only when the request's in_queue is the JSON value true (`is True`, wgl_api/views.py:139). A form-encoded "true" or "1" skips them, although the serializer would still accept the value. The model takes in_queue as an already typed optional boolean, so this path is not modelled.
- Views.UpdatePlayer: the view's serializer (FullPlayerSerializer, wgl_api/serializers.py:20-30) lists no in_queue field, so as written the flag might not be stored at all. The model assumes the successful update stores the requested flag.
- Ranking.IsBest: among rows that tie on both score and start time, `distinct("player")` leaves the choice to the database. The model takes the first such row in table order.
- Ranking.ScoreList: the order of the returned rows is not modelled, because the query over the CTE has no ORDER BY. The model keeps table order and states membership and ranks.
- Ranking.Leaderboard: the order among rows with equal mu is left to the database. The model fixes one order and states the properties every order shares.
- The ranking rules order scores ascending in every category. The speedrun flag only changes how a score is printed. The ranking is the code's: the leaderboard is per game, not per category.
- `ReportScore`, `PlayerList.create`, the list views, `models.py`, serializers, urls and migrations are not part of this model.

## Findings

| source | as written | input that shows it | evidently intended | confidence | as-written member | corrected member |
|---|---|---|---|---|---|---|
| wgl_api/views.py:419-431 | `non_obsolete_rank` is a `Rank()` window over all finished rows of the category, only attached to best rows, so it always equals `overall_rank` | player 1 scores 50, 40, 60 and player 2 scores 30, 35: player 1's best row (40) gets non_obsolete_rank 3 although only 30 is better among the best rows | rank each best row among the best rows only, giving 2 | not executed | Ranking.NonObsoleteRankAsWrittenIsOverall | Ranking.ScoreListIntendedDefault |

`Ranking.ScoreList` models the query as written, so its default list shows each best row with its overall rank as non_obsolete_rank (`Ranking.ScoreListDefault`). `Ranking.ScoreListIntended` is the same list over the corrected annotations (`Ranking.Annotate`). `Ranking.ScoreListIntendedDefault` and `Ranking.NonObsoleteRankBounds` state its ranks, and `Ranking.NonObsoleteRankWithinBestRows` works the example.
