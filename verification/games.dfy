/**
 * The game registry of samples/project-hostducks/Program.cs: the listings found by the
 * matchmaker search, the permanently banned game ids, how many clients each game has
 * served, and how often joining it failed.
 */
module Games {
  import opened MessageApi

  const MAX_CLIENTS_PER_GAME := 5
  const MAX_JOIN_FAILURES := 3

  /** Adding one search batch: banned ids are skipped and an id already listed keeps its listing. */
  function Merge(available: map<int, GameListing>, banned: set<int>, games: seq<GameListing>): (m: map<int, GameListing>)
    ensures forall id :: id in available ==> id in m && m[id] == available[id]
  {
    if games == [] then available
    else
      var prev := Merge(available, banned, games[..|games| - 1]);
      var g := games[|games| - 1];
      if g.gameId in banned || g.gameId in prev then prev else prev[g.gameId := g]
  }

  /** The game ids of a search batch. */
  function BatchIds(games: seq<GameListing>): set<int>
  {
    set k | 0 <= k < |games| :: games[k].gameId
  }

  /** A game is listed after the merge exactly when it was before, or it is in the batch and not banned. */
  lemma {:induction false} MergeKeys(available: map<int, GameListing>, banned: set<int>, games: seq<GameListing>)
    ensures forall id :: id in Merge(available, banned, games) <==>
      id in available || (id !in banned && id in BatchIds(games))
  {
    if games != [] {
      var init := games[..|games| - 1];
      MergeKeys(available, banned, init);
      assert games == init + [games[|games| - 1]];
      assert BatchIds(games) == BatchIds(init) + {games[|games| - 1].gameId};
    }
  }

  /** A newly listed game holds the first listing in the batch with its id (`TryAdd` keeps the first). */
  lemma {:induction false} MergeKeepsFirst(available: map<int, GameListing>, banned: set<int>, games: seq<GameListing>)
    ensures var m := Merge(available, banned, games);
      forall id :: id in m && id !in available ==>
        exists k :: 0 <= k < |games| && games[k] == m[id] && games[k].gameId == id &&
          forall j :: 0 <= j < k ==> games[j].gameId != id
  {
    if games != [] {
      var init := games[..|games| - 1];
      var prev := Merge(available, banned, init);
      var m := Merge(available, banned, games);
      MergeKeepsFirst(available, banned, init);
      MergeKeys(available, banned, init);
      forall id | id in m && id !in available
        ensures exists k :: (0 <= k < |games| && games[k] == m[id] && games[k].gameId == id &&
          forall j :: 0 <= j < k ==> games[j].gameId != id)
      {
        if id in prev {
          var k :| 0 <= k < |init| && init[k] == prev[id] && init[k].gameId == id &&
            forall j :: 0 <= j < k ==> init[j].gameId != id;
          assert games[k] == init[k];
          assert forall j :: 0 <= j < k ==> games[j] == init[j];
        } else {
          var k := |games| - 1;
          assert forall j :: 0 <= j < k ==> games[j] == init[j];
          assert games[k] == m[id];
        }
      }
    }
  }

  class GameRegistry {
    /** `_availableGames` */
    var available: map<int, GameListing>
    /** `_bannedGames`: never shrinks */
    var banned: set<int>
    /** `_gameUsage`: clients that used each game */
    var usage: map<int, int>
    /** `_gameJoinFailCounter` */
    var joinFailures: map<int, int>
    var completedGames: int
    var failedGames: int
    /** `_hasGames`: set once some game is listed, never reset */
    var hasGames: bool

    /** A banned game is never listed, and counters below their thresholds stay in the maps. */
    ghost predicate Valid()
      reads this
    {
      && banned !! available.Keys
      && (forall id :: id in usage ==> usage[id] < MAX_CLIENTS_PER_GAME)
      && (forall id :: id in joinFailures ==> 1 <= joinFailures[id] < MAX_JOIN_FAILURES)
    }

    constructor ()
      ensures Valid()
      ensures available == map[] && banned == {} && usage == map[] && joinFailures == map[]
      ensures completedGames == 0 && failedGames == 0 && !hasGames
    {
      available := map[];
      banned := {};
      usage := map[];
      joinFailures := map[];
      completedGames := 0;
      failedGames := 0;
      hasGames := false;
    }

    /**
     * The merge after one successful, non-empty search: each game not banned and not yet
     * listed is added, then `hasGames` is raised if anything is listed.
     */
    method MergeGames(games: seq<GameListing>)
      requires Valid()
      modifies this`available, this`hasGames
      ensures Valid()
      ensures available == Merge(old(available), banned, games)
      ensures hasGames == (old(hasGames) || (|games| > 0 && |available| > 0))
    {
      var i := 0;
      while i < |games|
        invariant 0 <= i <= |games|
        invariant available == Merge(old(available), banned, games[..i])
        invariant banned !! available.Keys
        invariant hasGames == old(hasGames)
      {
        assert games[..i + 1][..i] == games[..i];
        var game := games[i];
        if game.gameId !in banned && game.gameId !in available {
          available := available[game.gameId := game];
        }
        i := i + 1;
      }
      assert games[..|games|] == games;
      if |games| > 0 && |available| > 0 && !hasGames {
        hasGames := true;
      }
    }

    /**
     * `UpdateGameUsage`: an untracked game is left alone; a tracked one counts one more
     * client and, on reaching 5, leaves the listing and the usage map and counts as completed.
     */
    method UpdateGameUsage(gameId: int)
      requires Valid()
      modifies this`usage, this`available, this`completedGames
      ensures Valid()
      ensures gameId !in old(usage) ==>
        usage == old(usage) && available == old(available) && completedGames == old(completedGames)
      ensures gameId in old(usage) && old(usage)[gameId] + 1 >= MAX_CLIENTS_PER_GAME ==>
        && usage == old(usage) - {gameId} && available == old(available) - {gameId}
        && completedGames == old(completedGames) + 1
      ensures gameId in old(usage) && old(usage)[gameId] + 1 < MAX_CLIENTS_PER_GAME ==>
        && usage == old(usage)[gameId := old(usage)[gameId] + 1] && available == old(available)
        && completedGames == old(completedGames)
    {
      if gameId in usage {
        var used := usage[gameId] + 1;
        if used >= MAX_CLIENTS_PER_GAME {
          completedGames := completedGames + 1;
          available := available - {gameId};
          usage := usage - {gameId};
        } else {
          usage := usage[gameId := used];
        }
      }
    }

    /**
     * `UpdateGameJoinFailCounter`: one more failure for the game; the third removes it from
     * the listing and the counter map, bans it for good and counts a failed game.
     */
    method UpdateGameJoinFailCounter(gameId: int)
      requires Valid()
      modifies this`joinFailures, this`available, this`banned, this`failedGames
      ensures Valid()
      ensures var count := if gameId in old(joinFailures) then old(joinFailures)[gameId] + 1 else 1;
        if count >= MAX_JOIN_FAILURES then
          && joinFailures == old(joinFailures) - {gameId} && available == old(available) - {gameId}
          && banned == old(banned) + {gameId} && failedGames == old(failedGames) + 1
        else
          && joinFailures == old(joinFailures)[gameId := count] && available == old(available)
          && banned == old(banned) && failedGames == old(failedGames)
    {
      var count := if gameId in joinFailures then joinFailures[gameId] + 1 else 1;
      if count >= MAX_JOIN_FAILURES {
        failedGames := failedGames + 1;
        joinFailures := joinFailures - {gameId};
        available := available - {gameId};
        banned := banned + {gameId};
      } else {
        joinFailures := joinFailures[gameId := count];
      }
    }
  }

  /** Three failed joins in a row ban a game that had none, and a later merge never lists it again. */
  method ThreeFailuresBan(registry: GameRegistry, gameId: int, later: seq<GameListing>)
    requires registry.Valid() && gameId !in registry.joinFailures
    modifies registry
    ensures registry.Valid()
    ensures gameId in registry.banned && gameId !in registry.available && gameId !in registry.joinFailures
    ensures registry.failedGames == old(registry.failedGames) + 1
  {
    registry.UpdateGameJoinFailCounter(gameId);
    registry.UpdateGameJoinFailCounter(gameId);
    registry.UpdateGameJoinFailCounter(gameId);
    registry.MergeGames(later);
  }
}
