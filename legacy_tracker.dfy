/**
 * The server's older tracker: per game, only the player records, keyed by player
 * id. A missing game or player raises `KeyError`, which is a `Failure` here.
 */
module LegacyTracker {
  import opened Wrappers
  import opened AuctionTypes
  import opened AuctionSpec

  /** A record as this tracker creates it: no name, the initial balance and no teams. */
  function LegacyPlayer(gameId: string): (p: PlayerInfo)
    ensures p == NewPlayer("", gameId)
    ensures p.gameId == gameId && p.balance == INITIAL_BALANCE && p.teams == []
  {
    PlayerInfo("", gameId, INITIAL_BALANCE, [])
  }

  class LegacyGameTracker {
    /** Player records by player id, by game id. */
    var games: map<string, map<string, PlayerInfo>>

    /** Every record is filed under the game it names. */
    ghost predicate Filed()
      reads this
    {
      forall g, id :: g in games && id in games[g] ==> games[g][id].gameId == g
    }

    constructor()
      ensures games == map[] && Filed()
    {
      games := map[];
    }

    /** Create the game, or empty an existing one of its players. */
    method AddGame(gameId: string)
      modifies this
      ensures games == old(games)[gameId := map[]]
      ensures gameId in games && games[gameId] == map[]
      ensures old(Filed()) ==> Filed()
    {
      games := games[gameId := map[]];
    }

    /** Store a fresh record under `id`, overwriting any record already there. */
    method AddPlayer(id: string, gameId: string) returns (r: Result<(), TrackerError>)
      modifies this
      ensures r.Success? <==> gameId in old(games)
      ensures r.Failure? ==> r.error == KeyError && games == old(games)
      ensures r.Success? ==> games == old(games)[gameId := old(games)[gameId][id := LegacyPlayer(gameId)]]
      ensures old(Filed()) ==> Filed()
    {
      if gameId !in games {
        return Failure(KeyError);
      }
      games := games[gameId := games[gameId][id := LegacyPlayer(gameId)]];
      r := Success(());
    }

    /**
     * Charge player `id` exactly `bidAmount`, with no floor on the balance, and
     * append the team; every other record and game keeps its value.
     */
    method UpdatePlayer(gameId: string, id: string, bidAmount: int, purchasedTeam: string)
      returns (r: Result<(), TrackerError>)
      modifies this
      ensures r.Success? <==> gameId in old(games) && id in old(games)[gameId]
      ensures r.Failure? ==> r.error == KeyError && games == old(games)
      ensures r.Success? ==>
        && games.Keys == old(games).Keys && games[gameId].Keys == old(games)[gameId].Keys
        && games[gameId][id].balance == old(games)[gameId][id].balance - bidAmount
        && games[gameId][id].teams == old(games)[gameId][id].teams + [purchasedTeam]
        && games[gameId][id].gameId == old(games)[gameId][id].gameId
        && games[gameId][id].name == old(games)[gameId][id].name
        && (forall other :: other in old(games)[gameId] && other != id ==> games[gameId][other] == old(games)[gameId][other])
        && (forall g :: g in old(games) && g != gameId ==> games[g] == old(games)[g])
      ensures old(Filed()) ==> Filed()
    {
      if gameId !in games || id !in games[gameId] {
        return Failure(KeyError);
      }
      var info := games[gameId][id];
      info := info.(balance := info.balance - bidAmount);
      info := info.(teams := info.teams + [purchasedTeam]);
      games := games[gameId := games[gameId][id := info]];
      r := Success(());
    }

    method GetPlayerInfo(gameId: string, id: string) returns (r: Result<PlayerInfo, TrackerError>)
      ensures r.Success? <==> gameId in games && id in games[gameId]
      ensures r.Failure? ==> r.error == KeyError
      ensures r.Success? ==> r.value == games[gameId][id]
      ensures r.Success? && Filed() ==> r.value.gameId == gameId
    {
      if gameId !in games || id !in games[gameId] {
        return Failure(KeyError);
      }
      return Success(games[gameId][id]);
    }

    /** The game's whole player table; `id` is accepted and ignored. */
    method GetAll(gameId: string, id: string) returns (r: Result<map<string, PlayerInfo>, TrackerError>)
      ensures r.Success? <==> gameId in games
      ensures r.Failure? ==> r.error == KeyError
      ensures r.Success? ==> r.value == games[gameId]
    {
      if gameId !in games {
        return Failure(KeyError);
      }
      return Success(games[gameId]);
    }
  }
}
