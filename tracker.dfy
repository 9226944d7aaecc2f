/**
 * The auction server's game tracker: a table of games updated in place. Each
 * method is proved to leave the table the matching `AuctionSpec` function
 * describes, and to keep every game well formed.
 */
module Tracker {
  import opened Wrappers
  import opened Teams
  import opened AuctionTypes
  import opened AuctionSpec
  import opened AuctionFacts

  /** Teams in non-decreasing seed order. */
  predicate SortedBySeed(teams: seq<Team>)
  {
    forall i, j :: 0 <= i < j < |teams| ==> teams[i].seed <= teams[j].seed
  }

  /** Insert `t` into a seed-ordered list after every team of the same or a lower seed. */
  function InsertBySeed(t: Team, sorted: seq<Team>): (r: seq<Team>)
    requires SortedBySeed(sorted)
    ensures SortedBySeed(r)
    ensures multiset(r) == multiset(sorted) + multiset{t}
    ensures |r| == |sorted| + 1 && (r[0] == t || (|sorted| > 0 && r[0] == sorted[0]))
  {
    if sorted == [] then [t]
    else if t.seed < sorted[0].seed then [t] + sorted
    else
      assert sorted == [sorted[0]] + sorted[1..];
      [sorted[0]] + InsertBySeed(t, sorted[1..])
  }

  /** Python's `list.sort` keyed on the seed, as an insertion sort; the order among teams of equal seed is not stated. */
  function SortBySeed(teams: seq<Team>): (r: seq<Team>)
    ensures SortedBySeed(r)
    ensures multiset(r) == multiset(teams)
  {
    if teams == [] then []
    else
      assert teams == teams[..|teams| - 1] + [teams[|teams| - 1]];
      InsertBySeed(teams[|teams| - 1], SortBySeed(teams[..|teams| - 1]))
  }

  class GameTracker {
    /** The games by id. */
    var games: map<string, GameInfo>
    /** Every team of the tournament, in seed order; each new game starts from a copy. */
    const teamsMaster: seq<Team>

    /** Every game is well formed and the master list is in seed order. */
    ghost predicate Valid()
      reads this
    {
      TrackerValid(games, teamsMaster) && SortedBySeed(teamsMaster)
    }

    /**
     * A tracker with no games, over the tournament's teams sorted by seed. Fetching
     * the teams and the match results from the network is not part of this model.
     */
    constructor(allTeams: seq<Team>)
      ensures games == map[]
      ensures SortedBySeed(teamsMaster) && multiset(teamsMaster) == multiset(allTeams)
      ensures Valid()
    {
      games := map[];
      teamsMaster := SortBySeed(allTeams);
    }

    method AddGame(gameId: string, creator: string, pick: nat) returns (r: Result<(), TrackerError>)
      requires ValidPick(teamsMaster, pick)
      modifies this
      ensures Step(games, r) == AuctionSpec.AddGame(old(games), teamsMaster, gameId, creator, pick)
      ensures old(Valid()) ==> Valid()
    {
      ghost var before := games;
      ghost var wasValid := Valid();
      var creatorInfo := NewPlayer(creator, gameId);
      games := games[gameId := NewGame(creator, map[creator := creatorInfo], teamsMaster)];
      var team := GetRandomTeam(gameId, pick);
      if team.Failure? {
        r := Failure(team.error);
      } else {
        games := games[gameId := games[gameId].(currentTeam := Some(team.value))];
        r := Success(());
      }
      if wasValid {
        AddGamePreservesValid(before, teamsMaster, gameId, creator, pick);
      }
    }

    method AddPlayer(gameId: string, player: string) returns (r: Result<(), TrackerError>)
      modifies this
      ensures Step(games, r) == AuctionSpec.AddPlayer(old(games), gameId, player)
      ensures old(Valid()) ==> Valid()
    {
      ghost var before := games;
      if gameId !in games {
        return Failure(KeyError);
      }
      games := games[gameId := games[gameId].(players := games[gameId].players[player := NewPlayer(player, gameId)])];
      r := Success(());
      if TrackerValid(before, teamsMaster) {
        AddPlayerPreservesValid(before, teamsMaster, gameId, player);
      }
    }

    method UpdatePlayer(gameId: string, player: string, bidAmount: int, purchasedTeam: string)
      returns (r: Result<(), TrackerError>)
      modifies this
      ensures Step(games, r) == AuctionSpec.UpdatePlayer(old(games), gameId, player, bidAmount, purchasedTeam)
      ensures old(Valid()) ==> Valid()
    {
      ghost var before := games;
      if gameId !in games || player !in games[gameId].players {
        return Failure(KeyError);
      }
      var info := games[gameId].players[player];
      info := info.(balance := info.balance - bidAmount);
      info := info.(teams := info.teams + [purchasedTeam]);
      games := games[gameId := games[gameId].(players := games[gameId].players[player := info])];
      assert games[gameId] == Charged(before[gameId], player, bidAmount, purchasedTeam);
      r := Success(());
      if TrackerValid(before, teamsMaster) {
        UpdatePlayerPreservesValid(before, teamsMaster, gameId, player, bidAmount, purchasedTeam);
      }
    }

    method GetPlayerInfo(gameId: string, player: string) returns (r: Result<PlayerInfo, TrackerError>)
      ensures r.Success? <==> gameId in games && player in games[gameId].players
      ensures r.Failure? ==> r.error == KeyError
      ensures r.Success? ==> r.value == games[gameId].players[player]
      ensures r.Success? && Valid() ==> r.value.name == player && r.value.gameId == gameId
    {
      if gameId !in games || player !in games[gameId].players {
        return Failure(KeyError);
      }
      return Success(games[gameId].players[player]);
    }

    method GetAllPlayers(gameId: string) returns (r: Result<map<string, PlayerInfo>, TrackerError>)
      ensures r.Success? <==> gameId in games
      ensures r.Failure? ==> r.error == KeyError
      ensures r.Success? ==> r.value == games[gameId].players
      ensures r.Success? && Valid() ==> games[gameId].creator in r.value
    {
      if gameId !in games {
        return Failure(KeyError);
      }
      return Success(games[gameId].players);
    }

    method GetRandomTeam(gameId: string, pick: nat) returns (r: Result<Team, TrackerError>)
      requires gameId in games ==> ValidPick(games[gameId].teams, pick)
      modifies this
      ensures Step(games, r) == AuctionSpec.GetRandomTeam(old(games), gameId, pick)
      ensures old(Valid()) ==> Valid()
    {
      ghost var before := games;
      if gameId !in games {
        return Failure(KeyError);
      }
      if |games[gameId].teams| == 0 {
        return Failure(IndexError);
      }
      var team := games[gameId].teams[pick];
      games := games[gameId := games[gameId].(teams := RemoveFirst(games[gameId].teams, team))];
      r := Success(team);
      if TrackerValid(before, teamsMaster) {
        GetRandomTeamPreservesValid(before, teamsMaster, gameId, pick);
      }
    }

    method GetRemainingTeams(gameId: string) returns (r: Result<seq<Team>, TrackerError>)
      ensures r.Success? <==> gameId in games
      ensures r.Failure? ==> r.error == KeyError
      ensures r.Success? ==> r.value == games[gameId].teams
      ensures r.Success? && Valid() ==> multiset(r.value) <= multiset(teamsMaster)
    {
      if gameId !in games {
        return Failure(KeyError);
      }
      return Success(games[gameId].teams);
    }

    method GetAllTeams() returns (teams: seq<Team>)
      ensures teams == teamsMaster
      ensures Valid() ==> SortedBySeed(teams)
    {
      return teamsMaster;
    }

    method PlaceBid(bid: BidModel) returns (r: Result<(), TrackerError>)
      modifies this
      ensures Step(games, r) == AuctionSpec.PlaceBid(old(games), bid)
      ensures old(Valid()) ==> Valid()
    {
      ghost var before := games;
      if bid.gameId !in games {
        return Failure(KeyError);
      }
      var game := games[bid.gameId];
      game := game.(log := game.log + [bid]);
      game := game.(currentBid := bid.bid);
      game := game.(countdown := INITIAL_COUNTDOWN);
      assert game == WithBid(before[bid.gameId], bid);
      games := games[bid.gameId := game];
      r := Success(());
      if TrackerValid(before, teamsMaster) {
        PlaceBidPreservesValid(before, teamsMaster, bid);
      }
    }

    method FinalizeBid(gameId: string, pick: nat) returns (r: Result<BidModel, TrackerError>)
      requires gameId in games ==> ValidPick(games[gameId].teams, pick)
      modifies this
      ensures Step(games, r) == AuctionSpec.FinalizeBid(old(games), gameId, pick)
      ensures old(Valid()) ==> Valid()
    {
      ghost var before := games;
      ghost var wasValid := Valid();
      if gameId !in games {
        return Failure(KeyError);
      }
      var winner: BidModel;
      var log := games[gameId].log;
      if |log| > 0 {
        winner := log[|log| - 1];
        var charged := UpdatePlayer(gameId, winner.player, winner.bid, PurchaseLabel(winner.team, winner.bid));
        if charged.Failure? {
          return Failure(charged.error);
        }
      } else {
        var current := GetCurrentTeam(gameId);
        if current.Failure? {
          return Failure(current.error);
        }
        winner := BidModel("", "", -1, current.value.shortName);
      }
      assert Step(games, Success(winner)) == SettleLot(before, gameId);
      var team := GetRandomTeam(gameId, pick);
      if team.Failure? {
        r := Failure(team.error);
      } else {
        games := games[gameId := games[gameId].(currentTeam := Some(team.value), currentBid := INITIAL_BID,
                                                countdown := INITIAL_COUNTDOWN, log := [])];
        r := Success(winner);
      }
      if wasValid {
        FinalizePreservesValid(before, teamsMaster, gameId, pick);
      }
    }

    method GetCurrentTeam(gameId: string) returns (r: Result<Team, TrackerError>)
      ensures gameId !in games ==> r == Failure(KeyError)
      ensures gameId in games ==> (r.Success? <==> games[gameId].currentTeam.Some?)
      ensures gameId in games && r.Failure? ==> r.error == ValueError
      ensures r.Success? ==> games[gameId].currentTeam == Some(r.value)
      ensures r == AuctionSpec.GetCurrentTeam(games, gameId)
    {
      if gameId !in games {
        return Failure(KeyError);
      }
      var current := games[gameId].currentTeam;
      if current.Some? {
        return Success(current.value);
      }
      return Failure(ValueError);
    }

    method GetCurrentBid(gameId: string) returns (r: Result<int, TrackerError>)
      ensures r.Success? <==> gameId in games
      ensures r.Failure? ==> r.error == KeyError
      ensures r.Success? ==> r.value == games[gameId].currentBid
      ensures r.Success? && Valid() ==>
        r.value == (if games[gameId].log == [] then INITIAL_BID else games[gameId].log[|games[gameId].log| - 1].bid)
    {
      if gameId !in games {
        return Failure(KeyError);
      }
      return Success(games[gameId].currentBid);
    }

    method GetCurrentCountdown(gameId: string) returns (r: Result<int, TrackerError>)
      ensures r.Success? <==> gameId in games
      ensures r.Failure? ==> r.error == KeyError
      ensures r.Success? ==> r.value == games[gameId].countdown
      ensures r.Success? && Valid() ==> r.value <= INITIAL_COUNTDOWN
    {
      if gameId !in games {
        return Failure(KeyError);
      }
      return Success(games[gameId].countdown);
    }

    method DecrementCountdown(gameId: string) returns (r: Result<(), TrackerError>)
      modifies this
      ensures Step(games, r) == AuctionSpec.DecrementCountdown(old(games), gameId)
      ensures old(Valid()) ==> Valid()
    {
      ghost var before := games;
      if gameId !in games {
        return Failure(KeyError);
      }
      games := games[gameId := games[gameId].(countdown := games[gameId].countdown - 1)];
      r := Success(());
      if TrackerValid(before, teamsMaster) {
        DecrementPreservesValid(before, teamsMaster, gameId);
      }
    }
  }
}
