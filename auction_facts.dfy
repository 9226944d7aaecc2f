/**
 * What the auction tracker's operations promise: the invariant every game keeps,
 * and what each operation does to the game it names and leaves alone elsewhere.
 */
module AuctionFacts {
  import opened Wrappers
  import opened Teams
  import opened AuctionTypes
  import opened AuctionSpec

  /** The teams a game still holds: those remaining and the one on the block. */
  function Held(g: GameInfo): (h: multiset<Team>)
    ensures |h| == |g.teams| + (if g.currentTeam.Some? then 1 else 0)
  {
    multiset(g.teams) + (if g.currentTeam.Some? then multiset{g.currentTeam.value} else multiset{})
  }

  /**
   * A well-formed game: the creator is a player, each player record is filed under
   * its own name and game, the teams held come from the master list without
   * repetition beyond it, every logged bid is for this game, the current bid is the
   * last logged one (or the initial bid), and the countdown never exceeds its start.
   */
  ghost predicate GameValid(gameId: string, g: GameInfo, master: seq<Team>)
  {
    && g.creator in g.players
    && (forall k :: k in g.players ==> g.players[k].name == k && g.players[k].gameId == gameId)
    && Held(g) <= multiset(master)
    && (forall i :: 0 <= i < |g.log| ==> g.log[i].gameId == gameId)
    && g.currentBid == (if g.log == [] then INITIAL_BID else g.log[|g.log| - 1].bid)
    && g.countdown <= INITIAL_COUNTDOWN
  }

  /** Every game of the table is well formed. */
  ghost predicate TrackerValid(games: map<string, GameInfo>, master: seq<Team>)
  {
    forall id :: id in games ==> GameValid(id, games[id], master)
  }

  /** Storing a well-formed game keeps the table well formed. */
  lemma StoreKeepsValid(games: map<string, GameInfo>, master: seq<Team>, gameId: string, g: GameInfo)
    requires TrackerValid(games, master) && GameValid(gameId, g, master)
    ensures TrackerValid(games[gameId := g], master)
  {
  }

  /** A game just created and given its first team is well formed. */
  lemma FirstLotValid(gameId: string, creator: string, master: seq<Team>, pick: nat)
    requires pick < |master|
    ensures var g := NewGame(creator, map[creator := NewPlayer(creator, gameId)], master);
      GameValid(gameId, Drawn(g, pick).(currentTeam := Some(master[pick])), master)
  {
    var g := NewGame(creator, map[creator := NewPlayer(creator, gameId)], master);
    assert master[pick] in multiset(master);
    assert Held(Drawn(g, pick).(currentTeam := Some(master[pick]))) == multiset(master);
  }

  /** A fresh record filed under its own name keeps a game well formed. */
  lemma FreshRecordKeepsValid(gameId: string, g: GameInfo, master: seq<Team>, player: string)
    requires GameValid(gameId, g, master)
    ensures GameValid(gameId, g.(players := g.players[player := NewPlayer(player, gameId)]), master)
  {
    assert Held(g.(players := g.players[player := NewPlayer(player, gameId)])) == Held(g);
  }

  /** Charging a player keeps a game well formed. */
  lemma ChargedKeepsValid(gameId: string, g: GameInfo, master: seq<Team>, player: string, amount: int, team: string)
    requires GameValid(gameId, g, master) && player in g.players
    ensures GameValid(gameId, Charged(g, player, amount, team), master)
  {
    assert Held(Charged(g, player, amount, team)) == Held(g);
  }

  /** Drawing a team without putting it on the block keeps a game well formed. */
  lemma DrawnKeepsValid(gameId: string, g: GameInfo, master: seq<Team>, pick: nat)
    requires GameValid(gameId, g, master) && pick < |g.teams|
    ensures GameValid(gameId, Drawn(g, pick), master)
  {
    assert Held(Drawn(g, pick)) <= Held(g);
  }

  /** Logging a bid for the game keeps it well formed. */
  lemma WithBidKeepsValid(gameId: string, g: GameInfo, master: seq<Team>, bid: BidModel)
    requires GameValid(gameId, g, master) && bid.gameId == gameId
    ensures GameValid(gameId, WithBid(g, bid), master)
  {
    var h := WithBid(g, bid);
    assert forall i :: 0 <= i < |g.log| ==> h.log[i] == g.log[i];
    assert Held(h) == Held(g);
  }

  /** Lowering the countdown keeps a game well formed. */
  lemma TickKeepsValid(gameId: string, g: GameInfo, master: seq<Team>)
    requires GameValid(gameId, g, master)
    ensures GameValid(gameId, g.(countdown := g.countdown - 1), master)
  {
    assert Held(g.(countdown := g.countdown - 1)) == Held(g);
  }

  /** Moving to the next lot keeps a game well formed: the drawn team goes from the list to the block. */
  lemma NextLotKeepsValid(gameId: string, g: GameInfo, master: seq<Team>, pick: nat)
    requires GameValid(gameId, g, master) && pick < |g.teams|
    ensures GameValid(gameId, NextLot(g, pick), master)
  {
    assert g.teams[pick] in multiset(g.teams);
    assert Held(NextLot(g, pick)) == multiset(g.teams) <= Held(g);
  }

  lemma AddGamePreservesValid(games: map<string, GameInfo>, master: seq<Team>, gameId: string, creator: string, pick: nat)
    requires TrackerValid(games, master) && ValidPick(master, pick)
    ensures TrackerValid(AddGame(games, master, gameId, creator, pick).games, master)
  {
    var g := NewGame(creator, map[creator := NewPlayer(creator, gameId)], master);
    if |master| > 0 {
      FirstLotValid(gameId, creator, master, pick);
      StoreKeepsValid(games, master, gameId, Drawn(g, pick).(currentTeam := Some(master[pick])));
      assert AddGame(games, master, gameId, creator, pick).games
        == games[gameId := Drawn(g, pick).(currentTeam := Some(master[pick]))];
    } else {
      assert Held(g) == multiset(master);
      StoreKeepsValid(games, master, gameId, g);
    }
  }

  /**
   * A successful `add_game`: the creator is the only player, the drawn team is on
   * the block and out of the remaining list, which is the master list less that one
   * team; no other game changes.
   */
  lemma AddGameFacts(games: map<string, GameInfo>, master: seq<Team>, gameId: string, creator: string, pick: nat)
    requires pick < |master|
    ensures var s := AddGame(games, master, gameId, creator, pick);
      && s.result == Success(())
      && s.games[gameId].players == map[creator := NewPlayer(creator, gameId)]
      && s.games[gameId].currentTeam == Some(master[pick])
      && multiset(s.games[gameId].teams) == multiset(master) - multiset{master[pick]}
      && s.games[gameId].log == [] && s.games[gameId].currentBid == INITIAL_BID
      && s.games[gameId].countdown == INITIAL_COUNTDOWN
      && (forall id :: id in games && id != gameId ==> s.games[id] == games[id])
  {
  }

  /** With a master list of distinct teams, the team on the block is not among those remaining. */
  lemma AddGameDrawnTeamNotRemaining(games: map<string, GameInfo>, master: seq<Team>, gameId: string, creator: string,
                                     pick: nat)
    requires pick < |master|
    requires forall i, j :: 0 <= i < j < |master| ==> master[i] != master[j]
    ensures master[pick] !in AddGame(games, master, gameId, creator, pick).games[gameId].teams
  {
    assert master[pick] !in master[..pick];
    RemoveFirstKeepsOrder(master, master[pick], pick);
  }

  /** `add_game` on an empty master list raises `IndexError`, leaving the game stored without a team. */
  lemma AddGameEmptyMaster(games: map<string, GameInfo>, gameId: string, creator: string, pick: nat)
    ensures var s := AddGame(games, [], gameId, creator, pick);
      s.result == Failure(IndexError) && s.games == games[gameId := NewGame(creator, map[creator := NewPlayer(creator, gameId)], [])]
  {
  }

  lemma AddPlayerPreservesValid(games: map<string, GameInfo>, master: seq<Team>, gameId: string, player: string)
    requires TrackerValid(games, master)
    ensures TrackerValid(AddPlayer(games, gameId, player).games, master)
  {
    if gameId in games {
      FreshRecordKeepsValid(gameId, games[gameId], master, player);
      StoreKeepsValid(games, master, gameId, games[gameId].(players := games[gameId].players[player := NewPlayer(player, gameId)]));
    }
  }

  /** `add_player` stores a fresh record under the name, even over an existing player's. */
  lemma AddPlayerResets(games: map<string, GameInfo>, gameId: string, player: string)
    requires gameId in games
    ensures var s := AddPlayer(games, gameId, player);
      && s.result.Success?
      && s.games[gameId].players[player] == NewPlayer(player, gameId)
      && s.games[gameId].players.Keys == games[gameId].players.Keys + {player}
      && (forall k :: k in games[gameId].players && k != player ==> s.games[gameId].players[k] == games[gameId].players[k])
      && (forall id :: id in games && id != gameId ==> s.games[id] == games[id])
  {
  }

  lemma UpdatePlayerPreservesValid(games: map<string, GameInfo>, master: seq<Team>, gameId: string, player: string,
                                   amount: int, team: string)
    requires TrackerValid(games, master)
    ensures TrackerValid(UpdatePlayer(games, gameId, player, amount, team).games, master)
  {
    if gameId in games && player in games[gameId].players {
      ChargedKeepsValid(gameId, games[gameId], master, player, amount, team);
      StoreKeepsValid(games, master, gameId, Charged(games[gameId], player, amount, team));
    }
  }

  /**
   * `update_player` succeeds exactly for a known player of a known game, lowers the
   * balance by exactly the amount, with no floor, and appends the team; nothing
   * else changes.
   */
  lemma UpdatePlayerCharges(games: map<string, GameInfo>, gameId: string, player: string, amount: int, team: string)
    ensures var s := UpdatePlayer(games, gameId, player, amount, team);
      && (s.result.Success? <==> gameId in games && player in games[gameId].players)
      && (s.result.Success? ==>
            && s.games[gameId].players[player].balance == games[gameId].players[player].balance - amount
            && s.games[gameId].players[player].teams == games[gameId].players[player].teams + [team]
            && s.games[gameId].players.Keys == games[gameId].players.Keys
            && (forall k :: k in games[gameId].players && k != player ==>
                  s.games[gameId].players[k] == games[gameId].players[k])
            && (forall id :: id in games && id != gameId ==> s.games[id] == games[id]))
  {
  }

  lemma GetRandomTeamPreservesValid(games: map<string, GameInfo>, master: seq<Team>, gameId: string, pick: nat)
    requires TrackerValid(games, master)
    requires gameId in games ==> ValidPick(games[gameId].teams, pick)
    ensures TrackerValid(GetRandomTeam(games, gameId, pick).games, master)
  {
    if gameId in games && |games[gameId].teams| > 0 {
      DrawnKeepsValid(gameId, games[gameId], master, pick);
      StoreKeepsValid(games, master, gameId, Drawn(games[gameId], pick));
    }
  }

  /**
   * `get_random_team` fails exactly on an unknown game or an empty list; otherwise it
   * returns one of the remaining teams and removes exactly one occurrence of it.
   */
  lemma GetRandomTeamFacts(games: map<string, GameInfo>, gameId: string, pick: nat)
    requires gameId in games ==> ValidPick(games[gameId].teams, pick)
    ensures var s := GetRandomTeam(games, gameId, pick);
      && (gameId !in games ==> s.result == Failure(KeyError))
      && (gameId in games && games[gameId].teams == [] ==> s.result == Failure(IndexError))
      && (s.result.Success? ==>
            && s.result.value in games[gameId].teams
            && multiset(s.games[gameId].teams) == multiset(games[gameId].teams) - multiset{s.result.value}
            && |s.games[gameId].teams| == |games[gameId].teams| - 1
            && s.games[gameId] == games[gameId].(teams := s.games[gameId].teams)
            && (forall id :: id in games && id != gameId ==> s.games[id] == games[id]))
  {
  }

  lemma PlaceBidPreservesValid(games: map<string, GameInfo>, master: seq<Team>, bid: BidModel)
    requires TrackerValid(games, master)
    ensures TrackerValid(PlaceBid(games, bid).games, master)
  {
    if bid.gameId in games {
      WithBidKeepsValid(bid.gameId, games[bid.gameId], master, bid);
      StoreKeepsValid(games, master, bid.gameId, WithBid(games[bid.gameId], bid));
    }
  }

  /**
   * `place_bid` appends the bid to the log, makes it the current bid and restarts the
   * countdown, without comparing it to the bid it replaces.
   */
  lemma PlaceBidFacts(games: map<string, GameInfo>, bid: BidModel)
    ensures var s := PlaceBid(games, bid);
      && (s.result.Success? <==> bid.gameId in games)
      && (s.result.Success? ==>
            && s.games[bid.gameId].log == games[bid.gameId].log + [bid]
            && s.games[bid.gameId].currentBid == bid.bid
            && s.games[bid.gameId].countdown == INITIAL_COUNTDOWN
            && s.games[bid.gameId].players == games[bid.gameId].players
            && s.games[bid.gameId].teams == games[bid.gameId].teams
            && (forall id :: id in games && id != bid.gameId ==> s.games[id] == games[id]))
  {
  }

  lemma DecrementPreservesValid(games: map<string, GameInfo>, master: seq<Team>, gameId: string)
    requires TrackerValid(games, master)
    ensures TrackerValid(DecrementCountdown(games, gameId).games, master)
  {
    if gameId in games {
      TickKeepsValid(gameId, games[gameId], master);
      StoreKeepsValid(games, master, gameId, games[gameId].(countdown := games[gameId].countdown - 1));
    }
  }

  /** `decrement_countdown` lowers the countdown by exactly one, with no floor at zero. */
  lemma DecrementFacts(games: map<string, GameInfo>, gameId: string)
    ensures var s := DecrementCountdown(games, gameId);
      && (s.result.Success? <==> gameId in games)
      && (s.result.Success? ==>
            && s.games[gameId] == games[gameId].(countdown := games[gameId].countdown - 1)
            && (forall id :: id in games && id != gameId ==> s.games[id] == games[id]))
  {
  }

  lemma SettlePreservesValid(games: map<string, GameInfo>, master: seq<Team>, gameId: string)
    requires TrackerValid(games, master) && gameId in games
    ensures TrackerValid(SettleLot(games, gameId).games, master)
  {
    var g := games[gameId];
    if |g.log| > 0 {
      var w := g.log[|g.log| - 1];
      UpdatePlayerPreservesValid(games, master, gameId, w.player, w.bid, PurchaseLabel(w.team, w.bid));
    }
  }

  /** The table `finalize_bid` leaves when settling the lot fails. */
  lemma FinalizeUnsettled(games: map<string, GameInfo>, gameId: string, pick: nat)
    requires gameId in games && ValidPick(games[gameId].teams, pick) && SettleLot(games, gameId).result.Failure?
    ensures FinalizeBid(games, gameId, pick) == SettleLot(games, gameId)
  {
  }

  /** The table `finalize_bid` leaves when there is no team left to draw. */
  lemma FinalizeNoTeams(games: map<string, GameInfo>, gameId: string, pick: nat)
    requires gameId in games && games[gameId].teams == [] && SettleLot(games, gameId).result.Success?
    ensures FinalizeBid(games, gameId, pick) == Step(SettleLot(games, gameId).games, Failure(IndexError))
  {
  }

  /** The table a successful `finalize_bid` leaves: the settled table with the game moved to its next lot. */
  lemma FinalizeStores(games: map<string, GameInfo>, gameId: string, pick: nat)
    requires gameId in games && pick < |games[gameId].teams| && SettleLot(games, gameId).result.Success?
    ensures var settled := SettleLot(games, gameId);
      FinalizeBid(games, gameId, pick)
        == Step(settled.games[gameId := NextLot(settled.games[gameId], pick)], settled.result)
  {
  }

  lemma FinalizePreservesValid(games: map<string, GameInfo>, master: seq<Team>, gameId: string, pick: nat)
    requires TrackerValid(games, master)
    requires gameId in games ==> ValidPick(games[gameId].teams, pick)
    ensures TrackerValid(FinalizeBid(games, gameId, pick).games, master)
  {
    if gameId in games {
      var settled := SettleLot(games, gameId);
      SettlePreservesValid(games, master, gameId);
      if settled.result.Failure? {
        FinalizeUnsettled(games, gameId, pick);
      } else if games[gameId].teams == [] {
        FinalizeNoTeams(games, gameId, pick);
      } else {
        FinalizeStores(games, gameId, pick);
        NextLotKeepsValid(gameId, settled.games[gameId], master, pick);
        StoreKeepsValid(settled.games, master, gameId, NextLot(settled.games[gameId], pick));
      }
    }
  }

  /**
   * `finalize_bid` with bids logged: the last bid wins; its player alone is charged
   * the bid and credited the team; bid, countdown and log are reset and the next
   * team is drawn from the remaining ones.
   */
  lemma FinalizeWithBids(games: map<string, GameInfo>, gameId: string, pick: nat)
    requires gameId in games && games[gameId].log != [] && pick < |games[gameId].teams|
    requires games[gameId].log[|games[gameId].log| - 1].player in games[gameId].players
    ensures var g := games[gameId];
      var w := g.log[|g.log| - 1];
      var s := FinalizeBid(games, gameId, pick);
      && s.result == Success(w)
      && s.games[gameId].players == g.players[w.player := g.players[w.player].(
           balance := g.players[w.player].balance - w.bid,
           teams := g.players[w.player].teams + [PurchaseLabel(w.team, w.bid)])]
      && s.games[gameId].currentTeam == Some(g.teams[pick])
      && s.games[gameId].teams == RemoveFirst(g.teams, g.teams[pick])
      && s.games[gameId].currentBid == INITIAL_BID && s.games[gameId].countdown == INITIAL_COUNTDOWN
      && s.games[gameId].log == []
      && (forall id :: id in games && id != gameId ==> s.games[id] == games[id])
  {
  }

  /**
   * `finalize_bid` with no bids: the sentinel bid (no player, -1, the team on the
   * block) is returned, no player is charged, and the game moves to the next team.
   */
  lemma FinalizeWithoutBids(games: map<string, GameInfo>, gameId: string, pick: nat)
    requires gameId in games && games[gameId].log == [] && games[gameId].currentTeam.Some?
    requires pick < |games[gameId].teams|
    ensures var g := games[gameId];
      var s := FinalizeBid(games, gameId, pick);
      && s.result == Success(BidModel("", "", -1, g.currentTeam.value.shortName))
      && s.games[gameId].players == g.players
      && s.games[gameId].currentTeam == Some(g.teams[pick])
      && s.games[gameId].teams == RemoveFirst(g.teams, g.teams[pick])
      && s.games[gameId].currentBid == INITIAL_BID && s.games[gameId].countdown == INITIAL_COUNTDOWN
      && s.games[gameId].log == []
      && (forall id :: id in games && id != gameId ==> s.games[id] == games[id])
  {
  }

  /**
   * `finalize_bid`'s failures: a winner who is not a player and a lot with neither
   * bids nor team change nothing; an empty list of remaining teams raises only after
   * the winner was charged.
   */
  lemma FinalizeFailures(games: map<string, GameInfo>, gameId: string, pick: nat)
    requires gameId in games ==> ValidPick(games[gameId].teams, pick)
    ensures gameId !in games ==> FinalizeBid(games, gameId, pick) == Step(games, Failure(KeyError))
    ensures gameId in games && games[gameId].log != []
            && games[gameId].log[|games[gameId].log| - 1].player !in games[gameId].players ==>
      FinalizeBid(games, gameId, pick) == Step(games, Failure(KeyError))
    ensures gameId in games && games[gameId].log == [] && games[gameId].currentTeam.None? ==>
      FinalizeBid(games, gameId, pick) == Step(games, Failure(ValueError))
    ensures gameId in games && games[gameId].teams == [] && SettleLot(games, gameId).result.Success? ==>
      FinalizeBid(games, gameId, pick) == Step(SettleLot(games, gameId).games, Failure(IndexError))
  {
  }

  /** A successful `finalize_bid` moves exactly one team from the remaining list to the block. */
  lemma FinalizeShrinksRemaining(games: map<string, GameInfo>, gameId: string, pick: nat)
    requires gameId in games ==> ValidPick(games[gameId].teams, pick)
    requires FinalizeBid(games, gameId, pick).result.Success?
    ensures |FinalizeBid(games, gameId, pick).games[gameId].teams| == |games[gameId].teams| - 1
    ensures FinalizeBid(games, gameId, pick).games[gameId].currentTeam.Some?
    ensures FinalizeBid(games, gameId, pick).games[gameId].currentTeam.value in games[gameId].teams
  {
  }
}
