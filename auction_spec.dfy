/**
 * The auction tracker's operations as functions of the game table. A Python
 * exception becomes a `Failure` carrying its kind; the table an operation returns
 * keeps whatever the operation had already changed before raising.
 * `random.choice` becomes an index `pick` into the list of remaining teams.
 */
module AuctionSpec {
  import opened Wrappers
  import opened Teams
  import opened Text
  import opened AuctionTypes

  /** The exceptions the tracker raises: a missing key, a draw from no teams, no team on the block. */
  datatype TrackerError = KeyError | IndexError | ValueError

  /** The table of games after an operation, with what it returned or raised. */
  datatype Step<T> = Step(games: map<string, GameInfo>, result: Result<T, TrackerError>)

  /** A usable outcome of `random.choice` on `s`: any index, when there is one. */
  predicate ValidPick<T>(s: seq<T>, pick: nat)
  {
    |s| == 0 || pick < |s|
  }

  /** `list.remove(x)`: drop the first element equal to `x`. */
  function RemoveFirst<T(==)>(s: seq<T>, x: T): (r: seq<T>)
    requires x in s
    ensures |r| == |s| - 1
    ensures multiset(r) == multiset(s) - multiset{x}
  {
    assert s == [s[0]] + s[1..];
    if s[0] == x then s[1..] else [s[0]] + RemoveFirst(s[1..], x)
  }

  /** Removing leaves the elements before the first `x` and those after it, in order. */
  lemma {:induction false} RemoveFirstKeepsOrder<T>(s: seq<T>, x: T, i: nat)
    requires i < |s| && s[i] == x && x !in s[..i]
    ensures RemoveFirst(s, x) == s[..i] + s[i + 1..]
  {
    if i > 0 {
      assert s[0] != x by { assert s[0] == s[..i][0]; }
      assert x !in s[1..][..i - 1] by { assert s[1..][..i - 1] == s[..i][1..]; }
      RemoveFirstKeepsOrder(s[1..], x, i - 1);
      assert s[..i] == [s[0]] + s[1..][..i - 1];
      assert s[i + 1..] == s[1..][i..];
    }
  }

  /** The label a bought team is recorded under: `"{team} : ${bid:.2f}"` for a whole bid. */
  function PurchaseLabel(team: string, bid: int): (purchase: string)
    ensures |purchase| >= |team| + 8
    ensures purchase[..|team|] == team
    ensures purchase[|team|..|team| + 4] == " : $"
    ensures purchase[|purchase| - 3..] == ".00"
  {
    team + " : $" + IntToString(bid) + ".00"
  }

  /** One game after its player `player` is charged `amount` and credited `team`. */
  function Charged(g: GameInfo, player: string, amount: int, team: string): (h: GameInfo)
    requires player in g.players
    ensures h == g.(players := h.players) && h.players.Keys == g.players.Keys
    ensures h.players[player].balance == g.players[player].balance - amount
    ensures h.players[player].teams == g.players[player].teams + [team]
    ensures h.players[player] == g.players[player].(balance := h.players[player].balance,
                                                    teams := h.players[player].teams)
    ensures forall k :: k in g.players && k != player ==> h.players[k] == g.players[k]
  {
    var p := g.players[player];
    g.(players := g.players[player := p.(balance := p.balance - amount, teams := p.teams + [team])])
  }

  /** One game after the team at index `pick` is taken out of its remaining teams. */
  function Drawn(g: GameInfo, pick: nat): (h: GameInfo)
    requires pick < |g.teams|
    ensures h == g.(teams := h.teams)
    ensures multiset(h.teams) == multiset(g.teams) - multiset{g.teams[pick]}
  {
    g.(teams := RemoveFirst(g.teams, g.teams[pick]))
  }

  /** One game after a bid: logged, made current, and the countdown restarted. */
  function WithBid(g: GameInfo, bid: BidModel): (h: GameInfo)
    ensures h == g.(log := h.log, currentBid := h.currentBid, countdown := h.countdown)
    ensures h.log == g.log + [bid] && h.currentBid == bid.bid && h.countdown == INITIAL_COUNTDOWN
  {
    g.(log := g.log + [bid], currentBid := bid.bid, countdown := INITIAL_COUNTDOWN)
  }

  /**
   * One game moved to its next lot: the team at `pick` drawn and put on the block,
   * the bid, the countdown and the log reset.
   */
  function NextLot(g: GameInfo, pick: nat): (h: GameInfo)
    requires pick < |g.teams|
    ensures h.players == g.players && h.creator == g.creator && h.participants == g.participants
    ensures h.currentTeam == Some(g.teams[pick]) && multiset(h.teams) == multiset(g.teams) - multiset{g.teams[pick]}
    ensures h.currentBid == INITIAL_BID && h.countdown == INITIAL_COUNTDOWN && h.log == []
  {
    Drawn(g, pick).(currentTeam := Some(g.teams[pick]), currentBid := INITIAL_BID, countdown := INITIAL_COUNTDOWN,
                    log := [])
  }

  /** `get_random_team`: take the chosen team out of the game's remaining teams. */
  function GetRandomTeam(games: map<string, GameInfo>, gameId: string, pick: nat): (s: Step<Team>)
    requires gameId in games ==> ValidPick(games[gameId].teams, pick)
    ensures s.result.Failure? ==> s.games == games
    ensures s.result.Success? ==> gameId in games && s.games.Keys == games.Keys
  {
    if gameId !in games then Step(games, Failure(KeyError))
    else if |games[gameId].teams| == 0 then Step(games, Failure(IndexError))
    else Step(games[gameId := Drawn(games[gameId], pick)], Success(games[gameId].teams[pick]))
  }

  /**
   * `add_game`: store a new game whose only player is the creator, with a copy of
   * the master list, then draw its first team. The draw fails on an empty list,
   * after the game was stored.
   */
  function AddGame(games: map<string, GameInfo>, master: seq<Team>, gameId: string, creator: string, pick: nat)
    : (s: Step<()>)
    requires ValidPick(master, pick)
    ensures gameId in s.games && s.games.Keys == games.Keys + {gameId}
  {
    var created := games[gameId := NewGame(creator, map[creator := NewPlayer(creator, gameId)], master)];
    var drawn := GetRandomTeam(created, gameId, pick);
    if drawn.result.Failure? then Step(drawn.games, Failure(drawn.result.error))
    else
      var g := drawn.games[gameId];
      Step(drawn.games[gameId := g.(currentTeam := Some(drawn.result.value))], Success(()))
  }

  /** `add_player`: store a fresh record under the name, replacing any earlier one. */
  function AddPlayer(games: map<string, GameInfo>, gameId: string, player: string): (s: Step<()>)
    ensures s.games.Keys == games.Keys
  {
    if gameId !in games then Step(games, Failure(KeyError))
    else
      var g := games[gameId];
      Step(games[gameId := g.(players := g.players[player := NewPlayer(player, gameId)])], Success(()))
  }

  /** `update_player`: charge the player and record the team bought. */
  function UpdatePlayer(games: map<string, GameInfo>, gameId: string, player: string, bidAmount: int,
                        purchasedTeam: string): (s: Step<()>)
    ensures s.games.Keys == games.Keys
    ensures s.result.Failure? ==> s.games == games
  {
    if gameId !in games || player !in games[gameId].players then Step(games, Failure(KeyError))
    else Step(games[gameId := Charged(games[gameId], player, bidAmount, purchasedTeam)], Success(()))
  }

  /** `place_bid`: log the bid, make it the current bid and restart the countdown. */
  function PlaceBid(games: map<string, GameInfo>, bid: BidModel): (s: Step<()>)
    ensures s.games.Keys == games.Keys
  {
    if bid.gameId !in games then Step(games, Failure(KeyError))
    else Step(games[bid.gameId := WithBid(games[bid.gameId], bid)], Success(()))
  }

  /** `get_current_team`: the team on the block, or `ValueError` when there is none. */
  function GetCurrentTeam(games: map<string, GameInfo>, gameId: string): (r: Result<Team, TrackerError>)
    ensures gameId !in games ==> r == Failure(KeyError)
    ensures gameId in games ==>
      (r.Failure? <==> games[gameId].currentTeam.None?) && (r.Failure? ==> r.error == ValueError)
    ensures r.Success? ==> gameId in games && games[gameId].currentTeam == Some(r.value)
  {
    if gameId !in games then Failure(KeyError)
    else if games[gameId].currentTeam.Some? then Success(games[gameId].currentTeam.value)
    else Failure(ValueError)
  }

  /** `decrement_countdown`. */
  function DecrementCountdown(games: map<string, GameInfo>, gameId: string): (s: Step<()>)
    ensures s.games.Keys == games.Keys
  {
    if gameId !in games then Step(games, Failure(KeyError))
    else Step(games[gameId := games[gameId].(countdown := games[gameId].countdown - 1)], Success(()))
  }

  /**
   * The first half of `finalize_bid`: with bids, charge the last bidder (who must be
   * a player); without, build the sentinel bid for the team on the block.
   */
  function SettleLot(games: map<string, GameInfo>, gameId: string): (s: Step<BidModel>)
    requires gameId in games
    ensures s.games.Keys == games.Keys
    ensures gameId in s.games && s.games[gameId].teams == games[gameId].teams
    ensures s.result.Failure? ==> s.games == games
  {
    var g := games[gameId];
    if |g.log| > 0 then
      var winner := g.log[|g.log| - 1];
      var u := UpdatePlayer(games, gameId, winner.player, winner.bid, PurchaseLabel(winner.team, winner.bid));
      if u.result.Failure? then Step(u.games, Failure(u.result.error)) else Step(u.games, Success(winner))
    else
      var current := GetCurrentTeam(games, gameId);
      if current.Failure? then Step(games, Failure(current.error))
      else Step(games, Success(BidModel("", "", -1, current.value.shortName)))
  }

  /**
   * `finalize_bid`: settle the lot, draw the next team, then reset the bid, the
   * countdown and the log. The draw can fail after the winner was charged.
   */
  function FinalizeBid(games: map<string, GameInfo>, gameId: string, pick: nat): (s: Step<BidModel>)
    requires gameId in games ==> ValidPick(games[gameId].teams, pick)
    ensures s.games.Keys == games.Keys
  {
    if gameId !in games then Step(games, Failure(KeyError))
    else
      var settled := SettleLot(games, gameId);
      if settled.result.Failure? then settled
      else
        var drawn := GetRandomTeam(settled.games, gameId, pick);
        if drawn.result.Failure? then Step(drawn.games, Failure(drawn.result.error))
        else
          var g := drawn.games[gameId];
          Step(drawn.games[gameId := g.(currentTeam := Some(drawn.result.value), currentBid := INITIAL_BID,
                                        countdown := INITIAL_COUNTDOWN, log := [])],
               Success(settled.result.value))
  }
}
