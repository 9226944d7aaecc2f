/**
 * The auction's constants and records, with the defaults a new record takes.
 * Money and the countdown are whole numbers here.
 */
module AuctionTypes {
  import opened Wrappers
  import opened Teams

  const GAME_ID_NUM_CHAR: nat := 6
  const INITIAL_COUNTDOWN: int := 10
  const INITIAL_BID: int := 0
  const INITIAL_BALANCE: int := 100

  /** One bid: the game, the bidding player, the amount and the team bid on. */
  datatype BidModel = BidModel(gameId: string, player: string, bid: int, team: string)

  /** A player of one game: the money left and the labels of the teams bought. */
  datatype PlayerInfo = PlayerInfo(name: string, gameId: string, balance: int, teams: seq<string>)

  /**
   * One game: its creator, the player records by name, the teams still to be
   * auctioned, the team on the block, the current bid, the countdown and the bid log.
   */
  datatype GameInfo = GameInfo(
    creator: string,
    participants: seq<string>,
    currentBid: int,
    countdown: int,
    currentTeam: Option<Team>,
    log: seq<BidModel>,
    players: map<string, PlayerInfo>,
    teams: seq<Team>)

  /** A new player record: the initial balance and no teams. */
  function NewPlayer(name: string, gameId: string): (p: PlayerInfo)
    ensures p.name == name && p.gameId == gameId
    ensures p.balance == INITIAL_BALANCE == 100 && p.teams == []
  {
    PlayerInfo(name, gameId, INITIAL_BALANCE, [])
  }

  /**
   * A new game record: no participants, no bids yet, a full countdown and no team
   * on the block until one is drawn.
   */
  function NewGame(creator: string, players: map<string, PlayerInfo>, teams: seq<Team>): (g: GameInfo)
    ensures g.creator == creator && g.players == players && g.teams == teams
    ensures g.participants == [] && g.log == [] && g.currentTeam == None
    ensures g.currentBid == INITIAL_BID == 0 && g.countdown == INITIAL_COUNTDOWN == 10
  {
    GameInfo(creator, [], INITIAL_BID, INITIAL_COUNTDOWN, None, [], players, teams)
  }
}
