/**
 * The bid form of the game page: the text typed, a flag that blocks a second
 * submission while a request is in flight, and the chain of checks a bid must
 * pass before it is sent. `parseInt` is `Text.ParseInt`; the request's outcome is
 * an input.
 */
module BidForm {
  import opened Wrappers
  import opened Text

  const INVALID_NUMBER_MESSAGE := "Please enter a valid number for your bid."
  const TOO_LOW_MESSAGE := "Your bid must be higher than the current highest bid."
  const OVER_BALANCE_MESSAGE := "Your bid cannot exceed your available balance."
  const FAILED_MESSAGE := "Failed to submit bid. Please try again."

  /** What the checks decide about the text typed. */
  datatype Verdict = InvalidNumber | TooLow | OverBalance | Accept(amount: int)

  /** The body of the bid request. */
  datatype BidRequest = BidRequest(gameId: string, player: string, bid: int, team: string)

  /** What a press of the button does. */
  datatype Submission = Ignored | Rejected(message: string) | Sent(request: BidRequest)

  /**
   * The checks, in order: a number at all, then above the current highest bid,
   * then within the balance. Only the first failure counts.
   */
  function Validate(input: string, currentHighestBid: int, balance: int): (v: Verdict)
    ensures v == InvalidNumber <==> ParseInt(input).None?
    ensures v == TooLow <==> ParseInt(input).Some? && ParseInt(input).value <= currentHighestBid
    ensures v == OverBalance <==>
      ParseInt(input).Some? && currentHighestBid < ParseInt(input).value && ParseInt(input).value > balance
    ensures v.Accept? <==>
      ParseInt(input).Some? && currentHighestBid < ParseInt(input).value <= balance
    ensures v.Accept? ==> v.amount == ParseInt(input).value
  {
    match ParseInt(input)
    case None => InvalidNumber
    case Some(n) =>
      if n <= currentHighestBid then TooLow
      else if n > balance then OverBalance
      else Accept(n)
  }

  /** The alert shown for a rejected bid. */
  function RejectionMessage(v: Verdict): (message: string)
    requires !v.Accept?
    ensures v == InvalidNumber ==> message == INVALID_NUMBER_MESSAGE
    ensures v == TooLow ==> message == TOO_LOW_MESSAGE
    ensures v == OverBalance ==> message == OVER_BALANCE_MESSAGE
  {
    match v
    case InvalidNumber => INVALID_NUMBER_MESSAGE
    case TooLow => TOO_LOW_MESSAGE
    case OverBalance => OVER_BALANCE_MESSAGE
  }

  /** The value the input is reset to, `currentHighestBid + 1`, passes the checks whenever the player can afford it. */
  lemma ResetBidAccepted(currentHighestBid: int, balance: int)
    requires currentHighestBid + 1 <= balance
    ensures Validate(IntToString(currentHighestBid + 1), currentHighestBid, balance) == Accept(currentHighestBid + 1)
  {
    ParseIntOfIntToString(currentHighestBid + 1);
  }

  /** Matching the current highest bid is not enough. */
  lemma EqualBidRejected(currentHighestBid: int, balance: int)
    ensures Validate(IntToString(currentHighestBid), currentHighestBid, balance) == TooLow
  {
    ParseIntOfIntToString(currentHighestBid);
  }

  /** A bid of the whole balance passes, one more does not. */
  lemma WholeBalanceAccepted(currentHighestBid: int, balance: int)
    requires currentHighestBid < balance
    ensures Validate(IntToString(balance), currentHighestBid, balance) == Accept(balance)
    ensures Validate(IntToString(balance + 1), currentHighestBid, balance) == OverBalance
  {
    ParseIntOfIntToString(balance);
    ParseIntOfIntToString(balance + 1);
  }

  class BidInput {
    /** The text in the input. */
    var bid: string
    /** Whether a request is in flight. */
    var isSubmitting: bool
    /** The current highest bid and the player's balance, as last passed in. */
    var currentHighestBid: int
    var balance: int
    const gameId: string
    const player: string
    const team: string

    /** Mounted: the effect has already set the input to one more than the highest bid. */
    constructor(gameId: string, player: string, team: string, currentHighestBid: int, balance: int)
      ensures this.gameId == gameId && this.player == player && this.team == team
      ensures this.currentHighestBid == currentHighestBid && this.balance == balance
      ensures bid == IntToString(currentHighestBid + 1) && !isSubmitting
    {
      this.gameId := gameId;
      this.player := player;
      this.team := team;
      this.currentHighestBid := currentHighestBid;
      this.balance := balance;
      bid := IntToString(currentHighestBid + 1);
      isSubmitting := false;
    }

    /** New props: the input is reset to one more than the highest bid when, and only when, that bid changed. */
    method Rerender(newHighestBid: int, newBalance: int)
      modifies this
      ensures currentHighestBid == newHighestBid && balance == newBalance && isSubmitting == old(isSubmitting)
      ensures bid == if newHighestBid != old(currentHighestBid) then IntToString(newHighestBid + 1) else old(bid)
    {
      if newHighestBid != currentHighestBid {
        bid := IntToString(newHighestBid + 1);
      }
      currentHighestBid := newHighestBid;
      balance := newBalance;
    }

    /** The player types (the debounced setter, taken after its delay). */
    method Edit(value: string)
      modifies this
      ensures bid == value
      ensures isSubmitting == old(isSubmitting) && currentHighestBid == old(currentHighestBid) && balance == old(balance)
    {
      bid := value;
    }

    /**
     * The button is pressed: ignored while a request is in flight; otherwise the
     * first failed check is reported and nothing is sent, or the request is sent and
     * the form is marked as submitting.
     */
    method Submit() returns (s: Submission)
      modifies this
      ensures bid == old(bid) && currentHighestBid == old(currentHighestBid) && balance == old(balance)
      ensures old(isSubmitting) ==> s == Ignored && isSubmitting
      ensures !old(isSubmitting) ==> match Validate(bid, currentHighestBid, balance)
        case Accept(amount) => s == Sent(BidRequest(gameId, player, amount, team)) && isSubmitting
        case _ => s == Rejected(RejectionMessage(Validate(bid, currentHighestBid, balance))) && !isSubmitting
    {
      if isSubmitting {
        return Ignored;
      }
      var verdict := Validate(bid, currentHighestBid, balance);
      if !verdict.Accept? {
        return Rejected(RejectionMessage(verdict));
      }
      isSubmitting := true;
      s := Sent(BidRequest(gameId, player, verdict.amount, team));
    }

    /**
     * The request settles: on either outcome the form stops submitting, and a
     * failure is reported, with no retry.
     */
    method Settle(ok: bool) returns (alert: Option<string>)
      modifies this
      ensures !isSubmitting
      ensures bid == old(bid) && currentHighestBid == old(currentHighestBid) && balance == old(balance)
      ensures alert == if ok then None else Some(FAILED_MESSAGE)
    {
      alert := if ok then None else Some(FAILED_MESSAGE);
      isSubmitting := false;
    }
  }
}
