/**
 * The standalone bid page: an input, the highest bid heard over the socket, a
 * single check before a number is posted, and the socket handler that takes any
 * numeric message as the new highest bid.
 */
module LegacyBid {
  import opened Wrappers
  import opened Text

  const REJECTION_MESSAGE := "Your bid must be higher than the current highest bid."

  /** The body posted for an accepted bid. */
  datatype NumberRequest = NumberRequest(number: int)

  /** The one check: the text parses and beats the highest bid. */
  function Check(input: string, currentHighestBid: int): (r: Option<int>)
    ensures r.None? <==> ParseInt(input).None? || ParseInt(input).value <= currentHighestBid
    ensures r.Some? ==> r.value == ParseInt(input).value && r.value > currentHighestBid
  {
    match ParseInt(input)
    case None => None
    case Some(n) => if n <= currentHighestBid then None else Some(n)
  }

  /** The highest bid after a socket message: a number replaces it, anything else leaves it. */
  function Heard(currentHighestBid: int, data: string): (h: int)
    ensures ParseInt(data).Some? ==> h == ParseInt(data).value
    ensures ParseInt(data).None? ==> h == currentHighestBid
  {
    match ParseInt(data)
    case None => currentHighestBid
    case Some(n) => n
  }

  /** The highest bid after a run of socket messages. */
  function HeardAll(start: int, messages: seq<string>): int
  {
    if messages == [] then start else Heard(HeardAll(start, messages[..|messages| - 1]), messages[|messages| - 1])
  }

  /** With no numeric message, the highest bid stays where it started. */
  lemma {:induction false} NoNumberNoChange(start: int, messages: seq<string>)
    requires forall i :: 0 <= i < |messages| ==> ParseInt(messages[i]).None?
    ensures HeardAll(start, messages) == start
  {
    if messages != [] {
      NoNumberNoChange(start, messages[..|messages| - 1]);
    }
  }

  /** The highest bid is the last numeric message heard, even when it is lower than an earlier one. */
  lemma {:induction false} LastNumberWins(start: int, messages: seq<string>, i: nat)
    requires i < |messages| && ParseInt(messages[i]).Some?
    requires forall j :: i < j < |messages| ==> ParseInt(messages[j]).None?
    ensures HeardAll(start, messages) == ParseInt(messages[i]).value
  {
    if i < |messages| - 1 {
      LastNumberWins(start, messages[..|messages| - 1], i);
    }
  }

  /** The value the input is reset to always passes the check. */
  lemma ResetInputAccepted(currentHighestBid: int)
    ensures Check(IntToString(currentHighestBid + 1), currentHighestBid) == Some(currentHighestBid + 1)
  {
    ParseIntOfIntToString(currentHighestBid + 1);
  }

  class BidPage {
    /** The text in the input. */
    var bid: string
    /** The highest bid heard so far. */
    var currentHighestBid: int

    /** Mounted: the highest bid starts at 0 and the effect sets the input to "1". */
    constructor()
      ensures currentHighestBid == 0 && bid == "1"
    {
      currentHighestBid := 0;
      bid := IntToString(0 + 1);
    }

    /** The player types. */
    method Edit(value: string)
      modifies this
      ensures bid == value && currentHighestBid == old(currentHighestBid)
    {
      bid := value;
    }

    /**
     * The form is submitted: a rejected bid shows one message and posts nothing;
     * an accepted one is posted as a number. A failed post is only logged, so no
     * state changes either way.
     */
    method Submit() returns (alert: Option<string>, request: Option<NumberRequest>)
      ensures Check(bid, currentHighestBid).None? ==> alert == Some(REJECTION_MESSAGE) && request.None?
      ensures Check(bid, currentHighestBid).Some? ==>
        alert.None? && request == Some(NumberRequest(Check(bid, currentHighestBid).value))
    {
      var accepted := Check(bid, currentHighestBid);
      if accepted.None? {
        return Some(REJECTION_MESSAGE), None;
      }
      return None, Some(NumberRequest(accepted.value));
    }

    /**
     * A socket message: a number becomes the highest bid, and when that changes the
     * value, the input is reset to one more than it.
     */
    method OnMessage(data: string)
      modifies this
      ensures currentHighestBid == Heard(old(currentHighestBid), data)
      ensures bid == if currentHighestBid != old(currentHighestBid) then IntToString(currentHighestBid + 1) else old(bid)
    {
      var receivedBid := ParseInt(data);
      if receivedBid.Some? && receivedBid.value != currentHighestBid {
        currentHighestBid := receivedBid.value;
        bid := IntToString(currentHighestBid + 1);
      }
    }
  }
}
