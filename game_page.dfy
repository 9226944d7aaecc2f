/**
 * The auction page: the state it keeps from the game's socket, the handler that
 * folds each message into it, the countdown's `HH:MM:SS` text and the colour
 * spacing of the participant list.
 */
module GamePage {
  import opened Wrappers
  import opened Text

  /**
   * A socket message after parsing: the `"gameStarted"` text, or an object with
   * each of the keys the page looks at either present (with its value) or absent.
   */
  datatype GameMessage =
    | GameStarted
    | Fields(participants: Option<seq<string>>, bid: Option<int>, countdown: Option<int>)

  /** What the page shows: the highest bid, the countdown, the participants and the team. */
  datatype PageState = PageState(currentHighestBid: int, countdown: int, participants: seq<string>, team: string)

  /** The state at mount. */
  const INITIAL_PAGE := PageState(0, 10, [], "Texas")

  /**
   * One message: `"gameStarted"` is ignored; otherwise the first of participants,
   * bid and countdown present replaces its field, whatever its old value, and
   * nothing else changes.
   */
  function Receive(s: PageState, m: GameMessage): (t: PageState)
    ensures m.GameStarted? ==> t == s
    ensures m.Fields? && m.participants.Some? ==> t == s.(participants := m.participants.value)
    ensures m.Fields? && m.participants.None? && m.bid.Some? ==> t == s.(currentHighestBid := m.bid.value)
    ensures m.Fields? && m.participants.None? && m.bid.None? && m.countdown.Some? ==>
      t == s.(countdown := m.countdown.value)
    ensures m.Fields? && m.participants.None? && m.bid.None? && m.countdown.None? ==> t == s
  {
    match m
    case GameStarted => s
    case Fields(participants, bid, countdown) =>
      if participants.Some? then s.(participants := participants.value)
      else if bid.Some? then s.(currentHighestBid := bid.value)
      else if countdown.Some? then s.(countdown := countdown.value)
      else s
  }

  /** The state after a run of messages. */
  function ReceiveAll(s: PageState, ms: seq<GameMessage>): PageState
  {
    if ms == [] then s else Receive(ReceiveAll(s, ms[..|ms| - 1]), ms[|ms| - 1])
  }

  /** No message ever changes the team: it stays "Texas" for the page's whole life. */
  lemma {:induction false} TeamNeverChanges(s: PageState, ms: seq<GameMessage>)
    ensures ReceiveAll(s, ms).team == s.team
    ensures ReceiveAll(INITIAL_PAGE, ms).team == "Texas"
  {
    if ms != [] {
      TeamNeverChanges(s, ms[..|ms| - 1]);
    }
  }

  /** A message changes at most one of the three fields. */
  lemma AtMostOneField(s: PageState, m: GameMessage)
    ensures var t := Receive(s, m);
      (if t.participants != s.participants then 1 else 0)
      + (if t.currentHighestBid != s.currentHighestBid then 1 else 0)
      + (if t.countdown != s.countdown then 1 else 0) <= 1
  {
  }

  /** Without any of the three keys, a run of messages leaves the state as it was. */
  lemma {:induction false} UnknownKeysIgnored(s: PageState, ms: seq<GameMessage>)
    requires forall i :: 0 <= i < |ms| ==>
      ms[i].GameStarted? || (ms[i].participants.None? && ms[i].bid.None? && ms[i].countdown.None?)
    ensures ReceiveAll(s, ms) == s
  {
    if ms != [] {
      UnknownKeysIgnored(s, ms[..|ms| - 1]);
    }
  }

  class GamePageState {
    var currentHighestBid: int
    var countdown: int
    var participants: seq<string>
    var team: string

    function Snapshot(): PageState
      reads this
    {
      PageState(currentHighestBid, countdown, participants, team)
    }

    constructor()
      ensures Snapshot() == INITIAL_PAGE
    {
      currentHighestBid := 0;
      countdown := 10;
      participants := [];
      team := "Texas";
    }

    /** The socket handler. */
    method OnMessage(m: GameMessage)
      modifies this
      ensures Snapshot() == Receive(old(Snapshot()), m)
    {
      if m.GameStarted? {
        return;
      }
      if m.participants.Some? {
        participants := m.participants.value;
      } else if m.bid.Some? {
        currentHighestBid := m.bid.value;
      } else if m.countdown.Some? {
        countdown := m.countdown.value;
      }
    }
  }

  /**
   * JavaScript's `%` for a positive divisor: the remainder takes the dividend's
   * sign, so for a negative dividend it is Dafny's remainder less `b`, or 0.
   */
  function JsRem(a: int, b: int): (r: int)
    requires b > 0
    ensures a >= 0 ==> r == a % b
    ensures a < 0 ==> -b < r <= 0 && r == if a % b == 0 then 0 else a % b - b
  {
    if a >= 0 then a % b
    else
      var k := a / b + (-a) / b;
      assert k * b == -(a % b + (-a) % b);
      MultipleBetween(k, b);
      -((-a) % b)
  }

  /** The only multiples of `b` in `(-2b, 0]` are `-b` and 0. */
  lemma MultipleBetween(k: int, b: int)
    requires b > 0 && -2 * b < k * b <= 0
    ensures k == 0 || k == -1
  {
    if k >= 1 {
      MultipleAbove(k, b);
    } else if k <= -2 {
      MultipleBelow(k, b);
    }
  }

  lemma {:induction false} MultipleAbove(k: int, b: int)
    requires b > 0 && k >= 1
    ensures k * b >= b
    decreases k
  {
    if k > 1 {
      MultipleAbove(k - 1, b);
      assert k * b == (k - 1) * b + b;
    }
  }

  lemma {:induction false} MultipleBelow(k: int, b: int)
    requires b > 0 && k <= -2
    ensures k * b <= -2 * b
    decreases -k
  {
    if k < -2 {
      MultipleBelow(k + 1, b);
      assert k * b == (k + 1) * b - b;
    }
  }

  /** The three parts of `secondsToHMS`; `Math.floor` of a quotient is Dafny's `/` for a positive divisor. */
  function HMSParts(seconds: int): (parts: (int, int, int))
    ensures seconds >= 0 ==>
      && parts.0 >= 0 && 0 <= parts.1 < 60 && 0 <= parts.2 < 60
      && parts.0 * 3600 + parts.1 * 60 + parts.2 == seconds
  {
    (seconds / 3600, JsRem(seconds, 3600) / 60, JsRem(seconds, 60))
  }

  /** `secondsToHMS`: each part zero-padded to two characters, joined with colons. */
  function SecondsToHMS(seconds: int): (hms: string)
    ensures seconds >= 0 ==> |hms| >= 8 && hms[|hms| - 6] == ':' && hms[|hms| - 3] == ':'
  {
    var (h, m, s) := HMSParts(seconds);
    var hh, mm, ss := PadStart(IntToString(h), 2, '0'), PadStart(IntToString(m), 2, '0'), PadStart(IntToString(s), 2, '0');
    assert seconds >= 0 ==> |hh| >= 2 && |mm| == 2 && |ss| == 2 by {
      if seconds >= 0 {
        assert IntToString(m) == NatToString(m) && IntToString(s) == NatToString(s);
      }
    }
    hh + ":" + mm + ":" + ss
  }

  /** A part below 100 is written as exactly two digits that read back as the part. */
  lemma TwoDigits(n: nat)
    requires n < 100
    ensures var d := PadStart(NatToString(n), 2, '0');
      |d| == 2 && AllDigits(d) && DigitsValue(d) == n
  {
    NatToStringValue(n);
    ZeroPadValue(NatToString(n), 2);
  }

  /** Three two-character fields joined with colons sit at fixed places. */
  lemma ColonFields(hh: string, mm: string, ss: string)
    requires |hh| == 2 && |mm| == 2 && |ss| == 2
    ensures var t := hh + ":" + mm + ":" + ss;
      |t| == 8 && t[2] == ':' && t[5] == ':' && t[..2] == hh && t[3..5] == mm && t[6..] == ss
  {
    var t := hh + ":" + mm + ":" + ss;
    assert t == hh + ([':'] + mm) + ([':'] + ss);
  }

  /**
   * Under 100 hours the text is `HH:MM:SS`, and reading its three fields back as
   * hours, minutes and seconds gives the number of seconds again.
   */
  lemma HMSRoundTrip(seconds: nat)
    requires seconds < 360000
    ensures var hms := SecondsToHMS(seconds);
      && |hms| == 8 && hms[2] == ':' && hms[5] == ':'
      && AllDigits(hms[..2]) && AllDigits(hms[3..5]) && AllDigits(hms[6..])
      && DigitsValue(hms[..2]) * 3600 + DigitsValue(hms[3..5]) * 60 + DigitsValue(hms[6..]) == seconds
  {
    var parts := HMSParts(seconds);
    var h, m, s := parts.0, parts.1, parts.2;
    var hh, mm, ss := PadStart(NatToString(h), 2, '0'), PadStart(NatToString(m), 2, '0'), PadStart(NatToString(s), 2, '0');
    HMSFields(seconds);
    TwoDigits(h);
    TwoDigits(m);
    TwoDigits(s);
    ColonFields(hh, mm, ss);
  }

  /** Below 100 hours, the text is the three parts written with `NatToString`, padded and joined. */
  lemma HMSFields(seconds: nat)
    requires seconds < 360000
    ensures var (h, m, s) := HMSParts(seconds);
      && h < 100 && m < 60 && s < 60 && h * 3600 + m * 60 + s == seconds
      && SecondsToHMS(seconds)
         == PadStart(NatToString(h), 2, '0') + ":" + PadStart(NatToString(m), 2, '0') + ":" + PadStart(NatToString(s), 2, '0')
  {
    var (h, m, s) := HMSParts(seconds);
    assert IntToString(h) == NatToString(h) && IntToString(m) == NatToString(m) && IntToString(s) == NatToString(s);
  }

  /** The hue of the `i`-th participant's icon: steps of 30 degrees around the colour wheel, repeating every twelve. */
  function Hue(i: nat): (hue: nat)
    ensures 0 <= hue < 360
    ensures hue == 30 * (i % 12)
  {
    assert i * 30 == 360 * (i / 12) + 30 * (i % 12);
    (i * 30) % 360
  }

  /** Two participants share a colour exactly when their places are congruent modulo twelve. */
  lemma HueCycle(i: nat, j: nat)
    ensures Hue(i) == Hue(j) <==> i % 12 == j % 12
  {
  }
}
