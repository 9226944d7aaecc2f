/**
 * The spectator page: the table of players it keeps from the game's socket and
 * the highest team score it colours them by. A `"players"` message replaces the
 * table; while copying each player's teams the handler tracks that player's best
 * team score.
 */
module ViewPage {
  import opened Wrappers
  import opened Text

  /** A team as the page keeps it. */
  datatype ViewTeam = ViewTeam(shortName: string, urlName: string, seed: int, region: string, purchasePrice: int,
                               points: int)

  /**
   * A player as the message carries it. `balance` and `points` are the text
   * `parseInt` is given (the JSON value as a string, or "undefined" when absent).
   */
  datatype PlayerPayload = PlayerPayload(name: string, gameId: string, balance: string, points: string,
                                         teams: seq<ViewTeam>)

  /** A player as the page keeps it; a failed `parseInt` (NaN) is `None`. */
  datatype ViewPlayer = ViewPlayer(name: string, gameId: string, balance: Option<int>, points: Option<int>,
                                   teams: seq<ViewTeam>)

  /** A socket message after parsing: `"gameStarted"`, or an object whose `players` key may be absent. */
  datatype ViewMessage = GameStarted | Fields(players: Option<seq<(string, PlayerPayload)>>)

  /** The best team score of one player, starting from 0. */
  function LocalMax(teams: seq<ViewTeam>): (m: int)
    ensures m >= 0
  {
    if teams == [] then 0
    else
      var m := LocalMax(teams[..|teams| - 1]);
      if teams[|teams| - 1].points > m then teams[|teams| - 1].points else m
  }

  /** A player's best score is 0 or the score of one of their teams, and no team scores more. */
  lemma {:induction false} LocalMaxIsMax(teams: seq<ViewTeam>)
    ensures forall i :: 0 <= i < |teams| ==> teams[i].points <= LocalMax(teams)
    ensures LocalMax(teams) == 0 || exists i :: 0 <= i < |teams| && teams[i].points == LocalMax(teams)
  {
    if teams != [] {
      var init := teams[..|teams| - 1];
      LocalMaxIsMax(init);
      assert forall i :: 0 <= i < |init| ==> teams[i] == init[i];
      if LocalMax(init) != 0 && LocalMax(teams) == LocalMax(init) {
        var i :| 0 <= i < |init| && init[i].points == LocalMax(init);
        assert teams[i].points == LocalMax(teams);
      }
    }
  }

  /** A player copied into the page's table, balance and points through `parseInt`. */
  function ViewPlayerOf(p: PlayerPayload): ViewPlayer
  {
    ViewPlayer(p.name, p.gameId, ParseInt(p.balance), ParseInt(p.points), p.teams)
  }

  /** `f` applied to each element, in order. */
  function MapSeq<A, B>(f: A -> B, s: seq<A>): (r: seq<B>)
    ensures |r| == |s|
  {
    if s == [] then [] else MapSeq(f, s[..|s| - 1]) + [f(s[|s| - 1])]
  }

  /** Element `k` of the mapped sequence is `f` of element `k`. */
  lemma {:induction false} MapSeqAt<A, B>(f: A -> B, s: seq<A>, k: nat)
    requires k < |s|
    ensures MapSeq(f, s)[k] == f(s[k])
  {
    if k < |s| - 1 {
      MapSeqAt(f, s[..|s| - 1], k);
    }
  }

  /** A row of the page's table: the key with its player copied. */
  function Row(entry: (string, PlayerPayload)): (string, ViewPlayer)
  {
    (entry.0, ViewPlayerOf(entry.1))
  }

  /**
   * The page's table for a `players` object: row `k` is the `k`-th key with its
   * player's fields, `parseInt` applied to balance and points.
   */
  lemma RowsOfEntries(entries: seq<(string, PlayerPayload)>)
    ensures forall k :: 0 <= k < |entries| ==> MapSeq(Row, entries)[k] == Row(entries[k])
  {
    forall k | 0 <= k < |entries|
      ensures MapSeq(Row, entries)[k] == Row(entries[k])
    {
      MapSeqAt(Row, entries, k);
    }
  }

  /**
   * `maxPoints` after a `players` message as the handler is written: every player
   * whose best score beats the value `captured` when the handler was set up calls
   * the setter, and the last such call wins.
   */
  function MaxPointsAsWritten(captured: int, entries: seq<(string, PlayerPayload)>): (r: int)
    ensures r >= captured
  {
    if entries == [] then captured
    else
      var local := LocalMax(entries[|entries| - 1].1.teams);
      if local > captured then local else MaxPointsAsWritten(captured, entries[..|entries| - 1])
  }

  /** As written, the setter is only called with a value above the captured one: some player's best score. */
  lemma {:induction false} AsWrittenSetsAPlayersScore(captured: int, entries: seq<(string, PlayerPayload)>)
    ensures MaxPointsAsWritten(captured, entries) > captured ==>
      exists i :: 0 <= i < |entries| && LocalMax(entries[i].1.teams) == MaxPointsAsWritten(captured, entries)
  {
    if entries != [] && LocalMax(entries[|entries| - 1].1.teams) <= captured {
      var init := entries[..|entries| - 1];
      AsWrittenSetsAPlayersScore(captured, init);
      if MaxPointsAsWritten(captured, init) > captured {
        var i :| 0 <= i < |init| && LocalMax(init[i].1.teams) == MaxPointsAsWritten(captured, init);
        assert entries[i] == init[i];
      }
    }
  }

  /** The highest score: the old maximum or the best team score of any player, whichever is larger. */
  function HighestPoints(captured: int, entries: seq<(string, PlayerPayload)>): (r: int)
    ensures r >= captured
  {
    if entries == [] then captured
    else
      var best := HighestPoints(captured, entries[..|entries| - 1]);
      var local := LocalMax(entries[|entries| - 1].1.teams);
      if local > best then local else best
  }

  /** The highest score bounds every player's best score and is the old maximum or one of them. */
  lemma {:induction false} HighestPointsIsMax(captured: int, entries: seq<(string, PlayerPayload)>)
    ensures forall i :: 0 <= i < |entries| ==> LocalMax(entries[i].1.teams) <= HighestPoints(captured, entries)
    ensures HighestPoints(captured, entries) == captured
            || exists i :: 0 <= i < |entries| && LocalMax(entries[i].1.teams) == HighestPoints(captured, entries)
  {
    if entries != [] {
      var init := entries[..|entries| - 1];
      HighestPointsIsMax(captured, init);
      assert forall i :: 0 <= i < |init| ==> entries[i] == init[i];
      if HighestPoints(captured, entries) != captured && HighestPoints(captured, entries) == HighestPoints(captured, init) {
        var i :| 0 <= i < |init| && LocalMax(init[i].1.teams) == HighestPoints(captured, init);
        assert LocalMax(entries[i].1.teams) == HighestPoints(captured, entries);
      }
    }
  }

  /** The value the handler leaves never exceeds the highest score. */
  lemma AsWrittenAtMostHighest(captured: int, entries: seq<(string, PlayerPayload)>)
    ensures MaxPointsAsWritten(captured, entries) <= HighestPoints(captured, entries)
  {
    AsWrittenSetsAPlayersScore(captured, entries);
    HighestPointsIsMax(captured, entries);
  }

  /** Two players, the first with a team of 30 points, the second with one of 20. */
  function TwoPlayers(): seq<(string, PlayerPayload)>
  {
    [("A", PlayerPayload("A", "g", "100", "0", [ViewTeam("Duke", "duke", 1, "East", 10, 30)])),
     ("B", PlayerPayload("B", "g", "100", "0", [ViewTeam("Yale", "yale", 13, "East", 5, 20)]))]
  }

  /** As written, the second player's 20 overwrites the first player's 30; the maximum is 30. */
  lemma LastSetterWins()
    ensures MaxPointsAsWritten(0, TwoPlayers()) == 20
    ensures HighestPoints(0, TwoPlayers()) == 30
  {
    var ps := TwoPlayers();
    assert ps[..1][..0] == [];
    assert ps[..1] == [ps[0]];
    assert LocalMax(ps[0].1.teams) == 30 by {
      assert ps[0].1.teams[..0] == [];
    }
    assert LocalMax(ps[1].1.teams) == 20 by {
      assert ps[1].1.teams[..0] == [];
    }
  }

  class ViewPageState {
    /** The players by name, in the order they arrived. */
    var playerInfos: seq<(string, ViewPlayer)>
    /** The highest team score seen. */
    var maxPoints: int

    constructor()
      ensures playerInfos == [] && maxPoints == 0
    {
      playerInfos := [];
      maxPoints := 0;
    }

    /**
     * The socket handler as written: the table is replaced, and `maxPoints` is
     * the last player's best score above the value the handler captured (see
     * `HighestPoints` for the maximum it evidently means). Messages other than a
     * `players` object leave everything as it was.
     */
    method OnMessage(m: ViewMessage)
      modifies this
      ensures m.GameStarted? || m.players.None? ==> playerInfos == old(playerInfos) && maxPoints == old(maxPoints)
      ensures m.Fields? && m.players.Some? ==>
        && playerInfos == MapSeq(Row, m.players.value)
        && maxPoints == MaxPointsAsWritten(old(maxPoints), m.players.value)
    {
      if m.GameStarted? || m.players.None? {
        return;
      }
      playerInfos, maxPoints := ReadPlayers(m.players.value, maxPoints);
    }
  }

  /**
   * The body of a `players` message: the new table, built one key at a time, and
   * the value `maxPoints` is left with: each player's best score is compared with
   * `captured`, never with what an earlier player set, so the last setter wins.
   */
  method ReadPlayers(entries: seq<(string, PlayerPayload)>, captured: int)
    returns (players: seq<(string, ViewPlayer)>, maxPoints: int)
    ensures players == MapSeq(Row, entries)
    ensures maxPoints == MaxPointsAsWritten(captured, entries)
  {
    players := [];
    maxPoints := captured;
    for i := 0 to |entries|
      invariant players == MapSeq(Row, entries[..i])
      invariant maxPoints == MaxPointsAsWritten(captured, entries[..i])
    {
      assert entries[..i + 1][..i] == entries[..i];
      var view, maxPointsLocal := ReadPlayer(entries[i].1);
      players := players + [(entries[i].0, view)];
      if maxPointsLocal > captured {
        maxPoints := maxPointsLocal;
      }
    }
    assert entries[..|entries|] == entries;
  }

  /** One player of the message, copied into the table, with that player's best team score. */
  method ReadPlayer(player: PlayerPayload) returns (view: ViewPlayer, maxPointsLocal: int)
    ensures view == ViewPlayerOf(player)
    ensures maxPointsLocal == LocalMax(player.teams)
  {
    var teams;
    teams, maxPointsLocal := CopyTeams(player.teams);
    view := ViewPlayer(player.name, player.gameId, ParseInt(player.balance), ParseInt(player.points), teams);
  }

  /** Copy a player's teams field by field, tracking the best score from 0. */
  method CopyTeams(teams: seq<ViewTeam>) returns (copied: seq<ViewTeam>, maxPointsLocal: int)
    ensures copied == teams
    ensures maxPointsLocal == LocalMax(teams)
  {
    copied := [];
    maxPointsLocal := 0;
    for j := 0 to |teams|
      invariant copied == teams[..j]
      invariant maxPointsLocal == LocalMax(teams[..j])
    {
      assert teams[..j + 1][..j] == teams[..j];
      var t := teams[j];
      if t.points > maxPointsLocal {
        maxPointsLocal := t.points;
      }
      copied := copied + [ViewTeam(t.shortName, t.urlName, t.seed, t.region, t.purchasePrice, t.points)];
    }
    assert teams[..|teams|] == teams;
  }
}
