/**
 * Construction of one 16-team single-elimination region: match ids come from a
 * counter starting at 1, round 1 pairs `teams[i]` with `teams[15 - i]`, and each
 * later round is created pairwise, linking the two feeding matches to the new one
 * by overwriting their `nextMatchId`.
 */
module RegionBracket {
  import opened Wrappers
  import opened Teams
  import opened Text

  /** The plain value of a match, as a result list from the server holds it. */
  datatype MatchData = MatchData(
    id: int,
    nextMatchId: Option<int>,
    roundName: string,
    participants: seq<Team>,
    winner: Option<string>)

  /**
   * A match object. The builder only ever overwrites `nextMatchId` after creating a
   * match, so the other fields are fixed at construction.
   */
  class Match {
    const id: int
    var nextMatchId: Option<int>
    const roundName: string
    const participants: seq<Team>
    const winner: Option<string>

    constructor (id: int, nextMatchId: Option<int>, roundName: string, participants: seq<Team>)
      ensures Data() == MatchData(id, nextMatchId, roundName, participants, None)
    {
      this.id := id;
      this.nextMatchId := nextMatchId;
      this.roundName := roundName;
      this.participants := participants;
      this.winner := None;
    }

    function Data(): MatchData
      reads this
    {
      MatchData(id, nextMatchId, roundName, participants, winner)
    }
  }

  /** The values held by a list of match objects. */
  function Snapshot(ms: seq<Match>): (r: seq<MatchData>)
    reads ms
    ensures |r| == |ms| && forall p :: 0 <= p < |ms| ==> r[p] == ms[p].Data()
  {
    seq(|ms|, p requires 0 <= p < |ms| reads ms => ms[p].Data())
  }

  /** The label `Round ${round}`. */
  function RoundName(round: nat): (name: string)
    ensures |name| > 6 && name[..6] == "Round "
    ensures AllDigits(name[6..]) && DigitsValue(name[6..]) == round
  {
    NatToStringValue(round);
    assert ("Round " + NatToString(round))[6..] == NatToString(round);
    "Round " + NatToString(round)
  }

  /** The round of the match at position `p` of a 16-team region: 8, 4, 2 and 1 matches. */
  function RoundOf(p: nat): nat
  {
    if p < 8 then 1 else if p < 12 then 2 else if p < 14 then 3 else 4
  }

  /** The position of the first match of `round`; `RoundStart(5)` is the number of matches. */
  function RoundStart(round: nat): nat
  {
    if round <= 1 then 0 else if round == 2 then 8 else if round == 3 then 12 else if round == 4 then 14 else 15
  }

  /** The position of the match that the winner of match `p` advances to. */
  function Parent(p: nat): nat
  {
    8 + p / 2
  }

  /**
   * The `nextMatchId` of the match at position `p` once the first `n` matches exist:
   * set exactly when its next-round match already exists.
   */
  function NextLink(p: nat, n: nat): Option<int>
  {
    if Parent(p) < n then Some(Parent(p) + 1) else None
  }

  /** The participants of the match at position `p`: a round-one pairing, or none yet. */
  function Pairing(teams: seq<Team>, p: nat): seq<Team>
    requires |teams| == 16
  {
    if p < 8 then [teams[2 * p], teams[15 - 2 * p]] else []
  }

  /** The complete match at position `p` of the region. */
  function RegionMatch(teams: seq<Team>, p: nat): MatchData
    requires |teams| == 16
  {
    MatchData(p + 1, NextLink(p, 15), RoundName(RoundOf(p)), Pairing(teams, p), None)
  }

  /** The complete region, as a reference definition independent of the construction loop. */
  function RegionBracketSpec(teams: seq<Team>): (r: seq<MatchData>)
    requires |teams| == 16
    ensures |r| == 15
  {
    seq(15, p requires 0 <= p < 15 => RegionMatch(teams, p))
  }

  /** The fields of the match at position `p` that are fixed when it is created. */
  predicate Placed(m: Match, teams: seq<Team>, p: nat)
    requires |teams| == 16
  {
    m.id == p + 1 && m.roundName == RoundName(RoundOf(p)) && m.participants == Pairing(teams, p)
    && m.winner == None
  }

  /** The first `|ms|` matches of the region exist, linked as far as their next match exists. */
  ghost predicate Built(ms: seq<Match>, teams: seq<Team>)
    requires |teams| == 16
    reads ms
  {
    && |ms| <= 15
    && (forall p :: 0 <= p < |ms| ==> Placed(ms[p], teams, p) && ms[p].nextMatchId == NextLink(p, |ms|))
  }

  /** Built matches are distinct objects, since they hold distinct ids. */
  lemma BuiltDistinct(ms: seq<Match>, teams: seq<Team>)
    requires |teams| == 16 && Built(ms, teams)
    ensures forall p, q :: 0 <= p < q < |ms| ==> ms[p] != ms[q]
  {
    forall p, q | 0 <= p < q < |ms|
      ensures ms[p] != ms[q]
    {
      assert ms[p].id == p + 1 && ms[q].id == q + 1;
    }
  }

  /** A complete built region holds exactly the reference region. */
  lemma BuiltComplete(ms: seq<Match>, teams: seq<Team>)
    requires |teams| == 16 && |ms| == 15 && Built(ms, teams)
    ensures Snapshot(ms) == RegionBracketSpec(teams)
  {
    forall p | 0 <= p < 15
      ensures Snapshot(ms)[p] == RegionBracketSpec(teams)[p]
    {
      assert Placed(ms[p], teams, p);
    }
  }

  /** The state that `createMatch` closes over: the id counter and the two match lists. */
  class RegionBuilder {
    var matchId: int
    var matches: seq<Match>
    var roundMatches: map<nat, seq<Match>>

    constructor ()
      ensures matchId == 1 && matches == [] && roundMatches == map[]
    {
      matchId := 1;
      matches := [];
      roundMatches := map[];
    }

    /** `createMatch`: a new match with the next id, appended to both lists. */
    method CreateMatch(participants: seq<Team>, round: nat, nextMatchId: Option<int>) returns (m: Match)
      modifies this
      ensures fresh(m)
      ensures m.Data() == MatchData(old(matchId), nextMatchId, RoundName(round), participants, None)
      ensures matchId == old(matchId) + 1
      ensures matches == old(matches) + [m]
      ensures roundMatches == old(roundMatches)[round :=
        (if round in old(roundMatches) then old(roundMatches)[round] else []) + [m]]
    {
      m := new Match(matchId, nextMatchId, RoundName(round), participants);
      matchId := matchId + 1;
      matches := matches + [m];
      if round !in roundMatches {
        roundMatches := roundMatches[round := []];
      }
      roundMatches := roundMatches[round := roundMatches[round] + [m]];
    }
  }

  /**
   * What creating the match at position `q` of `round` and linking its feeders `c` and
   * `c + 1` does to the links of the partial region.
   */
  lemma LinkStep(round: nat, q: nat, c: nat)
    requires 2 <= round <= 4
    requires RoundStart(round) <= q < RoundStart(round + 1)
    requires c == RoundStart(round - 1) + 2 * (q - RoundStart(round))
    ensures c + 1 < q && RoundOf(q) == round
    ensures NextLink(q, q + 1) == None
    ensures NextLink(c, q + 1) == Some(q + 1) && NextLink(c + 1, q + 1) == Some(q + 1)
    ensures forall p :: 0 <= p < q && p != c && p != c + 1 ==> NextLink(p, q + 1) == NextLink(p, q)
  {
    forall p | 0 <= p < q && p != c && p != c + 1
      ensures NextLink(p, q + 1) == NextLink(p, q)
    {
      assert Parent(p) != q;
    }
  }

  /** One pass of the first loop: the round-one match of `teams[i]` and `teams[15 - i]`. */
  method AddRoundOneMatch(b: RegionBuilder, teams: seq<Team>, i: nat) returns (m: Match)
    requires |teams| == 16 && i < 16 && i % 2 == 0
    requires |b.matches| == i / 2 && b.matchId == |b.matches| + 1
    requires Built(b.matches, teams)
    modifies b
    ensures fresh(m) && b.matches == old(b.matches) + [m]
    ensures b.roundMatches == old(b.roundMatches)[1 :=
      (if 1 in old(b.roundMatches) then old(b.roundMatches)[1] else []) + [m]]
    ensures b.matchId == old(b.matchId) + 1
    ensures Built(b.matches, teams)
  {
    ghost var q := |b.matches|;
    m := b.CreateMatch([teams[i], teams[15 - i]], 1, None);
    assert RoundOf(q) == 1 && 2 * q == i;
    assert Placed(m, teams, q);
  }

  /**
   * One pass of the inner `for` loop: create the next-round match for the feeders
   * at `prev[j]` and `prev[j + 1]`, then link both to it.
   */
  method AddNextRoundMatch(b: RegionBuilder, teams: seq<Team>, round: nat, prev: seq<Match>, j: nat)
    returns (nextMatch: Match)
    requires |teams| == 16 && 2 <= round <= 4
    requires RoundStart(round) <= |b.matches| && j == 2 * (|b.matches| - RoundStart(round))
    requires b.matchId == |b.matches| + 1
    requires RoundStart(round - 1) + |prev| == RoundStart(round) && j + 1 < |prev|
    requires prev == b.matches[RoundStart(round - 1)..RoundStart(round)]
    requires Built(b.matches, teams)
    modifies b, prev[j], prev[j + 1]
    ensures fresh(nextMatch)
    ensures b.matches == old(b.matches) + [nextMatch] && b.matchId == old(b.matchId) + 1
    ensures b.roundMatches == old(b.roundMatches)[round :=
      (if round in old(b.roundMatches) then old(b.roundMatches)[round] else []) + [nextMatch]]
    ensures Built(b.matches, teams)
  {
    ghost var q := |b.matches|;
    ghost var c := RoundStart(round - 1) + j;
    LinkStep(round, q, c);
    assert prev[j] == b.matches[c] && prev[j + 1] == b.matches[c + 1] by {
      assert prev[j] == b.matches[RoundStart(round - 1)..RoundStart(round)][j];
    }
    nextMatch := b.CreateMatch([], round, None);
    assert Placed(nextMatch, teams, q);
    ghost var ms := b.matches;
    // Link previous round matches to this new match
    prev[j].nextMatchId := Some(nextMatch.id);
    prev[j + 1].nextMatchId := Some(nextMatch.id);
    forall p | 0 <= p < q + 1
      ensures Placed(ms[p], teams, p) && ms[p].nextMatchId == NextLink(p, q + 1)
    {
      if p == q {
      } else if p == c || p == c + 1 {
      } else {
        assert ms[p].id != ms[c].id && ms[p].id != ms[c + 1].id;
      }
    }
  }

  /**
   * One pass of the outer `while` loop: the matches of `round`, two feeders at a time,
   * recorded under `round` once complete.
   */
  method AddRound(b: RegionBuilder, teams: seq<Team>, round: nat, prev: seq<Match>)
    returns (next: seq<Match>)
    requires |teams| == 16 && 2 <= round <= 4
    requires |b.matches| == RoundStart(round) && b.matchId == |b.matches| + 1
    requires prev == b.matches[RoundStart(round - 1)..]
    requires Built(b.matches, teams)
    modifies b, prev
    ensures |b.matches| == RoundStart(round + 1) && b.matchId == |b.matches| + 1
    ensures next == b.matches[RoundStart(round)..] && b.matches == old(b.matches) + next
    ensures fresh(next)
    ensures round in b.roundMatches && b.roundMatches[round] == next
    ensures Built(b.matches, teams)
  {
    ghost var n0, n1 := |b.matches|, RoundStart(round + 1);
    assert |prev| == 2 * (n1 - n0);
    next := [];
    var i := 0;
    while i < |prev|
      invariant i <= |prev| && i == 2 * |next|
      invariant b.matches == old(b.matches) + next && b.matchId == |b.matches| + 1
      invariant fresh(next)
      invariant Built(b.matches, teams)
    {
      assert b.matches[RoundStart(round - 1)..n0] == prev;
      var nextMatch := AddNextRoundMatch(b, teams, round, prev, i);
      next := next + [nextMatch];
      i := i + 2;
    }
    b.roundMatches := b.roundMatches[round := next];
  }

  /** The first `for` loop: the eight round-one matches, recorded under round 1. */
  method AddFirstRound(b: RegionBuilder, regionTeams: seq<Team>)
    requires |regionTeams| == 16
    requires b.matchId == 1 && b.matches == [] && b.roundMatches == map[]
    modifies b
    ensures |b.matches| == 8 && b.matchId == 9 && fresh(b.matches)
    ensures b.roundMatches == map[1 := b.matches]
    ensures Built(b.matches, regionTeams)
  {
    // First round: 8 matches
    var i := 0;
    while i < |regionTeams|
      invariant i <= 16 && i == 2 * |b.matches| && b.matchId == |b.matches| + 1
      invariant Built(b.matches, regionTeams)
      invariant fresh(b.matches)
      invariant b.roundMatches == if i == 0 then map[] else map[1 := b.matches]
    {
      var _ := AddRoundOneMatch(b, regionTeams, i);
      i := i + 2;
    }
  }

  /**
   * The closing statement: the last remaining match has no next match. The built
   * region is then the reference region, made of distinct objects.
   */
  method CloseFinal(ms: seq<Match>, teams: seq<Team>, prevRoundMatches: seq<Match>)
    requires |teams| == 16 && |ms| == 15 && Built(ms, teams)
    requires prevRoundMatches == [ms[14]]
    modifies ms[14]
    ensures Snapshot(ms) == RegionBracketSpec(teams)
    ensures forall p, q :: 0 <= p < q < |ms| ==> ms[p] != ms[q]
  {
    if |prevRoundMatches| == 1 {
      prevRoundMatches[0].nextMatchId := None;
    }
    forall p | 0 <= p < 15
      ensures Placed(ms[p], teams, p) && ms[p].nextMatchId == NextLink(p, 15)
    {
      if p != 14 {
        assert ms[p].id != ms[14].id;
      }
    }
    BuiltComplete(ms, teams);
    BuiltDistinct(ms, teams);
  }

  /**
   * `GenerateRegionBracketData`: the 15 matches of a 16-team region, distinct new
   * objects holding exactly the values of `RegionBracketSpec`.
   */
  method GenerateRegionBracketData(regionTeams: seq<Team>) returns (matches: seq<Match>)
    requires |regionTeams| == 16
    ensures Snapshot(matches) == RegionBracketSpec(regionTeams)
    ensures forall p, q :: 0 <= p < q < |matches| ==> matches[p] != matches[q]
    ensures fresh(matches)
  {
    var b := new RegionBuilder();
    AddFirstRound(b, regionTeams);
    ghost var firstRound := b.matches;
    var prevRoundMatches := AddLaterRounds(b, regionTeams);

    // The final match's nextMatchId is null as it is the last one
    matches := b.matches;
    assert fresh(matches) by {
      assert matches == firstRound + matches[8..];
    }
    CloseFinal(matches, regionTeams, prevRoundMatches);
  }

  /** The `while` loop: rounds 2 to 4, each half the size of the previous one. */
  method AddLaterRounds(b: RegionBuilder, regionTeams: seq<Team>) returns (prevRoundMatches: seq<Match>)
    requires |regionTeams| == 16
    requires |b.matches| == 8 && b.matchId == 9 && b.roundMatches == map[1 := b.matches]
    requires Built(b.matches, regionTeams)
    modifies b, b.matches
    ensures |b.matches| == 15 && Built(b.matches, regionTeams)
    ensures prevRoundMatches == [b.matches[14]]
    ensures b.matches[..8] == old(b.matches) && fresh(b.matches[8..])
  {
    var currentRound := 2;
    prevRoundMatches := b.roundMatches[1];
    while |prevRoundMatches| > 1
      invariant 2 <= currentRound <= 5
      invariant |b.matches| == RoundStart(currentRound) && b.matchId == |b.matches| + 1
      invariant prevRoundMatches == b.matches[RoundStart(currentRound - 1)..]
      invariant Built(b.matches, regionTeams)
      invariant b.matches[..8] == old(b.matches) && fresh(b.matches[8..])
      decreases |prevRoundMatches|
    {
      ghost var before := b.matches;
      var nextRoundMatches := AddRound(b, regionTeams, currentRound, prevRoundMatches);
      assert b.matches[8..] == before[8..] + nextRoundMatches;
      prevRoundMatches := nextRoundMatches;
      currentRound := currentRound + 1;
    }
  }

  /** `IntegrateMatchResults`: the bracket comes back unchanged whatever the results. */
  function IntegrateMatchResults(bracketMatches: seq<Match>, matchResults: seq<MatchData>): (r: seq<Match>)
    ensures r == bracketMatches
  {
    bracketMatches
  }

  /** Integrating twice is integrating once. */
  lemma IntegrateIdempotent(bracketMatches: seq<Match>, results: seq<MatchData>, again: seq<MatchData>)
    ensures IntegrateMatchResults(IntegrateMatchResults(bracketMatches, results), again)
         == IntegrateMatchResults(bracketMatches, again)
  {
  }

  /** Fifteen matches, the match at position `p` having id `p + 1`: ids strictly increase. */
  lemma RegionIds(teams: seq<Team>)
    requires |teams| == 16
    ensures |RegionBracketSpec(teams)| == 15
    ensures forall p :: 0 <= p < 15 ==> RegionBracketSpec(teams)[p].id == p + 1
    ensures forall p, q :: 0 <= p < q < 15 ==> RegionBracketSpec(teams)[p].id < RegionBracketSpec(teams)[q].id
  {
  }

  /** The round-one match holding the team at input position `i`. */
  function RoundOneSlot(i: nat): (k: nat)
    requires i < 16
    ensures k < 8 && (i == 2 * k || i == 15 - 2 * k)
    ensures forall k' :: 0 <= k' < 8 && (i == 2 * k' || i == 15 - 2 * k') ==> k' == k
  {
    if i % 2 == 0 then i / 2 else (15 - i) / 2
  }

  /**
   * Round-one match `k` pairs `teams[2k]` with `teams[15 - 2k]`, so each input position
   * is placed in exactly one round-one match, the one `RoundOneSlot` names.
   */
  lemma RoundOnePairing(teams: seq<Team>, i: nat)
    requires |teams| == 16 && i < 16
    ensures forall k :: 0 <= k < 8 ==> RegionBracketSpec(teams)[k].participants == [teams[2 * k], teams[15 - 2 * k]]
    ensures teams[i] in RegionBracketSpec(teams)[RoundOneSlot(i)].participants
    ensures forall k :: 0 <= k < 8 && (i == 2 * k || i == 15 - 2 * k) ==> k == RoundOneSlot(i)
  {
    var k := RoundOneSlot(i);
    assert RegionBracketSpec(teams)[k].participants == [teams[2 * k], teams[15 - 2 * k]];
  }

  /** The four round labels, written out. */
  lemma RoundNameValues()
    ensures RoundName(1) == "Round 1" && RoundName(2) == "Round 2"
    ensures RoundName(3) == "Round 3" && RoundName(4) == "Round 4"
  {
    assert NatToString(1) == "1" && NatToString(2) == "2" && NatToString(3) == "3" && NatToString(4) == "4";
  }

  /** Labels of different rounds differ. */
  lemma RoundNamesDistinct(a: nat, b: nat)
    requires 1 <= a <= 9 && 1 <= b <= 9 && a != b
    ensures RoundName(a) != RoundName(b)
  {
    assert RoundName(a)[6] == DigitChar(a) && RoundName(b)[6] == DigitChar(b);
  }

  /**
   * Eight "Round 1" matches, four "Round 2", two "Round 3" and one "Round 4";
   * only round-one matches have participants.
   */
  lemma RegionRoundsShape(teams: seq<Team>)
    requires |teams| == 16
    ensures forall p :: 0 <= p < 15 ==> (RegionBracketSpec(teams)[p].roundName ==
      if p < 8 then "Round 1" else if p < 12 then "Round 2" else if p < 14 then "Round 3" else "Round 4")
    ensures forall p :: 0 <= p < 15 ==> (RegionBracketSpec(teams)[p].participants == [] <==> 8 <= p)
  {
    RoundNameValues();
  }

  /**
   * Each later-round match `q` is fed by exactly the two matches `2(q - 8)` and
   * `2(q - 8) + 1` of the round before.
   */
  lemma Feeders(teams: seq<Team>, q: nat, p: nat)
    requires |teams| == 16 && 8 <= q < 15 && p < 15
    ensures RegionBracketSpec(teams)[p].nextMatchId == Some(RegionBracketSpec(teams)[q].id)
        <==> p == 2 * (q - 8) || p == 2 * (q - 8) + 1
  {
  }

  /** Every match but the last points to a later match; only the last has no next match. */
  lemma NextIsLater(teams: seq<Team>, p: nat)
    requires |teams| == 16 && p < 15
    ensures RegionBracketSpec(teams)[p].nextMatchId == None <==> p == 14
    ensures RegionBracketSpec(teams)[p].nextMatchId.Some? ==>
      RegionBracketSpec(teams)[p].id < RegionBracketSpec(teams)[p].nextMatchId.value <= 15
  {
  }

  /** The number of `nextMatchId` hops from the match at position `p` to a match with none. */
  function Hops(p: nat): nat
    requires p < 15
    decreases 15 - p
  {
    if Parent(p) < 15 then 1 + Hops(Parent(p)) else 0
  }

  /** The chain of next matches ends at the final, after one hop per remaining round. */
  lemma {:induction false} HopsToFinal(p: nat)
    requires p < 15
    ensures Hops(p) == 4 - RoundOf(p)
    decreases 15 - p
  {
    if Parent(p) < 15 {
      HopsToFinal(Parent(p));
    }
  }
}
