/**
 * The logic of the bracket view around the region builder: teams and match results
 * grouped by region, the matches of a region grouped by round (and reversed for the
 * regions drawn on the right), and the highlight of the selected team's matches.
 */
module BracketView {
  import opened Wrappers
  import opened Teams
  import opened Grouping
  import opened RegionBracket

  /** The region of each team, the key `region_sorted_teams` groups by. */
  function Regions(teams: seq<Team>): (r: seq<string>)
    ensures |r| == |teams| && forall i :: 0 <= i < |teams| ==> r[i] == teams[i].region
  {
    seq(|teams|, i requires 0 <= i < |teams| => teams[i].region)
  }

  /** `region_sorted_teams`: the teams grouped by region, in order of first appearance. */
  method GroupTeamsByRegion(allTeams: seq<Team>) returns (entries: seq<(string, seq<Team>)>)
    ensures entries == Grouped(Regions(allTeams), allTeams)
  {
    entries := GroupBy(Regions(allTeams), allTeams);
  }

  /** Every team lands in the group of its own region. */
  lemma TeamsInOwnRegion(allTeams: seq<Team>, i: nat)
    requires i < |allTeams|
    ensures exists j :: (0 <= j < |Grouped(Regions(allTeams), allTeams)|
      && Grouped(Regions(allTeams), allTeams)[j].0 == allTeams[i].region
      && allTeams[i] in Grouped(Regions(allTeams), allTeams)[j].1)
  {
    GroupedPlacesEveryItem(Regions(allTeams), allTeams, i);
  }

  /** A region group holds only teams of that region. */
  lemma RegionGroupsHoldTheirRegion(allTeams: seq<Team>, j: nat, t: Team)
    requires j < |Grouped(Regions(allTeams), allTeams)|
    requires t in Grouped(Regions(allTeams), allTeams)[j].1
    ensures t.region == Grouped(Regions(allTeams), allTeams)[j].0
  {
    GroupedEntriesHoldTheirKey(Regions(allTeams), allTeams, j, t);
  }

  /** A result whose two participants can be read; the view fails on any other. */
  predicate Comparable(m: MatchData)
  {
    |m.participants| >= 2
  }

  /** A result whose two participants come from the same region. */
  predicate SameRegion(m: MatchData)
    requires Comparable(m)
  {
    m.participants[0].region == m.participants[1].region
  }

  /** The results kept for grouping, in order: those within one region. */
  function SameRegionResults(results: seq<MatchData>): (kept: seq<MatchData>)
    requires forall k :: 0 <= k < |results| ==> Comparable(results[k])
    ensures forall k :: 0 <= k < |kept| ==> kept[k] in results && Comparable(kept[k]) && SameRegion(kept[k])
    ensures forall k :: 0 <= k < |results| && SameRegion(results[k]) ==> results[k] in kept
  {
    if results == [] then []
    else
      var n := |results| - 1;
      var kept := SameRegionResults(results[..n]);
      assert forall k :: 0 <= k < n ==> results[..n][k] == results[k];
      if SameRegion(results[n]) then kept + [results[n]] else kept
  }

  /** The region each kept result is filed under: that of its first participant. */
  function ResultRegions(kept: seq<MatchData>): (r: seq<string>)
    requires forall k :: 0 <= k < |kept| ==> Comparable(kept[k])
    ensures |r| == |kept|
    ensures forall k :: 0 <= k < |kept| ==> Comparable(kept[k]) && r[k] == kept[k].participants[0].region
  {
    seq(|kept|, k requires 0 <= k < |kept| && Comparable(kept[k]) => kept[k].participants[0].region)
  }

  /**
   * `region_sorted_match_results`. Without results the map stays empty. A result with
   * fewer than two participants makes reading `participants[1].region` fail (`None`).
   * Otherwise the results within one region are grouped by that region.
   */
  method GroupResultsByRegion(matchResults: Option<seq<MatchData>>)
    returns (r: Option<seq<(string, seq<MatchData>)>>)
    ensures matchResults.None? ==> r == Some([])
    ensures matchResults.Some? ==>
      (r.None? <==> exists k :: 0 <= k < |matchResults.value| && !Comparable(matchResults.value[k]))
    ensures matchResults.Some? && r.Some? ==>
      (forall k :: 0 <= k < |matchResults.value| ==> Comparable(matchResults.value[k]))
      && r.value == Grouped(ResultRegions(SameRegionResults(matchResults.value)),
                            SameRegionResults(matchResults.value))
  {
    if matchResults.None? {
      return Some([]);
    }
    var results := matchResults.value;
    var keys: seq<string> := [];
    var kept: seq<MatchData> := [];
    for i := 0 to |results|
      invariant forall k :: 0 <= k < i ==> Comparable(results[k])
      invariant kept == SameRegionResults(results[..i])
      invariant keys == ResultRegions(kept)
    {
      assert results[..i + 1][..i] == results[..i];
      var item := results[i];
      if |item.participants| < 2 {
        return None;
      }
      if item.participants[0].region == item.participants[1].region {
        kept := kept + [item];
        keys := keys + [item.participants[0].region];
      }
    }
    assert results[..|results|] == results;
    var entries := GroupBy(keys, kept);
    r := Some(entries);
  }

  /** A grouped result lies wholly within the region it is filed under. */
  lemma ResultGroupsHoldTheirRegion(results: seq<MatchData>, j: nat, m: MatchData)
    requires forall k :: 0 <= k < |results| ==> Comparable(results[k])
    requires j < |Grouped(ResultRegions(SameRegionResults(results)), SameRegionResults(results))|
    requires m in Grouped(ResultRegions(SameRegionResults(results)), SameRegionResults(results))[j].1
    ensures m in results && Comparable(m)
    ensures var region := Grouped(ResultRegions(SameRegionResults(results)), SameRegionResults(results))[j].0;
      m.participants[0].region == region && m.participants[1].region == region
  {
    var kept := SameRegionResults(results);
    GroupedEntriesHoldTheirKey(ResultRegions(kept), kept, j, m);
  }

  /** A result between two regions is filed under no region. */
  lemma CrossRegionResultDropped(results: seq<MatchData>, k: nat)
    requires forall i :: 0 <= i < |results| ==> Comparable(results[i])
    requires k < |results| && !SameRegion(results[k])
    ensures forall j :: 0 <= j < |Grouped(ResultRegions(SameRegionResults(results)), SameRegionResults(results))| ==>
      results[k] !in Grouped(ResultRegions(SameRegionResults(results)), SameRegionResults(results))[j].1
  {
    var kept := SameRegionResults(results);
    forall j | 0 <= j < |Grouped(ResultRegions(kept), kept)|
      ensures results[k] !in Grouped(ResultRegions(kept), kept)[j].1
    {
      if results[k] in Grouped(ResultRegions(kept), kept)[j].1 {
        GroupedEntriesHoldTheirKey(ResultRegions(kept), kept, j, results[k]);
      }
    }
  }

  /** The results a region is drawn with: none when nothing was grouped, else `map.get`. */
  function RegionResults(groups: seq<(string, seq<MatchData>)>, region: string): (r: Option<seq<MatchData>>)
    ensures |groups| == 0 ==> r.None?
    ensures |groups| > 0 ==> r == Get(groups, region)
  {
    if |groups| > 0 then Get(groups, region) else None
  }

  /** The region at position `index` is drawn right to left exactly when `index` is odd. */
  function Reverse(index: nat): (r: bool)
    ensures r <==> index % 2 == 1
  {
    index % 2 == 1
  }

  /** `Array.prototype.reverse`. */
  function Reversed<T>(s: seq<T>): (r: seq<T>)
    ensures |r| == |s| && forall i :: 0 <= i < |s| ==> r[i] == s[|s| - 1 - i]
  {
    if s == [] then [] else Reversed(s[1..]) + [s[0]]
  }

  /** Round `r + 1` of a region as the view lists it: its label and its matches. */
  function SpecRound(teams: seq<Team>, r: nat): (string, seq<MatchData>)
    requires |teams| == 16 && r < 4
  {
    (RoundName(r + 1), RegionBracketSpec(teams)[RoundStart(r + 1)..RoundStart(r + 2)])
  }

  /** The matches of a built region split by round, in round order. */
  function ByRound(ms: seq<Match>): seq<(string, seq<Match>)>
    requires |ms| == 15
  {
    [(RoundName(1), ms[..8]), (RoundName(2), ms[8..12]), (RoundName(3), ms[12..14]), (RoundName(4), ms[14..])]
  }

  /**
   * `Region`: generate the region, integrate results when there are any, group the
   * matches by round label and reverse the rounds when asked. Entry `j` is round
   * `j + 1`, or round `4 - j` when reversed.
   */
  method RegionRounds(regionTeams: seq<Team>, reverse: bool, matchResults: Option<seq<MatchData>>)
    returns (roundsToRender: seq<(string, seq<Match>)>)
    requires |regionTeams| == 16
    ensures |roundsToRender| == 4
    ensures forall j :: 0 <= j < 4 ==>
      var r := if reverse then 3 - j else j;
      roundsToRender[j].0 == SpecRound(regionTeams, r).0
      && Snapshot(roundsToRender[j].1) == SpecRound(regionTeams, r).1
  {
    var matches := GenerateRegionBracketData(regionTeams);
    if matchResults.Some? {
      matches := IntegrateMatchResults(matches, matchResults.value);
    }
    var keys := seq(|matches|, i requires 0 <= i < |matches| => matches[i].roundName);
    var sortedRounds := GroupBy(keys, matches);
    RoundsOfRegion(regionTeams, matches, keys);
    roundsToRender := if reverse then Reversed(sortedRounds) else sortedRounds;
    RenderedRounds(regionTeams, matches, reverse, roundsToRender);
  }

  /** The rounds as drawn hold the reference rounds, in order or reversed. */
  lemma RenderedRounds(teams: seq<Team>, ms: seq<Match>, reverse: bool, rounds: seq<(string, seq<Match>)>)
    requires |teams| == 16 && Snapshot(ms) == RegionBracketSpec(teams)
    requires rounds == if reverse then Reversed(ByRound(ms)) else ByRound(ms)
    ensures |rounds| == 4
    ensures forall j :: 0 <= j < 4 ==>
      var r := if reverse then 3 - j else j;
      rounds[j].0 == SpecRound(teams, r).0 && Snapshot(rounds[j].1) == SpecRound(teams, r).1
  {
    forall j | 0 <= j < 4
      ensures var r := if reverse then 3 - j else j;
        rounds[j].0 == SpecRound(teams, r).0 && Snapshot(rounds[j].1) == SpecRound(teams, r).1
    {
      var r := if reverse then 3 - j else j;
      assert rounds[j] == ByRound(ms)[r];
      SnapshotSlice(ms, RoundStart(r + 1), RoundStart(r + 2));
    }
  }

  /** The values of a slice are the slice of the values. */
  lemma SnapshotSlice(ms: seq<Match>, lo: nat, hi: nat)
    requires lo <= hi <= |ms|
    ensures Snapshot(ms[lo..hi]) == Snapshot(ms)[lo..hi]
  {
  }

  /** The round labels of a built region are four runs: 8, 4, 2 and 1 matches long. */
  lemma RoundLabels(teams: seq<Team>, ms: seq<Match>, keys: seq<string>)
    requires |teams| == 16 && Snapshot(ms) == RegionBracketSpec(teams)
    requires |keys| == |ms| && forall i :: 0 <= i < |ms| ==> keys[i] == ms[i].roundName
    ensures keys == Run(RoundName(1), 8) + Run(RoundName(2), 4) + Run(RoundName(3), 2) + Run(RoundName(4), 1)
  {
    RegionRoundsShape(teams);
    RoundNameValues();
    forall i | 0 <= i < 15
      ensures keys[i] == RegionBracketSpec(teams)[i].roundName
    {
      assert ms[i].Data() == Snapshot(ms)[i];
    }
  }

  /** A label other than `x` is not in a run of `x`. */
  lemma NotInRun<K>(y: K, x: K, n: nat)
    requires y != x
    ensures y !in Run(x, n)
  {
  }

  /** Grouping a built region by round label gives its four rounds in order. */
  lemma RoundsOfRegion(teams: seq<Team>, ms: seq<Match>, keys: seq<string>)
    requires |teams| == 16 && Snapshot(ms) == RegionBracketSpec(teams)
    requires |keys| == |ms| && forall i :: 0 <= i < |ms| ==> keys[i] == ms[i].roundName
    ensures Grouped(keys, ms) == ByRound(ms)
  {
    RoundLabels(teams, ms, keys);
    var n1, n2, n3, n4 := RoundName(1), RoundName(2), RoundName(3), RoundName(4);
    GroupedFirstRounds(ms);
    RoundNamesDistinct(1, 4);
    RoundNamesDistinct(2, 4);
    RoundNamesDistinct(3, 4);
    NotInRun(n4, n1, 8);
    NotInRun(n4, n2, 4);
    NotInRun(n4, n3, 2);
    GroupedAppendRun(Run(n1, 8) + Run(n2, 4) + Run(n3, 2), ms[..14], n4, ms[14..]);
    assert ms[..14] + ms[14..] == ms;
  }

  /** The first three runs of labels group the first fourteen matches into rounds 1 to 3. */
  lemma GroupedFirstRounds(ms: seq<Match>)
    requires |ms| == 15
    ensures Grouped(Run(RoundName(1), 8) + Run(RoundName(2), 4) + Run(RoundName(3), 2), ms[..14])
         == [(RoundName(1), ms[..8]), (RoundName(2), ms[8..12]), (RoundName(3), ms[12..14])]
  {
    var n1, n2, n3 := RoundName(1), RoundName(2), RoundName(3);
    var r1, r2, r3 := Run(n1, 8), Run(n2, 4), Run(n3, 2);
    RoundNamesDistinct(1, 2);
    RoundNamesDistinct(1, 3);
    RoundNamesDistinct(2, 3);
    assert Grouped(r1, ms[..8]) == [(n1, ms[..8])] by {
      assert FirstAppearances<string>([]) == [];
      GroupedAppendRun<string, Match>([], [], n1, ms[..8]);
      assert [] + r1 == r1 && [] + ms[..8] == ms[..8];
    }
    assert Grouped(r1 + r2, ms[..12]) == [(n1, ms[..8]), (n2, ms[8..12])] by {
      NotInRun(n2, n1, 8);
      GroupedAppendRun(r1, ms[..8], n2, ms[8..12]);
      assert ms[..8] + ms[8..12] == ms[..12];
    }
    NotInRun(n3, n1, 8);
    NotInRun(n3, n2, 4);
    GroupedAppendRun(r1 + r2, ms[..12], n3, ms[12..14]);
    assert ms[..12] + ms[12..14] == ms[..14];
  }

  /** `toHighlight`: the selected team plays in the match, or the selected bundle shares a seed. */
  predicate Highlight(selected: Option<Team>, participants: seq<Team>)
    ensures Highlight(selected, participants) ==> selected.Some? && |participants| >= 2
  {
    && selected.Some?
    && |participants| >= 2
    && (|| selected.value.shortName == participants[0].shortName
        || selected.value.shortName == participants[1].shortName
        || (selected.value.region == "bundle"
            && (selected.value.seed == participants[0].seed || selected.value.seed == participants[1].seed)))
  }

  /** A match still waiting for its participants is never highlighted. */
  lemma UndecidedNotHighlighted(selected: Option<Team>, participants: seq<Team>)
    requires |participants| < 2
    ensures !Highlight(selected, participants)
  {
  }

  /**
   * In a region of teams with distinct short names, selecting one of them (not a
   * bundle) highlights exactly its round-one match.
   */
  lemma SelectedTeamHighlightsItsMatch(teams: seq<Team>, i: nat, p: nat)
    requires |teams| == 16 && i < 16 && p < 15
    requires forall a, b :: 0 <= a < b < 16 ==> teams[a].shortName != teams[b].shortName
    requires teams[i].region != "bundle"
    ensures Highlight(Some(teams[i]), RegionBracketSpec(teams)[p].participants) <==> p == RoundOneSlot(i)
  {
    RoundOnePairing(teams, i);
    RegionRoundsShape(teams);
    if p < 8 && Highlight(Some(teams[i]), RegionBracketSpec(teams)[p].participants) {
      var ps := RegionBracketSpec(teams)[p].participants;
      assert ps == [teams[2 * p], teams[15 - 2 * p]];
      if teams[i].shortName == ps[0].shortName {
        assert i == 2 * p;
      } else {
        assert i == 15 - 2 * p;
      }
    }
  }
}
