/**
 * `merge_voting_data` from the county clean-up to the final column selection
 * (merge-voting-stations.py:41-145), with the table steps that change a
 * frame in place written as methods over arrays.
 *
 * `MergeFrame` is the whole computation as one function; `MergeVotingData`
 * runs the steps in the source's order and is proved to compute it.
 */
module Pipeline {
  import opened Wrappers
  import opened Text
  import opened Counties
  import opened Joins
  import opened Frames
  import opened Stats

  /** A row of `result`: the eleven selected columns, in their order. */
  datatype OutputRow = OutputRow(
    county: string,
    uatName: Option<string>,
    stationNumber: string,
    stationName: string,
    latitude: Option<real>,
    longitude: Option<real>,
    votesDan: nat,
    votesSimion: nat,
    simionPercentage: Option<real>,
    uatAverage: Option<real>,
    deviation: Option<real>)

  /** The final column selection (merge-voting-stations.py:133-145). */
  function Project(r: MergedRow): OutputRow
  {
    OutputRow(r.county, r.uatName, r.stationNumber, r.stationName, r.latitude, r.longitude,
              r.votesDan, r.votesSimion, r.simionPercentage, r.uatAverage, r.deviation)
  }

  // ---------------------------------------------------------------------------
  // In-place steps

  /** `voting_data_processed['county'].str.upper()`. */
  method UpperVoteCounties(votes: array<VoteRow>)
    modifies votes
    ensures forall i :: 0 <= i < votes.Length ==>
      votes[i] == old(votes[i]).(county := VoteCounty(old(votes[i]).county))
  {
    forall i | 0 <= i < votes.Length {
      votes[i] := votes[i].(county := VoteCounty(votes[i].county));
    }
  }

  /** The two prefix removals and the upper-casing of the location county column. */
  method CleanLocationCounties(locs: array<LocationRow>)
    modifies locs
    ensures forall i :: 0 <= i < locs.Length ==>
      locs[i] == old(locs[i]).(county := LocationCounty(old(locs[i]).county))
  {
    forall i | 0 <= i < locs.Length {
      locs[i] := locs[i].(county := LocationCounty(locs[i].county));
    }
  }

  /**
   * The mapping loop: for each table entry in order, every cell of either
   * county column that contains the variant is overwritten with the
   * canonical spelling.
   */
  method NormaliseCounties(votes: array<VoteRow>, locs: array<LocationRow>, table: seq<Mapping>)
    modifies votes, locs
    ensures forall i :: 0 <= i < votes.Length ==>
      votes[i] == old(votes[i]).(county := ApplyInOrder(old(votes[i]).county, table))
    ensures forall i :: 0 <= i < locs.Length ==>
      locs[i] == old(locs[i]).(county := ApplyInOrder(old(locs[i]).county, table))
  {
    for k := 0 to |table|
      invariant forall i :: 0 <= i < votes.Length ==>
        votes[i] == old(votes[i]).(county := ApplyInOrder(old(votes[i]).county, table[..k]))
      invariant forall i :: 0 <= i < locs.Length ==>
        locs[i] == old(locs[i]).(county := ApplyInOrder(old(locs[i]).county, table[..k]))
    {
      var e := table[k];
      assert table[..k + 1] == table[..k] + [e];
      forall i | 0 <= i < locs.Length
        ensures ApplyInOrder(old(locs[i]).county, table[..k + 1]) == Step(ApplyInOrder(old(locs[i]).county, table[..k]), e)
      {
        ApplyInOrderSnoc(old(locs[i]).county, table[..k], e);
      }
      forall i | 0 <= i < votes.Length
        ensures ApplyInOrder(old(votes[i]).county, table[..k + 1]) == Step(ApplyInOrder(old(votes[i]).county, table[..k]), e)
      {
        ApplyInOrderSnoc(old(votes[i]).county, table[..k], e);
      }
      forall i | 0 <= i < locs.Length {
        locs[i] := locs[i].(county := Step(locs[i].county, e));
      }
      forall i | 0 <= i < votes.Length {
        votes[i] := votes[i].(county := Step(votes[i].county, e));
      }
    }
    assert table[..|table|] == table;
  }

  /** `merged_data['total_votes'] = votes_simion + votes_dan`. */
  method AddTotalVotes(rows: array<MergedRow>)
    modifies rows
    ensures forall i :: 0 <= i < rows.Length ==> rows[i] == WithTotal(old(rows[i]))
  {
    forall i | 0 <= i < rows.Length {
      rows[i] := WithTotal(rows[i]);
    }
  }

  /** `merged_data['simion_percentage'] = votes_simion / total_votes * 100`. */
  method AddSimionPercentage(rows: array<MergedRow>)
    modifies rows
    ensures forall i :: 0 <= i < rows.Length ==> rows[i] == WithPercentage(old(rows[i]))
  {
    forall i | 0 <= i < rows.Length {
      rows[i] := WithPercentage(rows[i]);
    }
  }

  /** `merged_data['simion_vs_uat_diff'] = simion_percentage - uat_simion_avg_percentage`. */
  method AddDeviation(rows: array<MergedRow>)
    modifies rows
    ensures forall i :: 0 <= i < rows.Length ==> rows[i] == WithDeviation(old(rows[i]))
  {
    forall i | 0 <= i < rows.Length {
      rows[i] := WithDeviation(rows[i]);
    }
  }

  // ---------------------------------------------------------------------------
  // The whole computation

  /** The vote table after upper-casing and the mapping loop. */
  function PreparedVotes(votes: seq<VoteRow>, table: seq<Mapping>): (vs: seq<VoteRow>)
    ensures |vs| == |votes|
  {
    seq(|votes|, i requires 0 <= i < |votes| =>
      votes[i].(county := ApplyInOrder(VoteCounty(votes[i].county), table)))
  }

  /** The location table after prefix removal, upper-casing and the mapping loop. */
  function PreparedLocations(locs: seq<LocationRow>, table: seq<Mapping>): (ls: seq<LocationRow>)
    ensures |ls| == |locs|
  {
    seq(|locs|, i requires 0 <= i < |locs| =>
      locs[i].(county := ApplyInOrder(LocationCounty(locs[i].county), table)))
  }

  /** The joined frame with `total_votes` and `simion_percentage`. */
  function Scored(joined: seq<MergedRow>): (ss: seq<MergedRow>)
    ensures |ss| == |joined|
  {
    seq(|joined|, i requires 0 <= i < |joined| => WithPercentage(WithTotal(joined[i])))
  }

  /** `merged_data` just before the column selection. */
  function MergeFrame(votes: seq<VoteRow>, locs: seq<LocationRow>, table: seq<Mapping>): seq<MergedRow>
  {
    Deviations(MergeUatAverages(Scored(JoinStations(PreparedVotes(votes, table), PreparedLocations(locs, table)))))
  }

  /** `result`. */
  function MergeResult(votes: seq<VoteRow>, locs: seq<LocationRow>, table: seq<Mapping>): seq<OutputRow>
  {
    var m := MergeFrame(votes, locs, table);
    seq(|m|, i requires 0 <= i < |m| => Project(m[i]))
  }

  /** Both county columns, cleaned and mapped (merge-voting-stations.py:49-81). */
  method PrepareCounties(votes: seq<VoteRow>, locs: seq<LocationRow>, table: seq<Mapping>)
    returns (vs: seq<VoteRow>, ls: seq<LocationRow>)
    ensures vs == PreparedVotes(votes, table)
    ensures ls == PreparedLocations(locs, table)
  {
    var va := new VoteRow[|votes|](i requires 0 <= i < |votes| => votes[i]);
    var la := new LocationRow[|locs|](i requires 0 <= i < |locs| => locs[i]);
    UpperVoteCounties(va);
    CleanLocationCounties(la);
    NormaliseCounties(va, la, table);
    vs, ls := va[..], la[..];
  }

  /** `total_votes` and `simion_percentage` on the joined frame (merge-voting-stations.py:103-104). */
  method ScoreStations(joined: seq<MergedRow>) returns (ss: seq<MergedRow>)
    ensures ss == Scored(joined)
  {
    var ma := new MergedRow[|joined|](i requires 0 <= i < |joined| => joined[i]);
    AddTotalVotes(ma);
    AddSimionPercentage(ma);
    ss := ma[..];
  }

  /** `simion_vs_uat_diff` on the frame with UAT shares (merge-voting-stations.py:130). */
  method ScoreDeviations(rows: seq<MergedRow>) returns (ds: seq<MergedRow>)
    ensures ds == Deviations(rows)
  {
    var fa := new MergedRow[|rows|](i requires 0 <= i < |rows| => rows[i]);
    AddDeviation(fa);
    ds := fa[..];
  }

  /** The pipeline, step by step, in the source's order. */
  method MergeVotingData(votes: seq<VoteRow>, locs: seq<LocationRow>, table: seq<Mapping>)
    returns (result: seq<OutputRow>)
    ensures result == MergeResult(votes, locs, table)
  {
    var vs, ls := PrepareCounties(votes, locs, table);
    var scored := ScoreStations(JoinStations(vs, ls));
    var merged := ScoreDeviations(MergeUatAverages(scored));
    result := seq(|merged|, i requires 0 <= i < |merged| => Project(merged[i]));
  }

  // ---------------------------------------------------------------------------
  // Properties of the result

  /** With a settled table, every prepared county is the first-match lookup of the cleaned name. */
  lemma PreparedCountiesAreLookups(votes: seq<VoteRow>, locs: seq<LocationRow>, table: seq<Mapping>)
    requires NoLaterVariant(table)
    ensures forall i :: 0 <= i < |votes| ==>
      PreparedVotes(votes, table)[i].county == Normalise(VoteCounty(votes[i].county), table)
    ensures forall i :: 0 <= i < |locs| ==>
      PreparedLocations(locs, table)[i].county == Normalise(LocationCounty(locs[i].county), table)
  {
    forall i | 0 <= i < |votes|
      ensures PreparedVotes(votes, table)[i].county == Normalise(VoteCounty(votes[i].county), table)
    {
      LoopIsFirstMatch(VoteCounty(votes[i].county), table);
    }
    forall i | 0 <= i < |locs|
      ensures PreparedLocations(locs, table)[i].county == Normalise(LocationCounty(locs[i].county), table)
    {
      LoopIsFirstMatch(LocationCounty(locs[i].county), table);
    }
  }

  /** The merge-back and the difference column keep the joined rows, in order. */
  lemma MergeFrameRows(votes: seq<VoteRow>, locs: seq<LocationRow>, table: seq<Mapping>)
    ensures var s := Scored(JoinStations(PreparedVotes(votes, table), PreparedLocations(locs, table)));
      |MergeFrame(votes, locs, table)| == |s| &&
      forall i :: 0 <= i < |s| ==>
        MergeFrame(votes, locs, table)[i] == WithDeviation(s[i].(uatAverage := GroupAverage(s, s[i])))
  {
    var s := Scored(JoinStations(PreparedVotes(votes, table), PreparedLocations(locs, table)));
    MergeUatAveragesRows(s);
  }

  /**
   * The result has at least one row per vote row. It has exactly one per
   * vote row when, and only when, no prepared vote row meets two prepared
   * location rows; in particular when no two prepared location rows share
   * a (station_number, county) key.
   */
  lemma ResultSize(votes: seq<VoteRow>, locs: seq<LocationRow>, table: seq<Mapping>)
    ensures |MergeResult(votes, locs, table)| >= |votes|
    ensures |MergeResult(votes, locs, table)| == |votes| <==>
      forall i :: 0 <= i < |votes| ==>
        |LocationsOf(PreparedVotes(votes, table)[i], PreparedLocations(locs, table))| <= 1
    ensures UniqueLocations(PreparedLocations(locs, table)) ==> |MergeResult(votes, locs, table)| == |votes|
  {
    MergeFrameRows(votes, locs, table);
    JoinStationsKeepsLength(PreparedVotes(votes, table), PreparedLocations(locs, table));
    if UniqueLocations(PreparedLocations(locs, table)) {
      JoinStationsUnique(PreparedVotes(votes, table), PreparedLocations(locs, table));
    }
  }

  /**
   * With unique location keys, row `i` of the result is vote row `i` with
   * its prepared county, the coordinates of the location sharing its key,
   * its own share, its UAT's share and their difference.
   */
  lemma ResultRowsWithUniqueLocations(votes: seq<VoteRow>, locs: seq<LocationRow>, table: seq<Mapping>)
    requires UniqueLocations(PreparedLocations(locs, table))
    ensures var vs := PreparedVotes(votes, table);
      var ls := PreparedLocations(locs, table);
      var s := Scored(JoinStations(vs, ls));
      |MergeResult(votes, locs, table)| == |votes| && |s| == |votes| &&
      forall i :: 0 <= i < |votes| ==>
        s[i] == WithPercentage(WithTotal(JoinedOnce(vs[i], ls))) &&
        MergeResult(votes, locs, table)[i] == Project(WithDeviation(s[i].(uatAverage := GroupAverage(s, s[i]))))
  {
    JoinStationsUnique(PreparedVotes(votes, table), PreparedLocations(locs, table));
    MergeFrameRows(votes, locs, table);
  }

  /**
   * Every share in the result is NaN or lies in [0, 100]; the station share
   * is NaN exactly when the station has no votes; every difference lies in
   * [-100, 100] and is NaN exactly when one of the two shares is.
   */
  lemma ResultSharesBounded(votes: seq<VoteRow>, locs: seq<LocationRow>, table: seq<Mapping>)
    ensures forall o :: o in MergeResult(votes, locs, table) ==>
      (o.simionPercentage.None? <==> o.votesSimion + o.votesDan == 0) &&
      (o.simionPercentage.Some? ==> 0.0 <= o.simionPercentage.value <= 100.0) &&
      (o.uatAverage.Some? ==> 0.0 <= o.uatAverage.value <= 100.0) &&
      (o.deviation.Some? <==> o.simionPercentage.Some? && o.uatAverage.Some?) &&
      (o.deviation.Some? ==> -100.0 <= o.deviation.value <= 100.0)
  {
    var s := Scored(JoinStations(PreparedVotes(votes, table), PreparedLocations(locs, table)));
    MergeFrameRows(votes, locs, table);
    var out := MergeResult(votes, locs, table);
    forall o | o in out
      ensures (o.simionPercentage.None? <==> o.votesSimion + o.votesDan == 0)
      ensures (o.simionPercentage.Some? ==> 0.0 <= o.simionPercentage.value <= 100.0)
      ensures (o.uatAverage.Some? ==> 0.0 <= o.uatAverage.value <= 100.0)
      ensures (o.deviation.Some? <==> o.simionPercentage.Some? && o.uatAverage.Some?)
      ensures (o.deviation.Some? ==> -100.0 <= o.deviation.value <= 100.0)
    {
      var i :| 0 <= i < |out| && out[i] == o;
      StationShare(JoinStations(PreparedVotes(votes, table), PreparedLocations(locs, table))[i]);
      if s[i].uatName.Some? {
        GroupAverageBounds(s, (s[i].county, s[i].uatName.value));
      }
    }
  }

  /** Within every UAT of the result frame, turnout-weighted differences sum to zero. */
  lemma ResultDeviationsCancel(votes: seq<VoteRow>, locs: seq<LocationRow>, table: seq<Mapping>, k: UatKey)
    ensures WeightedDeviations(MergeFrame(votes, locs, table), k) == 0.0
  {
    var j := JoinStations(PreparedVotes(votes, table), PreparedLocations(locs, table));
    var s := Scored(j);
    forall i | 0 <= i < |s| ensures Prepared(s[i]) {
      StationShare(j[i]);
    }
    WeightedDeviationsCancel(s, k);
  }

  /**
   * With the source's own table, both county columns end up as the
   * first-match lookup of their cleaned names.
   */
  lemma SourceTableCountiesAreLookups(votes: seq<VoteRow>, locs: seq<LocationRow>)
    ensures forall i :: 0 <= i < |votes| ==>
      PreparedVotes(votes, CountyMapping)[i].county == NormaliseCounty(VoteCounty(votes[i].county))
    ensures forall i :: 0 <= i < |locs| ==>
      PreparedLocations(locs, CountyMapping)[i].county == NormaliseCounty(LocationCounty(locs[i].county))
  {
    CountyMappingSettled();
    NoOtherImpliesNoLater(CountyMapping);
    PreparedCountiesAreLookups(votes, locs, CountyMapping);
  }

  /**
   * A vote row spelled "MARAMURES" (and naming neither Ilfov nor Brașov)
   * keeps its own county with the reordered table, and becomes Mureș with
   * the source's table.
   */
  lemma CorrectedTableKeepsMaramures(votes: seq<VoteRow>, i: nat)
    requires i < |votes|
    requires ContainsCI(votes[i].county, "MARAMURES")
    requires !ContainsCI(votes[i].county, "ILFOV") && !ContainsCI(votes[i].county, "BRASOV")
    ensures PreparedVotes(votes, CorrectedCountyMapping)[i].county == "MARAMUREȘ"
    ensures PreparedVotes(votes, CountyMapping)[i].county == "MUREȘ"
  {
    var c := VoteCounty(votes[i].county);
    ContainsCIOfUpper(votes[i].county, "MARAMURES");
    ContainsCIOfUpper(votes[i].county, "ILFOV");
    ContainsCIOfUpper(votes[i].county, "BRASOV");
    CorrectedSettled();
    NoOtherImpliesNoLater(CorrectedCountyMapping);
    LoopIsFirstMatch(c, CorrectedCountyMapping);
    CorrectedMapsMaramures(c);
    CountyMappingSettled();
    NoOtherImpliesNoLater(CountyMapping);
    LoopIsFirstMatch(c, CountyMapping);
    MaramuresBecomesMures(c);
  }

  /** The join of the example below: station 1 is located twice, station 2 once. */
  lemma JoinWithDuplicate(a: VoteRow, b: VoteRow, l1: LocationRow, l2: LocationRow, l3: LocationRow)
    requires LocationKey(l1) == VoteKey(a) && LocationKey(l2) == VoteKey(a) && LocationKey(l3) == VoteKey(b)
    requires VoteKey(a) != VoteKey(b)
    ensures JoinStations([a, b], [l1, l2, l3]) == [Located(a, l1), Located(a, l2), Located(b, l3)]
  {
    assert [a, b] == [a] + [b];
    JoinStationsAppend([a], [b], [l1, l2, l3]);
    TwoLocationsFirst(a, l1, l2, l3);
    OneLocationLast(b, l1, l2, l3);
  }

  /** A vote row matching the first two of three locations gets two rows. */
  lemma TwoLocationsFirst(a: VoteRow, l1: LocationRow, l2: LocationRow, l3: LocationRow)
    requires LocationKey(l1) == VoteKey(a) && LocationKey(l2) == VoteKey(a) && LocationKey(l3) != VoteKey(a)
    ensures JoinStations([a], [l1, l2, l3]) == [Located(a, l1), Located(a, l2)]
  {
    var locs := [l1, l2, l3];
    assert locs[1..] == [l2, l3] && locs[1..][1..] == [l3] && locs[1..][1..][1..] == [];
    assert Matching(locs[1..][1..], LocationKey, VoteKey(a)) == [];
    assert Matching(locs[1..], LocationKey, VoteKey(a)) == [l2];
    assert LocationsOf(a, locs) == [l1, l2];
    JoinStationsOneVote(a, locs);
  }

  /** A vote row matching only the last of three locations gets one row. */
  lemma OneLocationLast(b: VoteRow, l1: LocationRow, l2: LocationRow, l3: LocationRow)
    requires LocationKey(l1) != VoteKey(b) && LocationKey(l2) != VoteKey(b) && LocationKey(l3) == VoteKey(b)
    ensures JoinStations([b], [l1, l2, l3]) == [Located(b, l3)]
  {
    var locs := [l1, l2, l3];
    assert locs[1..] == [l2, l3] && locs[1..][1..] == [l3] && locs[1..][1..][1..] == [];
    assert Matching(locs[1..][1..], LocationKey, VoteKey(b)) == [l3];
    assert Matching(locs[1..], LocationKey, VoteKey(b)) == [l3];
    assert LocationsOf(b, locs) == [l3];
    JoinStationsOneVote(b, locs);
  }

  /**
   * Rows duplicated by the station join count once per copy in the UAT sums:
   * station 1 (60/40) has two location rows and station 2 (30/70) one, so the
   * UAT share is 150/300 = 50% rather than the 90/200 = 45% of the two
   * stations counted once.
   */
  lemma DuplicatedLocationWeighsTwice(c: string, u: string)
    ensures var votes := [VoteRow(c, "1", "", Some(u), 60, 40), VoteRow(c, "2", "", Some(u), 30, 70)];
      var locs := [LocationRow("1", 0.0, 0.0, c), LocationRow("1", 1.0, 1.0, c), LocationRow("2", 0.0, 0.0, c)];
      var m := MergeUatAverages(Scored(JoinStations(votes, locs)));
      |m| == 3 && m[0].stationNumber == "1" && m[1].stationNumber == "1" && m[2].stationNumber == "2" &&
      m[0].uatAverage == Some(50.0) && m[2].uatAverage == Some(50.0)
  {
    var a, b := VoteRow(c, "1", "", Some(u), 60, 40), VoteRow(c, "2", "", Some(u), 30, 70);
    var l1, l2, l3 := LocationRow("1", 0.0, 0.0, c), LocationRow("1", 1.0, 1.0, c), LocationRow("2", 0.0, 0.0, c);
    JoinWithDuplicate(a, b, l1, l2, l3);
    var s := Scored([Located(a, l1), Located(a, l2), Located(b, l3)]);
    SumsOfThree(s, (c, u));
    assert Percentage(150, 300) == Some(50.0);
    assert GroupAverage(s, s[0]) == Some(50.0);
    assert GroupAverage(s, s[2]) == Some(50.0);
    MergeUatAveragesRows(s);
  }
}
