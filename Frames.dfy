/**
 * The tables of the pipeline and the station join
 * (merge-voting-stations.py:37-45, 89-95).
 *
 * Station numbers are kept as the strings `astype(str)` produces; pandas
 * missing cells are `None`.
 */
module Frames {
  import opened Wrappers
  import opened Joins

  /** A row of the vote table after the renaming and column selection. */
  datatype VoteRow = VoteRow(
    county: string,
    stationNumber: string,
    stationName: string,
    uatName: Option<string>,
    votesSimion: nat,
    votesDan: nat)

  /** A row of the station-location table after the column selection. */
  datatype LocationRow = LocationRow(
    stationNumber: string,
    latitude: real,
    longitude: real,
    county: string)

  /**
   * A row of `merged_data`. The columns added after the join
   * (`total_votes`, `simion_percentage`, `uat_simion_avg_percentage`,
   * `simion_vs_uat_diff`) hold 0 / `None` until they are assigned.
   */
  datatype MergedRow = MergedRow(
    county: string,
    stationNumber: string,
    stationName: string,
    uatName: Option<string>,
    votesSimion: nat,
    votesDan: nat,
    latitude: Option<real>,
    longitude: Option<real>,
    totalVotes: nat,
    simionPercentage: Option<real>,
    uatAverage: Option<real>,
    deviation: Option<real>)

  /** The join key on the vote side: (station_number, county). */
  function VoteKey(v: VoteRow): (string, string)
  {
    (v.stationNumber, v.county)
  }

  /** The join key on the location side: (station_number, county). */
  function LocationKey(l: LocationRow): (string, string)
  {
    (l.stationNumber, l.county)
  }

  /** A vote row joined with one location row. */
  function Located(v: VoteRow, l: LocationRow): MergedRow
  {
    MergedRow(v.county, v.stationNumber, v.stationName, v.uatName, v.votesSimion, v.votesDan,
              Some(l.latitude), Some(l.longitude), 0, None, None, None)
  }

  /** A vote row for which no location row has the same key. */
  function Unlocated(v: VoteRow): MergedRow
  {
    MergedRow(v.county, v.stationNumber, v.stationName, v.uatName, v.votesSimion, v.votesDan,
              None, None, 0, None, None, None)
  }

  /** `pd.merge(votes, locations, on=['station_number', 'county'], how='left')`. */
  function JoinStations(votes: seq<VoteRow>, locs: seq<LocationRow>): (m: seq<MergedRow>)
    ensures |m| >= |votes|
  {
    LeftJoin(votes, locs, VoteKey, LocationKey, Located, Unlocated)
  }

  /** The locations sharing a vote row's key, in their table order. */
  function LocationsOf(v: VoteRow, locs: seq<LocationRow>): seq<LocationRow>
  {
    Matching(locs, LocationKey, VoteKey(v))
  }

  /**
   * One vote row yields one row per location with the same station number
   * and county, in the locations' order, or one row without coordinates.
   */
  lemma JoinStationsOneVote(v: VoteRow, locs: seq<LocationRow>)
    ensures LocationsOf(v, locs) == [] ==> JoinStations([v], locs) == [Unlocated(v)]
    ensures LocationsOf(v, locs) != [] ==>
      |JoinStations([v], locs)| == |LocationsOf(v, locs)| &&
      forall i :: 0 <= i < |LocationsOf(v, locs)| ==>
        JoinStations([v], locs)[i] == Located(v, LocationsOf(v, locs)[i])
  {
    LeftJoinSingle(v, locs, VoteKey, LocationKey, Located, Unlocated);
  }

  /**
   * The locations a vote row is joined with are its same-key location rows,
   * each as many times as the location table lists it, in table order.
   */
  lemma LocationsOfCounts(v: VoteRow, locs: seq<LocationRow>, more: seq<LocationRow>)
    ensures forall l ::
      multiset(LocationsOf(v, locs))[l] == (if LocationKey(l) == VoteKey(v) then multiset(locs)[l] else 0)
    ensures LocationsOf(v, locs + more) == LocationsOf(v, locs) + LocationsOf(v, more)
  {
    MatchingCounts(locs, LocationKey, VoteKey(v));
    MatchingAppend(locs, more, LocationKey, VoteKey(v));
  }

  /** The join of a concatenation is the concatenation of the joins: vote order is kept. */
  lemma JoinStationsAppend(a: seq<VoteRow>, b: seq<VoteRow>, locs: seq<LocationRow>)
    ensures JoinStations(a + b, locs) == JoinStations(a, locs) + JoinStations(b, locs)
  {
    LeftJoinAppend(a, b, locs, VoteKey, LocationKey, Located, Unlocated);
  }

  /** The join has one row per vote row exactly when no vote row meets two locations. */
  lemma JoinStationsKeepsLength(votes: seq<VoteRow>, locs: seq<LocationRow>)
    ensures |JoinStations(votes, locs)| == |votes| <==>
      forall i :: 0 <= i < |votes| ==> |LocationsOf(votes[i], locs)| <= 1
  {
    LeftJoinKeepsLength(votes, locs, VoteKey, LocationKey, Located, Unlocated);
  }

  /** No two location rows share a (station_number, county) key. */
  ghost predicate UniqueLocations(locs: seq<LocationRow>)
  {
    UniqueKeys(locs, LocationKey)
  }

  /** The row a vote row becomes when at most one location can match it. */
  function JoinedOnce(v: VoteRow, locs: seq<LocationRow>): MergedRow
  {
    JoinedWith(v, Lookup(locs, LocationKey, VoteKey(v)), Located, Unlocated)
  }

  /**
   * With unique location keys the join has exactly one row per vote row, at
   * the same position, with the coordinates of the location sharing its key.
   */
  lemma JoinStationsUnique(votes: seq<VoteRow>, locs: seq<LocationRow>)
    requires UniqueLocations(locs)
    ensures |JoinStations(votes, locs)| == |votes|
    ensures forall i :: 0 <= i < |votes| ==> JoinStations(votes, locs)[i] == JoinedOnce(votes[i], locs)
  {
    LeftJoinUniqueKeys(votes, locs, VoteKey, LocationKey, Located, Unlocated);
  }

  /**
   * Every joined row is a vote row, completed with the coordinates of a
   * location sharing its key, or left without coordinates when there is
   * none; and every such row is in the join.
   */
  lemma JoinStationsMembers(m: MergedRow, votes: seq<VoteRow>, locs: seq<LocationRow>)
    ensures m in JoinStations(votes, locs) <==>
      exists i :: 0 <= i < |votes| &&
        ((exists l :: l in locs && LocationKey(l) == VoteKey(votes[i]) && m == Located(votes[i], l)) ||
         ((forall l :: l in locs ==> LocationKey(l) != VoteKey(votes[i])) && m == Unlocated(votes[i])))
  {
    LeftJoinMembers(m, votes, locs, VoteKey, LocationKey, Located, Unlocated);
    forall i | 0 <= i < |votes| {
      JoinRowMembers(m, votes[i], locs, VoteKey, LocationKey, Located, Unlocated);
    }
  }

  /** Station numbers are compared as text: "007" does not meet 7. */
  lemma PaddedStationNumberDoesNotJoin(county: string)
    ensures JoinStations([VoteRow(county, "007", "Școala 1", Some("X"), 1, 2)],
                         [LocationRow("7", 45.0, 25.0, county)])
         == [Unlocated(VoteRow(county, "007", "Școala 1", Some("X"), 1, 2))]
  {
    var v := VoteRow(county, "007", "Școala 1", Some("X"), 1, 2);
    var l := LocationRow("7", 45.0, 25.0, county);
    assert LocationKey(l) != VoteKey(v);
    assert LocationsOf(v, [l]) == [];
    JoinStationsOneVote(v, [l]);
  }

  /** Two locations with the same key give a vote row two rows, in location order. */
  lemma DuplicateLocationDuplicatesVote(v: VoteRow, a: real, b: real)
    ensures JoinStations([v], [LocationRow(v.stationNumber, a, b, v.county),
                               LocationRow(v.stationNumber, b, a, v.county)])
         == [Located(v, LocationRow(v.stationNumber, a, b, v.county)),
             Located(v, LocationRow(v.stationNumber, b, a, v.county))]
  {
    var locs := [LocationRow(v.stationNumber, a, b, v.county), LocationRow(v.stationNumber, b, a, v.county)];
    assert locs[1..][1..] == [];
    assert Matching(locs[1..][1..], LocationKey, VoteKey(v)) == [];
    assert Matching(locs[1..], LocationKey, VoteKey(v)) == [locs[1]];
    assert LocationsOf(v, locs) == locs;
    JoinStationsOneVote(v, locs);
  }
}
