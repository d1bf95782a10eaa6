/**
 * Vote shares and UAT aggregates (merge-voting-stations.py:103-130).
 *
 * Shares are exact rationals; `None` is pandas' NaN, produced by 0 / 0.
 * A UAT (county, uat_name) group sums the votes of its merged rows and its
 * share is computed from those sums; every merged row then receives its
 * group's share and its difference from it.
 */
module Stats {
  import opened Wrappers
  import opened Joins
  import opened Frames

  /** `part / total * 100`, NaN (`None`) when the total is zero. */
  function Percentage(part: nat, total: nat): (r: Option<real>)
    ensures r.None? <==> total == 0
    ensures r.Some? && part <= total ==> 0.0 <= r.value <= 100.0
  {
    if total == 0 then None else Some(part as real / total as real * 100.0)
  }

  /** The share is the part per hundred of the total: share × total = 100 × part. */
  lemma PercentageScales(part: nat, total: nat)
    ensures Percentage(part, total).Some? ==>
      Percentage(part, total).value * total as real == 100.0 * part as real
  {
  }

  /** A non-zero total has a share `v`, with `v` × total = 100 × part. */
  lemma DefinedShare(part: nat, total: nat) returns (v: real)
    requires total != 0
    ensures Percentage(part, total) == Some(v)
    ensures v * total as real == 100.0 * part as real
  {
    PercentageScales(part, total);
    v := Percentage(part, total).value;
  }

  /** The two candidates' shares of the same total add up to 100. */
  lemma PercentagesComplement(a: nat, b: nat)
    requires a + b > 0
    ensures Percentage(a, a + b).Some? && Percentage(b, a + b).Some?
    ensures Percentage(a, a + b).value + Percentage(b, a + b).value == 100.0
  {
    var t := (a + b) as real;
    var p := Percentage(a, a + b).value;
    var q := Percentage(b, a + b).value;
    PercentageScales(a, a + b);
    PercentageScales(b, a + b);
    assert p * t == 100.0 * a as real && q * t == 100.0 * b as real;
    Distributes(t, p + q, p, q);
    CancelPositive(p + q, 100.0, t);
  }

  /** Cancelling a positive factor. */
  lemma CancelPositive(x: real, y: real, t: real)
    requires t > 0.0 && x * t == y * t
    ensures x == y
  {
    assert (x - y) * t == 0.0;
  }

  /** `total_votes = votes_simion + votes_dan` on one row. */
  function WithTotal(r: MergedRow): MergedRow
  {
    r.(totalVotes := r.votesSimion + r.votesDan)
  }

  /** `simion_percentage = votes_simion / total_votes * 100` on one row. */
  function WithPercentage(r: MergedRow): MergedRow
  {
    r.(simionPercentage := Percentage(r.votesSimion, r.totalVotes))
  }

  /** A row whose total and station share have been computed from its votes. */
  ghost predicate Prepared(r: MergedRow)
  {
    r.totalVotes == r.votesSimion + r.votesDan &&
    (r.simionPercentage.None? <==> r.totalVotes == 0) &&
    (r.simionPercentage.Some? ==> r.simionPercentage.value * r.totalVotes as real == 100.0 * r.votesSimion as real)
  }

  /** A station's share is NaN exactly when it has no votes, and otherwise lies in [0, 100]. */
  lemma StationShare(r: MergedRow)
    ensures WithPercentage(WithTotal(r)).simionPercentage.None? <==> r.votesSimion + r.votesDan == 0
    ensures WithPercentage(WithTotal(r)).simionPercentage.Some? ==>
      0.0 <= WithPercentage(WithTotal(r)).simionPercentage.value <= 100.0
    ensures Prepared(WithPercentage(WithTotal(r)))
  {
    PercentageScales(r.votesSimion, r.votesSimion + r.votesDan);
  }

  // ---------------------------------------------------------------------------
  // Groups

  /** A (county, uat_name) group key. */
  type UatKey = (string, string)

  /** The row belongs to the group; rows without a UAT name belong to none. */
  predicate InGroup(r: MergedRow, k: UatKey)
  {
    r.county == k.0 && r.uatName == Some(k.1)
  }

  /** The groups present, each once, in order of first appearance. */
  function GroupKeys(rows: seq<MergedRow>): (ks: seq<UatKey>)
    ensures forall i, j :: 0 <= i < j < |ks| ==> ks[i] != ks[j]
    ensures forall k :: k in ks <==> exists r :: r in rows && InGroup(r, k)
    decreases |rows|
  {
    if rows == [] then []
    else
      var front := rows[..|rows| - 1];
      var r := rows[|rows| - 1];
      assert rows == front + [r];
      assert forall x :: x in rows <==> x in front || x == r;
      var ks := GroupKeys(front);
      if r.uatName.Some? && (r.county, r.uatName.value) !in ks then
        assert InGroup(r, (r.county, r.uatName.value));
        ks + [(r.county, r.uatName.value)]
      else
        assert forall k :: InGroup(r, k) ==> k in ks;
        ks
  }

  /** Sum of `votes_simion` over the group's rows. */
  function SumSimion(rows: seq<MergedRow>, k: UatKey): nat
    decreases |rows|
  {
    if rows == [] then 0
    else (if InGroup(rows[0], k) then rows[0].votesSimion else 0) + SumSimion(rows[1..], k)
  }

  /** Sum of `votes_dan` over the group's rows. */
  function SumDan(rows: seq<MergedRow>, k: UatKey): nat
    decreases |rows|
  {
    if rows == [] then 0
    else (if InGroup(rows[0], k) then rows[0].votesDan else 0) + SumDan(rows[1..], k)
  }

  /** A row of `uat_stats`: the group key and its two sums. */
  datatype UatStat = UatStat(county: string, uatName: string, votesSimion: nat, votesDan: nat)

  /** A row of `uat_averages`: the group key and its share. */
  datatype UatAverage = UatAverage(county: string, uatName: string, percentage: Option<real>)

  /** `groupby(['county', 'uat_name']).agg(sum)`, one row per group. */
  function UatStats(rows: seq<MergedRow>): seq<UatStat>
  {
    var ks := GroupKeys(rows);
    seq(|ks|, i requires 0 <= i < |ks| => UatStat(ks[i].0, ks[i].1, SumSimion(rows, ks[i]), SumDan(rows, ks[i])))
  }

  /** The group share, from the summed votes (merge-voting-stations.py:114-118). */
  function UatAverages(stats: seq<UatStat>): seq<UatAverage>
  {
    seq(|stats|, i requires 0 <= i < |stats| =>
      UatAverage(stats[i].county, stats[i].uatName,
                 Percentage(stats[i].votesSimion, stats[i].votesSimion + stats[i].votesDan)))
  }

  function RowUatKey(r: MergedRow): (string, Option<string>)
  {
    (r.county, r.uatName)
  }

  function AverageKey(a: UatAverage): (string, Option<string>)
  {
    (a.county, Some(a.uatName))
  }

  function WithAverage(r: MergedRow, a: UatAverage): MergedRow
  {
    r.(uatAverage := a.percentage)
  }

  function WithoutAverage(r: MergedRow): MergedRow
  {
    r.(uatAverage := None)
  }

  /** `pd.merge(merged_data, uat_averages, on=['county', 'uat_name'], how='left')`. */
  function MergeUatAverages(rows: seq<MergedRow>): seq<MergedRow>
  {
    LeftJoin(rows, UatAverages(UatStats(rows)), RowUatKey, AverageKey, WithAverage, WithoutAverage)
  }

  /** The share of the row's group among `rows`; none for a row without a UAT name. */
  function GroupAverage(rows: seq<MergedRow>, r: MergedRow): (p: Option<real>)
    ensures r.uatName.None? ==> p.None?
  {
    match r.uatName
    case None => None
    case Some(u) =>
      var k := (r.county, u);
      Percentage(SumSimion(rows, k), SumSimion(rows, k) + SumDan(rows, k))
  }

  lemma UatAveragesUnique(rows: seq<MergedRow>)
    ensures UniqueKeys(UatAverages(UatStats(rows)), AverageKey)
  {
    var ks := GroupKeys(rows);
    var avgs := UatAverages(UatStats(rows));
    forall i, j | 0 <= i < j < |avgs| ensures AverageKey(avgs[i]) != AverageKey(avgs[j]) {
      assert ks[i] != ks[j];
    }
  }

  /** Entry `i` of `uat_averages` carries the key of the `i`-th group. */
  lemma UatAverageKeyAt(rows: seq<MergedRow>, i: nat)
    requires i < |GroupKeys(rows)|
    ensures |UatAverages(UatStats(rows))| == |GroupKeys(rows)|
    ensures UatAverages(UatStats(rows))[i].county == GroupKeys(rows)[i].0
    ensures UatAverages(UatStats(rows))[i].uatName == GroupKeys(rows)[i].1
  {
  }

  /** Entry `i` of `uat_averages`, for the group `k` at position `i`, holds `k`'s share. */
  lemma UatAverageAt(rows: seq<MergedRow>, i: nat, k: UatKey)
    requires i < |GroupKeys(rows)| && GroupKeys(rows)[i] == k
    ensures |UatAverages(UatStats(rows))| == |GroupKeys(rows)|
    ensures UatAverages(UatStats(rows))[i].percentage
         == Percentage(SumSimion(rows, k), SumSimion(rows, k) + SumDan(rows, k))
  {
  }

  /** The average looked up for a row is its group's share. */
  lemma LookupIsGroupAverage(rows: seq<MergedRow>, r: MergedRow)
    requires r in rows
    ensures JoinedWith(r, Lookup(UatAverages(UatStats(rows)), AverageKey, RowUatKey(r)), WithAverage, WithoutAverage)
         == r.(uatAverage := GroupAverage(rows, r))
  {
    var avgs := UatAverages(UatStats(rows));
    var m := Lookup(avgs, AverageKey, RowUatKey(r));
    if r.uatName.Some? {
      var a := LookupNamed(rows, r);
      assert m == Some(a);
      assert JoinedWith(r, m, WithAverage, WithoutAverage) == r.(uatAverage := a.percentage);
    } else {
      assert forall x :: x in avgs ==> AverageKey(x) != RowUatKey(r);
      assert m == None;
      assert JoinedWith(r, m, WithAverage, WithoutAverage) == r.(uatAverage := None);
    }
  }

  /** A row with a UAT name finds the entry of its own group, which holds the group's share. */
  lemma LookupNamed(rows: seq<MergedRow>, r: MergedRow) returns (a: UatAverage)
    requires r in rows && r.uatName.Some?
    ensures Lookup(UatAverages(UatStats(rows)), AverageKey, RowUatKey(r)) == Some(a)
    ensures a.percentage == GroupAverage(rows, r)
  {
    var ks := GroupKeys(rows);
    var avgs := UatAverages(UatStats(rows));
    var k := (r.county, r.uatName.value);
    assert InGroup(r, k);
    assert k in ks;
    var j :| 0 <= j < |ks| && ks[j] == k;
    UatAverageKeyAt(rows, j);
    assert AverageKey(avgs[j]) == RowUatKey(r);
    a := Lookup(avgs, AverageKey, RowUatKey(r)).value;
    var i :| 0 <= i < |avgs| && avgs[i] == a;
    UatAverageKeyAt(rows, i);
    assert ks[i] == k;
    UatAverageAt(rows, i, k);
    GroupAverageOfMember(rows, r, k);
  }

  /**
   * The merge-back keeps every row, in order, and gives each row the share
   * computed from the summed votes of its (county, uat_name) group.
   */
  lemma MergeUatAveragesRows(rows: seq<MergedRow>)
    ensures |MergeUatAverages(rows)| == |rows|
    ensures forall i :: 0 <= i < |rows| ==>
      MergeUatAverages(rows)[i] == rows[i].(uatAverage := GroupAverage(rows, rows[i]))
  {
    UatAveragesUnique(rows);
    LeftJoinUniqueKeys(rows, UatAverages(UatStats(rows)), RowUatKey, AverageKey, WithAverage, WithoutAverage);
    forall i | 0 <= i < |rows|
      ensures MergeUatAverages(rows)[i] == rows[i].(uatAverage := GroupAverage(rows, rows[i]))
    {
      LookupIsGroupAverage(rows, rows[i]);
    }
  }

  /** A group's share is NaN exactly when the group has no votes, and otherwise lies in [0, 100]. */
  lemma GroupAverageBounds(rows: seq<MergedRow>, k: UatKey)
    ensures var p := Percentage(SumSimion(rows, k), SumSimion(rows, k) + SumDan(rows, k));
      (p.None? <==> SumSimion(rows, k) + SumDan(rows, k) == 0) &&
      (p.Some? ==> 0.0 <= p.value <= 100.0)
  {
  }

  // ---------------------------------------------------------------------------
  // Difference from the UAT share

  /** `simion_percentage - uat_simion_avg_percentage`, NaN if either is NaN. */
  function Deviation(station: Option<real>, uat: Option<real>): (d: Option<real>)
    ensures d.Some? <==> station.Some? && uat.Some?
  {
    if station.Some? && uat.Some? then Some(station.value - uat.value) else None
  }

  function WithDeviation(r: MergedRow): MergedRow
  {
    r.(deviation := Deviation(r.simionPercentage, r.uatAverage))
  }

  /** The deviation of a row given its station share and a group share `p`. */
  function DeviationFrom(r: MergedRow, p: Option<real>): real
  {
    OrZero(Deviation(r.simionPercentage, p))
  }

  /** A difference as a number, NaN counting as 0. */
  function OrZero(d: Option<real>): real
  {
    match d
    case Some(x) => x
    case None => 0.0
  }

  /** Sum over the group's rows of total votes times the `deviation` column (NaN counts as 0). */
  function WeightedDeviations(rows: seq<MergedRow>, k: UatKey): real
    decreases |rows|
  {
    if rows == [] then 0.0
    else
      (if InGroup(rows[0], k) then rows[0].totalVotes as real * OrZero(rows[0].deviation) else 0.0)
      + WeightedDeviations(rows[1..], k)
  }

  /** The same sum, when every row of the group is compared with one share `p`. */
  function WeightedAgainst(rows: seq<MergedRow>, k: UatKey, p: Option<real>): real
    decreases |rows|
  {
    if rows == [] then 0.0
    else
      (if InGroup(rows[0], k) then rows[0].totalVotes as real * DeviationFrom(rows[0], p) else 0.0)
      + WeightedAgainst(rows[1..], k, p)
  }

  /** One row's term: its turnout times its distance from `p`. */
  lemma RowTerm(t: real, q: real, s: real, p: real)
    requires q * t == 100.0 * s
    ensures t * (q - p) == 100.0 * s - p * t
  {
  }

  lemma Distributes(p: real, x: real, a: real, b: real)
    requires x == a + b
    ensures p * x == p * a + p * b
  {
  }

  /** The contribution of one row to the weighted sum against `p`. */
  function Term(r: MergedRow, k: UatKey, p: real): real
  {
    if InGroup(r, k) then r.totalVotes as real * DeviationFrom(r, Some(p)) else 0.0
  }

  lemma TermLinear(r: MergedRow, k: UatKey, p: real)
    requires Prepared(r)
    ensures Term(r, k, p) == 100.0 * (if InGroup(r, k) then r.votesSimion else 0) as real
                           - (if InGroup(r, k) then p * r.totalVotes as real else 0.0)
  {
    if InGroup(r, k) && r.totalVotes != 0 {
      RowTerm(r.totalVotes as real, r.simionPercentage.value, r.votesSimion as real, p);
    }
  }

  /** Sum of `p` times the turnout over the group's rows. */
  function ScaledTurnout(rows: seq<MergedRow>, k: UatKey, p: real): real
    decreases |rows|
  {
    if rows == [] then 0.0
    else (if InGroup(rows[0], k) then p * rows[0].totalVotes as real else 0.0) + ScaledTurnout(rows[1..], k, p)
  }

  /** Sum of `total_votes` over the group's rows. */
  function TurnoutSum(rows: seq<MergedRow>, k: UatKey): nat
    decreases |rows|
  {
    if rows == [] then 0
    else (if InGroup(rows[0], k) then rows[0].totalVotes else 0) + TurnoutSum(rows[1..], k)
  }

  lemma {:induction false} WeightedAgainstLinear(rows: seq<MergedRow>, k: UatKey, p: real)
    requires forall i :: 0 <= i < |rows| ==> Prepared(rows[i])
    ensures WeightedAgainst(rows, k, Some(p)) == 100.0 * SumSimion(rows, k) as real - ScaledTurnout(rows, k, p)
    decreases |rows|
  {
    if rows != [] {
      WeightedAgainstLinear(rows[1..], k, p);
      TermLinear(rows[0], k, p);
    }
  }

  lemma {:induction false} ScaledTurnoutFormula(rows: seq<MergedRow>, k: UatKey, p: real)
    ensures ScaledTurnout(rows, k, p) == p * TurnoutSum(rows, k) as real
    decreases |rows|
  {
    if rows != [] {
      ScaledTurnoutFormula(rows[1..], k, p);
      var t0 := if InGroup(rows[0], k) then rows[0].totalVotes else 0;
      Distributes(p, TurnoutSum(rows, k) as real, t0 as real, TurnoutSum(rows[1..], k) as real);
    }
  }

  /** On prepared rows the group turnout is the sum of both candidates' votes. */
  lemma {:induction false} TurnoutIsVotes(rows: seq<MergedRow>, k: UatKey)
    requires forall i :: 0 <= i < |rows| ==> Prepared(rows[i])
    ensures TurnoutSum(rows, k) == SumSimion(rows, k) + SumDan(rows, k)
    decreases |rows|
  {
    if rows != [] {
      assert Prepared(rows[0]);
      TurnoutIsVotes(rows[1..], k);
    }
  }

  /** A NaN share makes every deviation NaN, so the weighted sum is 0. */
  lemma {:induction false} WeightedAgainstNone(rows: seq<MergedRow>, k: UatKey)
    ensures WeightedAgainst(rows, k, None) == 0.0
    decreases |rows|
  {
    if rows != [] {
      WeightedAgainstNone(rows[1..], k);
    }
  }

  /**
   * Rows that agree on every column but the UAT share and the difference,
   * and whose UAT share is `p` in group `k`, with the difference from `p`.
   */
  ghost predicate SameButAverage(xs: seq<MergedRow>, ys: seq<MergedRow>, k: UatKey, p: Option<real>)
  {
    |xs| == |ys| &&
    forall i :: 0 <= i < |xs| ==>
      ys[i] == xs[i].(uatAverage := ys[i].uatAverage, deviation := ys[i].deviation) &&
      (InGroup(xs[i], k) ==> ys[i].uatAverage == p && ys[i].deviation == Deviation(xs[i].simionPercentage, p))
  }

  lemma {:induction false} WeightedDeviationsAgainst(xs: seq<MergedRow>, ys: seq<MergedRow>, k: UatKey, p: Option<real>)
    requires SameButAverage(xs, ys, k, p)
    ensures WeightedDeviations(ys, k) == WeightedAgainst(xs, k, p)
    decreases |xs|
  {
    if xs != [] {
      assert SameButAverage(xs[1..], ys[1..], k, p) by {
        forall i | 0 <= i < |xs[1..]| ensures xs[1..][i] == xs[i + 1] && ys[1..][i] == ys[i + 1] {
        }
      }
      WeightedDeviationsAgainst(xs[1..], ys[1..], k, p);
    }
  }

  /** The difference column over a whole table. */
  function Deviations(rows: seq<MergedRow>): (ds: seq<MergedRow>)
    ensures |ds| == |rows|
  {
    seq(|rows|, i requires 0 <= i < |rows| => WithDeviation(rows[i]))
  }

  /** After the merge-back and the difference column, only the UAT share and the difference changed. */
  lemma MergedDiffersOnlyInAverage(rows: seq<MergedRow>, k: UatKey)
    ensures SameButAverage(rows, Deviations(MergeUatAverages(rows)), k,
                           Percentage(SumSimion(rows, k), SumSimion(rows, k) + SumDan(rows, k)))
  {
    MergeUatAveragesRows(rows);
    DeviationsKeepRows(rows, MergeUatAverages(rows), k);
  }

  /** Giving every row its group's share and then its difference leaves the other columns alone. */
  lemma DeviationsKeepRows(rows: seq<MergedRow>, ms: seq<MergedRow>, k: UatKey)
    requires |ms| == |rows|
    requires forall i :: 0 <= i < |rows| ==> ms[i] == rows[i].(uatAverage := GroupAverage(rows, rows[i]))
    ensures SameButAverage(rows, Deviations(ms), k,
                           Percentage(SumSimion(rows, k), SumSimion(rows, k) + SumDan(rows, k)))
  {
    var p := Percentage(SumSimion(rows, k), SumSimion(rows, k) + SumDan(rows, k));
    var ys := Deviations(ms);
    forall i | 0 <= i < |rows|
      ensures ys[i] == rows[i].(uatAverage := ys[i].uatAverage, deviation := ys[i].deviation)
      ensures InGroup(rows[i], k) ==> ys[i].uatAverage == p && ys[i].deviation == Deviation(rows[i].simionPercentage, p)
    {
      assert ys[i] == WithDeviation(ms[i]);
      if InGroup(rows[i], k) {
        GroupAverageOfMember(rows, rows[i], k);
      }
    }
  }

  /** A row of group `k` gets `k`'s share. */
  lemma GroupAverageOfMember(rows: seq<MergedRow>, r: MergedRow, k: UatKey)
    requires InGroup(r, k)
    ensures GroupAverage(rows, r) == Percentage(SumSimion(rows, k), SumSimion(rows, k) + SumDan(rows, k))
  {
    assert r.uatName == Some(k.1) && r.county == k.0;
  }

  /**
   * Within any UAT, the station deviations weighted by station turnout sum to
   * zero: the UAT share is the vote-weighted mean of the station shares, not
   * their plain mean.
   */
  lemma WeightedDeviationsCancel(rows: seq<MergedRow>, k: UatKey)
    requires forall i :: 0 <= i < |rows| ==> Prepared(rows[i])
    ensures WeightedDeviations(Deviations(MergeUatAverages(rows)), k) == 0.0
  {
    var p := Percentage(SumSimion(rows, k), SumSimion(rows, k) + SumDan(rows, k));
    MergedDiffersOnlyInAverage(rows, k);
    WeightedDeviationsAgainst(rows, Deviations(MergeUatAverages(rows)), k, p);
    WeightedAgainstShare(rows, k);
  }

  /** Measured against its own group share, a group's weighted deviations vanish. */
  lemma WeightedAgainstShare(rows: seq<MergedRow>, k: UatKey)
    requires forall i :: 0 <= i < |rows| ==> Prepared(rows[i])
    ensures WeightedAgainst(rows, k, Percentage(SumSimion(rows, k), SumSimion(rows, k) + SumDan(rows, k))) == 0.0
  {
    var s := SumSimion(rows, k);
    var t := s + SumDan(rows, k);
    if t == 0 {
      WeightedAgainstNone(rows, k);
    } else {
      var v := Percentage(s, t).value;
      assert Percentage(s, t) == Some(v);
      WeightedAgainstLinear(rows, k, v);
      ShareCancels(rows, k);
    }
  }

  /** The group share, scaled by every row's turnout, adds up to 100 times Simion's votes. */
  lemma ShareCancels(rows: seq<MergedRow>, k: UatKey)
    requires forall i :: 0 <= i < |rows| ==> Prepared(rows[i])
    requires SumSimion(rows, k) + SumDan(rows, k) != 0
    ensures var share := Percentage(SumSimion(rows, k), SumSimion(rows, k) + SumDan(rows, k));
      share.Some? && 100.0 * SumSimion(rows, k) as real - ScaledTurnout(rows, k, share.value) == 0.0
  {
    TurnoutIsVotes(rows, k);
    ShareCancelsAt(rows, k, SumSimion(rows, k) + SumDan(rows, k));
  }

  /** `ShareCancels` once the group turnout `t` is known. */
  lemma ShareCancelsAt(rows: seq<MergedRow>, k: UatKey, t: nat)
    requires TurnoutSum(rows, k) == t == SumSimion(rows, k) + SumDan(rows, k) != 0
    ensures var share := Percentage(SumSimion(rows, k), t);
      share.Some? && 100.0 * SumSimion(rows, k) as real - ScaledTurnout(rows, k, share.value) == 0.0
  {
    var v := DefinedShare(SumSimion(rows, k), t);
    ScaledTurnoutCancels(rows, k, v, t);
  }

  /** Any `v` with `v` × turnout = 100 × Simion's votes cancels the scaled turnout. */
  lemma ScaledTurnoutCancels(rows: seq<MergedRow>, k: UatKey, v: real, t: nat)
    requires TurnoutSum(rows, k) == t
    requires v * t as real == 100.0 * SumSimion(rows, k) as real
    ensures 100.0 * SumSimion(rows, k) as real - ScaledTurnout(rows, k, v) == 0.0
  {
    ScaledTurnoutFormula(rows, k, v);
    Cancels(SumSimion(rows, k) as real, t as real, v, ScaledTurnout(rows, k, v));
  }

  lemma Cancels(s: real, t: real, v: real, scaled: real)
    requires scaled == v * t
    requires v * t == 100.0 * s
    ensures 100.0 * s - scaled == 0.0
  {
  }

  // ---------------------------------------------------------------------------
  // Worked examples

  /** A station of UAT `u` in county `c`, with its total and share computed. */
  function StationOf(c: string, u: string, simion: nat, dan: nat): MergedRow
  {
    WithPercentage(WithTotal(MergedRow(c, "1", "", Some(u), simion, dan, None, None, 0, None, None, None)))
  }

  /** The sums of a two-row table whose rows are both in the group. */
  lemma GroupOfTwo(a: MergedRow, b: MergedRow, k: UatKey)
    requires InGroup(a, k) && InGroup(b, k)
    ensures SumSimion([a, b], k) == a.votesSimion + b.votesSimion
    ensures SumDan([a, b], k) == a.votesDan + b.votesDan
  {
    var rows := [a, b];
    assert rows[1..] == [b] && [b][1..] == [];
    assert SumSimion([b], k) == b.votesSimion;
    assert SumDan([b], k) == b.votesDan;
  }

  /** The sums of a three-row table whose rows are all in the group. */
  lemma SumsOfThree(rows: seq<MergedRow>, k: UatKey)
    requires |rows| == 3 && InGroup(rows[0], k) && InGroup(rows[1], k) && InGroup(rows[2], k)
    ensures SumSimion(rows, k) == rows[0].votesSimion + rows[1].votesSimion + rows[2].votesSimion
    ensures SumDan(rows, k) == rows[0].votesDan + rows[1].votesDan + rows[2].votesDan
  {
    assert rows[1..][1..] == [rows[2]] && rows[1..][1..][1..] == [];
    assert SumSimion(rows[1..][1..], k) == rows[2].votesSimion;
    assert SumDan(rows[1..][1..], k) == rows[2].votesDan;
  }

  /** Two stations, 60/40 and 30/70: the UAT share is 90/200 = 45%, and they deviate by +15 and −15. */
  lemma UatAverageExample(c: string, u: string)
    ensures var out := Deviations(MergeUatAverages([StationOf(c, u, 60, 40), StationOf(c, u, 30, 70)]));
      |out| == 2 &&
      out[0].simionPercentage == Some(60.0) && out[1].simionPercentage == Some(30.0) &&
      out[0].uatAverage == Some(45.0) && out[1].uatAverage == Some(45.0) &&
      out[0].deviation == Some(15.0) && out[1].deviation == Some(-15.0)
  {
    assert Percentage(60, 100) == Some(60.0) && Percentage(30, 100) == Some(30.0);
    assert Percentage(90, 200) == Some(45.0);
    var a, b := StationOf(c, u, 60, 40), StationOf(c, u, 30, 70);
    assert a.simionPercentage == Some(60.0) && b.simionPercentage == Some(30.0);
    var rows := [a, b];
    GroupOfTwo(a, b, (c, u));
    assert GroupAverage(rows, rows[0]) == Some(45.0);
    assert GroupAverage(rows, rows[1]) == Some(45.0);
    MergeUatAveragesRows(rows);
  }

  /**
   * The UAT share weighs stations by turnout: one vote for Simion at one
   * station and three for Dan at another give 25%, not the 50% mean of the
   * station shares 100% and 0%.
   */
  lemma UatAverageIsNotMeanOfShares(c: string, u: string)
    ensures var out := MergeUatAverages([StationOf(c, u, 1, 0), StationOf(c, u, 0, 3)]);
      |out| == 2 &&
      out[0].simionPercentage == Some(100.0) && out[1].simionPercentage == Some(0.0) &&
      out[0].uatAverage == Some(25.0)
  {
    assert Percentage(1, 1) == Some(100.0) && Percentage(0, 3) == Some(0.0);
    assert Percentage(1, 4) == Some(25.0);
    var a, b := StationOf(c, u, 1, 0), StationOf(c, u, 0, 3);
    assert a.simionPercentage == Some(100.0) && b.simionPercentage == Some(0.0);
    var rows := [a, b];
    GroupOfTwo(a, b, (c, u));
    assert GroupAverage(rows, rows[0]) == Some(25.0);
    MergeUatAveragesRows(rows);
  }

  /** Rows without a UAT name belong to no group and get no UAT share. */
  lemma NoUatNoAverage(rows: seq<MergedRow>, i: nat)
    requires i < |rows| && rows[i].uatName.None?
    ensures i < |MergeUatAverages(rows)| && MergeUatAverages(rows)[i].uatAverage.None?
    ensures forall k :: !InGroup(rows[i], k)
  {
    MergeUatAveragesRows(rows);
  }
}
