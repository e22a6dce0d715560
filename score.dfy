/** The Scorer: the derived columns `calculate_kpis` adds to the grouped
    frame, ending in the weighted `OverallScore`. */
module Score {
  import opened Wrappers
  import opened Seqs
  import opened Records
  import opened Lex
  import opened Aggregation

  /** A grouped row with its derived columns. */
  datatype Kpi = Kpi(
    summary: Summary,
    onTimeRate: real,
    quality: real,
    compliance: real,
    avgLead: real,
    overall: real)

  // Weights of the overall score.
  const ON_TIME_WEIGHT := 0.3
  const QUALITY_WEIGHT := 0.3
  const COMPLIANCE_WEIGHT := 0.2
  const LEAD_WEIGHT := 0.2

  /** `kpi_df['AvgLeadTime'].max()`: the largest mean lead time of the frame. */
  function MaxLead(ss: seq<Summary>): (m: real)
    requires ss != []
    ensures forall i :: 0 <= i < |ss| ==> ss[i].leadTime <= m
    ensures exists i :: 0 <= i < |ss| && ss[i].leadTime == m
  {
    if |ss| == 1 then ss[0].leadTime
    else
      var m := MaxLead(ss[1..]);
      if ss[0].leadTime >= m then ss[0].leadTime else m
  }

  /** The source divides by each vendor's total deliveries and total units and
      by the largest mean lead time, without a guard. */
  predicate Scorable(ss: seq<Summary>)
  {
    && (forall i :: 0 <= i < |ss| ==> ss[i].total != 0.0 && ss[i].units != 0.0)
    && (ss != [] ==> MaxLead(ss) != 0.0)
  }

  /** The derived columns of one grouped row. The on-time rate and the
      defect ratio are the ratios that undo the sums they come from. */
  function ScoreOne(s: Summary, maxLead: real): (k: Kpi)
    requires s.total != 0.0 && s.units != 0.0 && maxLead != 0.0
    ensures k.summary == s
    ensures k.onTimeRate * s.total == s.onTime
    ensures (1.0 - k.quality) * s.units == s.defects
    ensures k.compliance == s.compliant && k.avgLead == s.leadTime
    ensures k.overall == ON_TIME_WEIGHT * k.onTimeRate + QUALITY_WEIGHT * k.quality
                         + COMPLIANCE_WEIGHT * k.compliance + LEAD_WEIGHT * (1.0 - k.avgLead / maxLead)
  {
    var rate := s.onTime / s.total;
    var quality := 1.0 - s.defects / s.units;
    Kpi(s, rate, quality, s.compliant, s.leadTime,
        rate * ON_TIME_WEIGHT + quality * QUALITY_WEIGHT + s.compliant * COMPLIANCE_WEIGHT
        + (1.0 - s.leadTime / maxLead) * LEAD_WEIGHT)
  }

  function ScoreEach(ss: seq<Summary>, maxLead: real): (r: seq<Kpi>)
    requires forall i :: 0 <= i < |ss| ==> ss[i].total != 0.0 && ss[i].units != 0.0
    requires maxLead != 0.0
    ensures |r| == |ss|
    ensures forall i :: 0 <= i < |r| ==> r[i] == ScoreOne(ss[i], maxLead)
  {
    if ss == [] then [] else [ScoreOne(ss[0], maxLead)] + ScoreEach(ss[1..], maxLead)
  }

  /** The derived columns of `calculate_kpis`, computed for the whole frame at
      once since the lead-time term is relative to the frame's largest mean
      lead time. */
  function ScoreAll(ss: seq<Summary>): (r: seq<Kpi>)
    requires Scorable(ss)
    ensures |r| == |ss|
    ensures forall i :: 0 <= i < |r| ==> r[i] == ScoreOne(ss[i], MaxLead(ss))
  {
    if ss == [] then [] else ScoreEach(ss, MaxLead(ss))
  }

  /** `calculate_kpis` on a frame's rows: group, then derive. One KPI row per
      vendor, in ascending vendor order. */
  function Kpis(rows: seq<Row>): (r: seq<Kpi>)
    requires Scorable(Aggregate(rows))
    ensures rows == [] ==> r == []
    ensures |r| == |Aggregate(rows)|
    ensures forall i :: 0 <= i < |r| ==> SummaryOf(rows, r[i].summary)
    ensures forall i, j :: 0 <= i < j < |r| ==> Less(r[i].summary.vendor, r[j].summary.vendor)
    ensures forall i :: 0 <= i < |r| ==>
      r[i].summary == Aggregate(rows)[i] && r[i] == ScoreOne(r[i].summary, MaxLead(Aggregate(rows)))
  {
    ScoreAll(Aggregate(rows))
  }

  /** The columns `calculate_kpis` names that a frame may lack. */
  function MissingKpiColumns(t: Table): (m: set<string>)
    ensures forall c :: c in m <==> (c == "Category" && !t.hasCategory) || (c == "Region" && !t.hasRegion)
  {
    (if t.hasCategory then {} else {"Category"}) + (if t.hasRegion then {} else {"Region"})
  }

  /** `calculate_kpis`: the aggregation names the Category and Region columns,
      so a frame without them raises a `KeyError` naming them. */
  function CalculateKpis(t: Table): (r: Result<seq<Kpi>, set<string>>)
    requires t.hasCategory && t.hasRegion ==> Scorable(Aggregate(t.rows))
    ensures r.Failure? <==> !t.hasCategory || !t.hasRegion
    ensures r.Failure? ==> r.error == MissingKpiColumns(t) && r.error != {}
    ensures r.Success? ==> r.value == Kpis(t.rows)
  {
    var missing := MissingKpiColumns(t);
    if missing != {} then Failure(missing)
    else Success(Kpis(t.rows))
  }

  /** The invariants of a grouped row built from valid rows. */
  predicate ValidSummary(s: Summary)
  {
    && 0.0 <= s.onTime <= s.total
    && 0.0 <= s.defects <= s.units
    && 0.0 <= s.compliant <= 1.0
    && 0.0 <= s.leadTime
  }

  /** A grouped row of valid rows is valid. */
  lemma {:induction false} SummaryOfValidRowsIsValid(rows: seq<Row>, s: Summary)
    requires AllValid(rows)
    requires SummaryOf(rows, s)
    ensures ValidSummary(s)
  {
    var g := Group(rows, s.vendor);
    GroupOfValidRows(rows, s.vendor);
    ValidGroupSums(g);
    MeanInBounds(s.compliant, Sum(g, Compliant), |g|, 0.0, 1.0);
    MeanNonNegative(s.leadTime, Sum(g, LeadTime), |g|);
  }

  lemma {:induction false} GroupOfValidRows(rows: seq<Row>, v: string)
    requires AllValid(rows)
    ensures AllValid(Group(rows, v))
  {
    var g := Group(rows, v);
    GroupSpec(rows, v);
    forall k | 0 <= k < |g| ensures ValidRow(g[k]) {
      assert g[k] in g;
    }
  }

  /** The column sums of valid rows keep the row invariants. */
  lemma {:induction false} ValidGroupSums(g: seq<Row>)
    requires AllValid(g)
    ensures 0.0 <= Sum(g, OnTime) <= Sum(g, Total)
    ensures 0.0 <= Sum(g, Defects) <= Sum(g, Units)
    ensures 0.0 * |g| as real <= Sum(g, Compliant) <= 1.0 * |g| as real
    ensures 0.0 <= Sum(g, LeadTime)
  {
    SumMonotone(g, OnTime, Total);
    SumNonNegative(g, OnTime);
    SumMonotone(g, Defects, Units);
    SumNonNegative(g, Defects);
    SumBounds(g, Compliant, 0.0, 1.0);
    SumNonNegative(g, LeadTime);
  }

  /** A mean of values in [lo, hi] lies in [lo, hi]. */
  lemma MeanInBounds(mean: real, sum: real, n: nat, lo: real, hi: real)
    requires n > 0 && mean * n as real == sum
    requires lo * n as real <= sum <= hi * n as real
    ensures lo <= mean <= hi
  {
  }

  lemma MeanNonNegative(mean: real, sum: real, n: nat)
    requires n > 0 && mean * n as real == sum && 0.0 <= sum
    ensures 0.0 <= mean
  {
  }

  /** Grouping valid rows gives valid grouped rows. */
  lemma AggregateValid(rows: seq<Row>)
    requires AllValid(rows)
    ensures forall i :: 0 <= i < |Aggregate(rows)| ==> ValidSummary(Aggregate(rows)[i])
  {
    var ss := Aggregate(rows);
    forall i | 0 <= i < |ss| ensures ValidSummary(ss[i]) {
      SummaryOfValidRowsIsValid(rows, ss[i]);
    }
  }

  /** Every derived rate lies in [0, 1], and so does the overall score, when
      the grouped rows are valid. */
  lemma ScoresInUnitInterval(ss: seq<Summary>)
    requires Scorable(ss)
    requires forall i :: 0 <= i < |ss| ==> ValidSummary(ss[i])
    ensures forall i :: 0 <= i < |ss| ==>
      var k := ScoreAll(ss)[i];
      && 0.0 <= k.onTimeRate <= 1.0
      && 0.0 <= k.quality <= 1.0
      && 0.0 <= k.compliance <= 1.0
      && 0.0 <= k.overall <= 1.0
  {
    var r := ScoreAll(ss);
    forall i | 0 <= i < |ss|
      ensures 0.0 <= r[i].onTimeRate <= 1.0 && 0.0 <= r[i].quality <= 1.0
      ensures 0.0 <= r[i].compliance <= 1.0 && 0.0 <= r[i].overall <= 1.0
    {
      var s := ss[i];
      var m := MaxLead(ss);
      RatioInUnitInterval(s.onTime, s.total);
      RatioInUnitInterval(s.defects, s.units);
      RatioInUnitInterval(s.leadTime, m);
    }
  }

  lemma RatioInUnitInterval(a: real, b: real)
    requires 0.0 <= a <= b && b != 0.0
    ensures 0.0 <= a / b <= 1.0
  {
  }

  /** The vendor with the largest mean lead time gets a lead-time term of 0:
      its overall score is made of the other three terms only. */
  lemma {:induction false} SlowestVendorLeadTermIsZero(ss: seq<Summary>, i: nat)
    requires Scorable(ss)
    requires i < |ss| && ss[i].leadTime == MaxLead(ss)
    ensures var k := ScoreAll(ss)[i];
      k.overall == ON_TIME_WEIGHT * k.onTimeRate + QUALITY_WEIGHT * k.quality + COMPLIANCE_WEIGHT * k.compliance
  {
    LeadTermVanishes(ss[i]);
  }

  lemma LeadTermVanishes(s: Summary)
    requires s.total != 0.0 && s.units != 0.0 && s.leadTime != 0.0
    ensures var k := ScoreOne(s, s.leadTime);
      k.overall == ON_TIME_WEIGHT * k.onTimeRate + QUALITY_WEIGHT * k.quality + COMPLIANCE_WEIGHT * k.compliance
  {
  }

  /** The rows of the three-vendor scenario: one month each, V1 always on
      time with no defects, V2 half on time and non-compliant, V3 in between
      with the longest lead time. */
  function ScenarioRow(i: nat): Row
    requires i < 3
  {
    if i == 0 then Row("V1", "Raw Material", "North", 0, 10, 10, 0, 100, 1000.0, 1, 2.0)
    else if i == 1 then Row("V2", "Packaging", "South", 0, 5, 10, 5, 100, 2000.0, 0, 5.0)
    else Row("V3", "Services", "East", 0, 8, 10, 2, 100, 1500.0, 1, 10.0)
  }

  /** The grouped row the scenario's vendor `i` should get. */
  function ScenarioSummary(i: nat): Summary
    requires i < 3
  {
    if i == 0 then Summary("V1", 10.0, 10.0, 0.0, 100.0, 1000.0, 1.0, 2.0, "Raw Material", "North")
    else if i == 1 then Summary("V2", 5.0, 10.0, 5.0, 100.0, 2000.0, 0.0, 5.0, "Packaging", "South")
    else Summary("V3", 8.0, 10.0, 2.0, 100.0, 1500.0, 1.0, 10.0, "Services", "East")
  }

  predicate IsScenario(rows: seq<Row>)
  {
    |rows| == 3 && rows[0] == ScenarioRow(0) && rows[1] == ScenarioRow(1) && rows[2] == ScenarioRow(2)
  }

  predicate IsScenarioSummaries(ss: seq<Summary>)
  {
    |ss| == 3 && ss[0] == ScenarioSummary(0) && ss[1] == ScenarioSummary(1) && ss[2] == ScenarioSummary(2)
  }

  lemma {:induction false} ScenarioAggregate(rows: seq<Row>)
    requires IsScenario(rows)
    ensures IsScenarioSummaries(Aggregate(rows))
  {
    ScenarioVendors(rows);
    var r := Aggregate(rows);
    assert r == SummarizeEach(rows, ["V1", "V2", "V3"]);
    ScenarioSummarize(rows, 0);
    ScenarioSummarize(rows, 1);
    ScenarioSummarize(rows, 2);
  }

  lemma {:induction false} ScenarioVendors(rows: seq<Row>)
    requires IsScenario(rows)
    ensures VendorsOf(rows) == ["V1", "V2", "V3"]
  {
    assert Less("V1", "V2") && Less("V2", "V3") && Less("V1", "V3");
    assert rows[2..][1..] == [];
    assert VendorsOf(rows[2..]) == ["V3"];
    assert rows[1..][1..] == rows[2..];
    assert VendorsOf(rows[1..]) == ["V2", "V3"];
  }

  lemma {:induction false} ScenarioSummarize(rows: seq<Row>, i: nat)
    requires IsScenario(rows) && i < 3
    ensures HasVendor(rows, ScenarioSummary(i).vendor)
    ensures Summarize(rows, ScenarioSummary(i).vendor) == ScenarioSummary(i)
  {
    var v := ScenarioSummary(i).vendor;
    assert rows[i].vendor == v;
    assert forall j :: 0 <= j < 3 ==> (rows[j].vendor == v <==> j == i);
    assert rows[2..] == [rows[2]] && rows[2..][1..] == [];
    assert Group(rows[2..][1..], v) == [];
    assert Group(rows[2..], v) == if i == 2 then [rows[2]] else [];
    assert rows[1..][1..] == rows[2..];
    assert Group(rows[1..], v) == if i == 1 then [rows[1]] else Group(rows[2..], v);
    assert Group(rows, v) == if i == 0 then [rows[0]] else Group(rows[1..], v);
    SummarizeSingleRow(rows, v, i);
  }

  lemma {:induction false} ScenarioScores(ss: seq<Summary>)
    requires IsScenarioSummaries(ss)
    ensures Scorable(ss)
    ensures var k := ScoreAll(ss);
      && |k| == 3
      && k[0].onTimeRate == 1.0 && k[1].onTimeRate == 0.5 && k[2].onTimeRate == 0.8
      && k[0].quality == 1.0 && k[1].quality == 0.95 && k[2].quality == 0.98
      && k[0].overall == 0.96 && k[1].overall == 0.535 && k[2].overall == 0.734
  {
    ScenarioVendorKpi(ss, 0);
    ScenarioVendorKpi(ss, 1);
    ScenarioVendorKpi(ss, 2);
  }

  /** The expected on-time rate, quality score and overall score of the
      scenario's vendor `j`. */
  function ScenarioRate(j: nat): real { if j == 0 then 1.0 else if j == 1 then 0.5 else 0.8 }
  function ScenarioQuality(j: nat): real { if j == 0 then 1.0 else if j == 1 then 0.95 else 0.98 }
  function ScenarioOverall(j: nat): real { if j == 0 then 0.96 else if j == 1 then 0.535 else 0.734 }

  lemma {:induction false} ScenarioVendorKpi(ss: seq<Summary>, j: nat)
    requires IsScenarioSummaries(ss) && j < 3
    ensures Scorable(ss)
    ensures ScoreAll(ss)[j].onTimeRate == ScenarioRate(j)
    ensures ScoreAll(ss)[j].quality == ScenarioQuality(j)
    ensures ScoreAll(ss)[j].overall == ScenarioOverall(j)
  {
    ScenarioMaxLead(ss);
    ScenarioKpi(ss, j, ScenarioRate(j), ScenarioQuality(j), ScenarioOverall(j));
  }

  /** The KPI row of a grouped row with 10 deliveries and 100 units, in a
      table whose largest mean lead time is 10. */
  lemma {:induction false} ScenarioKpi(ss: seq<Summary>, j: nat, rate: real, quality: real, overall: real)
    requires Scorable(ss) && j < |ss| && MaxLead(ss) == 10.0
    requires ss[j].total == 10.0 && ss[j].units == 100.0
    requires rate == ss[j].onTime / 10.0 && quality == 1.0 - ss[j].defects / 100.0
    requires overall == 0.3 * rate + 0.3 * quality + 0.2 * ss[j].compliant + 0.2 * (1.0 - ss[j].leadTime / 10.0)
    ensures ScoreAll(ss)[j].onTimeRate == rate
    ensures ScoreAll(ss)[j].quality == quality
    ensures ScoreAll(ss)[j].overall == overall
  {
    var s := ss[j];
    assert ScoreAll(ss)[j] == ScoreOne(s, 10.0);
    ScenarioScore(s, rate, quality, overall);
  }

  lemma {:induction false} ScenarioMaxLead(ss: seq<Summary>)
    requires IsScenarioSummaries(ss)
    ensures MaxLead(ss) == 10.0
  {
    assert ss[1..][1..] == [ss[2]];
    assert MaxLead(ss[1..][1..]) == 10.0;
  }

  lemma ScenarioScore(s: Summary, rate: real, quality: real, overall: real)
    requires s.total == 10.0 && s.units == 100.0
    requires rate == s.onTime / 10.0 && quality == 1.0 - s.defects / 100.0
    requires overall == 0.3 * rate + 0.3 * quality + 0.2 * s.compliant + 0.2 * (1.0 - s.leadTime / 10.0)
    ensures ScoreOne(s, 10.0).onTimeRate == rate
    ensures ScoreOne(s, 10.0).quality == quality
    ensures ScoreOne(s, 10.0).overall == overall
  {
  }

  /** The three-vendor scenario end to end: the overall scores are 0.96,
      0.535 and 0.734 and rank V1 > V3 > V2. */
  lemma {:induction false} ThreeVendorScenario(rows: seq<Row>)
    requires IsScenario(rows)
    ensures Scorable(Aggregate(rows))
    ensures var k := Kpis(rows);
      && |k| == 3
      && k[0].summary.vendor == "V1" && k[1].summary.vendor == "V2" && k[2].summary.vendor == "V3"
      && k[0].onTimeRate == 1.0 && k[1].onTimeRate == 0.5 && k[2].onTimeRate == 0.8
      && k[0].quality == 1.0 && k[1].quality == 0.95 && k[2].quality == 0.98
      && k[0].overall == 0.96 && k[1].overall == 0.535 && k[2].overall == 0.734
      && k[0].overall > k[2].overall > k[1].overall
  {
    ScenarioAggregate(rows);
    ScenarioScores(Aggregate(rows));
  }
}
