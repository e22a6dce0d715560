/** The Performance Summary Dashboard: five figures over the KPI table, each
    0 when the table is empty. */
module Dashboard {
  import opened Seqs
  import opened Records
  import opened Aggregation
  import opened Score

  datatype SummaryFigures = SummaryFigures(
    onTimeRate: real,
    quality: real,
    totalSpend: real,
    compliance: real,
    avgLead: real)

  function KpiOnTimeRate(k: Kpi): real { k.onTimeRate }
  function KpiQuality(k: Kpi): real { k.quality }
  function KpiSpend(k: Kpi): real { k.summary.spend }
  function KpiCompliance(k: Kpi): real { k.compliance }
  function KpiAvgLead(k: Kpi): real { k.avgLead }

  /** The mean of column `f` of a non-empty KPI table. */
  function Mean(ks: seq<Kpi>, f: Kpi -> real): (m: real)
    requires ks != []
    ensures m * |ks| as real == Sum(ks, f)
  {
    Sum(ks, f) / |ks| as real
  }

  /** The summary figures: the means of the on-time rate, quality score,
      compliance rate and average lead time, and the total spend. */
  function Figures(ks: seq<Kpi>): (r: SummaryFigures)
    ensures ks == [] ==> r == SummaryFigures(0.0, 0.0, 0.0, 0.0, 0.0)
    ensures ks != [] ==> r.totalSpend == Sum(ks, KpiSpend)
    ensures ks != [] ==> r.onTimeRate * |ks| as real == Sum(ks, KpiOnTimeRate)
    ensures ks != [] ==> r.quality * |ks| as real == Sum(ks, KpiQuality)
    ensures ks != [] ==> r.compliance * |ks| as real == Sum(ks, KpiCompliance)
    ensures ks != [] ==> r.avgLead * |ks| as real == Sum(ks, KpiAvgLead)
  {
    if ks == [] then SummaryFigures(0.0, 0.0, 0.0, 0.0, 0.0)
    else SummaryFigures(Mean(ks, KpiOnTimeRate), Mean(ks, KpiQuality), Sum(ks, KpiSpend),
                        Mean(ks, KpiCompliance), Mean(ks, KpiAvgLead))
  }

  /** The spend of the scored table is the spend of the grouped table. */
  lemma {:induction false} ScoreEachSpend(ss: seq<Summary>, maxLead: real)
    requires forall i :: 0 <= i < |ss| ==> ss[i].total != 0.0 && ss[i].units != 0.0
    requires maxLead != 0.0
    ensures Sum(ScoreEach(ss, maxLead), KpiSpend) == Sum(ss, SummarySpend)
  {
    if ss != [] {
      ScoreEachSpend(ss[1..], maxLead);
      assert ScoreEach(ss, maxLead)[1..] == ScoreEach(ss[1..], maxLead);
    }
  }

  /** The total spend on the dashboard is the spend of all the filtered rows,
      whether or not any row is left. */
  lemma {:induction false} TotalSpendOfRows(rows: seq<Row>)
    requires Scorable(Aggregate(rows))
    ensures Figures(Kpis(rows)).totalSpend == Sum(rows, Spend)
  {
    var ss := Aggregate(rows);
    AggregatePreservesTotalSpend(rows);
    if ss != [] {
      ScoreEachSpend(ss, MaxLead(ss));
    }
  }

  /** The three mean rates lie in [0, 1] and the mean lead time is not
      negative, when the rows are valid. */
  lemma {:induction false} FiguresInBounds(rows: seq<Row>)
    requires AllValid(rows)
    requires Scorable(Aggregate(rows))
    ensures var r := Figures(Kpis(rows));
      && 0.0 <= r.onTimeRate <= 1.0
      && 0.0 <= r.quality <= 1.0
      && 0.0 <= r.compliance <= 1.0
      && 0.0 <= r.avgLead
  {
    var ss := Aggregate(rows);
    AggregateValid(rows);
    ScoresInUnitInterval(ss);
    var ks := ScoreAll(ss);
    forall i | 0 <= i < |ks| ensures 0.0 <= ks[i].avgLead {
      assert ks[i].avgLead == ss[i].leadTime;
      assert ValidSummary(ss[i]);
    }
    MeansInBounds(ks);
  }

  lemma {:induction false} MeansInBounds(ks: seq<Kpi>)
    requires forall i :: 0 <= i < |ks| ==>
      && 0.0 <= ks[i].onTimeRate <= 1.0
      && 0.0 <= ks[i].quality <= 1.0
      && 0.0 <= ks[i].compliance <= 1.0
      && 0.0 <= ks[i].avgLead
    ensures var r := Figures(ks);
      && 0.0 <= r.onTimeRate <= 1.0
      && 0.0 <= r.quality <= 1.0
      && 0.0 <= r.compliance <= 1.0
      && 0.0 <= r.avgLead
  {
    if ks != [] {
      forall i | 0 <= i < |ks|
        ensures 0.0 <= KpiOnTimeRate(ks[i]) <= 1.0 && 0.0 <= KpiQuality(ks[i]) <= 1.0
        ensures 0.0 <= KpiCompliance(ks[i]) <= 1.0 && 0.0 <= KpiAvgLead(ks[i])
      {
      }
      MeanBounded(ks, KpiOnTimeRate, 0.0, 1.0);
      MeanBounded(ks, KpiQuality, 0.0, 1.0);
      MeanBounded(ks, KpiCompliance, 0.0, 1.0);
      SumNonNegative(ks, KpiAvgLead);
      MeanNonNegative(Mean(ks, KpiAvgLead), Sum(ks, KpiAvgLead), |ks|);
    }
  }

  /** A mean of values in [lo, hi] lies in [lo, hi]. */
  lemma MeanBounded(ks: seq<Kpi>, f: Kpi -> real, lo: real, hi: real)
    requires ks != []
    requires forall i :: 0 <= i < |ks| ==> lo <= f(ks[i]) <= hi
    ensures lo <= Mean(ks, f) <= hi
  {
    SumBounds(ks, f, lo, hi);
    MeanInBounds(Mean(ks, f), Sum(ks, f), |ks|, lo, hi);
  }
}
