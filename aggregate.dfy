/** The Aggregator: the `groupby('Vendor').agg(...)` step of `calculate_kpis`. */
module Aggregation {
  import opened Seqs
  import opened Lex
  import opened Records

  /** One row of the grouped frame: the five sums, the two means and the
      first Category and Region of the vendor's rows. */
  datatype Summary = Summary(
    vendor: string,
    onTime: real,
    total: real,
    defects: real,
    units: real,
    spend: real,
    compliant: real,
    leadTime: real,
    category: string,
    region: string)

  // The aggregated columns, as numbers.
  function OnTime(r: Row): real { r.onTime as real }
  function Total(r: Row): real { r.total as real }
  function Defects(r: Row): real { r.defects as real }
  function Units(r: Row): real { r.units as real }
  function Spend(r: Row): real { r.spend }
  function Compliant(r: Row): real { r.compliant as real }
  function LeadTime(r: Row): real { r.leadTime }

  predicate HasVendor(rows: seq<Row>, v: string)
  {
    exists i :: 0 <= i < |rows| && rows[i].vendor == v
  }

  /** The rows of vendor `v`, in input order. */
  function Group(rows: seq<Row>, v: string): seq<Row>
  {
    Select(rows, (r: Row) => r.vendor == v)
  }

  lemma GroupSpec(rows: seq<Row>, v: string)
    ensures forall r :: r in Group(rows, v) <==> r in rows && r.vendor == v
    ensures HasVendor(rows, v) <==> Group(rows, v) != []
  {
    SelectSpec(rows, (r: Row) => r.vendor == v);
    var g := Group(rows, v);
    forall i | 0 <= i < |rows| && rows[i].vendor == v ensures g != [] {
      assert rows[i] in g;
    }
    if g != [] {
      assert g[0] in g;
    }
  }

  /** The distinct vendors, ascending: the keys `groupby` emits. */
  function VendorsOf(rows: seq<Row>): (vs: seq<string>)
    ensures StrictlySorted(vs)
    ensures forall v :: v in vs <==> HasVendor(rows, v)
  {
    if rows == [] then []
    else
      var rest := VendorsOf(rows[1..]);
      assert forall v :: HasVendor(rows, v) <==> v == rows[0].vendor || HasVendor(rows[1..], v) by {
        forall v ensures HasVendor(rows, v) ==> v == rows[0].vendor || HasVendor(rows[1..], v) {
          if HasVendor(rows, v) && v != rows[0].vendor {
            var i :| 0 <= i < |rows| && rows[i].vendor == v;
            assert rows[1..][i - 1].vendor == v;
          }
        }
        forall v | HasVendor(rows[1..], v) ensures HasVendor(rows, v) {
          var i :| 0 <= i < |rows[1..]| && rows[1..][i].vendor == v;
          assert rows[i + 1].vendor == v;
        }
      }
      Insert(rows[0].vendor, rest)
  }

  /** The grouped row of vendor `v`: sums of the count and spend columns,
      means of Compliant and LeadTime, Category and Region of the first row. */
  function Summarize(rows: seq<Row>, v: string): (s: Summary)
    requires HasVendor(rows, v)
    ensures s.vendor == v
  {
    GroupSpec(rows, v);
    var g := Group(rows, v);
    var n := |g| as real;
    Summary(v, Sum(g, OnTime), Sum(g, Total), Sum(g, Defects), Sum(g, Units), Sum(g, Spend),
            Sum(g, Compliant) / n, Sum(g, LeadTime) / n, g[0].category, g[0].region)
  }

  /** The grouped row of `v` over the whole frame: each sum is its column
      summed with the other vendors' rows counted as zero, each mean is such
      a sum divided by the vendor's row count, and Category and Region come
      from the vendor's first row. */
  lemma SummarizeTotals(rows: seq<Row>, v: string)
    requires HasVendor(rows, v)
    ensures VendorTotals(rows, Summarize(rows, v))
  {
    GroupTotals(rows, v);
  }

  function One(r: Row): real { 1.0 }

  /** Column `f` with the rows of vendors other than `v` counted as zero. */
  function Masked(v: string, f: Row -> real): Row -> real
  {
    (r: Row) => if r.vendor == v then f(r) else 0.0
  }

  /** `s` holds vendor `s.vendor`'s totals over the whole frame `rows`. */
  predicate VendorTotals(rows: seq<Row>, s: Summary)
  {
    var v := s.vendor;
    var count := Sum(rows, Masked(v, One));
    && HasVendor(rows, v)
    && s.onTime == Sum(rows, Masked(v, OnTime))
    && s.total == Sum(rows, Masked(v, Total))
    && s.defects == Sum(rows, Masked(v, Defects))
    && s.units == Sum(rows, Masked(v, Units))
    && s.spend == Sum(rows, Masked(v, Spend))
    && count > 0.0
    && s.compliant == Sum(rows, Masked(v, Compliant)) / count
    && s.leadTime == Sum(rows, Masked(v, LeadTime)) / count
    && s.category == rows[FirstIndex(rows, v)].category
    && s.region == rows[FirstIndex(rows, v)].region
  }

  /** Summing a column over a vendor's rows is summing it over the whole
      frame with the other vendors' rows counted as zero. */
  lemma {:induction false} GroupSum(rows: seq<Row>, v: string, f: Row -> real)
    ensures Sum(Group(rows, v), f) == Sum(rows, Masked(v, f))
  {
    if rows != [] {
      GroupSum(rows[1..], v, f);
      var g := Group(rows, v);
      assert Masked(v, f)(rows[0]) == if rows[0].vendor == v then f(rows[0]) else 0.0;
      if rows[0].vendor == v {
        assert g == [rows[0]] + Group(rows[1..], v);
        assert g[1..] == Group(rows[1..], v);
      } else {
        assert g == Group(rows[1..], v);
      }
    }
  }

  /** The group of `v` in terms of the whole frame. */
  lemma GroupTotals(rows: seq<Row>, v: string)
    requires HasVendor(rows, v)
    ensures var g := Group(rows, v);
      && g != [] && g[0] == rows[FirstIndex(rows, v)]
      && |g| as real == Sum(rows, Masked(v, One))
      && Sum(g, OnTime) == Sum(rows, Masked(v, OnTime))
      && Sum(g, Total) == Sum(rows, Masked(v, Total))
      && Sum(g, Defects) == Sum(rows, Masked(v, Defects))
      && Sum(g, Units) == Sum(rows, Masked(v, Units))
      && Sum(g, Spend) == Sum(rows, Masked(v, Spend))
      && Sum(g, Compliant) == Sum(rows, Masked(v, Compliant))
      && Sum(g, LeadTime) == Sum(rows, Masked(v, LeadTime))
  {
    var g := Group(rows, v);
    SelectFirst(rows, (r: Row) => r.vendor == v, FirstIndex(rows, v));
    SumBounds(g, One, 1.0, 1.0);
    GroupSum(rows, v, One);
    GroupSum(rows, v, OnTime);
    GroupSum(rows, v, Total);
    GroupSum(rows, v, Defects);
    GroupSum(rows, v, Units);
    GroupSum(rows, v, Spend);
    GroupSum(rows, v, Compliant);
    GroupSum(rows, v, LeadTime);
  }

  function SummarizeEach(rows: seq<Row>, vs: seq<string>): (r: seq<Summary>)
    requires forall v :: v in vs ==> HasVendor(rows, v)
    ensures |r| == |vs|
    ensures forall i :: 0 <= i < |vs| ==> r[i] == Summarize(rows, vs[i])
  {
    if vs == [] then [] else [Summarize(rows, vs[0])] + SummarizeEach(rows, vs[1..])
  }

  /** A vendor with a single row gets that row's values. */
  lemma {:induction false} SummarizeSingleRow(rows: seq<Row>, v: string, k: nat)
    requires k < |rows| && Group(rows, v) == [rows[k]]
    ensures HasVendor(rows, v)
    ensures var r := rows[k];
      Summarize(rows, v) == Summary(v, r.onTime as real, r.total as real, r.defects as real, r.units as real,
                                    r.spend, r.compliant as real, r.leadTime, r.category, r.region)
  {
    GroupSpec(rows, v);
    assert rows[k] in Group(rows, v);
    var r := rows[k];
    SumSingleton(r, OnTime);
    SumSingleton(r, Total);
    SumSingleton(r, Defects);
    SumSingleton(r, Units);
    SumSingleton(r, Spend);
    SumSingleton(r, Compliant);
    SumSingleton(r, LeadTime);
  }

  /** `s` is the grouped row of its vendor: the sums of the vendor's rows,
      the means of their Compliant and LeadTime values, and the Category and
      Region of the first of them. */
  predicate SummaryOf(rows: seq<Row>, s: Summary)
  {
    var g := Group(rows, s.vendor);
    && g != []
    && s.onTime == Sum(g, OnTime) && s.total == Sum(g, Total)
    && s.defects == Sum(g, Defects) && s.units == Sum(g, Units)
    && s.spend == Sum(g, Spend)
    && s.compliant * |g| as real == Sum(g, Compliant)
    && s.leadTime * |g| as real == Sum(g, LeadTime)
    && s.category == g[0].category && s.region == g[0].region
  }

  lemma SummarizeIsSummaryOf(rows: seq<Row>, v: string)
    requires HasVendor(rows, v)
    ensures Summarize(rows, v).vendor == v
    ensures SummaryOf(rows, Summarize(rows, v))
  {
    GroupSpec(rows, v);
    var g := Group(rows, v);
    MeanTimesCount(Sum(g, Compliant), |g| as real);
    MeanTimesCount(Sum(g, LeadTime), |g| as real);
  }

  lemma MeanTimesCount(sum: real, n: real)
    requires n > 0.0
    ensures (sum / n) * n == sum
  {
  }

  /** `df.groupby('Vendor').agg({...}).reset_index()`: one row per distinct
      vendor, in ascending vendor order, each the grouped row of its vendor. */
  function Aggregate(rows: seq<Row>): (r: seq<Summary>)
    ensures rows == [] ==> r == []
    ensures forall i, j :: 0 <= i < j < |r| ==> Less(r[i].vendor, r[j].vendor)
    ensures forall v :: HasVendor(rows, v) <==> exists i :: 0 <= i < |r| && r[i].vendor == v
    ensures forall i :: 0 <= i < |r| ==> SummaryOf(rows, r[i])
  {
    var vs := VendorsOf(rows);
    var r := SummarizeEach(rows, vs);
    forall i | 0 <= i < |r| ensures r[i].vendor == vs[i] && SummaryOf(rows, r[i]) {
      SummarizeIsSummaryOf(rows, vs[i]);
    }
    r
  }

  /** The position of the first row of vendor `v`. */
  function FirstIndex(rows: seq<Row>, v: string): (k: nat)
    requires HasVendor(rows, v)
    ensures k < |rows| && rows[k].vendor == v
    ensures forall j :: 0 <= j < k ==> rows[j].vendor != v
  {
    if rows[0].vendor == v then 0
    else
      var i :| 0 <= i < |rows| && rows[i].vendor == v;
      assert rows[1..][i - 1].vendor == v;
      1 + FirstIndex(rows[1..], v)
  }

  /** pandas' 'first' aggregation: a vendor's Category and Region are those of
      its first row in input order; later rows of the vendor do not matter. */
  lemma FirstObservedCategoryAndRegion(rows: seq<Row>, i: nat)
    requires i < |Aggregate(rows)|
    ensures var s := Aggregate(rows)[i];
      HasVendor(rows, s.vendor)
      && s.category == rows[FirstIndex(rows, s.vendor)].category
      && s.region == rows[FirstIndex(rows, s.vendor)].region
  {
    var s := Aggregate(rows)[i];
    assert HasVendor(rows, s.vendor);
    SelectFirst(rows, (r: Row) => r.vendor == s.vendor, FirstIndex(rows, s.vendor));
  }

  /** Two summaries agree on everything but the first-row columns. */
  predicate SameTotals(s: Summary, t: Summary)
  {
    && s.vendor == t.vendor
    && s.onTime == t.onTime && s.total == t.total
    && s.defects == t.defects && s.units == t.units && s.spend == t.spend
    && s.compliant == t.compliant && s.leadTime == t.leadTime
  }

  lemma GroupPermutation(a: seq<Row>, b: seq<Row>, v: string)
    requires multiset(a) == multiset(b)
    ensures multiset(Group(a, v)) == multiset(Group(b, v))
  {
    SelectSpec(a, (r: Row) => r.vendor == v);
    SelectSpec(b, (r: Row) => r.vendor == v);
  }

  /** Reordering the input rows changes no vendor's sums or means, nor the
      list of vendors. */
  lemma {:induction false} AggregatePermutationInvariant(a: seq<Row>, b: seq<Row>)
    requires multiset(a) == multiset(b)
    ensures |Aggregate(a)| == |Aggregate(b)|
    ensures forall i :: 0 <= i < |Aggregate(a)| ==> SameTotals(Aggregate(a)[i], Aggregate(b)[i])
  {
    forall v ensures HasVendor(a, v) <==> HasVendor(b, v) {
      if HasVendor(a, v) {
        var i :| 0 <= i < |a| && a[i].vendor == v;
        assert a[i] in multiset(b);
        var j :| 0 <= j < |b| && b[j] == a[i];
      }
      if HasVendor(b, v) {
        var i :| 0 <= i < |b| && b[i].vendor == v;
        assert b[i] in multiset(a);
        var j :| 0 <= j < |a| && a[j] == b[i];
      }
    }
    var vs := VendorsOf(a);
    StrictlySortedUnique(vs, VendorsOf(b));
    forall i | 0 <= i < |vs| ensures SameTotals(Aggregate(a)[i], Aggregate(b)[i]) {
      var v := vs[i];
      var ga, gb := Group(a, v), Group(b, v);
      GroupPermutation(a, b, v);
      assert |ga| == |multiset(ga)| == |multiset(gb)| == |gb|;
      SumPermutation(ga, gb, OnTime);
      SumPermutation(ga, gb, Total);
      SumPermutation(ga, gb, Defects);
      SumPermutation(ga, gb, Units);
      SumPermutation(ga, gb, Spend);
      SumPermutation(ga, gb, Compliant);
      SumPermutation(ga, gb, LeadTime);
    }
  }

  /** The sum of column `f` over the groups of the vendors `vs`, in turn. */
  function GroupTotal(rows: seq<Row>, vs: seq<string>, f: Row -> real): real
  {
    if vs == [] then 0.0 else Sum(Group(rows, vs[0]), f) + GroupTotal(rows, vs[1..], f)
  }

  /** Dropping the rows of a vendor that is not in `ws` leaves the groups of `ws` alone. */
  lemma {:induction false} GroupTotalWithout(rows: seq<Row>, v: string, ws: seq<string>, f: Row -> real)
    requires v !in ws
    ensures GroupTotal(Select(rows, (r: Row) => r.vendor != v), ws, f) == GroupTotal(rows, ws, f)
  {
    if ws != [] {
      var w := ws[0];
      SelectSelect(rows, (r: Row) => r.vendor != v, (r: Row) => r.vendor == w, (r: Row) => r.vendor != v && r.vendor == w);
      SelectCongruent(rows, (r: Row) => r.vendor != v && r.vendor == w, (r: Row) => r.vendor == w);
      GroupTotalWithout(rows, v, ws[1..], f);
    }
  }

  /** Summing a column group by group, over a duplicate-free list that covers
      every vendor, gives the column's total. */
  lemma {:induction false} SumByGroups(rows: seq<Row>, vs: seq<string>, f: Row -> real)
    requires forall i :: 0 <= i < |rows| ==> rows[i].vendor in vs
    requires forall i, j :: 0 <= i < j < |vs| ==> vs[i] != vs[j]
    ensures Sum(rows, f) == GroupTotal(rows, vs, f)
    decreases |vs|
  {
    if vs == [] {
      if rows != [] {
        assert false;
      }
    } else {
      var v := vs[0];
      var rest := Select(rows, (r: Row) => r.vendor != v);
      SumSplit(rows, f, (r: Row) => r.vendor == v, (r: Row) => r.vendor != v);
      SelectSpec(rows, (r: Row) => r.vendor != v);
      forall i | 0 <= i < |rest| ensures rest[i].vendor in vs[1..] {
        assert rest[i] in rest;
        var k :| 0 <= k < |vs| && vs[k] == rest[i].vendor;
        assert k != 0;
      }
      forall i, j | 0 <= i < j < |vs[1..]| ensures vs[1..][i] != vs[1..][j] {
        assert vs[i + 1] != vs[j + 1];
      }
      SumByGroups(rest, vs[1..], f);
      forall k | 0 <= k < |vs[1..]| ensures vs[1..][k] != v {
        assert vs[0] != vs[k + 1];
      }
      GroupTotalWithout(rows, v, vs[1..], f);
    }
  }

  function SummarySpend(s: Summary): real { s.spend }

  lemma {:induction false} SummarizeEachSpend(rows: seq<Row>, vs: seq<string>)
    requires forall v :: v in vs ==> HasVendor(rows, v)
    ensures Sum(SummarizeEach(rows, vs), SummarySpend) == GroupTotal(rows, vs, Spend)
  {
    if vs != [] {
      SummarizeEachSpend(rows, vs[1..]);
      assert SummarizeEach(rows, vs)[1..] == SummarizeEach(rows, vs[1..]);
    }
  }

  /** Aggregation neither loses nor double-counts spend: the vendors' spends
      add up to the spend of all the rows. */
  lemma AggregatePreservesTotalSpend(rows: seq<Row>)
    ensures Sum(Aggregate(rows), SummarySpend) == Sum(rows, Spend)
  {
    var vs := VendorsOf(rows);
    forall i | 0 <= i < |rows| ensures rows[i].vendor in vs {
      assert HasVendor(rows, rows[i].vendor);
    }
    forall i, j | 0 <= i < j < |vs| ensures vs[i] != vs[j] {
      LessIrreflexive(vs[i]);
    }
    SumByGroups(rows, vs, Spend);
    SummarizeEachSpend(rows, vs);
  }
}
