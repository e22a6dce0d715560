/** The Filter Engine: `filter_data` and the inline copy of it in `main`. */
module Filter {
  import opened Wrappers
  import opened Seqs
  import opened Records

  /** The sidebar value that switches a category or region test off. */
  const ALL := "All"

  /** An inclusive date window. */
  datatype DateRange = DateRange(start: int, end: int)

  /** `filter_data` reads the Date column unconditionally; pandas raises a
      KeyError when it is absent. */
  datatype FilterError = MissingColumn(name: string)

  predicate InRange(d: DateRange, row: Row)
  {
    d.start <= row.date <= d.end
  }

  /** The category test: switched off by "All" or by an absent column. */
  predicate CategoryPasses(t: Table, category: string, row: Row)
  {
    category == ALL || !t.hasCategory || row.category == category
  }

  predicate RegionPasses(t: Table, region: string, row: Row)
  {
    region == ALL || !t.hasRegion || row.region == region
  }

  /** The mask `filter_data` builds. */
  predicate Keep(t: Table, d: DateRange, category: string, region: string, row: Row)
  {
    InRange(d, row) && CategoryPasses(t, category, row) && RegionPasses(t, region, row)
  }

  /** `filter_data`: the rows whose date lies in `d` and that pass the
      category and region tests, in their original order. */
  function FilterData(t: Table, d: DateRange, category: string, region: string): (r: Result<Table, FilterError>)
    ensures r.Failure? <==> !t.hasDate
    ensures r.Failure? ==> r.error == MissingColumn("Date")
    ensures r.Success? ==>
      && r.value.hasDate == t.hasDate && r.value.hasCategory == t.hasCategory && r.value.hasRegion == t.hasRegion
      && IsSubsequence(r.value.rows, t.rows)
      && (forall row :: row in r.value.rows <==>
            row in t.rows && d.start <= row.date <= d.end
            && (category == ALL || !t.hasCategory || row.category == category)
            && (region == ALL || !t.hasRegion || row.region == region))
      && (forall row :: row in r.value.rows ==> multiset(r.value.rows)[row] == multiset(t.rows)[row])
  {
    if !t.hasDate then Failure(MissingColumn("Date"))
    else
      SelectSpec(t.rows, row => Keep(t, d, category, region, row));
      Success(t.(rows := Select(t.rows, row => Keep(t, d, category, region, row))))
  }

  /** The date test of `main`: skipped when no range was chosen or the frame
      has no Date column. */
  predicate DatePasses(t: Table, d: Option<DateRange>, row: Row)
  {
    d.None? || !t.hasDate || InRange(d.value, row)
  }

  predicate Passes(t: Table, d: Option<DateRange>, category: string, region: string, row: Row)
  {
    DatePasses(t, d, row) && CategoryPasses(t, category, row) && RegionPasses(t, region, row)
  }

  /** The date step of `main`'s filter block. */
  function ByDate(t: Table, d: Option<DateRange>): (r: Table)
    ensures r.hasDate == t.hasDate && r.hasCategory == t.hasCategory && r.hasRegion == t.hasRegion
    ensures r.rows == Select(t.rows, row => DatePasses(t, d, row))
  {
    if d.Some? && t.hasDate then
      SelectCongruent(t.rows, row => InRange(d.value, row), row => DatePasses(t, d, row));
      t.(rows := Select(t.rows, row => InRange(d.value, row)))
    else
      SelectAll(t.rows, row => DatePasses(t, d, row));
      t
  }

  /** The category step of `main`'s filter block. */
  function ByCategory(t: Table, category: string): (r: Table)
    ensures r.hasDate == t.hasDate && r.hasCategory == t.hasCategory && r.hasRegion == t.hasRegion
    ensures r.rows == Select(t.rows, row => CategoryPasses(t, category, row))
  {
    if category != ALL && t.hasCategory then
      SelectCongruent(t.rows, (row: Row) => row.category == category, row => CategoryPasses(t, category, row));
      t.(rows := Select(t.rows, (row: Row) => row.category == category))
    else
      SelectAll(t.rows, row => CategoryPasses(t, category, row));
      t
  }

  /** The region step of `main`'s filter block. */
  function ByRegion(t: Table, region: string): (r: Table)
    ensures r.hasDate == t.hasDate && r.hasCategory == t.hasCategory && r.hasRegion == t.hasRegion
    ensures r.rows == Select(t.rows, row => RegionPasses(t, region, row))
  {
    if region != ALL && t.hasRegion then
      SelectCongruent(t.rows, (row: Row) => row.region == region, row => RegionPasses(t, region, row));
      t.(rows := Select(t.rows, (row: Row) => row.region == region))
    else
      SelectAll(t.rows, row => RegionPasses(t, region, row));
      t
  }

  /** The filter block of `main`: the three steps in turn. The result is the
      single mask `Passes` applied once. */
  function FilterInline(t: Table, d: Option<DateRange>, category: string, region: string): (r: Table)
    ensures r.hasDate == t.hasDate && r.hasCategory == t.hasCategory && r.hasRegion == t.hasRegion
    ensures r.rows == Select(t.rows, row => Passes(t, d, category, region, row))
  {
    var byDate := ByDate(t, d);
    var byCategory := ByCategory(byDate, category);
    StepsCompose(t, d, category, region);
    ByRegion(byCategory, region)
  }

  lemma StepsCompose(t: Table, d: Option<DateRange>, category: string, region: string)
    ensures ByRegion(ByCategory(ByDate(t, d), category), region).rows == Select(t.rows, row => Passes(t, d, category, region, row))
  {
    var dateTest := row => DatePasses(t, d, row);
    var catTest := row => CategoryPasses(t, category, row);
    var regTest := row => RegionPasses(t, region, row);
    var dateAndCategory := row => DatePasses(t, d, row) && CategoryPasses(t, category, row);
    var all := row => Passes(t, d, category, region, row);
    var byDate := ByDate(t, d);
    assert byDate.rows == Select(t.rows, dateTest);
    var byCategory := ByCategory(byDate, category);
    assert byCategory.rows == Select(byDate.rows, catTest) by {
      SelectCongruent(byDate.rows, row => CategoryPasses(byDate, category, row), catTest);
    }
    assert byCategory.rows == Select(t.rows, dateAndCategory) by {
      SelectSelect(t.rows, dateTest, catTest, dateAndCategory);
    }
    var byRegion := ByRegion(byCategory, region);
    assert byRegion.rows == Select(byCategory.rows, regTest) by {
      SelectCongruent(byCategory.rows, row => RegionPasses(byCategory, region, row), regTest);
    }
    SelectSelect(t.rows, dateAndCategory, regTest, all);
  }

  /** Filtering an already filtered frame with the same selection changes nothing. */
  lemma FilterDataIdempotent(t: Table, d: DateRange, category: string, region: string)
    requires FilterData(t, d, category, region).Success?
    ensures FilterData(FilterData(t, d, category, region).value, d, category, region) == FilterData(t, d, category, region)
  {
    var once := FilterData(t, d, category, region).value;
    SelectIdempotent(t.rows, row => Keep(t, d, category, region, row));
    SelectCongruent(once.rows, row => Keep(once, d, category, region, row), row => Keep(t, d, category, region, row));
  }

  lemma FilterInlineIdempotent(t: Table, d: Option<DateRange>, category: string, region: string)
    ensures FilterInline(FilterInline(t, d, category, region), d, category, region) == FilterInline(t, d, category, region)
  {
    var once := FilterInline(t, d, category, region);
    SelectIdempotent(t.rows, row => Passes(t, d, category, region, row));
    SelectCongruent(once.rows, row => Passes(once, d, category, region, row), row => Passes(t, d, category, region, row));
  }

  /** On a frame with a Date column and a chosen range, the inline filter of
      `main` and `filter_data` return the same frame. */
  lemma FilterInlineAgreesWithFilterData(t: Table, d: DateRange, category: string, region: string)
    requires t.hasDate
    ensures FilterData(t, d, category, region) == Success(FilterInline(t, Some(d), category, region))
  {
    SelectCongruent(t.rows, row => Keep(t, d, category, region, row), row => Passes(t, Some(d), category, region, row));
  }

  /** "All", or a missing column, passes every row: `filter_data` then keeps
      exactly the rows of the date window, and without a date range the
      inline filter of `main` keeps the whole frame. */
  lemma UnselectedTestsPassEverything(t: Table, d: DateRange, category: string, region: string)
    requires category == ALL || !t.hasCategory
    requires region == ALL || !t.hasRegion
    ensures t.hasDate ==> FilterData(t, d, category, region) == Success(t.(rows := Select(t.rows, row => InRange(d, row))))
    ensures FilterInline(t, None, category, region) == t
  {
    SelectCongruent(t.rows, row => Keep(t, d, category, region, row), row => InRange(d, row));
    SelectAll(t.rows, row => Passes(t, None, category, region, row));
  }
}
