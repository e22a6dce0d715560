# Vendor performance analytics: the computation core in Dafny

This project models the computation core of the vendor performance dashboard
(`vendor_analytics_app.py`): the pipeline that turns a table of vendor-period
observations into per-vendor KPIs, a leaderboard and five summary figures.
Everything is a pure function over values, as in the source, where no stage
mutates its input and the core has no loops.

- **Filter** (`filter.dfy`, module `Filter`): `filter_data` and the filter
  block of `main`. Rows are kept when their date lies in an inclusive window
  and they pass the category and region tests. A test is switched off by the
  value `"All"` or by the absence of its column. Dates are integer day
  indices. Column presence is a flag on the table.
- **Aggregator and Scorer** (`aggregate.dfy` and `score.dfy`, modules
  `Aggregation` and `Score`): `calculate_kpis`. It groups rows by vendor, in
  ascending vendor order as pandas `groupby` does. It sums five columns,
  averages two, and takes the first row's category and region. It then derives
  the on-time rate, the quality score, the compliance rate and the weighted
  overall score. The lead-time term is normalised by the table's largest mean
  lead time. Sums, means and ratios are exact `real`s.
- **Leaderboard** (`leaderboard.dfy`, module `Ranking`): `get_leaderboard`.
  `nlargest` and `nsmallest` with `keep='first'` are modelled as a stable sort
  on a key followed by taking a prefix. The bottom rows are the top rows of the
  negated score. Tied rows keep table order for every `n`; see "Left out" for
  the case `n >= rows`.
- **Column remapper** (`remap.dfy`, module `Remap`): `remap_df` over a table
  modelled as a map from column name to column.
- **Summary figures** (`dashboard.dfy`, module `Dashboard`): the five KPIs of
  the summary panel, each 0 on an empty KPI table.
- Shared pieces: `wrappers.dfy` (`Option`, `Result`), `seqs.dfy` (order-keeping
  selection `Select`, sums over a column, their lemmas), `lex.dfy` (Python's
  ordering of strings, sorted key lists) and `records.dfy` (the row and table
  types and the row invariants).

The source and its design notes differ in places. The model follows the source:

- Grouping sorts vendors by name. It does not keep them in first-appearance order.
- Divisions are unguarded. They become preconditions (`Score.Scorable`), not sentinels.
- Missing columns raise `KeyError`: the Date column in `filter_data`, Category or
  Region in `calculate_kpis`, a mapped column in `remap_df`. They are modelled
  as `Failure` results.
- The top and bottom lists are guaranteed disjoint for `2 n` or more rows when
  scores are pairwise distinct (`Ranking.LeaderboardDisjoint`), and together
  cover a table of at most `2 n` such rows (`Ranking.LeaderboardCovers`), so
  their union has min(2 n, rows) rows. With ties they can overlap
  (`Ranking.TiedScoresShareRows`).

## Model

| member | source | states |
|---|---|---|
| Filter.FilterData | vendor_analytics_app.py:97-109 | fails exactly when the Date column is absent, naming it; otherwise the result is an order-preserving subsequence of the rows and a row is kept iff start <= date <= end (both inclusive) and it passes the category and region tests ("All" or an absent column passes); kept rows keep their multiplicity; column flags unchanged |
| Filter.ByDate | vendor_analytics_app.py:224-227 | the date step keeps the rows in the window, or every row when no range is given or the frame has no Date column |
| Filter.ByCategory | vendor_analytics_app.py:228-229 | the category step keeps the rows of the chosen category, or every row for "All" or an absent column |
| Filter.ByRegion | vendor_analytics_app.py:230-231 | the region step, as for category |
| Filter.FilterInline | vendor_analytics_app.py:222-231 | the three successive steps of `main` equal one selection by the conjunction of the three tests over the original frame (proved by `Filter.StepsCompose`) |
| Filter.FilterDataIdempotent | vendor_analytics_app.py:104-109 | filtering the filtered frame again with the same selection returns the same frame |
| Filter.FilterInlineIdempotent | vendor_analytics_app.py:222-231 | the inline filter applied twice equals it applied once |
| Filter.FilterInlineAgreesWithFilterData | vendor_analytics_app.py:224-231 | with a Date column and a chosen range, the inline filter of `main` and `filter_data` return the same frame |
| Filter.UnselectedTestsPassEverything | vendor_analytics_app.py:105-108 | with "All" or absent columns, `filter_data` keeps exactly the rows of the date window, and the inline filter without a range keeps the whole frame |
| Aggregation.VendorsOf | vendor_analytics_app.py:70 | the group keys: strictly ascending in Python string order, and a vendor is listed iff some row has it |
| Aggregation.Summarize | vendor_analytics_app.py:70-79 | the grouped row of one vendor, labelled with that vendor; its values are stated by `Aggregation.SummarizeTotals` |
| Aggregation.SummarizeTotals | vendor_analytics_app.py:70-79 | over the whole frame: each of the five sums is its column summed with other vendors' rows counted as zero; the Compliant and LeadTime means are such sums divided by the vendor's row count, which is positive; Category and Region are those of the vendor's first row |
| Aggregation.Aggregate | vendor_analytics_app.py:70-80 | one grouped row per distinct vendor, vendors strictly ascending, each the grouped row of its vendor's rows; empty input gives empty output |
| Aggregation.SummarizeSingleRow | vendor_analytics_app.py:70-80 | a vendor with exactly one row gets that row's values as its sums and means, and its category and region |
| Aggregation.FirstObservedCategoryAndRegion | vendor_analytics_app.py:78-79 | a vendor's category and region are those of its first row in input order |
| Aggregation.AggregatePermutationInvariant | vendor_analytics_app.py:70-77 | permuting the input rows leaves the vendor list and every sum and mean unchanged |
| Aggregation.AggregatePreservesTotalSpend | vendor_analytics_app.py:75 | the vendors' summed spends add up to the spend of all rows |
| Score.MaxLead | vendor_analytics_app.py:90 | the largest mean lead time: no grouped row exceeds it and some row attains it |
| Score.ScoreOne | vendor_analytics_app.py:81-91 | on-time rate times total deliveries is the on-time count; (1 - quality) times units is the defect count; compliance and average lead time are the means; overall = 0.3 rate + 0.3 quality + 0.2 compliance + 0.2 (1 - lead / max lead) |
| Score.ScoreEach | vendor_analytics_app.py:81-91 | one KPI row per grouped row, in order, every one scored against the same largest lead time |
| Score.ScoreAll | vendor_analytics_app.py:81-91 | one KPI row per grouped row, each scored against the largest mean lead time of the whole table |
| Score.Kpis | vendor_analytics_app.py:66-92 | one KPI row per vendor, in ascending vendor order, each over the grouped row of that vendor; row i holds the i-th grouped row and its derived columns are `ScoreOne` of it against the table's largest mean lead time; empty rows give an empty table |
| Score.CalculateKpis | vendor_analytics_app.py:70-80 | fails exactly when the Category or Region column is absent, naming the missing ones; otherwise returns the KPI table |
| Score.SummaryOfValidRowsIsValid | vendor_analytics_app.py:70-77 | grouped rows of valid rows keep on-time <= total, defects <= units, compliance in [0, 1] and a non-negative lead time |
| Score.AggregateValid | vendor_analytics_app.py:70-80 | every grouped row of valid rows is valid |
| Score.ScoresInUnitInterval | vendor_analytics_app.py:81-91 | on valid grouped rows, on-time rate, quality, compliance and overall score all lie in [0, 1] |
| Score.SlowestVendorLeadTermIsZero | vendor_analytics_app.py:90 | the vendor with the largest mean lead time gets a lead-time term of 0 |
| Score.ScenarioAggregate | vendor_analytics_app.py:70-80 | three one-row vendors group into three rows V1, V2, V3 with their own sums |
| Score.ScenarioScores | vendor_analytics_app.py:81-91 | those three rows score on-time rates 1, 0.5, 0.8, quality 1, 0.95, 0.98 and overall 0.96, 0.535, 0.734 |
| Score.ThreeVendorScenario | vendor_analytics_app.py:66-92 | end to end, the three-vendor table ranks V1 > V3 > V2 |
| Ranking.SortByKey | vendor_analytics_app.py:136-137 | the sort returns a permutation of its input: same length, same multiset of rows |
| Ranking.SortDescending | vendor_analytics_app.py:136 | the stable sort is in descending key order |
| Ranking.SortStable | vendor_analytics_app.py:136 | the sort keeps rows of equal key in table order |
| Ranking.Largest | vendor_analytics_app.py:136-137 | `nlargest(n)` returns min(n, rows) rows of the table (a sub-multiset), none for n <= 0, in descending key order |
| Ranking.LargestDominates | vendor_analytics_app.py:136 | no row left out has a larger key than a row kept |
| Ranking.LargestKeepsFirst | vendor_analytics_app.py:136 | among rows of equal key, the kept ones are the earliest of the table, in order |
| Ranking.Leaderboard | vendor_analytics_app.py:135-138 | top and bottom each have min(n, rows) rows of the table, none for n <= 0; top descending, bottom ascending by overall score |
| Ranking.LeaderboardDominates | vendor_analytics_app.py:135-138 | every top score is >= every score left out of the top; every bottom score is <= every score left out of the bottom |
| Ranking.LeaderboardKeepsFirst | vendor_analytics_app.py:135-138 | in both lists, ties are resolved in favour of earlier rows |
| Ranking.LeaderboardDisjoint | vendor_analytics_app.py:135-138 | with pairwise distinct scores and at least 2n rows, no row is in both lists |
| Ranking.LeaderboardCovers | vendor_analytics_app.py:135-138 | with pairwise distinct scores and at most 2n rows, every row is in the top or the bottom list |
| Ranking.TiedScoresShareRows | vendor_analytics_app.py:135-138 | four tied rows of different vendors with n = 2 give the first two rows as both top and bottom |
| Remap.RemapTable | vendor_analytics_app.py:177-184 | fails exactly when a mapped column is missing, naming the missing columns; otherwise the columns are exactly the mapped fields, each holding the column it was mapped to |
| Remap.RemapRoundTrip | vendor_analytics_app.py:182-183 | renaming the result back gives the input restricted to the mapped columns |
| Remap.DefaultMapping | vendor_analytics_app.py:170-174 | the starting mapping covers exactly the required fields |
| Remap.DefaultRemapKeepsRequiredColumns | vendor_analytics_app.py:148-184 | the starting mapping is injective, and remapping with it keeps exactly the required fields the table has, unchanged |
| Dashboard.Figures | vendor_analytics_app.py:248-254 | all five figures are 0 on an empty KPI table; otherwise four are means of their KPI column and total spend is the column's sum |
| Dashboard.TotalSpendOfRows | vendor_analytics_app.py:251 | the total spend shown is the spend of all filtered rows, including when none is left |
| Dashboard.FiguresInBounds | vendor_analytics_app.py:249-253 | on valid rows the mean on-time rate, quality and compliance lie in [0, 1] and the mean lead time is not negative |

## Left out

- The Streamlit layout, sidebar widgets and `st.metric` formatting. These are user interface. Of `get_column_mapping` only the starting mapping is modelled (`Remap.DefaultMapping`).
- The four `plot_*` functions. They are thin Plotly wrappers.
- `load_data` and `export_to_csv`. They are file I/O through pandas and `BytesIO`.
- `generate_sample_data`. Its output is defined by NumPy's seeded random generator and `pd.date_range`.
- Floating point. NaN and infinity from the unguarded divisions, the `.round(3)` of the leaderboard display and int64 overflow of the sums are not modelled. Numbers are exact integers and reals.
- Score.ScoreOne: requires nonzero total deliveries, total units and largest mean lead time, because the source divides by them unguarded (`Score.Scorable`).
- Score.CalculateKpis: only the Category and Region columns may be absent. The Vendor and measure columns are always present in the model.
- pandas' `first` and `mean` skip missing values. Rows here have no missing values.
- Dates are integer day indices. `pd.to_datetime` parsing is not modelled.
- A date range of one element makes `date_range[1]` fail. This is not modelled: a range is a pair or absent.
- Remap.RemapTable: requires an injective mapping. pandas' behaviour with duplicate columns, when two fields name one column, is not modelled.
- Remap.RemapTable: column order is not modelled, because a table is a map.
- Ranking.LeaderboardDisjoint: proved only for pairwise distinct scores, because with ties the source's lists can overlap (`Ranking.TiedScoresShareRows`).
- Ranking.LargestKeepsFirst: tied rows are kept in table order for every `n`. pandas sorts with a stable mergesort only when `n` is smaller than the number of rows. For larger `n` it falls back to `sort_values` with its default sort kind, so the order of tied rows is not promised there. pandas' code is not part of this model.
- Ranking.LeaderboardKeepsFirst: when `n` is at least the number of rows, both lists order tied rows by the model's stable sort. pandas does not promise that order there, as the previous line explains.
- Aggregation.AggregatePermutationInvariant: covers the vendor list, sums and means only. Category and region come from each vendor's first row, so they can change when rows are reordered.
- `get_leaderboard` is modelled for any integer `n`. A non-positive `n` gives empty lists, as pandas does.
