# Skill Half-Life dashboard: the filter-then-aggregate core

The Streamlit dashboard "Skill Half-Life in the Age of AI" loads a table of
skill records once. On every interaction it recomputes a filtered view of
that table and some aggregates over it: four KPI tiles, per-category and
per-learning-mode mean half-lives, and an industry × exposure-band count
table. This project models that computation in Dafny as pure functions
over a `seq<Record>` and proves properties about them. It leaves out the
page layout, the widgets and the Plotly charts.

Modules, in dependency order:

- `Wrappers`: `Option`. `None` stands for pandas' NaN ("no data"), the
  mean of an empty column.
- `Frames`: `Where`, the boolean-mask selection `df[mask]`. It keeps the
  matching rows in their original order and with their multiplicity. The
  module holds the generic facts about it: subsequence, multiplicity,
  idempotence, concatenation, monotonicity.
- `Stats`: `Sum`, `Min`, `Max` and `Mean` over mathematical reals.
- `Ordering`: Python's string order (lexicographic on code points) and
  `SortedKeys`. `groupby` uses this order to emit its keys with its
  default `sort=True`.
- `Skills`: the record, the sidebar `Selection` and `Filter`. A row is kept
  iff its category is selected, its industry is selected and
  `lo <= exposure <= hi`. Both ends are inclusive, as in pandas'
  `between`.
- `Kpis`: the mean half-life and the mean reskilling interval, the
  percentage of rows with exposure `> 70`, and the number of rows with
  risk `> 70`. The percentage is modelled as the code computes it: the
  mean of the 0/1 comparison column, times 100.
- `Banding`: `pd.cut` with edges `[0, 40, 70, 100]`. With the default
  `right=True` and `include_lowest=False` the bins are (0,40] Low,
  (40,70] Medium and (70,100] High. Anything else, 0 included, gets no band.
- `Groups`: group keys, group members, the group means of half-life
  (by category and by learning mode), and the proof that the groups
  partition the view.
- `CrossTab`: the count of rows per observed (industry, band) pair. Rows
  without a band are not counted. Rows come out ascending by industry, then
  by band.
- `Scenario`: a worked three-row example of the pipeline.

## Model

| member | source | states |
|---|---|---|
| `Frames.Where` | app.py:49-53 | the boolean-mask selection: no longer than the table, and a row is in it iff it is in the table and satisfies the mask |
| `Frames.WhereIsSubsequence` | app.py:49-53 | the selection is a subsequence of the table (original row order kept) |
| `Frames.WhereMultiplicity` | app.py:49-53 | each row satisfying the mask occurs in the selection as often as in the table; every other row occurs zero times |
| `Frames.WhereIdempotent` | app.py:49-53 | selecting again with the same mask returns the same selection |
| `Frames.WhereAppend` | app.py:49-53 | the selection of a concatenation is the concatenation of the selections |
| `Frames.WhereMonotone` | app.py:65 | a weaker mask selects at least as many rows |
| `Skills.Filter` | app.py:49-53 | the view is no longer than the table; a row is in it iff it is in the table, its category is selected, its industry is selected and lo <= exposure <= hi (both inclusive) |
| `Skills.FilterIsSubsequence` | app.py:49-53 | the view keeps the table's row order (it is a subsequence) |
| `Skills.FilterMultiplicity` | app.py:49-53 | a matching row is kept with its full multiplicity, and a non-matching row is dropped |
| `Skills.FilterIdempotent` | app.py:49-53 | filtering the view again with the same selection returns it unchanged |
| `Skills.FilterAppend` | app.py:49-53 | filtering distributes over concatenation of tables |
| `Skills.FilterEmptySelection` | app.py:49-53 | no category selected, no industry selected, or lo > hi: the view is empty |
| `Skills.FilterSelectAll` | app.py:30-53 | a selection that every row matches (the widgets' defaults) keeps the whole table |
| `Stats.Mean` | app.py:62 | None iff the column is empty; otherwise between the column's minimum and maximum |
| `Stats.SumAtLeast` | app.py:62 | n values each >= m sum to at least n*m |
| `Stats.SumAtMost` | app.py:62 | n values each <= m sum to at most n*m |
| `Kpis.MeanHalfLife` | app.py:62 | "no data" iff the view is empty; otherwise some row's half-life is <= the mean and some row's is >= it |
| `Kpis.MeanReskilling` | app.py:73 | "no data" iff the view is empty; otherwise the mean lies between two rows' reskilling intervals |
| `Kpis.SumIndicators` | app.py:65 | the 0/1 comparison column sums to the number of rows that satisfy the comparison |
| `Kpis.ExposureSharePct` | app.py:65 | "no data" iff the view is empty; otherwise a percentage in [0, 100] |
| `Kpis.ExposureSharePctIsRatio` | app.py:65 | on a non-empty view the percentage equals 100 × (rows with exposure > t) / (rows) |
| `Kpis.ExposureSharePctMonotone` | app.py:65 | raising the threshold never increases the percentage |
| `Kpis.HighExposurePct` | app.py:65 | the "High AI-Exposure Skills (%)" tile: "no data" iff the view is empty; otherwise in [0, 100] and equal to 100 × (rows with exposure > 70) / (rows), via `ExposureSharePctIsRatio` at t = 70 |
| `Kpis.ExposureAboveMonotone` | app.py:65 | raising the threshold never adds rows above it |
| `Kpis.RiskAboveCount` | app.py:76 | the risk count is at most the view length |
| `Kpis.RiskAboveCountStep` | app.py:76 | the count is 0 on an empty view and goes up by one exactly for each added row with risk strictly above the threshold (a row at 70 is not counted) |
| `Kpis.HighRiskCount` | app.py:76 | the "High Automation-Risk Skills" tile: at most the view length, and 0 iff no row's risk exceeds 70; `RiskAboveCountStep` at t = 70 gives its exact value |
| `Kpis.Kpis` | app.py:58-80 | the KPI row: each mean and the percentage is "no data" iff the view is empty, the percentage is in [0, 100], and the count is at most the view length and 0 iff no row's risk exceeds 70 |
| `Kpis.RiskAboveCountMonotone` | app.py:76 | raising the threshold never increases the count |
| `Kpis.EmptySelectionNoData` | app.py:49-76 | an empty category or industry selection gives an empty view; both means and the percentage report no data and the count is 0 |
| `Banding.Cut` | app.py:151-155 | `pd.cut` with strictly increasing edges and right-closed bins: a returned index i has edges[i] < x <= edges[i+1]; None means x lies in no bin |
| `Banding.CutUnique` | app.py:151-155 | with increasing edges the bin holding x is unique, and it is the one Cut returns |
| `Banding.BandOf` | app.py:151-155 | Low iff 0 < x <= 40, Medium iff 40 < x <= 70, High iff 70 < x <= 100, no band iff x <= 0 or x > 100 |
| `Banding.BandBoundaries` | app.py:151-155 | 40 is Low, 40.5 and 41 are Medium, 70 is Medium, 70.5 and 100 are High, and 0, -5 and 100.5 get no band; 30 is Low, 50 Medium and 80 High |
| `Ordering.StrLtTransitive` | app.py:91 | the key order is transitive |
| `Ordering.StrLtTotal` | app.py:91 | any two different keys are ordered one way or the other |
| `Ordering.SortedKeys` | app.py:91 | the distinct values of a column, strictly ascending, with exactly the column's values |
| `Groups.Group` | app.py:91-92 | a group holds exactly the view's rows with that key |
| `Groups.GroupKeys` | app.py:91-92 | the group keys are strictly ascending, and a key is listed iff some row of the view has it |
| `Groups.GroupMeanOf` | app.py:91-92 | a key that occurs has a non-empty group, and its mean half-life lies between the group's minimum and maximum |
| `Groups.GroupMeans` | app.py:91-92 | one row per group key, in key order, each with a non-empty group and a mean within that group's range |
| `Groups.MeanHalfLifeByCategory` | app.py:91-92 | the "by Category" bars: keys strictly ascending, a key is listed iff some row of the view has that category, and each bar's mean lies within its non-empty group's half-life range |
| `Groups.MeanHalfLifeByLearningMode` | app.py:177-178 | the "Learning Mode" bars: keys strictly ascending, a key is listed iff some row of the view has that learning mode, and each bar's mean lies within its non-empty group's half-life range |
| `Groups.GroupSizesPartition` | app.py:91-92 | for distinct keys that cover every row, the group sizes sum to the number of rows |
| `Groups.GroupsPartitionView` | app.py:177-178 | the sizes of the groupby's groups sum to the view length |
| `Groups.RowInOneGroup` | app.py:177-178 | each row of the view is in one group and in no two |
| `CrossTab.BandedRows` | app.py:157-161 | the rows that keep a band key are exactly those with 0 < exposure <= 100 |
| `CrossTab.CellCount` | app.py:159-160 | the size of one (industry, band) group, at most the view length; it is the reference count `CrossTab` is tied to |
| `CrossTab.CellCountPositive` | app.py:159-160 | a cell's count is positive iff some row of the view has that industry and that band |
| `CrossTab.IndustryRows` | app.py:157-161 | an industry's rows carry that industry and its positive cell counts, in band order Low < Medium < High |
| `CrossTab.CrossTab` | app.py:157-162 | every row's count is the number of view rows in that (industry, band) cell, and it is positive; rows are strictly ascending by (industry, band), so no pair appears twice |
| `CrossTab.CrossTabComplete` | app.py:157-162 | every (industry, band) pair that occurs in the view has its row |
| `CrossTab.CellsOfIndustry` | app.py:157-161 | an industry's Low, Medium and High counts add up to its number of banded rows |
| `CrossTab.CrossTabTotal` | app.py:157-162 | the counts sum to the number of view rows that have a band |
| `Scenario.FullRangeScenario` | app.py:49-76 | three rows, everything selected, range [0, 100]: the view is the table, its mean half-life is 8/3, the high-exposure share is 200/3 % and two rows are high-risk |
| `Scenario.NarrowRangeScenario` | app.py:49-76 | the same rows with range [0, 50]: only the second row remains, its mean half-life is 5, and no row is high-risk |
| `Scenario.NarrowView` | app.py:49-53 | the range [0, 50] keeps only the row with exposure 30 |
| `Scenario.SecondRowKpis` | app.py:62-76 | the one-row view has mean half-life 5 and high-risk count 0 |
| `Scenario.ThreeRowMeanHalfLife` | app.py:62 | half-lives 2, 5 and 1 have mean 8/3 |
| `Scenario.ThreeRowHighExposure` | app.py:65 | exposures 80, 30 and 90 give a high-exposure share of 200/3 % |
| `Scenario.ThreeRowHighRisk` | app.py:76 | risks 75, 20 and 90 give two high-risk rows |

## Left out

- Page configuration, title, caption, sidebar widgets, columns, metric tiles and dividers (app.py:8-14, 28-47, 58-87): these are UI. The model takes the selected lists and the slider's integer `(lo, hi)` as a `Selection`.
- The slider's bounds and default, `int(min)`, `int(max)` and `(0, 100)` (app.py:44-46), belong to the widget.
- The order of the widget options from `unique()` (app.py:32-39) only affects the UI.
- CSV loading and `@st.cache_data` (app.py:19-23) are file I/O and framework caching. The table is passed in as a sequence.
- `round(..., 1)` and the `%` formatting (app.py:62, 68, 73) only affect display.
- All Plotly calls (app.py:90-184) are rendering. This includes the histogram's `nbins=10`, which only hints at Plotly's own bin choice.
- The cross-tab's zero-count rows: pandas 2 with `observed=False` also emits every unobserved (industry, band) pair with count 0. Whether it does depends on the pandas version. The model lists only observed pairs and states their counts.
- Floating point and NaN: numeric columns are mathematical reals. Missing values in the CSV, and NaN keys that `groupby` would drop, are not modelled. A row without a band is the only missing key the model has.
- Banding.Cut: `pd.cut` raises `ValueError` when the edges do not strictly increase. The model requires strictly increasing edges instead of modelling that error, because the dashboard only passes the constant edges `[0, 40, 70, 100]`.
- Stats.Mean: its contract states the mean's range, not the formula Sum/n, which is its definition. Contracts that multiply by the row count put nonlinear real arithmetic into every later proof, so that relation is proved where it is needed, in Kpis.ExposureSharePctIsRatio.
- Kpis.MeanHalfLife: bounded by the view's half-lives rather than equated to Sum/n, for the same reason.
- Kpis.MeanReskilling: bounded by the view's reskilling intervals rather than equated to Sum/n, for the same reason.
