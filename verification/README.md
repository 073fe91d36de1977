# SpaceX launch dashboard: selection and aggregation model

This project models the logic of the SpaceX launch-records dashboard
(`spacex-dash-app.py`). The dashboard loads a table of launches, one row per
launch with its launch site, payload mass, launch outcome (`class`: 1 for a
successful launch, 0 for a failed one) and booster version category. It offers two controls:

- a site dropdown, whose value `"ALL"` means every site;
- a payload range slider.

Two callbacks redraw the charts when a control changes:

- the pie callback counts successes and failures for the selected site;
- the scatter callback plots one point per launch at the selected site whose
  payload lies in the selected range.

Every operation is a pure function of the table and the control values. The
model stops at what the callbacks hand to the plotting library: the
selected rows, the class counts with their slice names, the points and the
chart titles. It also covers how the dropdown entries are built from the
table.

Modules:

- `Launches` (`launches.dfy`): the row datatype, the `"ALL"` sentinel, the
  two row predicates (site match and inclusive payload range) and the chart
  title shared by both callbacks.
- `Seqs` (`seqs.dfy`): the order-preserving filter performed by a boolean-mask
  selection of table rows, with the subsequence relation that characterises
  it. Also duplicate-freedom and first-occurrence positions.
- `Selection` (`selection.dfy`): the site selection shared by both callbacks
  and the scatter callback's payload selection.
- `Pie` (`pie.dfy`): the class tally, the relabelling to "Success"/"Fail", the
  pie title and the pie callback.
- `Scatter` (`scatter.dfy`): the points, the scatter title and the scatter
  callback.
- `Dropdown` (`dropdown.dfy`): the distinct sites in order of first appearance
  and the dropdown entries built from them.
- `Dashboard` (`dashboard.dfy`): the site entries of the dropdown, selected
  one after another, pool to exactly the table: every launch once.
- `Scenarios` (`scenarios.dfy`): a six-launch example table worked through the
  pie and scatter callbacks.

Two facts about the callbacks shape the model:

- The scatter callback uses `int(low)` and `int(high)` as given (lines
  89-91). It neither clamps nor swaps them, so an inverted range selects
  nothing (`Selection.SelectScatter`).
- The pie callback receives only the dropdown value. `Pie.GetPieChart` has no
  payload parameter, so the pie cannot depend on the range.

## Model

| member | source | states |
|---|---|---|
| Selection.SelectSite | spacex-dash-app.py:61-66 | "ALL" returns the table unchanged. Any other value yields an order-preserving subsequence of the table holding each row whose site equals the value, as many times as the table does, and no other row. |
| Selection.SelectSiteIsFilter | spacex-dash-app.py:61-65 | Both branches of the site selection equal one order-preserving filter by "every site, or this site". |
| Selection.UnknownSiteSelectsNothing | spacex-dash-app.py:65 | A site that no row carries selects the empty table; it does not fail. |
| Selection.SelectScatter | spacex-dash-app.py:83-91 | A row is plotted iff it is in the table, passes the site selection and has low <= payload <= high. The result keeps table order and multiplicities, and is empty when low > high. |
| Selection.SelectScatterIsConjunction | spacex-dash-app.py:87-91 | Site selection followed by the payload mask equals a single filter by the conjunction of both predicates. |
| Selection.EmptyRangeSelectsNothing | spacex-dash-app.py:89-91 | A range that contains no row's payload selects nothing. |
| Selection.FullRangeKeepsAll | spacex-dash-app.py:83-91 | With "ALL" and a range containing every payload, the scatter keeps the whole table in order. |
| Seqs.Filter | spacex-dash-app.py:65 | A boolean-mask row selection keeps exactly the rows the mask accepts, each as often as in the table, in table order. |
| Seqs.FilterUnique | spacex-dash-app.py:65 | Any order-preserving subsequence holding exactly the accepted rows, with their multiplicities, is the mask selection itself. |
| Seqs.FilterConjunction | spacex-dash-app.py:87-91 | Masking twice equals masking once by the conjunction. |
| Pie.CountClass | spacex-dash-app.py:68 | The count of a class is at most the number of rows, and it is positive iff some row has that class. |
| Pie.CountClassIsFilterSize | spacex-dash-app.py:68 | The count of a class is the length of the rows of that class. |
| Pie.ClassCountsPartition | spacex-dash-app.py:68 | The success and failure counts add up to the number of rows. |
| Pie.ValueCounts | spacex-dash-app.py:68 | The tally has an entry for a class iff that class occurs, and the entry is the number of rows of that class. |
| Pie.Relabel | spacex-dash-app.py:69-70 | Renaming maps class 1 to "Success" and class 0 to "Fail" and keeps every count. No other slice name appears. |
| Pie.PieCounts | spacex-dash-app.py:68-70 | The slices are "Success" and/or "Fail". A slice is present iff its class occurs in the selection, and every present slice is positive. The counts are the class counts and add up to the number of selected rows. |
| Launches.Title | spacex-dash-app.py:62-66 | A title starts with its chart's prefix. After the prefix comes "all sites" when the dropdown value is "ALL", and the value itself otherwise. |
| Launches.TitleIdentifiesSite | spacex-dash-app.py:62-66 | Under one title prefix, two dropdown values give the same title iff they are equal, or are "ALL" and a site named "all sites". |
| Pie.PieTitle | spacex-dash-app.py:62-66 | The pie title is "Launch success counts for all sites" for "ALL" and "Launch success counts for " followed by the value otherwise. |
| Pie.PieTitleIdentifiesSite | spacex-dash-app.py:62-66 | Two dropdown values give the same pie title iff they are equal, or are "ALL" and a site named "all sites". |
| Pie.GetPieChart | spacex-dash-app.py:58-75 | The pie takes only the dropdown value. Its slices are positive, sum to the size of the site selection (the whole table for "ALL"), and are named "Success"/"Fail". The title is the fixed all-sites title or the prefix followed by the site. |
| Pie.SliceCountsSiteAndClass | spacex-dash-app.py:60-70 | The slice for a class counts exactly the rows of the whole table that pass the site selection and have that class. |
| Scatter.ScatterTitle | spacex-dash-app.py:84-88 | The scatter title is "Launch success for all sites" for "ALL" and "Launch success for " followed by the value otherwise. |
| Scatter.ScatterTitleIdentifiesSite | spacex-dash-app.py:84-88 | Two dropdown values give the same scatter title iff they are equal, or are "ALL" and a site named "all sites". |
| Scatter.Plot | spacex-dash-app.py:92-95 | One point per row, in row order, each carrying that row's payload (x), class (y) and booster category (colour). |
| Scatter.GetScatterChart | spacex-dash-app.py:79-97 | There is one point per selected row. Every point's payload lies in [low, high], and an inverted range gives no points. The title is the fixed all-sites title or the prefix followed by the site. |
| Scatter.PointsFollowRows | spacex-dash-app.py:89-95 | Point i is the payload, class and booster of selected row i, and it comes from a table row that passes both selections. |
| Scatter.EveryKeptRowIsPlotted | spacex-dash-app.py:89-95 | Every table row that passes both selections has its point plotted. |
| Dropdown.Unique | spacex-dash-app.py:15 | The distinct sites contain no duplicates, and they are exactly the sites that occur in the table. |
| Dropdown.UniqueInFirstAppearanceOrder | spacex-dash-app.py:15 | The distinct sites are ordered by the position of their first occurrence in the table. |
| Dropdown.UniqueSites | spacex-dash-app.py:15 | A single pass that remembers the sites already seen computes the distinct sites in first-appearance order. |
| Dropdown.DropdownOptions | spacex-dash-app.py:14-17 | The "All Sites"/"ALL" entry comes first. Then there is one entry per distinct site whose label (the field `caption`, since `label` is a Dafny keyword) equals its value. Every table site appears exactly once among these entries, and no other value appears. |
| Dropdown.OptionsInFirstAppearanceOrder | spacex-dash-app.py:14-17 | The site entries follow the order in which the sites first appear in the table. |
| Dropdown.OptionValuesDistinct | spacex-dash-app.py:14-17 | When no site is named "ALL", all entry values, including "ALL", are distinct. |
| Dropdown.BuildDropdownOptions | spacex-dash-app.py:14-17 | Starting from "All Sites" and appending one entry per unique site produces the dropdown entries above. |
| Dashboard.DistinctSitesPoolTable | spacex-dash-app.py:61-65 | For a list of distinct sites (none of them "ALL") that covers every row, the multiset union of the site selections is exactly the table. |
| Dashboard.DistinctSitesPartitionTable | spacex-dash-app.py:61-65 | Selecting each of a list of distinct sites (none of them "ALL") that covers every row selects every row exactly once: the multiset union of the selections is the table, and their sizes sum to the table's size. |
| Dashboard.DropdownSitesPartitionTable | spacex-dash-app.py:14-17 | When no site is named "ALL", the multiset union of the selections of the dropdown's site entries is the whole table, and their sizes sum to the table's size. |
| Scenarios.PieAllSitesOnSixLaunches | spacex-dash-app.py:61-70 | On a table of four site-A launches (3 successes) and two site-B launches (1 success), "ALL" selects 6 rows, giving the pie {Success: 4, Fail: 2}. |
| Scenarios.PieSiteBOnSixLaunches | spacex-dash-app.py:64-70 | On the same table, site "B" selects 2 rows, giving the pie {Success: 1, Fail: 1}. |
| Scenarios.EmptyRangeOnSixLaunches | spacex-dash-app.py:68-91 | On the same table, the range [2000, 2000] plots no point. Counting no rows gives a pie with no slices at all, not zero-count slices. |

## Left out

- Reading the CSV file (line 10) and computing the minimum and maximum
  payload (lines 11-12): file I/O and library calls. The minimum and maximum
  only set the slider's initial position. The table is a parameter of every
  operation.
- The page layout, the callback decorators and serving the app (lines 20-53,
  58-59, 79-81, 101-102): UI and serving glue. The decorators' input lists
  appear only as the parameters of `GetPieChart` and `GetScatterChart`.
- Building the plotly figures (lines 72-74, 92-96): a foreign library. The
  model stops at the counts, slice names, points and titles passed to it.
- Float payloads and the truncation done by `int(...)` on the slider values.
  Payloads and bounds are integers.
- The row order of pandas' `value_counts` output, and the missing labels that
  class values other than 0 and 1 would produce. The tally is a map, and
  `class` is restricted to {0, 1}.
- Columns other than site, payload, class and booster category. The callbacks
  never read them.
- Scatter.GetScatterChart: its contract does not list the points' contents.
  `Scatter.PointsFollowRows` and `Scatter.EveryKeptRowIsPlotted` state them,
  to keep the function's own proof small.
- Dashboard.DropdownSitesPartitionTable: it assumes no site is literally
  named "ALL". Such a site would share its value with the all-sites entry, and
  selecting it would select every row.
- A cleared dropdown. The dropdown is built without `clearable=False`
  (lines 28-34), so a user can clear it and both callbacks then receive
  `None`. Line 65 and line 87 then select no row, and lines 66 and 88 raise a
  `TypeError` when they append `None` to the title prefix, so neither chart
  updates. The model types the dropdown value as a string and does not model
  this error path.
