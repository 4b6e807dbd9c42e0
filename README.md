# Video-game data dashboards: the discrete core

The repository holds three course assignments that explore a video-game sales
and review-score table. It has a React bar chart (assignment 1), a Flask and
Dash PCA/k-means dashboard (assignment 2), and a Flask server with React
parallel-coordinates and MDS views (assignment 3). Most of it is rendering,
plus library calls to pandas, scikit-learn, kneed and D3. This project models
the discrete logic under them and proves what it guarantees:

- **Row cleaning.** Rows holding the `tbd` placeholder are dropped, and rows
  with a missing cell are dropped.
- **Category filter.** For each categorical column in turn, the column is
  converted to text. Its N most frequent values are kept (23 in one server, 15
  in the other). The rows outside that list are dropped, and the list is stored
  under the column's name.
- **Choice of k.** The ten k-means inertia scores for k = 1..10 are scored, and
  the knee detector's elbow is used when it gives one. Otherwise the fallback
  is the first maximum of the second difference, shifted by one.
- **Current-k state.** The third server keeps the current k and the rows'
  cluster labels. `/set_k` refuses a new k, or stores it and relabels the
  rows, or stores it and keeps the old labels when the fit raises.
  `/mse_plot` reports the current k.
- **Top features.** The features are ranked by the squared sums of their PCA
  loadings over the first d components, and the four largest are returned,
  highest first. This appears in both the scatterplot endpoint and the Dash
  dashboard. The dashboard's component count and its cumulative-variance line
  are modelled too.
- **Parallel-coordinates interaction.** This covers the axis order, the
  nearest-axis search at drag end, the splice-based reorder, the legend's
  cluster toggle, the highlight predicate and the per-line value list.
- **Categorical default repair.** In the two categorical parallel-coordinates
  charts, a value that is missing, falsy or outside its axis's categories
  becomes the axis's first category.
- **Bar-chart frequency table.** This is a D3 rollup sorted by count, highest
  first.

Library results enter the model as parameters:

- the inertia of a seeded k-means fit, as a function of k;
- the knee detector, as a function from scores to an optional elbow;
- the cluster labels of a fit, as a function of k;
- the MDS coordinates, as a list of pairs;
- the PCA components and loadings, as rectangular matrices of reals.

Python slicing and indexing, JavaScript's `splice` and `indexOf`, falsiness,
and the unary-plus conversion are written out with their edge cases
(negative and out-of-range indices, -1 for an absent element).

The state the sources update step by step takes imperative form:

- the k-means score loop is a method with a loop;
- the category loop is a method with a loop over a table and a map;
- the nearest-axis search is a method;
- the per-row repair is a method that assigns fields on a copy;
- the third server's globals are the fields of a class.

Each of these is proved against a function or predicate whose properties are
proved as lemmas.

Modules:

- `Wrappers`: Option, Min, Max.
- `Sequences`: subsequence, distinctness, filtering.
- `Sorting`: stable insertion sort by a key, highest first.
- `Frequency`: the rollup and value-count table, and the top-n values.
- `Table`: cells, rows and the row and category filters.
- `Elbow`: the k range, the score loop and the optimal-k rule.
- `Loadings`: squared-loading sums and the top-k index ranking.
- `GamesPca`: the assignment 2 Flask server.
- `PcaDashboard`: the assignment 2 Dash dashboard in `test.py`.
- `MdsFormat`: the MDS payloads.
- `GamesClusters`: the assignment 3 `server.py`.
- `GamesMds`: the assignment 3 `server1.py`.
- `ParallelCoordinates`, `CategoricalPcp`, `CombinedPcp`: the three React charts.
- `BarPlot`: the assignment 1 bar chart.

## Model

| member | source | states |
|---|---|---|
| Table.DropPlaceholderRows | assignment2/server/server.py:17 | the kept rows are a subsequence of the input; a row is kept iff it is an input row with no `tbd` cell; each kept row keeps its multiplicity |
| Table.DropMissingRows | assignment3/server/server.py:18 | the kept rows are a subsequence of the input; a row is kept iff it is an input row with no missing cell; multiplicities are kept |
| Table.HasPlaceholder | assignment2/server/server.py:17 | a row is flagged iff some column of it holds the `tbd` text |
| Table.CleanRows | assignment3/server/server1.py:17-28 | placeholder rows and then missing-value rows removed: a subsequence of the input whose rows are exactly the input rows with neither |
| Table.StringifyColumn | assignment3/server/server.py:32 | the same number of rows, each row with only the named column turned into its text |
| Table.AsText | assignment3/server/server.py:32 | the text of a cell under the string conversion; a text cell keeps its text |
| Table.ColumnText | assignment3/server/server.py:33 | one text per row, the text of that row's cell in the column, in row order |
| Table.KeepIn | assignment3/server/server.py:34 | the membership filter never adds rows (its order and membership facts are Table.KeepInFacts) |
| Table.KeepInFacts | assignment3/server/server.py:34 | the rows kept by the membership filter are a subsequence of the input, and a row is kept iff its column value is on the list |
| Table.FilterStep | assignment3/server/server.py:31-35 | one pass of the category loop takes the loop invariant from i columns to i + 1: keys, lists of bounded length without repeats, membership of every row, subsequence of the converted table, and each stored list equal to its own pass's top values |
| Table.FilteredDone | assignment3/server/server.py:29-35 | after the last pass the invariant yields the loop's results, including that the stored keys are exactly the categorical columns |
| Table.TopCategoryFilter | assignment3/server/server.py:29-35 | the loop over a copy: one list per categorical column, each at most n distinct texts; every remaining row's value in every column is on that column's list; the result is a subsequence of the converted input; with distinct column names, each list is the n most frequent texts of its column in the table its pass saw |
| Frequency.Keys | assignment1/src/components/Barplot.tsx:27-31 | every value of the input, each exactly once, and nothing else |
| Frequency.RollupTotal | assignment1/src/components/Barplot.tsx:27-31 | the rollup's counts add up to the number of rows |
| Frequency.ValueCountsCounts | assignment1/src/components/Barplot.tsx:27-33 | every entry of the sorted table comes from the rollup, and its count is the number of rows carrying its value |
| Frequency.ValueCountsValues | assignment1/src/components/Barplot.tsx:27-33 | a value is in the sorted table iff some row carries it, and no value appears twice |
| Frequency.ValueCountsOrdered | assignment1/src/components/Barplot.tsx:33 | the sorted table's counts sum to the row count and never increase along the table |
| Frequency.ValueCountsSpec | assignment1/src/components/Barplot.tsx:27-33 | the three facts above together: exact counts, each value once, sum equal to the row count, non-increasing order |
| Frequency.TopValues | assignment3/server/server.py:33 | min(n, number of distinct values) values, the first entries of the count-ordered table, most frequent first (Frequency.TopValuesFacts gives distinctness and that nothing left out is more frequent) |
| Frequency.ValueCounts | assignment1/src/components/Barplot.tsx:33 | one entry per distinct value of the input (its counts and order are Frequency.ValueCountsSpec) |
| Frequency.TopValuesFacts | assignment3/server/server.py:33 | the n most frequent values are min(n, number of distinct values) distinct values of the input, and no value left out occurs more often than one kept |
| BarPlot.ColumnValues | assignment1/src/components/Barplot.tsx:30 | one entry per row: the row's field for the column, or an absent value where the row has none |
| BarPlot.BarPlotData | assignment1/src/components/Barplot.tsx:14-41 | nothing is drawn iff the data is empty or no column is chosen; otherwise the bars are the sorted value-count table, the x domain is its value order, and the y top bounds every count and is attained |
| BarPlot.BarPlotSpec | assignment1/src/components/Barplot.tsx:27-41 | each bar's count is the number of rows with its value, every value appears exactly once on the x axis, counts sum to the row count and never increase, and the y top is the first bar's count |
| Elbow.KRange | assignment2/server/server.py:38 | ten values, entry i equal to i + 1 |
| Elbow.InertiaCurve | assignment2/server/server.py:37-43 | ten scores in ascending k, entry i the inertia of the fit with k = i + 1 |
| Elbow.Diff | assignment2/server/server.py:56 | one entry fewer than the input (none for an empty list), entry i the difference of neighbours i + 1 and i |
| Elbow.SecondDiffAt | assignment2/server/server.py:56 | the second difference has two fewer entries, and entry i is s[i] - 2 s[i+1] + s[i+2] |
| Elbow.ArgMax | assignment2/server/server.py:57 | an index of a maximum entry, and the first one: every earlier entry is strictly smaller |
| Elbow.FallbackK | assignment2/server/server.py:55-58 | the fallback k lies in 2..9, and its curvature (second difference at k - 2) is maximal among the eight and strictly larger than every earlier one |
| Elbow.SelectK | assignment2/server/server.py:53-60 | the detector's elbow is returned unchanged when present; otherwise k is in 2..9, its curvature is maximal among the eight, and strictly larger than every earlier one; an elbow in 1..10 or none gives a k in 1..10 |
| Elbow.LinearCurveFallsBackToTwo | assignment2/server/server.py:55-58 | on a straight-line score curve with no elbow every curvature ties at zero, so the fallback picks k = 2 |
| GamesPca.ComputeElbowMethod | assignment2/server/server.py:36-60 | the returned score list has ten entries in ascending k and is the very list the k was selected from; a fallback k lies in 2..9 |
| GamesPca.GetKMeansInfo | assignment2/server/server.py:62-78 | the response carries the k selected from its own score list, the ten scores, the column names and the requested components |
| GamesPca.ComponentsUsed | assignment2/server/server.py:135-142 | the number of component rows kept never exceeds the component count; a non-negative di keeps min(di, count) rows, a negative one drops that many from the end |
| GamesPca.SelectedColumnsDistinct | assignment2/server/server.py:19-23 | the selected column names contain no repeats |
| GamesPca.Pick | assignment2/server/server.py:145-147 | selection by an index list: one entry per index, entry i the element at index i |
| GamesPca.PickedNames | assignment2/server/server.py:145 | picking distinct indices from distinct names gives distinct names, and a name not picked is at an index not in the list |
| GamesPca.GetScatterplotData | assignment2/server/server.py:133-154 | four distinct attributes with their squared-loading sums and data columns aligned position by position, sums non-increasing, and no omitted column with a larger sum than a returned one |
| Loadings.SliceEnd | assignment2/server/server.py:142 | the length a Python slice ending at stop keeps: min(stop, len) for stop >= 0, len + stop (at least 0) for stop < 0 |
| Loadings.SumOfSquares | assignment2/server/test.py:195 | a sum of squares is never negative |
| Loadings.ColumnPrefix | assignment2/server/server.py:142 | the first d entries of column j, one per row |
| Loadings.ColumnSquaredSums | assignment2/server/server.py:142 | one sum per column, the sum of squares of that column over the rows the slice keeps, never negative |
| Loadings.RowSquaredSums | assignment2/server/test.py:194-195 | one sum per row, the sum of squares of that row's first entries the slice keeps, never negative |
| Loadings.Range | assignment2/server/server.py:143 | the indices 0..n-1 in order, without repeats |
| Loadings.TopIndices | assignment2/server/server.py:143 | min(k, n) distinct valid indices in non-increasing score order; no omitted index scores higher than a chosen one |
| Loadings.TopIndicesFacts | assignment2/server/test.py:198 | sorting all indices by score gives a permutation of 0..n-1 in non-increasing score order |
| Loadings.OmittedNotHigher | assignment2/server/test.py:198 | any prefix of the score-sorted order leaves out no index that scores higher than one it keeps |
| PcaDashboard.ComponentCount | assignment2/server/test.py:33 | never more than the feature count, the row count or ten, and equal to one of the three |
| PcaDashboard.CumSumIsPrefixSum | assignment2/server/test.py:57 | entry i of the cumulative sum is the sum of the first i + 1 ratios |
| PcaDashboard.CumSumFromIsPrefixSum | assignment2/server/test.py:57 | the running total from a start value, at entry i, is the start plus the sum of the first i + 1 entries |
| PcaDashboard.CumulativeVarianceAt | assignment2/server/test.py:318 | for a slider value d in 1..n, the sum of the first d ratios; 0 reads the total (Python's index -1); out-of-range values raise |
| PcaDashboard.SliderVarianceMonotone | assignment2/server/test.py:271-277 | over the slider's range 1..n and with non-negative ratios, a larger dimension never shows a smaller cumulative variance |
| PcaDashboard.SumPrefixMonotone | assignment2/server/test.py:57 | with non-negative entries a longer prefix has a sum at least as large |
| PcaDashboard.ClampDim | assignment2/server/test.py:190-191 | the dimension never exceeds the loadings' width and is unchanged when it already fits |
| PcaDashboard.FeatureRows | assignment2/server/test.py:201-202 | one table row per ranked index, its name and its value from the same feature |
| PcaDashboard.TopFeatureFacts | assignment2/server/test.py:198-202 | min(4, feature count) rows, each with the name and value of one feature, in non-increasing value order; different features when the names are different; no feature left out has a higher value |
| PcaDashboard.FindTopFeatures | assignment2/server/test.py:175-210 | min(4, feature count) rows, each a feature with its own squared-loading sum over the clamped dimension, non-negative and non-increasing; different features when the names are different; no omitted feature higher |
| MdsFormat.FormatMdsData | assignment3/server/server.py:81-85 | one entry per labelled row, entry i the MDS point i tagged with row i's cluster |
| MdsFormat.FormatMdsVariables | assignment3/server/server.py:93-97 | one entry per numerical column, entry i the MDS point i tagged with column i's name |
| MdsFormat.MdsDataClusters | assignment3/server/server.py:81-85 | a cluster id appears in the payload iff some row carries it |
| GamesClusters.Preprocess | assignment3/server/server.py:17-35 | the cleaned frame is exactly the rows without placeholder or missing cells, in order, and the copy meets every category-filter guarantee with lists of at most 23 |
| GamesClusters.FindOptimalK | assignment3/server/server.py:42-66 | the upper-bound argument is ignored: the k is the elbow-or-fallback choice over k = 1..10, and a fallback k is in 2..9 |
| GamesClusters.ValidK | assignment3/server/server.py:137 | a k is accepted iff it is an integer of at least 1 or the boolean `true` (a Python bool is an int); absent, `false` and any other value are refused |
| GamesClusters.KValue | assignment3/server/server.py:137-140 | an accepted k is at least 1; a boolean `true` counts as 1 and an integer as itself |
| GamesClusters.ClusterService.constructor | assignment3/server/server.py:69-71 | at start-up the stored k is the optimal k of the scaled table and the labels are the fit for that k; the server only starts when that k is a fit k-means accepts (1 up to the row count) |
| GamesClusters.ClusterService.SetK | assignment3/server/server.py:131-144 | an invalid k (absent, not an integer, or below 1) is refused with 400 and changes nothing; a valid k is stored first; if its fit succeeds every row is relabelled for it and the reply echoes it, and if the fit raises (more clusters than rows) the reply is a 500, the new k stays stored and the labels keep the old fit |
| GamesClusters.ClusterService.MsePlot | assignment3/server/server.py:111-129 | k values 1..10, the inertia of each in ascending k, and the stored k |
| GamesClusters.ClusterService.MdsData | assignment3/server/server.py:99-101 | one point per row, tagged with the row's current cluster |
| GamesClusters.SetKThenMsePlot | assignment3/server/server.py:126-144 | after `/set_k` the MSE payload reports the newly set k when it was valid, even when its fit raised and the labels still belong to the old k, and the old k when it was refused |
| GamesMds.Preprocess | assignment3/server/server1.py:17-48 | the original frame keeps all clean rows; the filtered copy is a subsequence of its converted form with every categorical value on its column's list of at most 15 |
| GamesMds.MdsData | assignment3/server/server1.py:37-58 | one point per row of the cleaned, unfiltered frame, each with that row's cluster for the fixed k = 4 |
| ParallelCoordinates.OrderedColumns | assignment3/src/components/ParallelCoordinatesPlot.js:19-21 | the given column order when non-empty, the dataset's columns otherwise |
| ParallelCoordinates.Abs | assignment3/src/components/ParallelCoordinatesPlot.js:106 | a non-negative value equal to x or -x |
| ParallelCoordinates.NearestColumn | assignment3/src/components/ParallelCoordinatesPlot.js:101-112 | an axis at minimum distance from the drop point, and the first such axis (ties go to the earlier axis) |
| ParallelCoordinates.IndexOf | assignment3/src/components/ParallelCoordinatesPlot.js:117-118 | -1 iff the element is absent; otherwise the first position holding it |
| ParallelCoordinates.SpliceStart | assignment3/src/components/ParallelCoordinatesPlot.js:120-121 | the position a splice acts at: the index when in range, counted from the end when negative (at least 0), the length when past it |
| ParallelCoordinates.SpliceRemove | assignment3/src/components/ParallelCoordinatesPlot.js:120 | removing one element at the resolved position, or nothing when it is the end |
| ParallelCoordinates.SpliceInsert | assignment3/src/components/ParallelCoordinatesPlot.js:121 | one more element, the inserted one at the resolved position, the rest in order around it |
| ParallelCoordinates.Reordered | assignment3/src/components/ParallelCoordinatesPlot.js:115-127 | no update iff the nearest axis is the dragged one |
| ParallelCoordinates.ReorderMovesDragged | assignment3/src/components/ParallelCoordinatesPlot.js:116-121 | for a dragged axis in the order, the new order is a permutation of the old one, the dragged axis lands at the nearest axis's old index, and the other axes keep their relative order |
| ParallelCoordinates.OnDragEnd | assignment3/src/components/ParallelCoordinatesPlot.js:98-129 | the handler as written: the first axis at minimum distance (ties go to the earlier axis), then the reorder computed from the drag-start value it was given |
| ParallelCoordinates.FirstDragDropsLastAxis | assignment3/src/components/ParallelCoordinatesPlot.js:115-121 | with the drag-start still null, dropping on the first of three axes deletes the last axis and inserts null |
| ParallelCoordinates.OnAxisDragEnd | assignment3/src/components/ParallelCoordinatesPlot.js:90-129 | the handler using the dragged axis itself: the first axis at minimum distance, no update when it is that axis, otherwise a permutation with the dragged axis at the nearest axis's index and the other axes in their order |
| ParallelCoordinates.Toggle | assignment3/src/components/ParallelCoordinatesPlot.js:170-176 | a selected cluster is removed with every other entry kept in order; an unselected one is appended |
| ParallelCoordinates.ToggleTwiceRestores | assignment3/src/components/ParallelCoordinatesPlot.js:170-176 | toggling an unselected cluster twice restores the selection |
| ParallelCoordinates.ToggleKeepsDistinct | assignment3/src/components/ParallelCoordinatesPlot.js:170-176 | a selection without repeats stays without repeats |
| ParallelCoordinates.IsSelected | assignment3/src/components/ParallelCoordinatesPlot.js:143-144 | a line is highlighted iff the selection is empty or some position of it holds the line's cluster |
| ParallelCoordinates.ToggleHighlight | assignment3/src/components/ParallelCoordinatesPlot.js:143-144 | a newly toggled cluster is highlighted, and deselecting the only selected cluster highlights every line |
| ParallelCoordinates.LineData | assignment3/src/components/ParallelCoordinatesPlot.js:146-148 | one entry per axis, present iff the row has a value for that axis, and then that value |
| CategoricalPcp.DisplayedColumns | assignment3/src/components/pcp_categorical.js:47 | the first min(7, n) category keys, in key order, without repeats when the keys have none |
| CategoricalPcp.Repaired | assignment3/src/components/pcp_categorical.js:76-81 | with a non-empty category list the result is on the list: the first category for a falsy or unknown value, the value itself otherwise; with an empty list the value is unchanged |
| CategoricalPcp.RepairedIdempotent | assignment3/src/components/pcp_categorical.js:76-81 | repairing a repaired value changes nothing, provided the first category is not itself falsy |
| CategoricalPcp.RepairRow | assignment3/src/components/pcp_categorical.js:73-83 | on a copy of the row, each displayed column holds its repaired value and every other field is the input's |
| CategoricalPcp.ProcessData | assignment3/src/components/pcp_categorical.js:72-85 | the same number of rows in the same order; each displayed column repaired and every other field untouched |
| CategoricalPcp.ProcessedOnAxis | assignment3/src/components/pcp_categorical.js:72-85 | every displayed column with a non-empty category list holds one of its categories in every processed row |
| CombinedPcp.AllColumns | assignment3/src/components/PCPPlot.js:41 | all numerical columns, then the first seven categorical ones, in that order |
| CombinedPcp.NumericOrZero | assignment3/src/components/PCPPlot.js:51 | a number reads as itself, a boolean as 1 or 0, null or an absent field as 0, a string as its parse or 0 |
| CombinedPcp.Extent | assignment3/src/components/PCPPlot.js:51 | a pair of list members that bounds every entry |
| CombinedPcp.NumericDomain | assignment3/src/components/PCPPlot.js:49-53 | the least and greatest numeric reading of the column over the rows, both attained |
| CombinedPcp.MissingIsZero | assignment3/src/components/PCPPlot.js:51 | a missing, null or unparsable value counts as 0 in the axis range |
| CombinedPcp.NumericalUntouched | assignment3/src/components/PCPPlot.js:64-73 | when no numerical column is also a category key, the numerical fields of the processed rows equal the input's, since only the displayed categorical columns are repaired |

## Left out

- Rendering and transport are not modelled: D3 scales, axes, SVG, transitions,
  drag visuals, React state scheduling, Flask routing, CORS, JSON encoding, CSV
  loading, the axios fetchers, and the Dash layout and callbacks built in
  `test.py`.
- scikit-learn and kneed are parameters. KMeans, PCA, StandardScaler, MDS and
  the kneed curvature test appear only through their outputs: the inertia per
  k, the labels per k, the MDS points, the component and loading matrices, and
  the optional elbow. The fixed random seed is what makes these functions of k
  alone.
- Floating-point arithmetic is `real`. Inertia values, variance ratios,
  correlation distances, biplot vector lengths and NaN payloads are not
  computed. The one NaN that matters, a missing cell, is its own cell kind.
- Loadings.TopIndices: it ranks ties by index, through a stable sort, and the
  ascending argsort reversed in the source may order tied scores differently.
  The contract states only the score order, the distinctness and the
  no-omitted-higher property, which hold for any tie order.
- Frequency.TopValues: ties between equal counts follow first appearance. The
  pandas count-then-sort order among ties is not modelled, and
  Frequency.TopValuesFacts states only tie-free properties.
- Table.TopCategoryFilter: the claim that each stored list is its own pass's
  choice, and the description of the table stage by stage, are stated when
  the categorical column names are distinct, as the columns of a frame are.
  With a repeated name a later pass overwrites the earlier list.
- The cluster labels in the assignment 2 scatterplot and biplot responses are
  not modelled in GamesPca.GetScatterplotData: they are a k-means fit on two
  components and do not affect the attribute selection. The biplot endpoint
  and the eigenvalue endpoint are plain pass-throughs of library output and
  are left out.
- The assignment 2 server's MSE endpoint is not modelled separately from the
  third server's `/mse_plot`. It has the same ten-fit loop and is captured by
  Elbow.InertiaCurve.
- `/set_k` is modelled sequentially. The source rewrites two globals without a
  lock, and concurrent requests are not modelled. The body's key is given as
  an already-decoded value: absent, an integer, a boolean or anything else. A
  body that is not a JSON object makes the source's key lookup raise, and the
  model has no such case.
- Copies and aliasing: rows, tables and column orders are values, so the
  copies the sources make (the frame copy, the spread copy of the column order
  and of each row) cannot be told apart from the originals. Object identity is
  not modelled.
- The click-to-index handlers of the scree and MSE plots are first-match
  searches inside UI callbacks and are left out.
- JavaScript's ordering of object keys is not modelled: integer-like keys come
  first in iteration. The category object is given as an ordered key list.
- The k-means fits for the ten scores of the elbow method and of `/mse_plot`
  are taken to succeed for every k from 1 to 10, so the table is assumed to
  have at least ten rows. A shorter table makes those fits raise, and the
  model does not capture that error. The fit in `/set_k` is modelled with its
  failure: a k above the row count raises.

## Findings

| source | as written | input that shows it | evidently intended | confidence | as-written member | corrected member |
|---|---|---|---|---|---|---|
| assignment3/src/components/ParallelCoordinatesPlot.js:115-121 | the end handler reads the drag-start column from the effect's closure, and that state is not among the effect's dependencies (line 210), so on the first drag after mount it is still null (and later it is the previous drag's column) | order [a, b, c], the first drag released nearest to a: the index of null is -1, so the removal splice drops c and null is inserted at index 0, giving [null, a, b] | move the axis the handler belongs to (its own column), so the result is a permutation of the old order | not executed | ParallelCoordinates.FirstDragDropsLastAxis | ParallelCoordinates.OnAxisDragEnd |
