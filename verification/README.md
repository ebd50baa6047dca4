# bilby-corner-react: layout, index and coordinate model

bilby-corner-react draws a corner plot of a bilby posterior in the browser.
A Python exporter (`bilby_to_json.py`) turns the posterior into four JSON
lists:

- `hist_data`: one step path per parameter;
- `hist_maxmin`: one `[min, max]` window per parameter;
- `contour_data`: one clipped set of contour lines per parameter pair;
- `param_error`: one `[key, median, minus, plus]` record per parameter.

A React page (`DataManage.js`) lays these out as an N x N grid:

- histogram cells (`Histogram.js`) on the diagonal;
- contour cells (`src/CornerPlot.js`) below it;
- empty cells above it.

This Dafny project models the index, layout and coordinate logic that
connects the two halves, as pure functions over `int`, `real` and `seq`.

| module | file | models |
|---|---|---|
| `Types` | types.dfy | the JSON shapes: pairs, windows, contour lines and levels, `param_error` records, the document |
| `Triangle` | triangle.dfy | triangular numbers `Tri(n) = n(n-1)/2` and the slot `Tri(j) + i` of a pair `i < j`, with its inverse |
| `Axes` | axes.dfy | `createTicks` (the same code in both cell kinds) and d3's `scaleLinear` as the x and y pixel scales |
| `Exporter` | bilby_to_json.dfy | `_histogram_to_line`, `hist_maxmin`, the bin count, the clip of `corner_contour`, the pair loop of `result_to_json`, `param_error` |
| `Layout` | data_manage.dfy | `divLayout`: cell kinds, contour index, axis flags, the width probe cell |
| `ContourPlot` | corner_plot.dfy | one contour cell: ticks, polygon projection, colour key, joint median marker |
| `Histogram` | histogram.dfy | one histogram cell: `dataMap`, ticks, title, the three reference lines |
| `Pipeline` | pipeline.dfy | the rendered page as a whole, and the lemmas that relate the exporter's output to the page |

Coordinates are exact reals. d3's `scaleLinear(domain [d0, d1], range [r0, r1])`
is `Axes.Linear`:

- it normalises `v` to `t = (v - d0) / (d1 - d0)` and returns `r0 (1 - t) + r1 t`;
- a zero-width domain gives the midpoint of the range;
- it does not clamp.

The numpy histogram, the contour lines from matplotlib, and bilby's
median/error summary are inputs to the model: `Hist1D` values, a function
`raw(i, j)` and a function `summary(key)`.

The one finding is that the exporter and the page disagree on the order of
the contour sets once there are four or more parameters (see "## Findings").
The model follows the page's order, `Tri(row) + col`, in
`Exporter.ResultToJson`. `Exporter.ResultToJsonAsWritten` keeps the
exporter's actual order.

Three facts about the code that the model keeps as they are:

- N is `hist_maxmin.length` (DataManage.js:26), and nothing rejects N = 0;
  it gives an empty grid (`Layout.Grid(0)` is empty).
- The page never checks the lengths of the four lists. `Pipeline.Readable`
  names the lengths the grid's lookups need, and `Pipeline.ExportIsReadable`
  proves that the exporter's output meets them, both as written and with
  the corrected pair order.
- `x_show` is set on every bottom-row cell, contour cells as well as the
  histogram (DataManage.js:45 and 59).

## Model

| member | source | states |
|---|---|---|
| Triangle.TriClosedForm | DataManage.js:41 | twice the number of pairs below `n` is `n(n-1)`: the sum the page's index formula divides by two |
| Triangle.TriHalf | DataManage.js:41 | `(n(n-1))/2` with integer division equals the pair count exactly, so the page's division never truncates |
| Triangle.TriGap | DataManage.js:41 | a whole row of `a` slots fits between the starts of rows `a` and `b > a`, so rows never overlap |
| Triangle.TriMonotone | DataManage.js:41 | row starts are non-decreasing in the row |
| Triangle.SlotBelow | DataManage.js:10-19 | every pair `i < j < n` lands below `n(n-1)/2`, the number of contour sets |
| Triangle.SlotInjective | DataManage.js:41 | two pairs with the same index are the same pair |
| Triangle.RowFrom | DataManage.js:15-19 | for any index there is a row whose slot range `[Tri(r), Tri(r) + r)` contains it |
| Triangle.Unslot | DataManage.js:15-19 | every index is the slot of some pair `i < j` |
| Triangle.SlotBijection | DataManage.js:15-19 | pairs below `n` and indices below `n(n-1)/2` correspond one to one, in both directions |
| Axes.Ticks | src/CornerPlot.js:62-67 | exactly `count` ticks, the first 16% of the width above `min` |
| Axes.TickAsSteps | Histogram.js:38-43 | tick `k` is the first tick plus `k` steps of `|max - min| / count` |
| Axes.TickStep | src/CornerPlot.js:62-67 | neighbouring ticks are one step of `|max - min| / count` apart |
| Axes.TicksIncreasingIffProperDomain | src/CornerPlot.js:62-70 | ticks strictly increase if and only if `min != max` |
| Axes.TicksOfDegenerateDomain | src/CornerPlot.js:62-67 | on a zero-width domain every tick equals `min` |
| Axes.OffsetPlusStepsBelowOne | src/CornerPlot.js:45 | the offset plus `count - 1` steps stays below the full width exactly when `count <= 6` |
| Axes.LastTick | Histogram.js:38-45 | the last tick sits at `min + (max - min)(0.16 + (count - 1)/count)` |
| Axes.TicksInsideWhenAtMostSix | src/CornerPlot.js:45-70 | with at most six ticks, every tick lies strictly inside an increasing domain |
| Axes.LastTickBeyondSix | src/CornerPlot.js:62-67 | with seven or more ticks, the last tick reaches or passes `max` |
| Axes.TicksInsideIffAtMostSix | src/CornerPlot.js:45-70 | all ticks lie inside the domain if and only if at most six are asked for; both cells ask for three |
| Axes.LinearEndpoints | src/CornerPlot.js:47-54 | `scaleLinear` sends the domain's ends to the range's ends |
| Axes.LinearIsAffine | src/CornerPlot.js:47-54 | the scale maps a weighted mean to the same weighted mean of the images |
| Axes.LinearStrictlyIncreasing | src/CornerPlot.js:47-50 | increasing domain and range give a strictly increasing scale |
| Axes.LinearWithinRange | src/CornerPlot.js:47-54 | a value between the domain's ends maps between the range's ends, whichever end is larger |
| Axes.LinearRoundTrip | src/CornerPlot.js:47-54 | `invert` undoes the scale when neither domain nor range is collapsed |
| Axes.XScaleFitsDomain | src/CornerPlot.js:37-50 | `x_min` goes to pixel 6 (margin 5 plus axis 1) and `x_max` to `size - 6`; increasing when `size > 12` |
| Axes.YScaleFitsDomain | src/CornerPlot.js:51-54 | the y scale is inverted: `y_max` goes to pixel 6 and `y_min` to `size - 6`; order-reversing when `size > 12` |
| Axes.ScalesStayInside | src/CornerPlot.js:47-54 | a point inside both windows lands inside `[6, size - 6]` on both axes |
| Exporter.Repeat2 | bilby_to_json.py:126 | `np.repeat(a, 2)`: twice as long, element `i` is `a[i / 2]` |
| Exporter.HalveRepeat2 | bilby_to_json.py:126 | taking every other element undoes the repetition |
| Exporter.Pad | bilby_to_json.py:127 | two longer, zero at both ends, the input in between |
| Exporter.HistogramToLine | bilby_to_json.py:122-128 | x is every edge twice (`2|edges|` long); y is `[0]`, every count twice, `[0]` (`2|n| + 2` long) |
| Exporter.HistogramLineRoundTrip | bilby_to_json.py:122-128 | the counts and edges can be read back from the line, so the step path loses nothing |
| Exporter.HistogramPath | bilby_to_json.py:157-158 | the zipped path has one point per x coordinate |
| Exporter.HistogramPathAt | bilby_to_json.py:158 | point `j` of the path is `[x_temp[j], y_temp[j]]` |
| Exporter.HistogramPathIsStepPath | bilby_to_json.py:122-128 | with `|edges| = |n| + 1`, the path starts at `(first edge, 0)` and ends at `(last edge, 0)`; bin `k` is the horizontal step from `(edges[k], n[k])` to `(edges[k+1], n[k])` |
| Exporter.StepAt | bilby_to_json.py:158 | the two path points of bin `k` are `(edges[k], n[k])` and `(edges[k+1], n[k])` |
| Exporter.SeqMin | bilby_to_json.py:159 | `np.min`: an element of the list, no larger than any element |
| Exporter.SeqMax | bilby_to_json.py:159 | `np.max`: an element of the list, no smaller than any element |
| Exporter.HistMaxMin | bilby_to_json.py:159 | the window is ordered, contains every x coordinate, and both of its ends are x coordinates |
| Exporter.MaxMinOfAscendingEdges | bilby_to_json.py:159 | for ascending edges the window is `[first edge, last edge]` |
| Exporter.RoundHalfEven | bilby_to_json.py:141 | `np.round`: the nearest integer, with ties going to the even one |
| Exporter.RoundHalfEvenUnique | bilby_to_json.py:141 | only one integer meets that description |
| Exporter.BinCount | bilby_to_json.py:141 | `int(max(1, round(factor * bins)))` is at least 1, and is either 1 or the rounded product |
| Exporter.DefaultBinCount | bilby_to_json.py:133-141 | the defaults (factor 1, 50 bins) give 50 bins |
| Exporter.Clip | bilby_to_json.py:95-96 | the clipped value lies in an ordered window; a value already inside is unchanged |
| Exporter.ClipIdempotent | bilby_to_json.py:95-96 | clipping twice is clipping once |
| Exporter.ClipMonotone | bilby_to_json.py:95-96 | clipping keeps order |
| Exporter.ClipSegment | bilby_to_json.py:94-96 | clipping keeps the number of vertices in a line |
| Exporter.ClipContours | bilby_to_json.py:92-98 | same levels, lines and vertex counts; no window leaves the contours alone; with ordered windows every vertex lands inside; vertices already inside are unchanged |
| Exporter.InnerPairsContents | bilby_to_json.py:177-178 | the inner loop for `i` yields `(i, i+1), (i, i+2), ...`, `m - i - 1` pairs |
| Exporter.OuterPairsLength | bilby_to_json.py:176-178 | the first `m` outer rounds yield `m(n-1) - m(m-1)/2` pairs |
| Exporter.InnerPairsMembers | bilby_to_json.py:177-178 | the inner loop yields exactly the pairs `(i, j)` with `i < j < n` |
| Exporter.OuterPairsMembers | bilby_to_json.py:176-178 | the first `m` outer rounds yield exactly the pairs `i < j < n` with `i < m` |
| Exporter.OuterPairsOrdered | bilby_to_json.py:176-178 | pairs come out in lexicographic order, `i` first |
| Exporter.ExportedPairsContents | bilby_to_json.py:176-179 | `N(N-1)/2` pairs, each pair `i < j < N` exactly once, lexicographically ordered |
| Exporter.ExportedIndex | bilby_to_json.py:176-179 | as written, the loop puts pair `i < j` at `i N - i(i+1)/2 + (j - i - 1)` |
| Exporter.ConsumerOrderPairs | DataManage.js:41 | the corrected order: pair `(i, j)` sits at `j(j-1)/2 + i`, where the page reads it |
| Exporter.ConsumerOrderPairsContents | bilby_to_json.py:176-179 | the corrected order lists exactly the same pairs as the loop |
| Exporter.HistogramContour | bilby_to_json.py:153-161 | one path and one window per parameter; path `i` is the zipped step line of histogram `i`, point by point; window `i` is exactly `[min, max]` of that line's x values, both ends taken from it, so it contains the whole path |
| Exporter.ExportContours | bilby_to_json.py:176-179 | one contour set per pair |
| Exporter.ParamErrors | bilby_to_json.py:181-183 | one record per key |
| Exporter.ParamErrorsRecordKeys | bilby_to_json.py:181-183 | the records carry the keys in key order, each with that key's median, minus and plus |
| Exporter.Assemble | bilby_to_json.py:186-191 | `hist_data` and `hist_maxmin` are exactly what `histogram_contour` returns and `param_error` is one summary per key; contour set `k` is the pair's raw contours clipped to the two parameters' windows |
| Exporter.ResultToJsonAsWritten | bilby_to_json.py:163-193 | as written: histograms, windows and error bars as `histogram_contour` and `param_error` give them; `N(N-1)/2` contour sets in loop order, each clipped to its pair's windows |
| Exporter.ResultToJson | bilby_to_json.py:163-193 | corrected: histograms, windows and error bars as `histogram_contour` and `param_error` give them; the contour set of pair `i < j` sits at `j(j-1)/2 + i` and is clipped to `[hist_maxmin[i], hist_maxmin[j]]` |
| Layout.ContourIndex | DataManage.js:41 | the page's index `(row(row-1))/2 + col` is the slot of the pair `(col, row)` |
| Layout.CellAt | DataManage.js:33-71 | contour cell iff `col < row`, histogram iff `col == row`, empty iff `row < col`; a contour cell reads set `Slot(col, row)`, which is `row(row-1)/2 + col`, plots parameter `col` across and `row` up, labels x iff on the bottom row and y iff in the left column, with levels 2; a histogram cell plots parameter `col` and labels x iff on the bottom row; only the empty cell at row 0, column 1 is the probe; every index lies inside its list |
| Layout.Row | DataManage.js:34-72 | each row has `N` cells |
| Layout.Grid | DataManage.js:84-90 | `N` rows of `N` cells |
| Layout.RowPrefixCounts | DataManage.js:35-71 | how many cells of each kind the first `m` columns of a row hold |
| Layout.RowCounts | DataManage.js:35-71 | row `r` has `r` contour cells, one histogram and `N - 1 - r` empty cells |
| Layout.GridPrefixCounts | DataManage.js:84-90 | the first `m` rows hold `m(m-1)/2` contour cells, `m` histograms and `m N` cells |
| Layout.GridCounts | DataManage.js:10-19 | `N^2` cells: `N` histograms, `N(N-1)/2` contour cells and `N(N-1)/2` empty cells |
| Layout.ContourIndexBijection | DataManage.js:41 | distinct contour cells read distinct sets, and every set below `N(N-1)/2` is read by exactly one contour cell |
| Layout.ContourCellBinding | DataManage.js:39-49 | a contour cell takes x from its column's parameter and y from its row's; `x_show` iff bottom row; `y_show` iff first column; `levels` is 2 |
| Layout.XLabelsOnBottomRow | DataManage.js:45-59 | both contour and histogram cells show x labels exactly on the bottom row |
| Layout.ProbeCell | DataManage.js:64-69 | the width probe is the one empty cell at (0, 1), and it exists if and only if `N >= 2` |
| Layout.FourParameterStaircase | DataManage.js:15-19 | the four-parameter picture: a histogram then empties on the top row, three contours then a histogram on the bottom row |
| Layout.LayoutTopRows | DataManage.js:17-18 | cells (1,0), (2,0), (2,1) read sets 0, 1, 2 |
| Layout.FourParameterBottomRow | DataManage.js:19 | cells (3,0), (3,1), (3,2) read sets 3, 4, 5 |
| ContourPlot.Project | src/CornerPlot.js:75-79 | one pixel per vertex |
| ContourPlot.ProjectRoundTrip | src/CornerPlot.js:75-79 | projecting a contour line and inverting the scales gives back the line, so each vertex is its own point, in order |
| ContourPlot.ProjectConcat | src/CornerPlot.js:75-79 | projection is vertex by vertex: a split line projects to the split projections, with no vertex added |
| ContourPlot.ProjectInside | src/CornerPlot.js:75-79 | vertices inside the cell's windows are drawn inside the plotting area |
| ContourPlot.ColourKeyOrder | src/CornerPlot.js:56 | the colour key runs from 0 at level 0 to 1 at the last level, strictly increasing, never outside `[0, 1]` |
| ContourPlot.BilbyLevelTones | DataManage.js:47 | with `levels = 2` the three levels take keys 0, 1/2 and 1 |
| ContourPlot.LevelShapes | src/CornerPlot.js:172-189 | one polygon per line of a level |
| ContourPlot.Shapes | src/CornerPlot.js:171-190 | one polygon per line across all levels |
| ContourPlot.ShapesIndex | src/CornerPlot.js:171-190 | line `s` of level `l` becomes polygon number (lines before level `l`) + `s`: the projected line, coloured by the key of `l` |
| ContourPlot.ShapesInside | src/CornerPlot.js:171-190 | contours inside the windows give polygons inside the plotting area |
| ContourPlot.Joint | src/CornerPlot.js:191-207 | the marker sits at `(param_stat_x[1], param_stat_y[1])`, the vertical guide at `param_stat_x[1]`, the horizontal one at `param_stat_y[1]`, so the marker lies on both guides |
| ContourPlot.CornerPlot | src/CornerPlot.js:97-207 | domains are `x_maxmin` and `y_maxmin`; the ticks are `createTicks` of each domain, three per axis; the polygons are the projected contour lines, one per line; the x label is `param_stat_x[0]` exactly when `x_show`, the y label `param_stat_y[0]` exactly when `y_show`; the overlay is the joint median marker and its guides |
| Histogram.DataMap | Histogram.js:13-19 | one point per pair |
| Histogram.DataMapRoundTrip | Histogram.js:13-19 | `dataMap` and its inverse undo each other in both directions, so length, order and values are kept |
| Histogram.ReferenceLines | Histogram.js:166-180 | the centre line is at the median `param_stat[1]`, the side lines `minus` below and `plus` above it |
| Histogram.ReferenceLinesOrdered | Histogram.js:166-180 | the lines are ordered left to right if and only if `minus` and `plus` are non-negative; the band is `minus + plus` wide |
| Histogram.HistogramPlot | Histogram.js:31-185 | the path is the input point for point; the domain is `maxmin`; three ticks, `Ticks` of that domain; label `param_stat[0]` iff `x_show`; the title and the centre line carry the median, minus and plus |
| Histogram.PointsInside | Histogram.js:109-119 | path points inside the domain are drawn between the plotting edges |
| Pipeline.CellSize | DataManage.js:22 | `Math.ceil(0.99 * width)`: the least integer at or above 99% of the width |
| Pipeline.Render | DataManage.js:84-90 | `N` rows of `N` views; contour iff below, histogram iff on, blank iff above the diagonal |
| Pipeline.RenderCell | DataManage.js:36-70 | contour cell (r, c) draws set `r(r-1)/2 + c` over the windows and summaries of parameters c and r, labelling x on the bottom row and y in the first column, with levels 2; histogram cell p draws `hist_data[p]` with `hist_maxmin[p]` and `param_error[p]`; a cell above the diagonal is blank, the probe only at (0, 1) |
| Pipeline.RenderAlignment | DataManage.js:39-60 | a contour cell shares the domain and ticks of its column's and row's histograms; its guide lines sit on their centre lines; it shows its column's key as x label on the bottom row and its row's key as y label in the first column |
| Pipeline.ExportIsReadable | DataManage.js:26-31 | the exporter's document, both as written and corrected, is long enough for every lookup the page makes, and N is the number of keys |
| Pipeline.ContourCellsShowTheirPair | DataManage.js:41 | with the corrected order, cell (row, col) draws the pair (col, row), clipped to those parameters' windows, and its marker sits at their medians |
| Pipeline.ExportedPlotsStayInside | bilby_to_json.py:92-96 | with the corrected order, on cells at least 12 pixels wide, every exported polygon vertex and every histogram point is drawn inside the plotting area (histogram points under the scale assumption stated for `Histogram.PointsInside` under "## Left out") |
| Pipeline.ExportedPairsOpenWithFirstParameter | bilby_to_json.py:176-179 | the loop's first `N - 1` pairs are `(0, 1), ..., (0, N-1)` |
| Pipeline.ExportedOrderMismatch | bilby_to_json.py:176-179 | for `N >= 4` the loop puts pair (0, 3) at index 2, where the page expects pair (1, 2) |
| Pipeline.TwoParametersAgree | DataManage.js:41 | with two parameters the loop order and the page's index agree |
| Pipeline.ThreeParametersAgree | DataManage.js:41 | with three parameters they still agree |
| Pipeline.ExportedOrderAgreesIff | bilby_to_json.py:176-179 | the loop order matches the page's index for every cell if and only if `N <= 3` |
| Pipeline.ConsumerOrderMatchesLayout | DataManage.js:41 | in the corrected order, the page's index for (row, col) finds the pair (col, row), for every N |
| Pipeline.CellTwoOneReadsSetTwo | DataManage.js:41-43 | in every document of three or more parameters, cell (2, 1) draws contour set 2 on the windows of parameters 1 and 2 |
| Pipeline.AsWrittenSetTwo | bilby_to_json.py:176-179 | as written, with four or more keys, set 2 holds the contours of pair (0, 3) |
| Pipeline.AsWrittenCellShowsWrongPair | bilby_to_json.py:176-179 | as written, cell (2, 1) draws pair (0, 3)'s contours on the axes of parameters 1 and 2 |

## Left out

- The statistics of `corner_contour` and `histogram_contour` are not modelled: `histogram2d`, `gaussian_filter`, the choice of levels by cumulative sum, the loop that separates equal levels, `ax.contour` and `np.histogram`. These are floating-point numerics inside numpy, scipy and matplotlib. Their results are inputs (`Hist1D`, `raw`).
- bilby's `get_one_dimensional_median_and_error_bar` and the posterior itself are external. They enter as the `summary` function.
- `_parse_input` and the per-parameter `x.min()`/`x.max()` range are not modelled. They only shape the arrays handed to `np.histogram`.
- `JSON.parse` of the embedded page element and the `__main__` driver are I/O.
- React and recharts rendering is not modelled: JSX props such as colours, opacity, angles, fonts and dash patterns, `ResponsiveContainer`, and the histogram's automatic y domain.
- The `useResponsiveSize` width measurement is I/O. Its value enters `Pipeline.CellSize` as a parameter.
- d3-format's `.2f`/`.3f` formatting and d3's colour interpolation are not modelled. The colour is kept as its position on the gradient (`ContourPlot.ColourKey`). The title keeps the raw median, minus and plus.
- The SVG `points` string of a polygon is kept as a sequence of pixels, not as text.
- IEEE-754 rounding is not modelled. Coordinates and ticks are exact reals. `Math.ceil` and `np.round` are modelled on exact reals.
- sample/sample_bilby.py and rollup.config.js are not part of this model. They are a sampler run and the bundler configuration.
- Pipeline.Render: requires `Pipeline.Readable`, the list lengths its lookups need. The page does not check these lengths, and with short lists it reads `undefined` and fails inside the chart components. That failure path is not modelled. `Pipeline.ExportIsReadable` proves that the exporter's output meets the requirement, both as written (`Exporter.ResultToJsonAsWritten`) and corrected (`Exporter.ResultToJson`). Render's own contract states only each view's kind; what each cell draws is stated on `Pipeline.RenderCell`.
- Pipeline.ExportedPlotsStayInside: requires cells of at least 12 pixels. Below that the plotting area `[6, size - 6]` is empty, and the page makes no promise. It is stated for `Exporter.ResultToJson`, the corrected order; with the order as written a cell can draw another pair's contours on its own axes (see "## Findings"), and those need not fall inside.
- Histogram.PointsInside: Histogram.js computes no pixel positions; recharts scales the line itself. The lemma assumes recharts maps the x domain onto the same plotting area as the contour cell's `plotCoordsConvert_x`: a chart `size` pixels wide, inset by margin 5 plus axis width 1 on each side (`Axes.XScale`). The histogram half of `Pipeline.ExportedPlotsStayInside` rests on the same assumption.
- Exporter.HistogramContour: requires every histogram to have at least one edge and at most one more edge than counts. `np.histogram` always returns exactly one more, so this follows from the library call, which the model leaves out.
- Exporter.HistogramPath: states only the path's length. Each point is stated by `Exporter.HistogramPathAt` and `Exporter.HistogramPathIsStepPath`.
- Exporter.ExportContours: states only the number of sets. What each set holds is stated on `Exporter.Assemble` and `Exporter.ResultToJson`.
- Exporter.ParamErrors: states only the number of records. Their contents are stated by `Exporter.ParamErrorsRecordKeys`.
- ContourPlot.LevelShapes: states only the polygon count. Each polygon is stated by `ContourPlot.ShapesIndex`.
- ContourPlot.Shapes: states only the polygon count. Each polygon is stated by `ContourPlot.ShapesIndex`.
- Histogram.DataMap: states only the length. The values are stated by `Histogram.DataMapRoundTrip`.
- Layout.Row: states only the row's length. Each cell, with the indices it is bound to, is stated on `Layout.CellAt`.
- Exporter.ClipSegment: states only the vertex count. Where the vertices land is stated on `Exporter.ClipContours`, which covers every line.
- ContourPlot.Project: states only the vertex count. Each vertex's position is stated through `ContourPlot.ProjectRoundTrip`, `ContourPlot.ProjectConcat` and `ContourPlot.ProjectInside`.

## Findings

| source | as written | input that shows it | evidently intended | confidence | as-written member | corrected member |
|---|---|---|---|---|---|---|
| bilby_to_json.py:176-179 | contour sets are appended with `i` in the outer loop and `j` in the inner loop (`i < j`). That puts pair (i, j) at `i N - i(i+1)/2 + (j - i - 1)`. The page (DataManage.js:41) reads pair (col, row) at `row(row-1)/2 + col`, and the two orders agree only for N <= 3 | N = 4: the cell at row 2, column 1 reads set 2, which holds pair (0, 3) instead of pair (1, 2) | each contour cell draws its own column and row parameters: pair (i, j) is stored at `j(j-1)/2 + i` | not executed | Exporter.ResultToJsonAsWritten, Exporter.ExportedIndex, Pipeline.ExportedOrderMismatch, Pipeline.ExportedOrderAgreesIff, Pipeline.AsWrittenCellShowsWrongPair | Exporter.ResultToJson, Exporter.ConsumerOrderPairs, Pipeline.ConsumerOrderMatchesLayout, Pipeline.ContourCellsShowTheirPair |
