/** The page as a whole (DataManage.js rendering every cell of the grid)
    and what holds across its cells and across the exporter's output. */
module Pipeline {

  import opened Types
  import opened Triangle
  import opened Axes
  import Exporter
  import Layout
  import ContourPlot
  import Histogram

  /** `Math.ceil(0.99 * width)`: the side of every cell, from the measured
      width of the probe cell. */
  function CellSize(width: real): (s: int)
    ensures s as real - 1.0 < 0.99 * width <= s as real
  {
    -((-(0.99 * width)).Floor)
  }

  /** What one grid cell shows. */
  datatype View =
    | ContourPanel(contour: ContourPlot.ContourView)
    | HistogramPanel(histogram: Histogram.HistogramView)
    | Blank(probe: bool)

  /** The lists are long enough for every lookup the grid makes; the page
      itself does not check this. */
  predicate Readable(d: Dataset) {
    var n := Layout.ParamNumber(d);
    |d.histData| >= n && |d.paramError| >= n && |d.contourData| >= Tri(n)
  }

  /** One element of `divLayout(row, PARAM_NUMBER)`. */
  function ViewOf(d: Dataset, size: int, row: nat, col: nat): View
    requires Readable(d) && row < Layout.ParamNumber(d) && col < Layout.ParamNumber(d)
  {
    var n := Layout.ParamNumber(d);
    match Layout.CellAt(n, row, col)
    case ContourCell(k, x, y, xShow, yShow, levels) =>
      ContourPanel(ContourPlot.CornerPlot(d.contourData[k], d.histMaxMin[x], d.histMaxMin[y], size,
                                          xShow, yShow, levels, d.paramError[x], d.paramError[y]))
    case HistogramCell(p, xShow) =>
      HistogramPanel(Histogram.HistogramPlot(d.histData[p], d.histMaxMin[p], size, xShow, d.paramError[p]))
    case EmptyCell(probe) => Blank(probe)
  }

  /** The whole page: `PARAM_NUMBER` rows of `PARAM_NUMBER` cells. */
  function Render(d: Dataset, size: int): (g: seq<seq<View>>)
    requires Readable(d)
    ensures |g| == Layout.ParamNumber(d)
    ensures forall r :: 0 <= r < |g| ==> |g[r]| == |g|
    ensures forall r, c :: 0 <= r < |g| && 0 <= c < |g| ==>
              (g[r][c].ContourPanel? <==> c < r) && (g[r][c].HistogramPanel? <==> c == r)
              && (g[r][c].Blank? <==> r < c)
  {
    var n := Layout.ParamNumber(d);
    seq(n, r requires 0 <= r < n => seq(n, c requires 0 <= c < n => ViewOf(d, size, r, c)))
  }

  /** What each cell of the page draws: a contour cell (row `r`, column
      `c < r`) the contour set `ContourIndex(r, c)` over the windows and
      summaries of parameters `c` and `r`; a histogram cell the histogram,
      window and summary of its own parameter; a cell above the diagonal
      nothing, the one at row 0, column 1 being the width probe. */
  lemma RenderCell(d: Dataset, size: int, r: nat, c: nat)
    requires Readable(d) && r < Layout.ParamNumber(d) && c < Layout.ParamNumber(d)
    ensures var n := Layout.ParamNumber(d);
      c < r ==>
        Layout.ContourIndex(r, c) < |d.contourData|
        && Render(d, size)[r][c]
           == ContourPanel(ContourPlot.CornerPlot(d.contourData[Layout.ContourIndex(r, c)], d.histMaxMin[c], d.histMaxMin[r],
                                                  size, r == n - 1, c == 0, Layout.ContourLevels,
                                                  d.paramError[c], d.paramError[r]))
    ensures var n := Layout.ParamNumber(d);
      c == r ==>
        Render(d, size)[r][c]
        == HistogramPanel(Histogram.HistogramPlot(d.histData[c], d.histMaxMin[c], size, r == n - 1, d.paramError[c]))
    ensures r < c ==> Render(d, size)[r][c] == Blank(r == 0 && c == 1)
  {
    if c < r {
      SlotBelow(c, r, Layout.ParamNumber(d));
    }
    assert Render(d, size)[r][c] == ViewOf(d, size, r, c);
  }

  /** A contour cell lines up with the two histograms of its column and its
      row: same x domain and ticks as the histogram above it, y domain and
      ticks equal to the x domain and ticks of the histogram at the end of
      its row, guide lines on those histograms' median lines; the x label
      only on the bottom row, the y label only in the first column. */
  lemma RenderAlignment(d: Dataset, size: int, r: nat, c: nat)
    requires Readable(d) && c < r < Layout.ParamNumber(d)
    ensures var g := Render(d, size);
      && g[r][c].ContourPanel? && g[c][c].HistogramPanel? && g[r][r].HistogramPanel?
      && g[r][c].contour.xDomain == g[c][c].histogram.xDomain
      && g[r][c].contour.xTicks == g[c][c].histogram.xTicks
      && g[r][c].contour.yDomain == g[r][r].histogram.xDomain
      && g[r][c].contour.yTicks == g[r][r].histogram.xTicks
      && g[r][c].contour.overlay.guideX == g[c][c].histogram.lines.centre
      && g[r][c].contour.overlay.guideY == g[r][r].histogram.lines.centre
      && (g[r][c].contour.xLabel.Some? <==> r == Layout.ParamNumber(d) - 1)
      && (g[r][c].contour.yLabel.Some? <==> c == 0)
      && (g[r][c].contour.xLabel.Some? ==> g[r][c].contour.xLabel == Some(d.paramError[c].key))
      && (g[r][c].contour.yLabel.Some? ==> g[r][c].contour.yLabel == Some(d.paramError[r].key))
  {
    Layout.ContourCellBinding(Layout.ParamNumber(d), r, c);
  }

  /** The exporter's output, as written and corrected, is something the page
      can read: one histogram, window and summary per parameter and `Tri(N)`
      contour sets. */
  lemma ExportIsReadable(keys: seq<string>, hists: seq<Exporter.Hist1D>, raw: (nat, nat) -> PairContours,
                         summary: string -> Exporter.Summary)
    requires |hists| == |keys|
    requires forall i :: 0 <= i < |hists| ==> Exporter.Drawable(hists[i])
    ensures var d := Exporter.ResultToJsonAsWritten(keys, hists, raw, summary);
      Readable(d) && Layout.ParamNumber(d) == |keys|
    ensures var d := Exporter.ResultToJson(keys, hists, raw, summary);
      Readable(d) && Layout.ParamNumber(d) == |keys|
  {
  }

  /** End to end: the contour cell in row `r`, column `c` of the page draws
      the contour lines of parameter `c` against parameter `r`, clipped to
      the two parameters' windows, and the lines it draws are those of the
      clipped contours projected through its own scales. */
  lemma ContourCellsShowTheirPair(keys: seq<string>, hists: seq<Exporter.Hist1D>, raw: (nat, nat) -> PairContours,
                                  summary: string -> Exporter.Summary, size: int, r: nat, c: nat)
    requires |hists| == |keys|
    requires forall i :: 0 <= i < |hists| ==> Exporter.Drawable(hists[i])
    requires c < r < |keys|
    ensures var d := Exporter.ResultToJson(keys, hists, raw, summary);
      Readable(d) &&
      var g := Render(d, size);
      var clipped := Exporter.ClipContours(raw(c, r), Some((d.histMaxMin[c], d.histMaxMin[r])));
      g[r][c].ContourPanel?
      && g[r][c].contour.shapes
         == ContourPlot.Shapes(clipped, d.histMaxMin[c], d.histMaxMin[r], size, Layout.ContourLevels)
      && g[r][c].contour.overlay.marker == XY(summary(keys[c]).median, summary(keys[r]).median)
  {
  }

  /** Nothing the corrected exporter produces is drawn outside its cell:
      every polygon vertex lies in the plotting area of its contour cell,
      and every point of a histogram line between the left and right edges
      of its histogram cell. */
  lemma ExportedPlotsStayInside(keys: seq<string>, hists: seq<Exporter.Hist1D>, raw: (nat, nat) -> PairContours,
                                summary: string -> Exporter.Summary, size: int)
    requires |hists| == |keys|
    requires forall i :: 0 <= i < |hists| ==> Exporter.Drawable(hists[i])
    requires size >= 2 * Inset
    ensures var d := Exporter.ResultToJson(keys, hists, raw, summary);
      Readable(d) &&
      var g := Render(d, size);
      && (forall r, c, q, k :: 0 <= c < r < |keys| && 0 <= q < |g[r][c].contour.shapes|
            && 0 <= k < |g[r][c].contour.shapes[q].vertices|
            ==> ContourPlot.InPlotArea(g[r][c].contour.shapes[q].vertices[k], size))
      && (forall p, k :: 0 <= p < |keys| && 0 <= k < |g[p][p].histogram.points| ==>
            Inset as real <= XScale(g[p][p].histogram.xDomain, size, g[p][p].histogram.points[k].x) <= (size - Inset) as real)
  {
    ExportIsReadable(keys, hists, raw, summary);
    forall r: nat, c: nat | c < r < |keys| {
      ContourCellStaysInside(keys, hists, raw, summary, size, r, c);
    }
    forall p: nat | p < |keys| {
      HistogramCellStaysInside(keys, hists, raw, summary, size, p);
    }
  }

  /** One contour cell of `ExportedPlotsStayInside`. */
  lemma ContourCellStaysInside(keys: seq<string>, hists: seq<Exporter.Hist1D>, raw: (nat, nat) -> PairContours,
                               summary: string -> Exporter.Summary, size: int, r: nat, c: nat)
    requires |hists| == |keys|
    requires forall i :: 0 <= i < |hists| ==> Exporter.Drawable(hists[i])
    requires size >= 2 * Inset && c < r < |keys|
    ensures var d := Exporter.ResultToJson(keys, hists, raw, summary);
      Readable(d) &&
      var g := Render(d, size);
      forall q, k :: 0 <= q < |g[r][c].contour.shapes| && 0 <= k < |g[r][c].contour.shapes[q].vertices|
        ==> ContourPlot.InPlotArea(g[r][c].contour.shapes[q].vertices[k], size)
  {
    var d: Dataset := Exporter.ResultToJson(keys, hists, raw, summary);
    ContourCellsShowTheirPair(keys, hists, raw, summary, size, r, c);
    var xw := d.histMaxMin[c];
    var yw := d.histMaxMin[r];
    var clipped := Exporter.ClipContours(raw(c, r), Some((xw, yw)));
    assert Exporter.InWindows(clipped, xw, yw);
    ContourPlot.ShapesInside(clipped, xw, yw, size, Layout.ContourLevels);
  }

  /** One histogram cell of `ExportedPlotsStayInside`. */
  lemma HistogramCellStaysInside(keys: seq<string>, hists: seq<Exporter.Hist1D>, raw: (nat, nat) -> PairContours,
                                 summary: string -> Exporter.Summary, size: int, p: nat)
    requires |hists| == |keys|
    requires forall i :: 0 <= i < |hists| ==> Exporter.Drawable(hists[i])
    requires size >= 2 * Inset && p < |keys|
    ensures var d := Exporter.ResultToJson(keys, hists, raw, summary);
      Readable(d) &&
      var g := Render(d, size);
      forall k :: 0 <= k < |g[p][p].histogram.points| ==>
        Inset as real <= XScale(g[p][p].histogram.xDomain, size, g[p][p].histogram.points[k].x) <= (size - Inset) as real
  {
    var d: Dataset := Exporter.ResultToJson(keys, hists, raw, summary);
    ExportIsReadable(keys, hists, raw, summary);
    var g: seq<seq<View>> := Render(d, size);
    Histogram.DataMapRoundTrip(d.histData[p], []);
    Histogram.PointsInside(g[p][p].histogram, size);
  }

  // ---------------------------------------------------------------------
  // The contour order of `result_to_json` as written
  // ---------------------------------------------------------------------

  /** The exporter's list opens with the pairs of parameter 0 against every
      later parameter. */
  lemma {:induction false} ExportedPairsOpenWithFirstParameter(n: nat, m: nat)
    requires 1 <= m
    ensures |Exporter.OuterPairs(n, m)| >= n - 1
    ensures forall k :: 0 <= k < n - 1 ==> Exporter.OuterPairs(n, m)[k] == (0, k + 1)
  {
    if m == 1 {
      Exporter.InnerPairsContents(0, n);
    } else {
      ExportedPairsOpenWithFirstParameter(n, m - 1);
    }
  }

  /** With four or more parameters, the cell in row 2, column 1 (parameter
      1 against 2) reads the contour set the exporter built for parameter 0
      against 3. */
  lemma ExportedOrderMismatch(n: nat)
    requires n >= 4
    ensures Slot(1, 2) == 2 < |Exporter.ExportedPairs(n)|
    ensures Exporter.ExportedPairs(n)[Slot(1, 2)] == (0, 3)
  {
    ExportedPairsOpenWithFirstParameter(n, n);
  }

  /** The exporter's list for two parameters is in the grid's order. */
  lemma TwoParametersAgree()
    ensures forall r: nat, c: nat :: c < r < 2 ==>
              Slot(c, r) < |Exporter.ExportedPairs(2)| && Exporter.ExportedPairs(2)[Slot(c, r)] == (c, r)
  {
    Exporter.InnerPairsContents(0, 2);
    Exporter.InnerPairsContents(1, 2);
    assert Exporter.OuterPairs(2, 1) == [(0, 1)];
    assert Exporter.ExportedPairs(2) == [(0, 1)];
  }

  /** The three cells of a three-parameter grid below the diagonal and the
      slots they read. */
  lemma SlotsBelowThree(r: nat, c: nat)
    requires c < r < 3
    ensures || ((r, c) == (1, 0) && Slot(c, r) == 0)
            || ((r, c) == (2, 0) && Slot(c, r) == 1)
            || ((r, c) == (2, 1) && Slot(c, r) == 2)
  {
    if r == 1 {
      assert Slot(c, r) == Slot(0, 1);
    } else if c == 0 {
      assert Slot(c, r) == Slot(0, 2);
    } else {
      assert Slot(c, r) == Slot(1, 2);
    }
  }

  /** The three pairs below three in the grid's order. */
  lemma GridOrderOfThree(e: seq<(nat, nat)>)
    requires |e| == 3 && e[0] == (0, 1) && e[1] == (0, 2) && e[2] == (1, 2)
    ensures forall r: nat, c: nat :: c < r < 3 ==> Slot(c, r) < |e| && e[Slot(c, r)] == (c, r)
  {
    forall r: nat, c: nat | c < r < 3
      ensures Slot(c, r) < |e| && e[Slot(c, r)] == (c, r)
    {
      SlotsBelowThree(r, c);
    }
  }

  /** The exporter's list for three parameters is in the grid's order. The
      count is a parameter fixed by the precondition rather than the literal
      3, so that the solver reasons about `ExportedPairs(n)` through the
      general lemmas about it instead of unfolding the list itself. */
  lemma ThreeParametersAgree(n: nat)
    requires n == 3
    ensures forall r: nat, c: nat :: c < r < n ==>
              Slot(c, r) < |Exporter.ExportedPairs(n)| && Exporter.ExportedPairs(n)[Slot(c, r)] == (c, r)
  {
    var e := Exporter.ExportedPairs(n);
    ExportedPairsOpenWithFirstParameter(n, n);
    Exporter.ExportedPairsContents(n);
    assert |e| == 3;
    assert (1, 2) in e;
    assert e[0] == (0, 1) && e[1] == (0, 2) && e[2] == (1, 2);
    GridOrderOfThree(e);
  }

  /** Every contour cell reads the pair it is drawn for from the
      exporter's list exactly when there are at most three parameters. The
      cell at (r, c) reads index `Slot(c, r)` (`Layout.ContourIndex`). */
  lemma ExportedOrderAgreesIff(n: nat)
    ensures (forall r: nat, c: nat :: c < r < n ==>
               Slot(c, r) < |Exporter.ExportedPairs(n)| && Exporter.ExportedPairs(n)[Slot(c, r)] == (c, r))
            <==> n <= 3
  {
    if n >= 4 {
      ExportedOrderMismatch(n);
      assert Exporter.ExportedPairs(n)[Slot(1, 2)] != (1, 2);
    } else if n == 3 {
      ThreeParametersAgree(n);
    } else if n == 2 {
      TwoParametersAgree();
    }
  }

  /** The corrected order agrees with the grid for every parameter count. */
  lemma ConsumerOrderMatchesLayout(n: nat)
    ensures forall r: nat, c: nat :: c < r < n ==>
              Layout.ContourIndex(r, c) < |Exporter.ConsumerOrderPairs(n)|
              && Exporter.ConsumerOrderPairs(n)[Layout.ContourIndex(r, c)] == (c, r)
  {
  }

  /** Whatever the document, the cell in row 2, column 1 draws contour set
      number 2 on the axes of parameters 1 and 2. */
  lemma CellTwoOneReadsSetTwo(d: Dataset, size: int)
    requires Readable(d) && Layout.ParamNumber(d) >= 3
    ensures var v := Render(d, size)[2][1];
      v.ContourPanel?
      && v.contour.xDomain == d.histMaxMin[1] && v.contour.yDomain == d.histMaxMin[2]
      && v.contour.shapes == ContourPlot.Shapes(d.contourData[2], d.histMaxMin[1], d.histMaxMin[2], size, Layout.ContourLevels)
  {
    assert Render(d, size)[2][1] == ViewOf(d, size, 2, 1);
    Layout.LayoutTopRows();
  }

  /** In the as-written output of four or more parameters, contour set
      number 2 is that of parameter 0 against 3. */
  lemma AsWrittenSetTwo(keys: seq<string>, hists: seq<Exporter.Hist1D>, raw: (nat, nat) -> PairContours,
                        summary: string -> Exporter.Summary)
    requires |hists| == |keys| >= 4
    requires forall i :: 0 <= i < |hists| ==> Exporter.Drawable(hists[i])
    ensures var d := Exporter.ResultToJsonAsWritten(keys, hists, raw, summary);
      Readable(d) && Layout.ParamNumber(d) == |keys|
      && d.contourData[2] == Exporter.ClipContours(raw(0, 3), Some((d.histMaxMin[0], d.histMaxMin[3])))
  {
    ExportedOrderMismatch(|keys|);
  }

  /** The page fed the as-written output of four or more parameters draws,
      in row 2, column 1, the contours of parameter 0 against 3, clipped to
      their windows, on the axes of parameters 1 and 2. */
  lemma AsWrittenCellShowsWrongPair(keys: seq<string>, hists: seq<Exporter.Hist1D>, raw: (nat, nat) -> PairContours,
                                    summary: string -> Exporter.Summary, size: int)
    requires |hists| == |keys| >= 4
    requires forall i :: 0 <= i < |hists| ==> Exporter.Drawable(hists[i])
    ensures var d := Exporter.ResultToJsonAsWritten(keys, hists, raw, summary);
      Readable(d) &&
      var v := Render(d, size)[2][1];
      var drawn := Exporter.ClipContours(raw(0, 3), Some((d.histMaxMin[0], d.histMaxMin[3])));
      v.ContourPanel?
      && v.contour.xDomain == d.histMaxMin[1] && v.contour.yDomain == d.histMaxMin[2]
      && v.contour.shapes == ContourPlot.Shapes(drawn, d.histMaxMin[1], d.histMaxMin[2], size, Layout.ContourLevels)
  {
    AsWrittenSetTwo(keys, hists, raw, summary);
    CellTwoOneReadsSetTwo(Exporter.ResultToJsonAsWritten(keys, hists, raw, summary), size);
  }
}
