/** One diagonal cell of Histogram.js: the marginal histogram of one
    parameter as a line, its x axis, and the median and credible-interval
    lines with the title above the cell. */
module Histogram {

  import opened Types
  import opened Axes

  /** `dataMap`: each pair `[x, y]` becomes the point `{x, y}`, in order. */
  function DataMap(arr: seq<Pair>): (r: seq<XY>)
    ensures |r| == |arr|
  {
    seq(|arr|, k requires 0 <= k < |arr| => XY(arr[k].0, arr[k].1))
  }

  /** Points back to pairs. */
  function Unmap(pts: seq<XY>): (r: seq<Pair>)
    ensures |r| == |pts|
  {
    seq(|pts|, k requires 0 <= k < |pts| => (pts[k].x, pts[k].y))
  }

  /** `dataMap` only renames the two coordinates: it is a bijection between
      pair lists and point lists. */
  lemma DataMapRoundTrip(arr: seq<Pair>, pts: seq<XY>)
    ensures Unmap(DataMap(arr)) == arr
    ensures DataMap(Unmap(pts)) == pts
  {
    assert forall k :: 0 <= k < |arr| ==> Unmap(DataMap(arr))[k] == arr[k];
    assert forall k :: 0 <= k < |pts| ==> DataMap(Unmap(pts))[k] == pts[k];
  }

  /** The three vertical reference lines: the median, and the lower and
      upper ends of the credible interval. */
  datatype RefLines = RefLines(centre: real, lower: real, upper: real)

  /** `param_stat[1]`, `param_stat[1] - param_stat[2]` and
      `param_stat[1] + param_stat[3]`. */
  function ReferenceLines(stat: ParamStat): (r: RefLines)
    ensures r.centre == stat.median
    ensures r.centre - r.lower == stat.minus && r.upper - r.centre == stat.plus
  {
    RefLines(stat.median, stat.median - stat.minus, stat.median + stat.plus)
  }

  /** The dashed lines enclose the median line exactly when both error
      widths are non-negative, and they are `minus + plus` apart. */
  lemma ReferenceLinesOrdered(stat: ParamStat)
    ensures var r := ReferenceLines(stat);
      (r.lower <= r.centre <= r.upper <==> stat.minus >= 0.0 && stat.plus >= 0.0)
      && r.upper - r.lower == stat.minus + stat.plus
  {
  }

  /** The median and its two error widths; the cell shows them above its
      top border as `median -minus` with `+plus` raised after it. */
  datatype Title = Title(median: real, minus: real, plus: real)

  /** What one histogram cell hands to the chart library. Tick labels and
      the axis title share one flag, so a present label means visible tick
      text too. */
  datatype HistogramView = HistogramView(
    points: seq<XY>,
    xDomain: Window,
    xTicks: seq<real>,
    xLabel: Option<string>,
    title: Title,
    titleX: real,
    lines: RefLines)

  /** `HistogramPlot({inpdata, maxmin, size, x_show, param_stat})`. The y
      axis has no fixed domain; the chart library picks it. */
  function HistogramPlot(inpdata: seq<Pair>, maxmin: Window, size: int, xShow: bool, stat: ParamStat): (v: HistogramView)
    ensures Unmap(v.points) == inpdata
    ensures v.xDomain == maxmin && |v.xTicks| == NumTicks
    ensures v.xTicks == Ticks(maxmin.lo, maxmin.hi, NumTicks)
    ensures v.xLabel == (if xShow then Some(stat.key) else None)
    ensures v.title.median == stat.median && v.title.minus == stat.minus && v.title.plus == stat.plus
    ensures v.title.median == v.lines.centre
    ensures v.lines.centre - v.lines.lower == v.title.minus && v.lines.upper - v.lines.centre == v.title.plus
  {
    DataMapRoundTrip(inpdata, []);
    HistogramView(
      DataMap(inpdata),
      maxmin,
      Ticks(maxmin.lo, maxmin.hi, NumTicks),
      if xShow then Some(stat.key) else None,
      Title(stat.median, stat.minus, stat.plus),
      size as real / 2.0,
      ReferenceLines(stat))
  }

  /** A histogram line whose x values lie in the cell's domain is drawn
      between the cell's left and right plotting edges. */
  lemma PointsInside(v: HistogramView, size: int)
    requires size >= 2 * Inset
    requires forall k :: 0 <= k < |v.points| ==> v.xDomain.Contains(v.points[k].x)
    ensures forall k :: 0 <= k < |v.points| ==>
              Inset as real <= XScale(v.xDomain, size, v.points[k].x) <= (size - Inset) as real
  {
    forall k | 0 <= k < |v.points|
      ensures Inset as real <= XScale(v.xDomain, size, v.points[k].x) <= (size - Inset) as real
    {
      ScalesStayInside(v.xDomain, v.xDomain, size, v.points[k].x, v.points[k].x);
    }
  }
}
