/** One contour cell of src/CornerPlot.js: its two axes, the filled polygons
    of a pair's contour lines projected to pixels, and the joint median
    marker with its two guide lines. Painting is left to the chart library. */
module ContourPlot {

  import opened Types
  import opened Axes

  datatype Pixel = Pixel(px: real, py: real)

  /** `CustomReferenceArea`: each vertex `[x, y]` of one contour line
      becomes the pixel `(x scale of x, y scale of y)`, in input order. The
      polygon is left open; the renderer closes it. */
  function Project(seg: Segment, xw: Window, yw: Window, size: int): (r: seq<Pixel>)
    ensures |r| == |seg|
  {
    seq(|seg|, k requires 0 <= k < |seg| => Pixel(XScale(xw, size, seg[k].0), YScale(yw, size, seg[k].1)))
  }

  /** Pixels back to data coordinates, through the scales' inverses. */
  function Unproject(ps: seq<Pixel>, xw: Window, yw: Window, size: int): (r: Segment)
    ensures |r| == |ps|
  {
    var left := Inset as real;
    var right := (size - Inset) as real;
    seq(|ps|, k requires 0 <= k < |ps| =>
      (Unlinear(xw.lo, xw.hi, left, right, ps[k].px), Unlinear(yw.hi, yw.lo, left, right, ps[k].py)))
  }

  /** Projection loses nothing: unless an axis or the cell is collapsed, the
      contour line is read back exactly. */
  lemma ProjectRoundTrip(seg: Segment, xw: Window, yw: Window, size: int)
    requires xw.lo != xw.hi && yw.lo != yw.hi && size != 2 * Inset
    ensures Unproject(Project(seg, xw, yw, size), xw, yw, size) == seg
  {
    var back := Unproject(Project(seg, xw, yw, size), xw, yw, size);
    forall k | 0 <= k < |seg|
      ensures back[k] == seg[k]
    {
      LinearRoundTrip(xw.lo, xw.hi, Inset as real, (size - Inset) as real, seg[k].0);
      LinearRoundTrip(yw.hi, yw.lo, Inset as real, (size - Inset) as real, seg[k].1);
    }
  }

  /** Projection works vertex by vertex, so it keeps the order of a line
      split anywhere. */
  lemma ProjectConcat(a: Segment, b: Segment, xw: Window, yw: Window, size: int)
    ensures Project(a + b, xw, yw, size) == Project(a, xw, yw, size) + Project(b, xw, yw, size)
  {
  }

  /** The pixel lies in the plotting area of a `size` by `size` cell. */
  predicate InPlotArea(p: Pixel, size: int) {
    Inset as real <= p.px <= (size - Inset) as real && Inset as real <= p.py <= (size - Inset) as real
  }

  /** A line inside the cell's domains is drawn inside its plotting area. */
  lemma ProjectInside(seg: Segment, xw: Window, yw: Window, size: int)
    requires size >= 2 * Inset
    requires forall k :: 0 <= k < |seg| ==> xw.Contains(seg[k].0) && yw.Contains(seg[k].1)
    ensures forall k :: 0 <= k < |seg| ==> InPlotArea(Project(seg, xw, yw, size)[k], size)
  {
    forall k | 0 <= k < |seg|
      ensures InPlotArea(Project(seg, xw, yw, size)[k], size)
    {
      ScalesStayInside(xw, yw, size, seg[k].0, seg[k].1);
    }
  }

  /** `col(level)` with `col = scaleLinear([0, levels], ...)`: how far along
      the light-to-dark gradient the polygons of a level are filled. */
  function ColourKey(level: nat, levels: nat): real {
    Linear(0.0, levels as real, 0.0, 1.0, level as real)
  }

  /** Deeper levels are darker: the key rises strictly with the level, from
      0 at level 0 to 1 at `levels`. */
  lemma ColourKeyOrder(levels: nat)
    requires levels > 0
    ensures ColourKey(0, levels) == 0.0 && ColourKey(levels, levels) == 1.0
    ensures forall a: nat, b: nat :: a < b ==> ColourKey(a, levels) < ColourKey(b, levels)
    ensures forall l: nat :: l <= levels ==> 0.0 <= ColourKey(l, levels) <= 1.0
  {
    LinearEndpoints(0.0, levels as real, 0.0, 1.0);
    forall a: nat, b: nat | a < b
      ensures ColourKey(a, levels) < ColourKey(b, levels)
    {
      LinearStrictlyIncreasing(0.0, levels as real, 0.0, 1.0, a as real, b as real);
    }
    forall l: nat | l <= levels
      ensures 0.0 <= ColourKey(l, levels) <= 1.0
    {
      LinearWithinRange(0.0, levels as real, 0.0, 1.0, l as real);
    }
  }

  /** With `levels = 2` bilby's three levels are filled at 0, 1/2 and 1. */
  lemma BilbyLevelTones()
    ensures ColourKey(0, 2) == 0.0 && ColourKey(1, 2) == 0.5 && ColourKey(2, 2) == 1.0
  {
  }

  /** One `ReferenceArea` polygon: its pixel outline and its fill key. */
  datatype Shape = Shape(vertices: seq<Pixel>, tone: real)

  /** The number of contour lines over all levels. */
  function SegmentCount(data: PairContours): nat {
    if |data| == 0 then 0 else SegmentCount(data[..|data| - 1]) + |data[|data| - 1]|
  }

  /** The polygons of one level, keyed by the level's index. */
  function LevelShapes(level: Level, index: nat, xw: Window, yw: Window, size: int, levels: nat): (r: seq<Shape>)
    ensures |r| == |level|
  {
    seq(|level|, s requires 0 <= s < |level| => Shape(Project(level[s], xw, yw, size), ColourKey(index, levels)))
  }

  /** `inpdata.map((contourSet, baseindex) => contourSet.map(contour => ...))`:
      one polygon per contour line, level after level. */
  function Shapes(data: PairContours, xw: Window, yw: Window, size: int, levels: nat): (r: seq<Shape>)
    ensures |r| == SegmentCount(data)
    decreases |data|
  {
    if |data| == 0 then []
    else
      Shapes(data[..|data| - 1], xw, yw, size, levels)
      + LevelShapes(data[|data| - 1], |data| - 1, xw, yw, size, levels)
  }

  /** Line `s` of level `l` is polygon number `SegmentCount(data[..l]) + s`:
      its projected outline, filled by the key of `l`. */
  lemma {:induction false} ShapesIndex(data: PairContours, xw: Window, yw: Window, size: int, levels: nat)
    ensures forall l :: 0 <= l < |data| ==>
              SegmentCount(data[..l]) + |data[l]| <= |Shapes(data, xw, yw, size, levels)|
    ensures forall l, s :: 0 <= l < |data| && 0 <= s < |data[l]| ==>
              Shapes(data, xw, yw, size, levels)[SegmentCount(data[..l]) + s]
              == Shape(Project(data[l][s], xw, yw, size), ColourKey(l, levels))
  {
    if |data| > 0 {
      var last := |data| - 1;
      var front := data[..last];
      ShapesIndex(front, xw, yw, size, levels);
      var head := Shapes(front, xw, yw, size, levels);
      var tail := LevelShapes(data[last], last, xw, yw, size, levels);
      assert Shapes(data, xw, yw, size, levels) == head + tail;
      forall l | 0 <= l < |data|
        ensures SegmentCount(data[..l]) + |data[l]| <= |Shapes(data, xw, yw, size, levels)|
      {
        if l < last {
          assert front[..l] == data[..l];
          assert front[l] == data[l];
        } else {
          assert data[..l] == front;
        }
      }
      forall l, s | 0 <= l < |data| && 0 <= s < |data[l]|
        ensures Shapes(data, xw, yw, size, levels)[SegmentCount(data[..l]) + s]
                == Shape(Project(data[l][s], xw, yw, size), ColourKey(l, levels))
      {
        var x := SegmentCount(data[..l]) + s;
        if l < last {
          assert front[..l] == data[..l];
          assert front[l] == data[l];
          assert x < |head|;
          assert head[x] == Shape(Project(data[l][s], xw, yw, size), ColourKey(l, levels));
        } else {
          assert data[..l] == front;
          assert x == |head| + s;
          assert tail[s] == Shape(Project(data[l][s], xw, yw, size), ColourKey(l, levels));
        }
      }
    }
  }

  /** Every contour line inside the cell's domains yields polygons drawn
      inside its plotting area. */
  lemma {:induction false} ShapesInside(data: PairContours, xw: Window, yw: Window, size: int, levels: nat)
    requires size >= 2 * Inset
    requires forall l, s, k :: 0 <= l < |data| && 0 <= s < |data[l]| && 0 <= k < |data[l][s]| ==>
               xw.Contains(data[l][s][k].0) && yw.Contains(data[l][s][k].1)
    ensures forall q, k :: 0 <= q < |Shapes(data, xw, yw, size, levels)|
              && 0 <= k < |Shapes(data, xw, yw, size, levels)[q].vertices|
              ==> InPlotArea(Shapes(data, xw, yw, size, levels)[q].vertices[k], size)
  {
    if |data| > 0 {
      var last := |data| - 1;
      var front := data[..last];
      ShapesInside(front, xw, yw, size, levels);
      var head := Shapes(front, xw, yw, size, levels);
      var tail := LevelShapes(data[last], last, xw, yw, size, levels);
      forall s | 0 <= s < |data[last]|
        ensures forall k :: 0 <= k < |tail[s].vertices| ==> InPlotArea(tail[s].vertices[k], size)
      {
        ProjectInside(data[last][s], xw, yw, size);
      }
    }
  }

  /** The joint median marker and its two guide lines. */
  datatype JointOverlay = JointOverlay(marker: XY, guideX: real, guideY: real)

  /** The `Scatter` point at `(param_stat_x[1], param_stat_y[1])` and the two
      `ReferenceLine`s through it; unlike the histogram cell there are no
      lines at minus or plus. */
  function Joint(statX: ParamStat, statY: ParamStat): (o: JointOverlay)
    ensures o.marker == XY(statX.median, statY.median)
    ensures o.guideX == statX.median && o.guideY == statY.median
    ensures o.marker.x == o.guideX && o.marker.y == o.guideY
  {
    JointOverlay(XY(statX.median, statY.median), statX.median, statY.median)
  }

  /** What one contour cell hands to the chart library. Tick labels and the
      axis title share one flag per axis, so a present label means visible
      tick text too. */
  datatype ContourView = ContourView(
    xDomain: Window,
    yDomain: Window,
    xTicks: seq<real>,
    yTicks: seq<real>,
    xLabel: Option<string>,
    yLabel: Option<string>,
    shapes: seq<Shape>,
    overlay: JointOverlay)

  /** `CornerPlot({inpdata, x_maxmin, y_maxmin, size, x_show, y_show,
      levels, param_stat_x, param_stat_y})`. */
  function CornerPlot(inpdata: PairContours, xmm: Window, ymm: Window, size: int, xShow: bool, yShow: bool,
                      levels: nat, statX: ParamStat, statY: ParamStat): (v: ContourView)
    ensures v.xDomain == xmm && v.yDomain == ymm
    ensures v.xTicks == Ticks(xmm.lo, xmm.hi, NumTicks) && v.yTicks == Ticks(ymm.lo, ymm.hi, NumTicks)
    ensures |v.xTicks| == NumTicks && |v.yTicks| == NumTicks
    ensures v.shapes == Shapes(inpdata, xmm, ymm, size, levels)
    ensures |v.shapes| == SegmentCount(inpdata)
    ensures v.xLabel == (if xShow then Some(statX.key) else None)
    ensures v.yLabel == (if yShow then Some(statY.key) else None)
    ensures v.overlay.marker == XY(statX.median, statY.median)
    ensures v.overlay.guideX == statX.median && v.overlay.guideY == statY.median
  {
    ContourView(
      xmm, ymm,
      Ticks(xmm.lo, xmm.hi, NumTicks), Ticks(ymm.lo, ymm.hi, NumTicks),
      if xShow then Some(statX.key) else None,
      if yShow then Some(statY.key) else None,
      Shapes(inpdata, xmm, ymm, size, levels),
      Joint(statX, statY))
  }
}
