/** Axis geometry shared by the contour and histogram cells: the fixed inset
    tick formula (written out identically in src/CornerPlot.js and
    Histogram.js) and the linear data-to-pixel scales of d3's `scaleLinear`. */
module Axes {

  import opened Types

  /** Chart margin on every side of a cell, in pixels. */
  const Margin: int := 5

  /** Width of the axis line drawn on every side of a cell, in pixels. */
  const AxisMargin: int := 1

  /** Distance from the cell border to the plotting area. */
  const Inset: int := Margin + AxisMargin

  /** Both cell kinds place three ticks per axis. */
  const NumTicks: nat := 3

  /** Fraction of the domain's width skipped before the first tick. */
  const TickOffset: real := 0.16

  function Abs(x: real): real {
    if x < 0.0 then -x else x
  }

  /** `createTicks(min, max, count)`: `count` evenly spaced ticks starting
      16% of the domain's width above `min`. */
  function Ticks(min: real, max: real, count: nat): (r: seq<real>)
    ensures |r| == count
    ensures count > 0 ==> r[0] == min + Abs(max - min) * TickOffset
  {
    var span := Abs(max - min);
    seq(count, k requires 0 <= k < count => min + span * TickOffset + (k as real) * span / (count as real))
  }

  lemma DivideSum(x: real, y: real, c: real)
    requires c > 0.0
    ensures (x + y) / c == x / c + y / c
  {
    assert (x / c) * c == x && (y / c) * c == y;
    assert (x / c + y / c) * c == x + y;
  }

  /** Tick `k` is the first tick plus `k` equal steps. */
  lemma TickAsSteps(min: real, max: real, count: nat, k: nat)
    requires k < count
    ensures Ticks(min, max, count)[k]
         == min + Abs(max - min) * TickOffset + (k as real) * (Abs(max - min) / (count as real))
  {
    var c := count as real;
    var span := Abs(max - min);
    var q := span / c;
    assert span == q * c;
    assert (k as real) * span / c == (k as real) * q;
  }

  /** Neighbouring ticks are one step of `|max - min| / count` apart. */
  lemma TickStep(min: real, max: real, count: nat, k: nat)
    requires k + 1 < count
    ensures Ticks(min, max, count)[k + 1] == Ticks(min, max, count)[k] + Abs(max - min) / (count as real)
  {
    var span := Abs(max - min);
    assert ((k + 1) as real) * span == (k as real) * span + span;
    DivideSum((k as real) * span, span, count as real);
  }

  /** The ticks are strictly increasing exactly when the domain has width. */
  lemma TicksIncreasingIffProperDomain(min: real, max: real, count: nat)
    requires count >= 2
    ensures (forall a, b :: 0 <= a < b < count ==> Ticks(min, max, count)[a] < Ticks(min, max, count)[b])
            <==> min != max
  {
    var t := Ticks(min, max, count);
    var q := Abs(max - min) / (count as real);
    if min != max {
      assert q > 0.0;
      forall a, b | 0 <= a < b < count
        ensures t[a] < t[b]
      {
        TickAsSteps(min, max, count, a);
        TickAsSteps(min, max, count, b);
        assert (b as real) * q - (a as real) * q == ((b - a) as real) * q;
        assert ((b - a) as real) * q >= q by {
          assert ((b - a) as real) * q == q + ((b - a - 1) as real) * q;
          assert ((b - a - 1) as real) * q >= 0.0;
        }
        assert t[b] - t[a] == ((b - a) as real) * q;
      }
    } else {
      TickAsSteps(min, max, count, 0);
      TickAsSteps(min, max, count, 1);
      assert t[0] == t[1];
    }
  }

  /** A zero-width domain yields `count` copies of `min`. */
  lemma TicksOfDegenerateDomain(v: real, count: nat)
    ensures forall k :: 0 <= k < count ==> Ticks(v, v, count)[k] == v
  {
  }

  /** Six steps of one sixth or less of the domain, after the 16% offset,
      stay below its top; seven or more reach it. */
  lemma OffsetPlusStepsBelowOne(count: nat)
    requires count >= 1
    ensures TickOffset + ((count - 1) as real) / (count as real) < 1.0 <==> count <= 6
  {
    var c := count as real;
    assert ((count - 1) as real) / c == 1.0 - 1.0 / c;
    if count <= 6 {
      assert c * TickOffset < 1.0;
      assert 1.0 / c > TickOffset;
    } else {
      assert c * TickOffset >= 1.0;
      assert 1.0 / c <= TickOffset;
    }
  }

  lemma ScaleAtLeast(x: real, f: real)
    requires x > 0.0 && f >= 1.0
    ensures x * f >= x
  {
    assert x * f == x + x * (f - 1.0);
  }

  /** The last tick sits the offset plus `count - 1` steps above `min`. */
  lemma LastTick(min: real, max: real, count: nat)
    requires min < max && count >= 1
    ensures Ticks(min, max, count)[count - 1]
         == min + (max - min) * (TickOffset + ((count - 1) as real) / (count as real))
  {
    var span := max - min;
    var c := count as real;
    TickAsSteps(min, max, count, count - 1);
    assert ((count - 1) as real) * (span / c) == span * (((count - 1) as real) / c);
  }

  lemma TicksInsideWhenAtMostSix(min: real, max: real, count: nat)
    requires min < max && 1 <= count <= 6
    ensures forall k :: 0 <= k < count ==> min < Ticks(min, max, count)[k] < max
  {
    var t := Ticks(min, max, count);
    OffsetPlusStepsBelowOne(count);
    LastTick(min, max, count);
    ScaleBelow(max - min, TickOffset + ((count - 1) as real) / (count as real));
    assert t[count - 1] < max;
    assert t[0] > min;
    if count >= 2 {
      TicksIncreasingIffProperDomain(min, max, count);
    }
    forall k | 0 <= k < count
      ensures min < t[k] < max
    {
      assert t[0] <= t[k] <= t[count - 1];
    }
  }

  lemma ScaleBelow(x: real, f: real)
    requires x > 0.0 && f < 1.0
    ensures x * f < x
  {
    assert x - x * f == x * (1.0 - f);
  }

  lemma LastTickBeyondSix(min: real, max: real, count: nat)
    requires min < max && count > 6
    ensures Ticks(min, max, count)[count - 1] >= max
  {
    OffsetPlusStepsBelowOne(count);
    LastTick(min, max, count);
    ScaleAtLeast(max - min, TickOffset + ((count - 1) as real) / (count as real));
  }

  /** On an increasing domain every tick lies strictly inside it exactly when
      at most six ticks are asked for; the axes ask for three. */
  lemma TicksInsideIffAtMostSix(min: real, max: real, count: nat)
    requires min < max && count >= 1
    ensures (forall k :: 0 <= k < count ==> min < Ticks(min, max, count)[k] < max) <==> count <= 6
  {
    if count <= 6 {
      TicksInsideWhenAtMostSix(min, max, count);
    } else {
      LastTickBeyondSix(min, max, count);
    }
  }

  /** d3's `scaleLinear(domain [d0, d1], range [r0, r1])` applied to `v`:
      normalise to `t`, then interpolate `r0 * (1 - t) + r1 * t`. A
      zero-width domain normalises every value to one half. There is no
      clamping. */
  function Linear(d0: real, d1: real, r0: real, r1: real, v: real): real {
    if d0 == d1 then
      (r0 + r1) / 2.0
    else
      var t := (v - d0) / (d1 - d0);
      r0 * (1.0 - t) + r1 * t
  }

  /** The pixel-to-data partner of `Linear` (d3's `scale.invert`). */
  function Unlinear(d0: real, d1: real, r0: real, r1: real, p: real): real {
    Linear(r0, r1, d0, d1, p)
  }

  lemma LinearEndpoints(d0: real, d1: real, r0: real, r1: real)
    requires d0 != d1
    ensures Linear(d0, d1, r0, r1, d0) == r0
    ensures Linear(d0, d1, r0, r1, d1) == r1
  {
    assert (d1 - d0) / (d1 - d0) == 1.0;
  }

  /** Lines are preserved: the image of a weighted mean is the weighted mean
      of the images. */
  lemma LinearIsAffine(d0: real, d1: real, r0: real, r1: real, u: real, v: real, a: real)
    ensures Linear(d0, d1, r0, r1, a * u + (1.0 - a) * v)
         == a * Linear(d0, d1, r0, r1, u) + (1.0 - a) * Linear(d0, d1, r0, r1, v)
  {
    if d0 != d1 {
      var w := d1 - d0;
      var tu := (u - d0) / w;
      var tv := (v - d0) / w;
      assert (a * u + (1.0 - a) * v - d0) / w == a * tu + (1.0 - a) * tv;
    }
  }

  /** An increasing domain mapped onto an increasing range keeps order strictly. */
  lemma LinearStrictlyIncreasing(d0: real, d1: real, r0: real, r1: real, u: real, v: real)
    requires d0 < d1 && r0 < r1 && u < v
    ensures Linear(d0, d1, r0, r1, u) < Linear(d0, d1, r0, r1, v)
  {
    var w := d1 - d0;
    assert (v - d0) / w - (u - d0) / w == (v - u) / w;
    assert Linear(d0, d1, r0, r1, v) - Linear(d0, d1, r0, r1, u) == (r1 - r0) * ((v - u) / w);
  }

  /** A value between the domain's ends lands between the range's ends,
      whichever way round either is given. */
  lemma LinearWithinRange(d0: real, d1: real, r0: real, r1: real, v: real)
    requires r0 <= r1
    requires d0 <= v <= d1 || d1 <= v <= d0
    ensures r0 <= Linear(d0, d1, r0, r1, v) <= r1
  {
    if d0 != d1 {
      var t := UnitPosition(d0, d1, v);
      assert Linear(d0, d1, r0, r1, v) == r0 * (1.0 - t) + r1 * t;
      ConvexBetween(r0, r1, t);
    }
  }

  /** Where `v` sits between `d0` and `d1`, as a fraction of the way. */
  lemma UnitPosition(d0: real, d1: real, v: real) returns (t: real)
    requires d0 != d1
    requires d0 <= v <= d1 || d1 <= v <= d0
    ensures t == (v - d0) / (d1 - d0)
    ensures 0.0 <= t <= 1.0
  {
    t := (v - d0) / (d1 - d0);
    if d0 < d1 {
      QuotientInUnit(v - d0, d1 - d0);
    } else {
      QuotientOfNegativesInUnit(v - d0, d1 - d0);
    }
  }

  lemma ProductNonNegative(a: real, b: real)
    requires a >= 0.0 && b >= 0.0
    ensures a * b >= 0.0
  {
  }

  /** A weighted mean of two ordered values lies between them. */
  lemma ConvexBetween(r0: real, r1: real, t: real)
    requires r0 <= r1 && 0.0 <= t <= 1.0
    ensures r0 <= r0 * (1.0 - t) + r1 * t <= r1
  {
    ProductNonNegative(t, r1 - r0);
    ProductNonNegative(1.0 - t, r1 - r0);
    assert r0 * (1.0 - t) + r1 * t - r0 == t * (r1 - r0);
    assert r1 - (r0 * (1.0 - t) + r1 * t) == (1.0 - t) * (r1 - r0);
  }

  lemma QuotientInUnit(a: real, b: real)
    requires 0.0 <= a <= b && b > 0.0
    ensures 0.0 <= a / b <= 1.0
  {
  }

  lemma QuotientOfNegativesInUnit(a: real, b: real)
    requires b <= a <= 0.0 && b < 0.0
    ensures 0.0 <= a / b <= 1.0
  {
  }

  /** Mapping to pixels and back returns the value, as long as neither the
      domain nor the pixel range is collapsed. */
  lemma LinearRoundTrip(d0: real, d1: real, r0: real, r1: real, v: real)
    requires d0 != d1 && r0 != r1
    ensures Unlinear(d0, d1, r0, r1, Linear(d0, d1, r0, r1, v)) == v
  {
    var t := (v - d0) / (d1 - d0);
    var p := r0 * (1.0 - t) + r1 * t;
    assert (p - r0) / (r1 - r0) == t;
    assert d0 * (1.0 - t) + d1 * t == v;
  }

  /** `plotCoordsConvert_x`: the domain `[lo, hi]` onto the pixels from the
      left inset to `size` minus the right inset. */
  function XScale(w: Window, size: int, v: real): real {
    Linear(w.lo, w.hi, Inset as real, (size - Inset) as real, v)
  }

  /** `plotCoordsConvert_y`: the domain reversed, `[hi, lo]`, onto the same
      pixels, because pixel rows grow downwards. */
  function YScale(w: Window, size: int, v: real): real {
    Linear(w.hi, w.lo, Inset as real, (size - Inset) as real, v)
  }

  /** The x scale sends the domain's ends to the plotting area's left and
      right edges and keeps order. */
  lemma XScaleFitsDomain(w: Window, size: int)
    requires w.lo < w.hi
    ensures XScale(w, size, w.lo) == Inset as real
    ensures XScale(w, size, w.hi) == (size - Inset) as real
    ensures size > 2 * Inset ==> forall u, v :: u < v ==> XScale(w, size, u) < XScale(w, size, v)
  {
    LinearEndpoints(w.lo, w.hi, Inset as real, (size - Inset) as real);
    if size > 2 * Inset {
      forall u: real, v: real | u < v
        ensures XScale(w, size, u) < XScale(w, size, v)
      {
        LinearStrictlyIncreasing(w.lo, w.hi, Inset as real, (size - Inset) as real, u, v);
      }
    }
  }

  /** The y scale sends the domain's top to the plotting area's top row and
      its bottom to the bottom row, reversing order. */
  lemma YScaleFitsDomain(w: Window, size: int)
    requires w.lo < w.hi
    ensures YScale(w, size, w.hi) == Inset as real
    ensures YScale(w, size, w.lo) == (size - Inset) as real
    ensures size > 2 * Inset ==> forall u, v :: u < v ==> YScale(w, size, u) > YScale(w, size, v)
  {
    LinearEndpoints(w.hi, w.lo, Inset as real, (size - Inset) as real);
    if size > 2 * Inset {
      forall u: real, v: real | u < v
        ensures YScale(w, size, u) > YScale(w, size, v)
      {
        var a := YScale(w, size, u);
        var b := YScale(w, size, v);
        var d := w.hi - w.lo;
        assert a - b == ((size - 2 * Inset) as real) * ((v - u) / d) by {
          assert (u - w.hi) / (w.lo - w.hi) == (w.hi - u) / d;
          assert (v - w.hi) / (w.lo - w.hi) == (w.hi - v) / d;
          assert (w.hi - u) / d - (w.hi - v) / d == (v - u) / d;
        }
      }
    }
  }

  /** A value inside the domain, even a zero-width one, is drawn inside the
      plotting area when the cell is at least twice the inset wide. */
  lemma ScalesStayInside(xw: Window, yw: Window, size: int, u: real, v: real)
    requires size >= 2 * Inset
    requires xw.Contains(u) && yw.Contains(v)
    ensures Inset as real <= XScale(xw, size, u) <= (size - Inset) as real
    ensures Inset as real <= YScale(yw, size, v) <= (size - Inset) as real
  {
    LinearWithinRange(xw.lo, xw.hi, Inset as real, (size - Inset) as real, u);
    LinearWithinRange(yw.hi, yw.lo, Inset as real, (size - Inset) as real, v);
  }
}
