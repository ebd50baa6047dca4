/** The Python exporter: turns per-parameter histograms and per-pair contour
    lines (computed by numpy, scipy and matplotlib, which are parameters here)
    into the JSON document the grid reads. */
module Exporter {

  import opened Types
  import opened Triangle

  // ---------------------------------------------------------------------
  // Histogram step paths
  // ---------------------------------------------------------------------

  /** `np.repeat(s, 2)`: every element twice, in order. */
  function Repeat2(s: seq<real>): (r: seq<real>)
    ensures |r| == 2 * |s|
    ensures forall i :: 0 <= i < |r| ==> r[i] == s[i / 2]
  {
    seq(2 * |s|, i requires 0 <= i < 2 * |s| => s[i / 2])
  }

  /** Every other element, starting with the first. */
  function Halve(t: seq<real>): (r: seq<real>)
    ensures |r| == |t| / 2
  {
    seq(|t| / 2, k requires 0 <= k < |t| / 2 => t[2 * k])
  }

  lemma HalveRepeat2(s: seq<real>)
    ensures Halve(Repeat2(s)) == s
  {
  }

  /** `np.concatenate(([0], r, [0]))`. */
  function Pad(r: seq<real>): (p: seq<real>)
    ensures |p| == |r| + 2
    ensures p[0] == 0.0 && p[|p| - 1] == 0.0
    ensures forall i :: 1 <= i < |p| - 1 ==> p[i] == r[i - 1]
  {
    [0.0] + r + [0.0]
  }

  /** The two coordinate lists of a histogram's outline. */
  datatype Line = Line(xs: seq<real>, ys: seq<real>)

  /** `_histogram_to_line(n, bin_edges)`: a step outline that rises from zero
      at the first edge, runs flat across each bin at its count, and falls
      back to zero at the last edge. */
  function HistogramToLine(counts: seq<real>, edges: seq<real>): (l: Line)
    ensures |l.xs| == 2 * |edges|
    ensures |l.ys| == 2 * |counts| + 2
    ensures l.ys[0] == 0.0 && l.ys[|l.ys| - 1] == 0.0
    ensures forall i :: 0 <= i < |l.xs| ==> l.xs[i] == edges[i / 2]
    ensures forall i :: 1 <= i < |l.ys| - 1 ==> l.ys[i] == counts[(i - 1) / 2]
  {
    Line(Repeat2(edges), Pad(Repeat2(counts)))
  }

  /** Reads the counts and edges back off an outline. */
  function LineToHistogram(l: Line): (ce: (seq<real>, seq<real>))
    requires |l.ys| >= 2
  {
    (seq((|l.ys| - 2) / 2, k requires 0 <= k < (|l.ys| - 2) / 2 => l.ys[2 * k + 1]), Halve(l.xs))
  }

  /** The outline loses nothing: counts and edges are recovered from it. */
  lemma HistogramLineRoundTrip(counts: seq<real>, edges: seq<real>)
    ensures LineToHistogram(HistogramToLine(counts, edges)) == (counts, edges)
  {
    var l := HistogramToLine(counts, edges);
    HalveRepeat2(edges);
    var back := LineToHistogram(l);
    assert |back.0| == |counts|;
    forall k | 0 <= k < |counts|
      ensures back.0[k] == counts[k]
    {
      assert back.0[k] == l.ys[2 * k + 1];
    }
    assert back.0 == counts;
  }

  /** `[[x_temp[j], y_temp[j]] for j in range(len(x_temp))]`: one point per
      x value; the y list must be at least as long. */
  function Zip(xs: seq<real>, ys: seq<real>): (r: seq<Pair>)
    requires |xs| <= |ys|
    ensures |r| == |xs|
  {
    seq(|xs|, j requires 0 <= j < |xs| => (xs[j], ys[j]))
  }

  /** One `hist_data` entry: the outline of one histogram as points. The zip
      needs at most one more edge than counts. */
  function HistogramPath(counts: seq<real>, edges: seq<real>): (p: seq<Pair>)
    requires |edges| <= |counts| + 1
    ensures |p| == 2 * |edges|
  {
    var l := HistogramToLine(counts, edges);
    Zip(l.xs, l.ys)
  }

  /** Point `j` of the path pairs the `j`-th x with the `j`-th y of the outline. */
  lemma HistogramPathAt(counts: seq<real>, edges: seq<real>, j: nat)
    requires |edges| <= |counts| + 1 && j < 2 * |edges|
    ensures HistogramPath(counts, edges)[j]
         == (HistogramToLine(counts, edges).xs[j], HistogramToLine(counts, edges).ys[j])
  {
  }

  /** With numpy's `|edges| == |counts| + 1` the path starts and ends on the
      x axis at the outer edges and alternates moves: vertical at every edge,
      horizontal across every bin at the bin's count. */
  lemma HistogramPathIsStepPath(counts: seq<real>, edges: seq<real>)
    requires |edges| == |counts| + 1
    ensures HistogramPath(counts, edges)[0] == (edges[0], 0.0)
    ensures HistogramPath(counts, edges)[2 * |edges| - 1] == (edges[|edges| - 1], 0.0)
    ensures forall k :: 0 <= k < |counts| ==>
              && HistogramPath(counts, edges)[2 * k + 1] == (edges[k], counts[k])
              && HistogramPath(counts, edges)[2 * k + 2] == (edges[k + 1], counts[k])
  {
    var l := HistogramToLine(counts, edges);
    HistogramPathAt(counts, edges, 0);
    HistogramPathAt(counts, edges, 2 * |edges| - 1);
    assert l.xs[2 * (|edges| - 1) + 1] == edges[|edges| - 1];
    forall k | 0 <= k < |counts|
      ensures && HistogramPath(counts, edges)[2 * k + 1] == (edges[k], counts[k])
              && HistogramPath(counts, edges)[2 * k + 2] == (edges[k + 1], counts[k])
    {
      StepAt(counts, edges, k);
    }
  }

  lemma StepAt(counts: seq<real>, edges: seq<real>, k: nat)
    requires |edges| == |counts| + 1 && k < |counts|
    ensures HistogramPath(counts, edges)[2 * k + 1] == (edges[k], counts[k])
    ensures HistogramPath(counts, edges)[2 * k + 2] == (edges[k + 1], counts[k])
  {
    var l := HistogramToLine(counts, edges);
    var i, j := 2 * k + 1, 2 * k + 2;
    Halves(k);
    assert l.xs[i] == edges[k] && l.xs[j] == edges[k + 1];
    assert l.ys[i] == counts[k] && l.ys[j] == counts[k];
    HistogramPathAt(counts, edges, i);
    HistogramPathAt(counts, edges, j);
  }

  lemma Halves(k: nat)
    ensures (2 * k + 1) / 2 == k && (2 * k + 2) / 2 == k + 1
    ensures (2 * k + 1 - 1) / 2 == k && (2 * k + 2 - 1) / 2 == k
  {
  }

  // ---------------------------------------------------------------------
  // Axis windows
  // ---------------------------------------------------------------------

  /** `np.min` of a non-empty list. */
  function SeqMin(s: seq<real>): (m: real)
    requires |s| > 0
    ensures m in s
    ensures forall k :: 0 <= k < |s| ==> m <= s[k]
  {
    if |s| == 1 then s[0]
    else
      var rest := SeqMin(s[1..]);
      if s[0] <= rest then s[0] else rest
  }

  /** `np.max` of a non-empty list. */
  function SeqMax(s: seq<real>): (m: real)
    requires |s| > 0
    ensures m in s
    ensures forall k :: 0 <= k < |s| ==> s[k] <= m
  {
    if |s| == 1 then s[0]
    else
      var rest := SeqMax(s[1..]);
      if s[0] >= rest then s[0] else rest
  }

  /** One `hist_maxmin` entry `[np.min(x_temp), np.max(x_temp)]`: the
      smallest window holding every x of the outline. */
  function HistMaxMin(xs: seq<real>): (w: Window)
    requires |xs| > 0
    ensures w.lo <= w.hi
    ensures forall k :: 0 <= k < |xs| ==> w.Contains(xs[k])
    ensures w.lo in xs && w.hi in xs
  {
    Window(SeqMin(xs), SeqMax(xs))
  }

  predicate Ascending(s: seq<real>) {
    forall a, b :: 0 <= a < b < |s| ==> s[a] <= s[b]
  }

  /** For ascending bin edges the window is simply the first and last edge. */
  lemma MaxMinOfAscendingEdges(edges: seq<real>)
    requires |edges| >= 1 && Ascending(edges)
    ensures HistMaxMin(Repeat2(edges)) == Window(edges[0], edges[|edges| - 1])
  {
    var xs := Repeat2(edges);
    var w := HistMaxMin(xs);
    var a :| 0 <= a < |xs| && xs[a] == w.lo;
    var b :| 0 <= b < |xs| && xs[b] == w.hi;
    assert xs[a] == edges[a / 2] && xs[b] == edges[b / 2];
    assert xs[0] == edges[0];
    assert xs[|xs| - 1] == edges[|edges| - 1];
    assert w.lo <= xs[0] && xs[|xs| - 1] <= w.hi;
  }

  // ---------------------------------------------------------------------
  // Bin count
  // ---------------------------------------------------------------------

  /** `np.round` on a scalar: nearest integer, ties to the even one. */
  function RoundHalfEven(x: real): (r: int)
    ensures -0.5 <= r as real - x <= 0.5
    ensures (r as real - x == 0.5 || x - r as real == 0.5) ==> r % 2 == 0
  {
    var f := x.Floor;
    var d := x - f as real;
    if d < 0.5 then f
    else if d > 0.5 then f + 1
    else if f % 2 == 0 then f
    else f + 1
  }

  /** Round half to even is the only integer function with that contract. */
  lemma RoundHalfEvenUnique(x: real, n: int)
    requires -0.5 <= n as real - x <= 0.5
    requires (n as real - x == 0.5 || x - n as real == 0.5) ==> n % 2 == 0
    ensures n == RoundHalfEven(x)
  {
  }

  /** `int(max(1, np.round(hist_bin_factor * bins)))`. */
  function BinCount(factor: real, bins: int): (b: int)
    ensures b >= 1
    ensures b == 1 || b == RoundHalfEven(factor * bins as real)
    ensures b >= RoundHalfEven(factor * bins as real)
  {
    var r := RoundHalfEven(factor * bins as real);
    if r >= 1 then r else 1
  }

  /** The exporter's defaults, a factor of one and 50 bins, give 50 bins. */
  lemma DefaultBinCount()
    ensures BinCount(1.0, 50) == 50
  {
    RoundHalfEvenUnique(50.0, 50);
  }

  // ---------------------------------------------------------------------
  // Contour clipping
  // ---------------------------------------------------------------------

  /** `np.clip(v, lo, hi)`: `minimum(maximum(v, lo), hi)`. */
  function Clip(v: real, w: Window): (r: real)
    ensures w.lo <= w.hi ==> w.Contains(r)
    ensures w.Contains(v) ==> r == v
  {
    var up := if v < w.lo then w.lo else v;
    if up > w.hi then w.hi else up
  }

  lemma ClipIdempotent(v: real, w: Window)
    requires w.lo <= w.hi
    ensures Clip(Clip(v, w), w) == Clip(v, w)
  {
  }

  lemma ClipMonotone(u: real, v: real, w: Window)
    requires u <= v
    ensures Clip(u, w) <= Clip(v, w)
  {
  }

  /** Contours of the same shape: as many levels, lines and vertices. */
  predicate SameShape(a: PairContours, b: PairContours) {
    && |a| == |b|
    && (forall l :: 0 <= l < |a| ==> |a[l]| == |b[l]|)
    && (forall l, s :: 0 <= l < |a| && 0 <= s < |a[l]| ==> |a[l][s]| == |b[l][s]|)
  }

  /** Every vertex's x lies in `xw` and its y in `yw`. */
  predicate InWindows(c: PairContours, xw: Window, yw: Window) {
    forall l, s, k :: 0 <= l < |c| && 0 <= s < |c[l]| && 0 <= k < |c[l][s]| ==>
      xw.Contains(c[l][s][k].0) && yw.Contains(c[l][s][k].1)
  }

  function ClipSegment(seg: Segment, xw: Window, yw: Window): (r: Segment)
    ensures |r| == |seg|
  {
    seq(|seg|, k requires 0 <= k < |seg| => (Clip(seg[k].0, xw), Clip(seg[k].1, yw)))
  }

  /** The clip step of `corner_contour`: with a window, each vertex's x is
      clipped to the first range and its y to the second; without one the
      lines are returned as they are. */
  function ClipContours(c: PairContours, window: Option<(Window, Window)>): (r: PairContours)
    ensures SameShape(c, r)
    ensures window.None? ==> r == c
    ensures window.Some? && window.value.0.lo <= window.value.0.hi && window.value.1.lo <= window.value.1.hi
            ==> InWindows(r, window.value.0, window.value.1)
    ensures window.Some? ==>
              forall l, s, k :: 0 <= l < |c| && 0 <= s < |c[l]| && 0 <= k < |c[l][s]|
                && window.value.0.Contains(c[l][s][k].0) && window.value.1.Contains(c[l][s][k].1)
                ==> r[l][s][k] == c[l][s][k]
  {
    match window
    case None => c
    case Some((xw, yw)) =>
      seq(|c|, l requires 0 <= l < |c| =>
        seq(|c[l]|, s requires 0 <= s < |c[l]| => ClipSegment(c[l][s], xw, yw)))
  }

  // ---------------------------------------------------------------------
  // Pair enumeration
  // ---------------------------------------------------------------------

  /** `for j in range(m): if i < j` at a fixed `i`. */
  function InnerPairs(i: nat, m: nat): seq<(nat, nat)> {
    if m == 0 then [] else InnerPairs(i, m - 1) + (if i < m - 1 then [(i, m - 1)] else [])
  }

  /** `for i in range(m): for j in range(n): if i < j`. */
  function OuterPairs(n: nat, m: nat): seq<(nat, nat)> {
    if m == 0 then [] else OuterPairs(n, m - 1) + InnerPairs(m - 1, n)
  }

  /** The pairs `result_to_json` builds contours for, in its loop order: by
      the smaller index `i`, then by `j`. */
  function ExportedPairs(n: nat): seq<(nat, nat)> {
    OuterPairs(n, n)
  }

  lemma {:induction false} InnerPairsContents(i: nat, m: nat)
    ensures |InnerPairs(i, m)| == if i < m then m - i - 1 else 0
    ensures forall k :: 0 <= k < |InnerPairs(i, m)| ==> InnerPairs(i, m)[k] == (i, i + 1 + k)
  {
    if m > 0 {
      InnerPairsContents(i, m - 1);
    }
  }

  lemma {:induction false} OuterPairsLength(n: nat, m: nat)
    requires m <= n
    ensures |OuterPairs(n, m)| + Tri(m) == m * (n - 1)
  {
    if m > 0 {
      OuterPairsLength(n, m - 1);
      InnerPairsContents(m - 1, n);
      assert m * (n - 1) == (m - 1) * (n - 1) + (n - 1);
    }
  }

  lemma InnerPairsMembers(i: nat, n: nat)
    ensures forall p :: p in InnerPairs(i, n) <==> p.0 == i && i < p.1 < n
  {
    var back := InnerPairs(i, n);
    InnerPairsContents(i, n);
    forall p
      ensures p in back <==> p.0 == i && i < p.1 < n
    {
      if p.0 == i && i < p.1 < n {
        assert back[p.1 - i - 1] == p;
      }
    }
  }

  lemma {:induction false} OuterPairsMembers(n: nat, m: nat)
    ensures forall p :: p in OuterPairs(n, m) <==> p.0 < m && p.0 < p.1 < n
  {
    if m > 0 {
      var front := OuterPairs(n, m - 1);
      var back := InnerPairs(m - 1, n);
      OuterPairsMembers(n, m - 1);
      InnerPairsMembers(m - 1, n);
      forall p
        ensures p in OuterPairs(n, m) <==> p.0 < m && p.0 < p.1 < n
      {
        assert OuterPairs(n, m) == front + back;
        assert p in front + back <==> p in front || p in back;
      }
    }
  }

  lemma {:induction false} OuterPairsOrdered(n: nat, m: nat)
    ensures forall a, b :: 0 <= a < b < |OuterPairs(n, m)| ==> LexLess(OuterPairs(n, m)[a], OuterPairs(n, m)[b])
  {
    if m > 0 {
      OuterPairsOrdered(n, m - 1);
      var front := OuterPairs(n, m - 1);
      var back := InnerPairs(m - 1, n);
      var all := OuterPairs(n, m);
      assert all == front + back;
      FrontBelowRow(n, m - 1);
      InnerPairsContents(m - 1, n);
      forall a, b | 0 <= a < b < |all|
        ensures LexLess(all[a], all[b])
      {
        if b >= |front| {
          assert all[b] == back[b - |front|];
          if a < |front| {
            assert all[a] == front[a];
          } else {
            assert all[a] == back[a - |front|];
          }
        }
      }
    }
  }

  /** Every pair listed before row `m` starts below `m`. */
  lemma FrontBelowRow(n: nat, m: nat)
    ensures forall k :: 0 <= k < |OuterPairs(n, m)| ==> OuterPairs(n, m)[k].0 < m
  {
    OuterPairsMembers(n, m);
    forall k | 0 <= k < |OuterPairs(n, m)|
      ensures OuterPairs(n, m)[k].0 < m
    {
      assert OuterPairs(n, m)[k] in OuterPairs(n, m);
    }
  }

  /** Lexicographic order on pairs. */
  predicate LexLess(p: (nat, nat), q: (nat, nat)) {
    p.0 < q.0 || (p.0 == q.0 && p.1 < q.1)
  }

  /** The exporter emits each pair `i < j < n` exactly once, `Tri(n)` of
      them, in lexicographic order. */
  lemma ExportedPairsContents(n: nat)
    ensures |ExportedPairs(n)| == Tri(n)
    ensures forall p :: p in ExportedPairs(n) <==> p.0 < p.1 < n
    ensures forall a, b :: 0 <= a < b < |ExportedPairs(n)| ==> LexLess(ExportedPairs(n)[a], ExportedPairs(n)[b])
  {
    OuterPairsLength(n, n);
    OuterPairsMembers(n, n);
    OuterPairsOrdered(n, n);
    TriClosedForm(n);
  }

  /** Where the loop of `result_to_json` appends pair `(i, j)`: after the
      `n - 1, n - 2, ..., n - i` pairs of the earlier rounds, then
      `j - i - 1` places into round `i`. */
  function ExportedPosition(n: nat, i: nat, j: nat): int {
    i * n - (i * (i + 1)) / 2 + (j - i - 1)
  }

  /** Earlier rounds of the loop are a prefix of later ones. */
  lemma {:induction false} OuterPairsPrefix(n: nat, a: nat, b: nat)
    requires a <= b
    ensures |OuterPairs(n, a)| <= |OuterPairs(n, b)|
    ensures OuterPairs(n, b)[..|OuterPairs(n, a)|] == OuterPairs(n, a)
    decreases b
  {
    if a < b {
      OuterPairsPrefix(n, a, b - 1);
      assert OuterPairs(n, b) == OuterPairs(n, b - 1) + InnerPairs(b - 1, n);
    }
  }

  /** The loop's own index: pair `(i, j)` sits at `ExportedPosition(n, i, j)`. */
  lemma ExportedIndex(n: nat, i: nat, j: nat)
    requires i < j < n
    ensures 0 <= ExportedPosition(n, i, j) < |ExportedPairs(n)|
    ensures ExportedPairs(n)[ExportedPosition(n, i, j)] == (i, j)
  {
    OuterPairsLength(n, i);
    RoundStart(n, i);
    RoundEntry(n, i, j - i - 1);
  }

  /** Round `i` of the loop starts `i n - i (i + 1) / 2` places in. */
  lemma RoundStart(n: nat, i: nat)
    requires i <= n
    ensures |OuterPairs(n, i)| == i * n - (i * (i + 1)) / 2
  {
    OuterPairsLength(n, i);
    TriClosedForm(i);
    assert i * (i + 1) == 2 * Tri(i) + 2 * i;
    assert i * (n - 1) == i * n - i;
  }

  /** Entry `t` of round `i` is the pair `(i, i + 1 + t)`. */
  lemma RoundEntry(n: nat, i: nat, t: nat)
    requires i + 1 + t < n
    ensures |OuterPairs(n, i)| + t < |ExportedPairs(n)|
    ensures ExportedPairs(n)[|OuterPairs(n, i)| + t] == (i, i + 1 + t)
  {
    var front := OuterPairs(n, i);
    var round := InnerPairs(i, n);
    var upto := OuterPairs(n, i + 1);
    OuterPairsStep(n, i);
    InnerPairAt(i, n, t);
    ExportedPrefix(n, i + 1);
    PrefixAppendAt(ExportedPairs(n), upto, front, round, t);
  }

  /** Round `i` is appended to the rounds before it. */
  lemma OuterPairsStep(n: nat, i: nat)
    ensures OuterPairs(n, i + 1) == OuterPairs(n, i) + InnerPairs(i, n)
  {
  }

  /** The first `m` rounds are a prefix of the whole list. */
  lemma ExportedPrefix(n: nat, m: nat)
    requires m <= n
    ensures |OuterPairs(n, m)| <= |ExportedPairs(n)|
    ensures ExportedPairs(n)[..|OuterPairs(n, m)|] == OuterPairs(n, m)
  {
    OuterPairsPrefix(n, m, n);
  }

  /** Entry `t` of round `i`, on its own. */
  lemma InnerPairAt(i: nat, n: nat, t: nat)
    requires i + 1 + t < n
    ensures t < |InnerPairs(i, n)| && InnerPairs(i, n)[t] == (i, i + 1 + t)
  {
    InnerPairsContents(i, n);
  }

  /** If `all` starts with `front + back`, then entry `t` of `back` sits
      `|front| + t` places into `all`. */
  lemma PrefixAppendAt<T>(all: seq<T>, prefix: seq<T>, front: seq<T>, back: seq<T>, t: nat)
    requires prefix == front + back && |prefix| <= |all| && all[..|prefix|] == prefix && t < |back|
    ensures |front| + t < |all| && all[|front| + t] == back[t]
  {
    PrefixAt(all, prefix, |front| + t);
  }

  /** An element of a prefix is the element of the whole sequence. */
  lemma PrefixAt<T>(all: seq<T>, prefix: seq<T>, k: nat)
    requires |prefix| <= |all| && all[..|prefix|] == prefix && k < |prefix|
    ensures all[k] == prefix[k]
  {
    assert all[..|prefix|][k] == all[k];
  }

  /** The pair order the grid reads (see `Layout.ContourIndex`):
      `for j in range(n): for i in range(j)`. The exporter's own order agrees
      with it only below four parameters. */
  function ConsumerOrderPairs(n: nat): (r: seq<(nat, nat)>)
    ensures |r| == Tri(n)
    ensures forall i: nat, j: nat :: i < j < n ==> Slot(i, j) < |r| && r[Slot(i, j)] == (i, j)
  {
    if n == 0 then []
    else
      var r := ConsumerOrderPairs(n - 1) + ColumnPairs(n - 1);
      ColumnAppended(ConsumerOrderPairs(n - 1), n - 1);
      r
  }

  /** `for i in range(m)` at a fixed `j = m`: the pairs of column `m`. */
  function ColumnPairs(m: nat): (r: seq<(nat, nat)>)
    ensures |r| == m && forall i :: 0 <= i < m ==> r[i] == (i, m)
  {
    seq(m, i requires 0 <= i < m => (i, m))
  }

  /** Appending column `m` to a list in slot order for `m` parameters gives
      the list in slot order for `m + 1`. */
  lemma ColumnAppended(prev: seq<(nat, nat)>, m: nat)
    requires |prev| == Tri(m)
    requires forall i: nat, j: nat :: i < j < m ==> Slot(i, j) < |prev| && prev[Slot(i, j)] == (i, j)
    ensures |prev + ColumnPairs(m)| == Tri(m + 1)
    ensures forall i: nat, j: nat :: i < j < m + 1 ==>
              Slot(i, j) < |prev + ColumnPairs(m)| && (prev + ColumnPairs(m))[Slot(i, j)] == (i, j)
  {
    var r := prev + ColumnPairs(m);
    forall i: nat, j: nat | i < j < m + 1
      ensures Slot(i, j) < |r| && r[Slot(i, j)] == (i, j)
    {
      if j < m {
        assert r[Slot(i, j)] == prev[Slot(i, j)];
      } else {
        assert r[Slot(i, j)] == ColumnPairs(m)[i];
      }
    }
  }

  lemma ConsumerOrderPairsContents(n: nat)
    ensures forall p :: p in ConsumerOrderPairs(n) <==> p.0 < p.1 < n
  {
    var r := ConsumerOrderPairs(n);
    SlotBijection(n);
    forall p | p in r
      ensures p.0 < p.1 < n
    {
      var k :| 0 <= k < |r| && r[k] == p;
      var q := Unslot(k);
      assert r[Slot(q.0, q.1)] == q;
    }
  }

  // ---------------------------------------------------------------------
  // The document
  // ---------------------------------------------------------------------

  /** One `np.histogram` result: densities per bin and the bin edges. */
  datatype Hist1D = Hist1D(counts: seq<real>, edges: seq<real>)

  /** What the loop over histograms needs of each: a non-empty outline
      (for `np.min`) and no more edges than counts plus one (for the zip). */
  predicate Drawable(h: Hist1D) {
    1 <= |h.edges| <= |h.counts| + 1
  }

  /** The two lists `histogram_contour` returns: paths and windows. */
  function HistogramContour(hists: seq<Hist1D>): (r: (seq<seq<Pair>>, seq<Window>))
    requires forall i :: 0 <= i < |hists| ==> Drawable(hists[i])
    ensures |r.0| == |hists| && |r.1| == |hists|
    ensures forall i :: 0 <= i < |hists| ==> r.1[i].lo <= r.1[i].hi
    ensures forall i, k :: 0 <= i < |hists| && 0 <= k < |r.0[i]| ==> r.1[i].Contains(r.0[i][k].0)
    ensures forall i :: 0 <= i < |hists| ==>
              Drawable(hists[i]) && |r.0[i]| == 2 * |hists[i].edges|
              && (forall j :: 0 <= j < |r.0[i]| ==>
                    r.0[i][j] == (HistogramToLine(hists[i].counts, hists[i].edges).xs[j],
                                  HistogramToLine(hists[i].counts, hists[i].edges).ys[j]))
    ensures forall i :: 0 <= i < |hists| ==>
              Drawable(hists[i]) && r.1[i] == HistMaxMin(HistogramToLine(hists[i].counts, hists[i].edges).xs)
    ensures forall i :: 0 <= i < |hists| ==>
              var xs := HistogramToLine(hists[i].counts, hists[i].edges).xs;
              r.1[i].lo in xs && r.1[i].hi in xs
  {
    forall i | 0 <= i < |hists|
      ensures |hists[i].edges| <= |hists[i].counts| + 1 && 1 <= |hists[i].edges|
    {
      assert Drawable(hists[i]);
    }
    var paths := seq(|hists|, i requires 0 <= i < |hists| => HistogramPath(hists[i].counts, hists[i].edges));
    var windows := seq(|hists|, i requires 0 <= i < |hists| =>
      HistMaxMin(HistogramToLine(hists[i].counts, hists[i].edges).xs));
    (paths, windows)
  }

  /** The contour sets for `pairs`, each clipped to the windows of its two
      parameters. */
  function ExportContours(pairs: seq<(nat, nat)>, raw: (nat, nat) -> PairContours, windows: seq<Window>): (r: seq<PairContours>)
    requires forall k :: 0 <= k < |pairs| ==> pairs[k].0 < |windows| && pairs[k].1 < |windows|
    ensures |r| == |pairs|
  {
    seq(|pairs|, k requires 0 <= k < |pairs| =>
      ClipContours(raw(pairs[k].0, pairs[k].1), Some((windows[pairs[k].0], windows[pairs[k].1]))))
  }

  /** The median and error bar bilby reports for one parameter. */
  datatype Summary = Summary(median: real, minus: real, plus: real)

  /** `param_error`: one `[key, median, minus, plus]` per key, in key order. */
  function ParamErrors(keys: seq<string>, summary: string -> Summary): (r: seq<ParamStat>)
    ensures |r| == |keys|
  {
    seq(|keys|, k requires 0 <= k < |keys| =>
      ParamStat(keys[k], summary(keys[k]).median, summary(keys[k]).minus, summary(keys[k]).plus))
  }

  /** The entries carry the keys in order, and each key's summary. */
  lemma ParamErrorsRecordKeys(keys: seq<string>, summary: string -> Summary)
    ensures seq(|keys|, k requires 0 <= k < |keys| => ParamErrors(keys, summary)[k].key) == keys
    ensures forall k :: 0 <= k < |keys| ==>
      var e := ParamErrors(keys, summary)[k];
      Summary(e.median, e.minus, e.plus) == summary(keys[k])
  {
  }

  /** The four lists of `result_to_json`, with one contour set per entry of
      `pairs`, in that order. `hists` are the `np.histogram` results per
      parameter, `raw(i, j)` the unclipped matplotlib contour lines of
      parameter `i` (x) against `j` (y), `summary` bilby's median and error
      bars. */
  function Assemble(keys: seq<string>, hists: seq<Hist1D>, raw: (nat, nat) -> PairContours,
                    summary: string -> Summary, pairs: seq<(nat, nat)>): (d: Dataset)
    requires |hists| == |keys|
    requires forall i :: 0 <= i < |hists| ==> Drawable(hists[i])
    requires forall k :: 0 <= k < |pairs| ==> pairs[k].0 < |keys| && pairs[k].1 < |keys|
    ensures |d.histData| == |keys| && |d.histMaxMin| == |keys| && |d.paramError| == |keys|
    ensures |d.contourData| == |pairs|
    ensures (d.histData, d.histMaxMin) == HistogramContour(hists)
    ensures d.paramError == ParamErrors(keys, summary)
    ensures forall k :: 0 <= k < |pairs| ==>
              d.contourData[k] == ClipContours(raw(pairs[k].0, pairs[k].1),
                                               Some((d.histMaxMin[pairs[k].0], d.histMaxMin[pairs[k].1])))
  {
    var (paths, windows) := HistogramContour(hists);
    Dataset(paths, ExportContours(pairs, raw, windows), windows, ParamErrors(keys, summary))
  }

  /** Every pair the loop yields is ordered and below `n`, and there are
      `n(n-1)/2` of them. */
  lemma ExportedPairsInRange(n: nat)
    ensures |ExportedPairs(n)| == Tri(n)
    ensures forall k :: 0 <= k < |ExportedPairs(n)| ==> ExportedPairs(n)[k].0 < ExportedPairs(n)[k].1 < n
  {
    ExportedPairsContents(n);
    var e := ExportedPairs(n);
    forall k | 0 <= k < |e|
      ensures e[k].0 < e[k].1 < n
    {
      assert e[k] in e;
    }
  }

  /** `result_to_json` as written: contour sets in the loop order
      `for i: for j: if i < j`. */
  function ResultToJsonAsWritten(keys: seq<string>, hists: seq<Hist1D>, raw: (nat, nat) -> PairContours,
                                 summary: string -> Summary): (d: Dataset)
    requires |hists| == |keys|
    requires forall i :: 0 <= i < |hists| ==> Drawable(hists[i])
    ensures |d.histData| == |keys| && |d.histMaxMin| == |keys| && |d.paramError| == |keys|
    ensures |d.contourData| == |ExportedPairs(|keys|)| == Tri(|keys|)
    ensures (d.histData, d.histMaxMin) == HistogramContour(hists)
    ensures d.paramError == ParamErrors(keys, summary)
    ensures forall k :: 0 <= k < |ExportedPairs(|keys|)| ==>
              ExportedPairs(|keys|)[k].0 < ExportedPairs(|keys|)[k].1 < |keys|
              && d.contourData[k] == ClipContours(raw(ExportedPairs(|keys|)[k].0, ExportedPairs(|keys|)[k].1),
                                                  Some((d.histMaxMin[ExportedPairs(|keys|)[k].0],
                                                        d.histMaxMin[ExportedPairs(|keys|)[k].1])))
  {
    var pairs := ExportedPairs(|keys|);
    ExportedPairsInRange(|keys|);
    Assemble(keys, hists, raw, summary, pairs)
  }

  /** `result_to_json` with the contour sets listed in the order the grid
      reads them: pair `(i, j)` at `Slot(i, j)`. */
  function ResultToJson(keys: seq<string>, hists: seq<Hist1D>, raw: (nat, nat) -> PairContours,
                        summary: string -> Summary): (d: Dataset)
    requires |hists| == |keys|
    requires forall i :: 0 <= i < |hists| ==> Drawable(hists[i])
    ensures |d.histData| == |keys| && |d.histMaxMin| == |keys| && |d.paramError| == |keys|
    ensures |d.contourData| == Tri(|keys|)
    ensures (d.histData, d.histMaxMin) == HistogramContour(hists)
    ensures d.paramError == ParamErrors(keys, summary)
    ensures forall i: nat, j: nat :: i < j < |keys| ==>
              Slot(i, j) < |d.contourData| && d.contourData[Slot(i, j)] == ClipContours(raw(i, j), Some((d.histMaxMin[i], d.histMaxMin[j])))
  {
    var pairs := ConsumerOrderPairs(|keys|);
    ConsumerOrderPairsContents(|keys|);
    assert forall k :: 0 <= k < |pairs| ==> pairs[k] in pairs;
    Assemble(keys, hists, raw, summary, pairs)
  }
}
