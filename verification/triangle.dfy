/** Triangular numbers: the count of parameter pairs `i < j` below `n`. Both
    the exporter's pair list and the grid's contour index are built on them. */
module Triangle {

  /** Tri(n) = 0 + 1 + ... + (n - 1). */
  function Tri(n: nat): nat {
    if n == 0 then 0 else Tri(n - 1) + (n - 1)
  }

  lemma {:induction false} TriClosedForm(n: nat)
    ensures 2 * Tri(n) == n * (n - 1)
  {
    if n > 0 {
      TriClosedForm(n - 1);
      assert n * (n - 1) == (n - 1) * (n - 2) + 2 * (n - 1);
    }
  }

  /** The halved closed form as the JavaScript source writes it. */
  lemma TriHalf(n: nat)
    ensures Tri(n) == (n * (n - 1)) / 2
  {
    TriClosedForm(n);
  }

  /** Rows below `b` start no earlier than row `a` ends. */
  lemma {:induction false} TriGap(a: nat, b: nat)
    requires a < b
    ensures Tri(a) + a <= Tri(b)
  {
    if a + 1 < b {
      TriGap(a, b - 1);
    }
  }

  lemma TriMonotone(a: nat, b: nat)
    requires a <= b
    ensures Tri(a) <= Tri(b)
  {
    if a < b {
      TriGap(a, b);
    }
  }

  /** Position of pair `i < j` when pairs are listed by their larger member
      `j`, and by `i` within the same `j`. */
  function Slot(i: nat, j: nat): nat {
    Tri(j) + i
  }

  /** Slots of pairs below `n` are distinct and fill `[0, Tri(n))`. */
  lemma SlotBelow(i: nat, j: nat, n: nat)
    requires i < j < n
    ensures Slot(i, j) < Tri(n)
  {
    TriGap(j, n);
  }

  lemma SlotInjective(i1: nat, j1: nat, i2: nat, j2: nat)
    requires i1 < j1 && i2 < j2
    requires Slot(i1, j1) == Slot(i2, j2)
    ensures i1 == i2 && j1 == j2
  {
    if j1 < j2 {
      TriGap(j1, j2);
    } else if j2 < j1 {
      TriGap(j2, j1);
    }
  }

  /** The first row `j' >= j` whose slots reach past `k`. */
  function RowFrom(k: nat, j: nat): (r: nat)
    requires j >= 1 && Tri(j) <= k
    ensures r >= j && Tri(r) <= k < Tri(r) + r
    decreases k - Tri(j)
  {
    if k < Tri(j) + j then j else RowFrom(k, j + 1)
  }

  /** The pair stored at slot `k`: the inverse of `Slot`. */
  function Unslot(k: nat): (p: (nat, nat))
    ensures p.0 < p.1 && Slot(p.0, p.1) == k
  {
    var j := RowFrom(k, 1);
    (k - Tri(j), j)
  }

  /** Slot and Unslot are mutually inverse, and slots below `Tri(n)` hold
      pairs below `n`: a bijection between the pairs and `[0, Tri(n))`. */
  lemma SlotBijection(n: nat)
    ensures forall i: nat, j: nat :: i < j < n ==> Slot(i, j) < Tri(n) && Unslot(Slot(i, j)) == (i, j)
    ensures forall k: nat :: k < Tri(n) ==> Unslot(k).1 < n && Slot(Unslot(k).0, Unslot(k).1) == k
  {
    forall i: nat, j: nat | i < j < n
      ensures Slot(i, j) < Tri(n) && Unslot(Slot(i, j)) == (i, j)
    {
      SlotBelow(i, j, n);
      var p := Unslot(Slot(i, j));
      SlotInjective(p.0, p.1, i, j);
    }
    forall k: nat | k < Tri(n)
      ensures Unslot(k).1 < n
    {
      var j := Unslot(k).1;
      if j >= n {
        TriMonotone(n, j);
      }
    }
  }
}
