/** The grid of DataManage.js: `divLayout` lays out one row of an N x N grid
    for N = `hist_maxmin.length` parameters. Cells left of the diagonal show
    a pair's contours, cells on it a parameter's histogram, cells right of it
    stay empty; one empty cell doubles as the width probe. */
module Layout {

  import opened Types
  import opened Triangle

  /** `levels={3 - 1}`: the colour scale of every contour cell runs over [0, 2]. */
  const ContourLevels: nat := 3 - 1

  /** `PARAM_NUMBER`: one row and one column per `hist_maxmin` entry. */
  function ParamNumber(d: Dataset): nat {
    |d.histMaxMin|
  }

  /** `(rowIndex * (rowIndex - 1)) / 2 + i`: where the contour set of the
      cell at (row, col) is read from `contour_data`. */
  function ContourIndex(row: nat, col: nat): (k: nat)
    ensures k == Slot(col, row)
  {
    TriHalf(row);
    (row * (row - 1)) / 2 + col
  }

  /** What a cell shows and which parts of the document it is bound to, by
      index: `data` into `contour_data`, `xParam`/`yParam`/`param` into
      `hist_maxmin`, `hist_data` and `param_error`. */
  datatype Cell =
    | ContourCell(data: nat, xParam: nat, yParam: nat, xShow: bool, yShow: bool, levels: nat)
    | HistogramCell(param: nat, xShow: bool)
    | EmptyCell(probe: bool)
  {
    function Kind(): Kind {
      match this
      case ContourCell(_, _, _, _, _, _) => ContourKind
      case HistogramCell(_, _) => HistogramKind
      case EmptyCell(_) => EmptyKind
    }
  }

  datatype Kind = ContourKind | HistogramKind | EmptyKind

  /** Iteration `i` of `divLayout(row, n)`. Every index a cell is bound to is
      in range for a document of `n` parameters and `Tri(n)` contour sets. */
  function CellAt(n: nat, row: nat, col: nat): (c: Cell)
    requires row < n && col < n
    ensures c.ContourCell? <==> col < row
    ensures c.HistogramCell? <==> col == row
    ensures c.EmptyCell? <==> row < col
    ensures c.ContourCell? ==> c.data < Tri(n) && c.xParam < n && c.yParam < n
    ensures c.HistogramCell? ==> c.param < n
    ensures c.ContourCell? ==>
              && c.data == Slot(col, row) && c.xParam == col && c.yParam == row
              && (c.xShow <==> row == n - 1) && (c.yShow <==> col == 0) && c.levels == ContourLevels
    ensures c.HistogramCell? ==> c.param == col && (c.xShow <==> row == n - 1)
    ensures c.EmptyCell? ==> (c.probe <==> row == 0 && col == 1)
  {
    if col < row then
      SlotBelow(col, row, n);
      ContourCell(ContourIndex(row, col), col, row, row == n - 1, col == 0, ContourLevels)
    else if col == row then
      HistogramCell(col, row == n - 1)
    else
      EmptyCell(row == 0 && col == 1)
  }

  /** `divLayout(row, n)`: the cells of one row, left to right. */
  function Row(n: nat, row: nat): (r: seq<Cell>)
    requires row < n
    ensures |r| == n
  {
    seq(n, col requires 0 <= col < n => CellAt(n, row, col))
  }

  /** The whole grid, row by row; the CSS grid places it `n` cells wide. */
  function Grid(n: nat): (g: seq<seq<Cell>>)
    ensures |g| == n
    ensures forall r :: 0 <= r < n ==> |g[r]| == n
  {
    seq(n, row requires 0 <= row < n => Row(n, row))
  }

  // ---------------------------------------------------------------------
  // Counting cells
  // ---------------------------------------------------------------------

  function CountKind(cells: seq<Cell>, k: Kind): nat {
    if |cells| == 0 then 0
    else CountKind(cells[..|cells| - 1], k) + (if cells[|cells| - 1].Kind() == k then 1 else 0)
  }

  function GridCount(rows: seq<seq<Cell>>, k: Kind): nat {
    if |rows| == 0 then 0
    else GridCount(rows[..|rows| - 1], k) + CountKind(rows[|rows| - 1], k)
  }

  function CellTotal(rows: seq<seq<Cell>>): nat {
    if |rows| == 0 then 0 else CellTotal(rows[..|rows| - 1]) + |rows[|rows| - 1]|
  }

  lemma {:induction false} RowPrefixCounts(n: nat, row: nat, m: nat)
    requires row < n && m <= n
    ensures CountKind(Row(n, row)[..m], ContourKind) == if m < row then m else row
    ensures CountKind(Row(n, row)[..m], HistogramKind) == if m <= row then 0 else 1
    ensures CountKind(Row(n, row)[..m], EmptyKind) == if m <= row + 1 then 0 else m - row - 1
  {
    if m > 0 {
      RowPrefixCounts(n, row, m - 1);
      assert Row(n, row)[..m][..m - 1] == Row(n, row)[..m - 1];
    }
  }

  /** Row `row` holds `row` contour cells, one histogram cell, and
      `n - 1 - row` empty cells. */
  lemma RowCounts(n: nat, row: nat)
    requires row < n
    ensures CountKind(Row(n, row), ContourKind) == row
    ensures CountKind(Row(n, row), HistogramKind) == 1
    ensures CountKind(Row(n, row), EmptyKind) == n - 1 - row
  {
    RowPrefixCounts(n, row, n);
    assert Row(n, row)[..n] == Row(n, row);
  }

  lemma MultiplyStep(m: nat, k: int)
    requires m > 0
    ensures m * k == (m - 1) * k + k
  {
  }

  lemma {:induction false} GridPrefixCounts(n: nat, m: nat)
    requires m <= n
    ensures GridCount(Grid(n)[..m], ContourKind) == Tri(m)
    ensures GridCount(Grid(n)[..m], HistogramKind) == m
    ensures GridCount(Grid(n)[..m], EmptyKind) + Tri(m) == m * (n - 1)
    ensures CellTotal(Grid(n)[..m]) == m * n
  {
    if m > 0 {
      GridPrefixCounts(n, m - 1);
      assert Grid(n)[..m][..m - 1] == Grid(n)[..m - 1];
      RowCounts(n, m - 1);
      MultiplyStep(m, n - 1);
      MultiplyStep(m, n);
    }
  }

  /** The grid has `n * n` cells: `n` histograms, `Tri(n)` contours, and as
      many empty cells as contours. */
  lemma GridCounts(n: nat)
    ensures CellTotal(Grid(n)) == n * n
    ensures GridCount(Grid(n), HistogramKind) == n
    ensures GridCount(Grid(n), ContourKind) == Tri(n)
    ensures GridCount(Grid(n), EmptyKind) == Tri(n)
  {
    GridPrefixCounts(n, n);
    assert Grid(n)[..n] == Grid(n);
    TriClosedForm(n);
  }

  // ---------------------------------------------------------------------
  // Contour binding
  // ---------------------------------------------------------------------

  /** The contour cells and the contour sets are in one-to-one
      correspondence: distinct cells read distinct sets, and every set
      `k < Tri(n)` is read by the cell at `Unslot(k)` reversed. */
  lemma ContourIndexBijection(n: nat)
    ensures forall r1: nat, c1: nat, r2: nat, c2: nat :: c1 < r1 < n && c2 < r2 < n && ContourIndex(r1, c1) == ContourIndex(r2, c2)
              ==> r1 == r2 && c1 == c2
    ensures forall k: nat :: k < Tri(n) ==>
              var p := Unslot(k);
              p.0 < p.1 < n && CellAt(n, p.1, p.0).ContourCell? && CellAt(n, p.1, p.0).data == k
  {
    SlotBijection(n);
    forall r1: nat, c1: nat, r2: nat, c2: nat | c1 < r1 < n && c2 < r2 < n && ContourIndex(r1, c1) == ContourIndex(r2, c2)
      ensures r1 == r2 && c1 == c2
    {
      SlotInjective(c1, r1, c2, r2);
    }
  }

  /** A contour cell plots its column's parameter across and its row's
      parameter up, and the histogram in its column and the histogram in its
      row plot those same parameters; labels appear only on the bottom row
      (x) and the left column (y). */
  lemma ContourCellBinding(n: nat, row: nat, col: nat)
    requires col < row < n
    ensures CellAt(n, row, col).xParam == CellAt(n, col, col).param
    ensures CellAt(n, row, col).yParam == CellAt(n, row, row).param
    ensures CellAt(n, row, col).xShow <==> row == n - 1
    ensures CellAt(n, row, col).yShow <==> col == 0
    ensures CellAt(n, row, col).levels == 2
  {
  }

  /** Only cells on the bottom row label their x axis, histograms included. */
  lemma XLabelsOnBottomRow(n: nat, row: nat, col: nat)
    requires row < n && col < n
    ensures CellAt(n, row, col).ContourCell? || CellAt(n, row, col).HistogramCell?
            ==> (CellAt(n, row, col).xShow <==> row == n - 1)
  {
  }

  /** Exactly one cell carries the width probe, the one at row 0, column 1,
      so there is a probe exactly when there are two parameters or more. */
  lemma ProbeCell(n: nat)
    ensures forall row: nat, col: nat :: row < n && col < n ==>
              (CellAt(n, row, col) == EmptyCell(true) <==> row == 0 && col == 1)
    ensures (exists row: nat, col: nat :: row < n && col < n && CellAt(n, row, col) == EmptyCell(true)) <==> n >= 2
  {
    if n >= 2 {
      assert CellAt(n, 0, 1) == EmptyCell(true);
    }
  }

  /** The staircase of the four-parameter layout drawn in the source's
      comment: a lone histogram on top, three contours and a histogram at
      the bottom, contour sets numbered row by row. */
  lemma FourParameterStaircase()
    ensures CellAt(4, 0, 0).HistogramCell? && CellAt(4, 0, 1).EmptyCell?
    ensures CellAt(4, 0, 2).EmptyCell? && CellAt(4, 0, 3).EmptyCell?
    ensures CellAt(4, 3, 0).ContourCell? && CellAt(4, 3, 1).ContourCell?
    ensures CellAt(4, 3, 2).ContourCell? && CellAt(4, 3, 3).HistogramCell?
  {
  }

  /** The first two contour rows read the first three contour sets, C1 to
      C3 in the source's comment. */
  lemma LayoutTopRows()
    ensures ContourIndex(1, 0) == 0 && ContourIndex(2, 0) == 1 && ContourIndex(2, 1) == 2
  {
  }

  /** The bottom row of the four-parameter layout reads the last three
      contour sets, C4 to C6 in the source's comment. */
  lemma FourParameterBottomRow()
    ensures ContourIndex(3, 0) == 3 && ContourIndex(3, 1) == 4 && ContourIndex(3, 2) == 5
  {
  }
}
