/** Row-major node numbering of a `rows x cols` raster, and the index half of
    `D8Accumulator.node_to_coord` / `coord_to_node` (the affine map between
    pixel indices and map coordinates is floating-point geometry and is not
    modelled: these functions take and return pixel indices). */
module Grid {
  import opened Wrappers

  datatype Shape = Shape(rows: nat, cols: nat) {

    /** Number of nodes, `arr.size`. */
    function Size(): nat {
      rows * cols
    }

    predicate InGrid(row: int, col: int) {
      0 <= row < rows && 0 <= col < cols
    }
  }

  lemma MulMono(a: int, b: int, d: int)
    requires a <= b && d >= 0
    ensures a * d <= b * d
  {
    var k := b - a;
    assert b * d == a * d + k * d;
  }

  /** `q*d + r` divided by `d` gives back `q` and `r` when `0 <= r < d`. */
  lemma DivModOf(q: int, r: int, d: int)
    requires 0 <= r < d
    ensures (q * d + r) / d == q
    ensures (q * d + r) % d == r
  {
    var n := q * d + r;
    var q' := n / d;
    var r' := n % d;
    assert n == q' * d + r';
    if q' < q {
      MulMono(q' + 1, q, d);
    } else if q' > q {
      MulMono(q + 1, q', d);
    }
  }

  /** `row < rows` and `col < cols` place `row*cols + col` below `rows*cols`. */
  lemma RowMajorBound(rows: nat, cols: nat, row: nat, col: nat)
    requires row < rows && col < cols
    ensures row * cols + col < rows * cols
  {
    MulMono(row + 1, rows, cols);
  }

  /** The node at `(row, col)`, numbered row-major. */
  function RowColToNode(s: Shape, row: nat, col: nat): (n: nat)
    requires s.InGrid(row, col)
    ensures n < s.Size()
    ensures n / s.cols == row && n % s.cols == col
  {
    RowMajorBound(s.rows, s.cols, row, col);
    DivModOf(row, col, s.cols);
    row * s.cols + col
  }

  function NodeRow(s: Shape, n: nat): nat
    requires n < s.Size()
  {
    n / s.cols
  }

  function NodeCol(s: Shape, n: nat): nat
    requires n < s.Size()
  {
    n % s.cols
  }

  /** Every node sits inside the grid and is numbered by its own row and column. */
  lemma NodeRowColRoundTrip(s: Shape, n: nat)
    requires n < s.Size()
    ensures s.InGrid(NodeRow(s, n), NodeCol(s, n))
    ensures RowColToNode(s, NodeRow(s, n), NodeCol(s, n)) == n
  {
    var row, col := n / s.cols, n % s.cols;
    assert n == row * s.cols + col;
    if row >= s.rows {
      MulMono(s.rows, row, s.cols);
    }
  }

  /** The index computation of `node_to_coord` as written: it refuses only
      `node < 0` and `node > rows*cols`, and returns `(x_ind, y_ind)`. */
  function NodeToIndicesAsWritten(s: Shape, node: int): (r: Result<(int, int)>)
    ensures r.Ok? <==> 0 <= node <= s.Size() && s.cols > 0
    ensures r.Ok? ==> 0 <= r.value.0 < s.cols && 0 <= r.value.1 <= s.rows
    ensures r.Ok? ==> r.value.1 * s.cols + r.value.0 == node
    ensures r.Ok? ==> (r.value.1 == s.rows <==> node == s.Size())
  {
    if node > s.cols * s.rows || node < 0 then Err(ValueError)
    else if s.cols == 0 then Err(ZeroDivisionError)
    else
      var x, y := node % s.cols, node / s.cols;
      RowOfNumber(s.rows, s.cols, node);
      Ok((x, y))
  }

  /** A row-major number up to `rows*cols` splits into a column below
      `cols` and a row up to `rows`, the row being `rows` only for
      `rows*cols` itself. */
  lemma RowOfNumber(rows: nat, cols: nat, node: nat)
    requires 0 < cols && node <= rows * cols
    ensures node == (node / cols) * cols + node % cols && 0 <= node % cols < cols
    ensures node / cols <= rows
    ensures node / cols == rows <==> node == rows * cols
  {
    var y, x := node / cols, node % cols;
    assert node == y * cols + x;
    if y > rows {
      assert (rows + 1) * cols == rows * cols + cols;
      MulMono(rows + 1, y, cols);
    }
    if y == rows {
      assert node == rows * cols + x;
      assert x == 0;
    }
    if node == rows * cols {
      DivModOf(rows, 0, cols);
    }
  }

  /** Counterexample: the node one past the last is accepted and placed on a
      row that does not exist. */
  lemma NodeToIndicesAcceptsOnePastEnd(s: Shape)
    requires s.rows > 0 && s.cols > 0
    ensures NodeToIndicesAsWritten(s, s.Size()).Ok?
    ensures !s.InGrid(NodeToIndicesAsWritten(s, s.Size()).value.1, NodeToIndicesAsWritten(s, s.Size()).value.0)
  {
  }

  /** Corrected `node_to_coord` index computation: exactly the nodes
      `0 <= node < rows*cols` are accepted, and each comes back as the
      in-grid column and row that number it. */
  function NodeToIndices(s: Shape, node: int): (r: Result<(nat, nat)>)
    ensures r.Ok? <==> 0 <= node < s.Size()
    ensures r.Ok? ==> s.InGrid(r.value.1, r.value.0) && RowColToNode(s, r.value.1, r.value.0) == node
  {
    if node < 0 || node >= s.Size() then Err(ValueError)
    else
      NodeRowColRoundTrip(s, node);
      Ok((NodeCol(s, node), NodeRow(s, node)))
  }

  /** The index computation of `coord_to_node` as written, from the truncated
      pixel indices: `y_ind*ncols + x_ind`, refused only when it is negative
      or greater than `rows*cols`. On a pixel inside the grid it agrees with
      the corrected `CoordIndicesToNode`. */
  function CoordIndicesToNodeAsWritten(s: Shape, xInd: int, yInd: int): (r: Result<int>)
    ensures r.Ok? <==> 0 <= yInd * s.cols + xInd <= s.Size()
    ensures r.Ok? ==> r.value == yInd * s.cols + xInd
    ensures s.InGrid(yInd, xInd) ==> r == Ok(CoordIndicesToNode(s, xInd, yInd).value as int)
  {
    var out := yInd * s.cols + xInd;
    assert s.InGrid(yInd, xInd) ==> out < s.Size() by {
      if s.InGrid(yInd, xInd) { RowMajorBound(s.rows, s.cols, yInd, xInd); }
    }
    if out > s.cols * s.rows || out < 0 then Err(ValueError) else Ok(out)
  }

  /** Counterexample: a pixel one column left of the grid on row 1 is
      accepted as the last node of row 0. */
  lemma CoordIndicesWrapAround(s: Shape)
    requires s.rows >= 2 && s.cols >= 1
    ensures !s.InGrid(1, -1)
    ensures CoordIndicesToNodeAsWritten(s, -1, 1) == Ok(s.cols - 1)
    ensures NodeRow(s, s.cols - 1) == 0
  {
    assert s.cols <= s.Size();
    DivModOf(0, s.cols - 1, s.cols);
  }

  /** Counterexample: the pixel just below the last row, column 0, is
      accepted and yields `rows*cols`, which is not a node. */
  lemma CoordIndicesAcceptsOnePastEnd(s: Shape)
    ensures !s.InGrid(s.rows, 0)
    ensures CoordIndicesToNodeAsWritten(s, 0, s.rows) == Ok(s.Size())
  {
  }

  /** Corrected `coord_to_node` index computation: accepted exactly when the
      pixel is inside the grid, and then the node whose row and column are
      that pixel. */
  function CoordIndicesToNode(s: Shape, xInd: int, yInd: int): (r: Result<nat>)
    ensures r.Ok? <==> s.InGrid(yInd, xInd)
    ensures r.Ok? ==> r.value < s.Size() && NodeToIndices(s, r.value) == Ok((xInd as nat, yInd as nat))
  {
    if s.InGrid(yInd, xInd) then
      var n := RowColToNode(s, yInd, xInd);
      Ok(n)
    else Err(ValueError)
  }
}
