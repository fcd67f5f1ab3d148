/**
 * `Matrix`: a row-major `f32` matrix whose cells are read and written through
 * `get`/`set` at `row * cols + col`. Values are reals; the shapes, the
 * indexing and which cell receives which value are what is modelled.
 */
module Matrices {

  /**
   * `a * b` by repeated addition. The offsets of a row-major matrix are
   * built from it so that the solver reasons about them only through the
   * lemmas below.
   */
  function Times(a: nat, b: nat): nat
  {
    if a == 0 then 0 else Times(a - 1, b) + b
  }

  /** `Times` is the product it stands for. */
  lemma {:induction false} TimesIsProduct(a: nat, b: nat)
    ensures Times(a, b) == a * b
  {
    if a > 0 {
      TimesIsProduct(a - 1, b);
    }
  }

  lemma {:induction false} TimesMonotone(a: nat, b: nat, c: nat)
    requires a <= b
    ensures Times(a, c) <= Times(b, c)
    decreases b
  {
    if a < b {
      TimesMonotone(a, b - 1, c);
    }
  }

  lemma {:induction false} TimesOne(n: nat)
    ensures Times(n, 1) == n
  {
    if n > 0 {
      TimesOne(n - 1);
    }
  }

  /** Row `row` of a `rows` x `cols` matrix ends inside its data. */
  lemma RowInside(row: nat, rows: nat, cols: nat)
    requires row < rows
    ensures Times(row, cols) + cols <= Times(rows, cols)
  {
    TimesMonotone(row + 1, rows, cols);
  }

  /** Cell `(row, col)` of a `rows` x `cols` matrix lies inside its data. */
  lemma CellInRange(row: nat, col: nat, rows: nat, cols: nat)
    requires row < rows && col < cols
    ensures Times(row, cols) + col < Times(rows, cols)
  {
    RowInside(row, rows, cols);
  }

  /** Distinct cells have distinct offsets. */
  lemma CellsDistinct(r1: nat, c1: nat, r2: nat, c2: nat, cols: nat)
    requires c1 < cols && c2 < cols && (r1 != r2 || c1 != c2)
    ensures Times(r1, cols) + c1 != Times(r2, cols) + c2
  {
    if r1 < r2 {
      TimesMonotone(r1 + 1, r2, cols);
    } else if r2 < r1 {
      TimesMonotone(r2 + 1, r1, cols);
    }
  }

  /** Every offset of a matrix is the offset of one of its cells. */
  lemma {:induction false} CellOfOffset(k: nat, rows: nat, cols: nat) returns (r: nat, c: nat)
    requires k < Times(rows, cols)
    ensures r < rows && c < cols && k == Times(r, cols) + c
    decreases rows
  {
    if k < Times(rows - 1, cols) {
      r, c := CellOfOffset(k, rows - 1, cols);
    } else {
      r, c := rows - 1, k - Times(rows - 1, cols);
    }
  }

  /** Cell `[row][col]` of the `rows` x `cols` row-major data `d`. */
  function At(d: seq<real>, row: nat, col: nat, rows: nat, cols: nat): real
    requires |d| == Times(rows, cols) && row < rows && col < cols
  {
    CellInRange(row, col, rows, cols);
    d[Times(row, cols) + col]
  }

  /** Writing cell `[row][col]` changes that cell and no other. */
  lemma AtUpdate(d: seq<real>, rows: nat, cols: nat, row: nat, col: nat, v: real)
    requires |d| == Times(rows, cols) && row < rows && col < cols
    ensures Times(row, cols) + col < |d|
    ensures At(d[Times(row, cols) + col := v], row, col, rows, cols) == v
    ensures forall r, c :: 0 <= r < rows && 0 <= c < cols && (r != row || c != col) ==>
      At(d[Times(row, cols) + col := v], r, c, rows, cols) == At(d, r, c, rows, cols)
  {
    CellInRange(row, col, rows, cols);
    forall r, c | 0 <= r < rows && 0 <= c < cols && (r != row || c != col)
      ensures At(d[Times(row, cols) + col := v], r, c, rows, cols) == At(d, r, c, rows, cols)
    {
      CellsDistinct(r, c, row, col, cols);
      CellInRange(r, c, rows, cols);
      assert At(d[Times(row, cols) + col := v], r, c, rows, cols) == d[Times(row, cols) + col := v][Times(r, cols) + c];
      assert d[Times(row, cols) + col := v][Times(r, cols) + c] == d[Times(r, cols) + c];
    }
  }

  /** Two row-major data of the same shape agree everywhere if they agree cell by cell. */
  lemma SameCells(d: seq<real>, e: seq<real>, rows: nat, cols: nat)
    requires |d| == Times(rows, cols) && |e| == |d|
    requires forall r, c :: 0 <= r < rows && 0 <= c < cols ==> At(d, r, c, rows, cols) == At(e, r, c, rows, cols)
    ensures d == e
  {
    forall k | 0 <= k < |d|
      ensures d[k] == e[k]
    {
      var r, c := CellOfOffset(k, rows, cols);
      assert At(d, r, c, rows, cols) == At(e, r, c, rows, cols);
    }
  }

  /** The cell-by-cell operations of `add_matrix`, `subtract_two` and `multiply_with_matrix`. */
  datatype Op = Add | Subtract | Multiply

  function Combine(op: Op, x: real, y: real): real
  {
    match op
    case Add => x + y
    case Subtract => x - y
    case Multiply => x * y
  }

  /** `a` and `b` combined value by value under `op`. */
  function Elementwise(op: Op, a: seq<real>, b: seq<real>): (s: seq<real>)
    requires |a| == |b|
    ensures |s| == |a|
  {
    seq(|a|, i requires 0 <= i < |a| => Combine(op, a[i], b[i]))
  }

  /** Subtracting `b` and adding it back gives `a` again. */
  lemma SubtractThenAdd(a: seq<real>, b: seq<real>)
    requires |a| == |b|
    ensures Elementwise(Add, Elementwise(Subtract, a, b), b) == a
  {
    var d := Elementwise(Subtract, a, b);
    assert forall i :: 0 <= i < |a| ==> Elementwise(Add, d, b)[i] == d[i] + b[i] == a[i];
  }

  /**
   * The cells of `d` before `[row][col]` in row-major order combine those of
   * `a` and `b` under `op`; the later ones are still those of `orig`.
   */
  ghost predicate CombinedUpTo(d: seq<real>, op: Op, a: seq<real>, b: seq<real>, orig: seq<real>,
                               rows: nat, cols: nat, row: nat, col: nat)
  {
    && |d| == Times(rows, cols) && |a| == |d| && |b| == |d| && |orig| == |d|
    && forall r, c :: 0 <= r < rows && 0 <= c < cols ==>
      At(d, r, c, rows, cols) ==
        if r < row || (r == row && c < col) then Combine(op, At(a, r, c, rows, cols), At(b, r, c, rows, cols))
        else At(orig, r, c, rows, cols)
  }

  /** Storing the combined cell `[row][col]` extends `CombinedUpTo` by one cell. */
  lemma CombineStep(d: seq<real>, op: Op, a: seq<real>, b: seq<real>, orig: seq<real>,
                    rows: nat, cols: nat, row: nat, col: nat)
    requires CombinedUpTo(d, op, a, b, orig, rows, cols, row, col) && row < rows && col < cols
    ensures Times(row, cols) + col < |d| && d[Times(row, cols) + col] == orig[Times(row, cols) + col]
    ensures CombinedUpTo(d[Times(row, cols) + col := Combine(op, a[Times(row, cols) + col], b[Times(row, cols) + col])],
                         op, a, b, orig, rows, cols, row, col + 1)
  {
    CellInRange(row, col, rows, cols);
    assert At(d, row, col, rows, cols) == At(orig, row, col, rows, cols);
    AtUpdate(d, rows, cols, row, col, Combine(op, a[Times(row, cols) + col], b[Times(row, cols) + col]));
  }

  /** A finished row is the start of the next one. */
  lemma CombineNextRow(d: seq<real>, op: Op, a: seq<real>, b: seq<real>, orig: seq<real>,
                       rows: nat, cols: nat, row: nat)
    requires CombinedUpTo(d, op, a, b, orig, rows, cols, row, cols)
    ensures CombinedUpTo(d, op, a, b, orig, rows, cols, row + 1, 0)
  {
  }

  /** Once every row is done, `d` is the elementwise combination. */
  lemma CombinedAll(d: seq<real>, op: Op, a: seq<real>, b: seq<real>, orig: seq<real>, rows: nat, cols: nat)
    requires CombinedUpTo(d, op, a, b, orig, rows, cols, rows, 0)
    ensures d == Elementwise(op, a, b)
  {
    var e := Elementwise(op, a, b);
    forall r, c | 0 <= r < rows && 0 <= c < cols
      ensures At(d, r, c, rows, cols) == At(e, r, c, rows, cols)
    {
      CellInRange(r, c, rows, cols);
    }
    SameCells(d, e, rows, cols);
  }

  /** `t` is the transpose of the `rows` x `cols` matrix `d`: `t[c][r] == d[r][c]`. */
  ghost predicate IsTransposeOf(t: seq<real>, d: seq<real>, rows: nat, cols: nat)
  {
    && |d| == Times(rows, cols) && |t| == Times(cols, rows)
    && forall r, c :: 0 <= r < rows && 0 <= c < cols ==> At(t, c, r, cols, rows) == At(d, r, c, rows, cols)
  }

  /** Transposing twice gives back the original data. */
  lemma TransposeTwice(d: seq<real>, t: seq<real>, u: seq<real>, rows: nat, cols: nat)
    requires IsTransposeOf(t, d, rows, cols) && IsTransposeOf(u, t, cols, rows)
    ensures u == d
  {
    forall r, c | 0 <= r < rows && 0 <= c < cols
      ensures At(u, r, c, rows, cols) == At(d, r, c, rows, cols)
    {
      assert At(u, r, c, rows, cols) == At(t, c, r, cols, rows);
    }
    SameCells(u, d, rows, cols);
  }

  /**
   * `sum` after `k` rounds of the inner loop of `multiply_two_normal` for
   * cell `[row][col]` of the product of the `arows` x `n` data `a` and the
   * `n` x `bcols` data `b`.
   */
  function Dot(a: seq<real>, arows: nat, n: nat, b: seq<real>, bcols: nat, row: nat, col: nat, k: nat): real
    requires |a| == Times(arows, n) && |b| == Times(n, bcols)
    requires row < arows && col < bcols && k <= n
  {
    if k == 0 then 0.0
    else Dot(a, arows, n, b, bcols, row, col, k - 1) + At(a, row, k - 1, arows, n) * At(b, k - 1, col, n, bcols)
  }

  /** Every cell of `d` before `[row][col]` in row-major order holds its `Dot`. */
  ghost predicate ProductUpTo(d: seq<real>, a: seq<real>, arows: nat, n: nat, b: seq<real>, bcols: nat, row: nat, col: nat)
  {
    && |a| == Times(arows, n) && |b| == Times(n, bcols) && |d| == Times(arows, bcols)
    && forall r, c :: 0 <= r < arows && 0 <= c < bcols && (r < row || (r == row && c < col)) ==>
      At(d, r, c, arows, bcols) == Dot(a, arows, n, b, bcols, r, c, n)
  }

  /** Storing cell `[row][col]` of the product extends `ProductUpTo` by one cell. */
  lemma ProductStep(d: seq<real>, a: seq<real>, arows: nat, n: nat, b: seq<real>, bcols: nat, row: nat, col: nat)
    requires ProductUpTo(d, a, arows, n, b, bcols, row, col) && row < arows && col < bcols
    ensures Times(row, bcols) + col < |d|
    ensures ProductUpTo(d[Times(row, bcols) + col := Dot(a, arows, n, b, bcols, row, col, n)], a, arows, n, b, bcols, row, col + 1)
  {
    AtUpdate(d, arows, bcols, row, col, Dot(a, arows, n, b, bcols, row, col, n));
  }

  /** A finished row is the start of the next one. */
  lemma ProductNextRow(d: seq<real>, a: seq<real>, arows: nat, n: nat, b: seq<real>, bcols: nat, row: nat)
    requires ProductUpTo(d, a, arows, n, b, bcols, row, bcols)
    ensures ProductUpTo(d, a, arows, n, b, bcols, row + 1, 0)
  {
  }

  /** The rows of row-major data, as `to_2d_vec` returns them. */
  function Rows(d: seq<real>, rows: nat, cols: nat): (r: seq<seq<real>>)
    requires |d| == Times(rows, cols)
    ensures |r| == rows
    ensures forall i :: 0 <= i < rows ==> |r[i]| == cols
    decreases rows
  {
    if rows == 0 then []
    else
      TimesMonotone(rows - 1, rows, cols);
      Rows(d[..Times(rows - 1, cols)], rows - 1, cols) + [d[Times(rows - 1, cols)..]]
  }

  /** Rows laid end to end. */
  function Concat(rows: seq<seq<real>>): (d: seq<real>)
  {
    if |rows| == 0 then [] else Concat(rows[..|rows| - 1]) + rows[|rows| - 1]
  }

  /** Every row has `width` entries. */
  predicate Rectangular(rows: seq<seq<real>>, width: nat)
  {
    forall i :: 0 <= i < |rows| ==> |rows[i]| == width
  }

  /** Concatenated rows hold row `i`'s entry `j` at cell `[i][j]`. */
  lemma {:induction false} ConcatCells(rows: seq<seq<real>>, width: nat)
    requires Rectangular(rows, width)
    ensures |Concat(rows)| == Times(|rows|, width)
    ensures forall i, j :: 0 <= i < |rows| && 0 <= j < width ==> At(Concat(rows), i, j, |rows|, width) == rows[i][j]
    decreases |rows|
  {
    if |rows| > 0 {
      var n := |rows| - 1;
      ConcatCells(rows[..n], width);
      forall i, j | 0 <= i < |rows| && 0 <= j < width
        ensures At(Concat(rows), i, j, |rows|, width) == rows[i][j]
      {
        if i < n {
          CellInRange(i, j, n, width);
          assert At(Concat(rows[..n]), i, j, n, width) == rows[..n][i][j];
        }
      }
    }
  }

  /** Splitting concatenated rows gives the rows back. */
  lemma {:induction false} RowsOfConcat(rows: seq<seq<real>>, width: nat)
    requires Rectangular(rows, width)
    ensures |Concat(rows)| == Times(|rows|, width)
    ensures Rows(Concat(rows), |rows|, width) == rows
    decreases |rows|
  {
    ConcatCells(rows, width);
    if |rows| > 0 {
      var n := |rows| - 1;
      var d := Concat(rows);
      RowsOfConcat(rows[..n], width);
      ConcatCells(rows[..n], width);
      assert d[..Times(n, width)] == Concat(rows[..n]);
      assert d[Times(n, width)..] == rows[n];
    }
  }

  /** Concatenating the rows gives the data back. */
  lemma {:induction false} ConcatOfRows(d: seq<real>, rows: nat, cols: nat)
    requires |d| == Times(rows, cols)
    ensures Concat(Rows(d, rows, cols)) == d
    decreases rows
  {
    if rows > 0 {
      var p := Times(rows - 1, cols);
      TimesMonotone(rows - 1, rows, cols);
      var front := Rows(d[..p], rows - 1, cols);
      var r := Rows(d, rows, cols);
      assert r == front + [d[p..]];
      assert r[..rows - 1] == front;
      ConcatOfRows(d[..p], rows - 1, cols);
      assert Concat(r) == d[..p] + d[p..];
      assert d[..p] + d[p..] == d;
    }
  }

  /** Row `i` of `Rows` is the slice of the data it covers. */
  lemma {:induction false} RowOfRows(d: seq<real>, rows: nat, cols: nat, i: nat)
    requires |d| == Times(rows, cols) && i < rows
    ensures Times(i, cols) + cols <= |d| && Rows(d, rows, cols)[i] == d[Times(i, cols)..Times(i, cols) + cols]
    decreases rows
  {
    RowInside(i, rows, cols);
    var p := Times(rows - 1, cols);
    TimesMonotone(rows - 1, rows, cols);
    var front := Rows(d[..p], rows - 1, cols);
    assert Rows(d, rows, cols) == front + [d[p..]];
    if i < rows - 1 {
      RowInside(i, rows - 1, cols);
      RowOfRows(d[..p], rows - 1, cols, i);
      assert Rows(d, rows, cols)[i] == front[i];
      assert d[..p][Times(i, cols)..Times(i, cols) + cols] == d[Times(i, cols)..Times(i, cols) + cols];
    } else {
      assert d[p..] == d[p..p + cols];
    }
  }

  /**
   * A matrix whose shape never changes after `new`, so the buffer is an array
   * of `rows * cols` values that the methods update in place.
   */
  class Matrix {
    const rows: nat
    const cols: nat
    const data: array<real>

    ghost predicate Valid()
    {
      data.Length == Times(rows, cols)
    }

    /** Cell `[row][col]` of this matrix. */
    ghost function Cell(row: nat, col: nat): real
      reads data
      requires Valid() && row < rows && col < cols
    {
      At(data[..], row, col, rows, cols)
    }

    /** `Matrix::new`: `rows * cols` zeros. */
    constructor (rows: nat, cols: nat)
      ensures this.rows == rows && this.cols == cols && Valid() && fresh(data)
      ensures forall i :: 0 <= i < data.Length ==> data[i] == 0.0
    {
      this.rows, this.cols := rows, cols;
      data := new real[Times(rows, cols)](_ => 0.0);
    }

    /** `get`: the value at offset `row * cols + col`; `col` is not checked against `cols`. */
    function Get(row: nat, col: nat): real
      reads data
      requires Times(row, cols) + col < data.Length
    {
      data[Times(row, cols) + col]
    }

    /** `set`: only the value at offset `row * cols + col` changes. */
    method Set(row: nat, col: nat, val: real)
      requires Times(row, cols) + col < data.Length
      modifies data
      ensures data[..] == old(data[..])[Times(row, cols) + col := val]
    {
      data[Times(row, cols) + col] := val;
    }

    /** `add_matrix`: elementwise sum in place; different dimensions panic. */
    method AddMatrix(m: Matrix)
      requires Valid() && m.Valid() && m.data != data
      requires rows == m.rows && cols == m.cols
      modifies data
      ensures data[..] == Elementwise(Add, old(data[..]), m.data[..])
    {
      ghost var orig, other := data[..], m.data[..];
      for row := 0 to rows
        invariant CombinedUpTo(data[..], Add, orig, other, orig, rows, cols, row, 0)
      {
        for col := 0 to cols
          invariant CombinedUpTo(data[..], Add, orig, other, orig, rows, cols, row, col)
        {
          CombineStep(data[..], Add, orig, other, orig, rows, cols, row, col);
          Set(row, col, Get(row, col) + m.Get(row, col));
        }
        CombineNextRow(data[..], Add, orig, other, orig, rows, cols, row);
      }
      CombinedAll(data[..], Add, orig, other, orig, rows, cols);
    }

    /** `multiply_with_matrix`: elementwise product in place; different dimensions panic. */
    method MultiplyWithMatrix(m: Matrix)
      requires Valid() && m.Valid() && m.data != data
      requires rows == m.rows && cols == m.cols
      modifies data
      ensures data[..] == Elementwise(Multiply, old(data[..]), m.data[..])
    {
      ghost var orig, other := data[..], m.data[..];
      for row := 0 to rows
        invariant CombinedUpTo(data[..], Multiply, orig, other, orig, rows, cols, row, 0)
      {
        for col := 0 to m.cols
          invariant CombinedUpTo(data[..], Multiply, orig, other, orig, rows, cols, row, col)
        {
          CombineStep(data[..], Multiply, orig, other, orig, rows, cols, row, col);
          assert Get(row, col) * m.Get(row, col) == Combine(Multiply, orig[Times(row, cols) + col], other[Times(row, cols) + col]);
          Set(row, col, Get(row, col) * m.Get(row, col));
        }
        CombineNextRow(data[..], Multiply, orig, other, orig, rows, cols, row);
      }
      CombinedAll(data[..], Multiply, orig, other, orig, rows, cols);
    }

    /** `subtract_two`: a new matrix holding `m1 - m2` elementwise; different dimensions panic. */
    static method SubtractTwo(m1: Matrix, m2: Matrix) returns (m: Matrix)
      requires m1.Valid() && m2.Valid() && m1.rows == m2.rows && m1.cols == m2.cols
      ensures fresh(m) && fresh(m.data) && m.Valid() && m.rows == m1.rows && m.cols == m1.cols
      ensures m.data[..] == Elementwise(Subtract, m1.data[..], m2.data[..])
    {
      m := new Matrix(m1.rows, m1.cols);
      ghost var a, b, zeros := m1.data[..], m2.data[..], m.data[..];
      for row := 0 to m1.rows
        invariant CombinedUpTo(m.data[..], Subtract, a, b, zeros, m1.rows, m1.cols, row, 0)
      {
        for col := 0 to m1.cols
          invariant CombinedUpTo(m.data[..], Subtract, a, b, zeros, m1.rows, m1.cols, row, col)
        {
          CombineStep(m.data[..], Subtract, a, b, zeros, m1.rows, m1.cols, row, col);
          m.Set(row, col, m1.Get(row, col) - m2.Get(row, col));
        }
        CombineNextRow(m.data[..], Subtract, a, b, zeros, m1.rows, m1.cols, row);
      }
      CombinedAll(m.data[..], Subtract, a, b, zeros, m1.rows, m1.cols);
    }

    /** `transpose`: a new `cols` x `rows` matrix with `t[c][r] == m1[r][c]`. */
    static method Transpose(m1: Matrix) returns (m: Matrix)
      requires m1.Valid()
      ensures fresh(m) && fresh(m.data) && m.Valid() && m.rows == m1.cols && m.cols == m1.rows
      ensures IsTransposeOf(m.data[..], m1.data[..], m1.rows, m1.cols)
    {
      m := new Matrix(m1.cols, m1.rows);
      for row := 0 to m1.rows
        invariant forall r, c :: 0 <= r < row && 0 <= c < m1.cols ==> m.Cell(c, r) == m1.Cell(r, c)
      {
        for col := 0 to m1.cols
          invariant forall r, c :: 0 <= r < row && 0 <= c < m1.cols ==> m.Cell(c, r) == m1.Cell(r, c)
          invariant forall c :: 0 <= c < col ==> m.Cell(c, row) == m1.Cell(row, c)
        {
          CellInRange(row, col, m1.rows, m1.cols);
          AtUpdate(m.data[..], m1.cols, m1.rows, col, row, m1.Get(row, col));
          m.Set(col, row, m1.Get(row, col));
        }
      }
      forall r, c | 0 <= r < m1.rows && 0 <= c < m1.cols
        ensures At(m.data[..], c, r, m1.cols, m1.rows) == At(m1.data[..], r, c, m1.rows, m1.cols)
      {
        assert m.Cell(c, r) == m1.Cell(r, c);
      }
    }

    /**
     * `multiply_two_normal`: the `m1.rows` x `m2.cols` product, cell `[r][c]`
     * summing `m1[r][i] * m2[i][c]` over `i` in order; mismatched inner
     * dimensions panic.
     */
    static method MultiplyTwoNormal(m1: Matrix, m2: Matrix) returns (m: Matrix)
      requires m1.Valid() && m2.Valid() && m1.cols == m2.rows
      ensures fresh(m) && fresh(m.data) && m.Valid() && m.rows == m1.rows && m.cols == m2.cols
      ensures forall r, c :: 0 <= r < m1.rows && 0 <= c < m2.cols ==>
        m.Cell(r, c) == Dot(m1.data[..], m1.rows, m1.cols, m2.data[..], m2.cols, r, c, m1.cols)
    {
      m := new Matrix(m1.rows, m2.cols);
      ghost var a, b := m1.data[..], m2.data[..];
      for row := 0 to m1.rows
        invariant ProductUpTo(m.data[..], a, m1.rows, m1.cols, b, m2.cols, row, 0)
      {
        for col := 0 to m2.cols
          invariant ProductUpTo(m.data[..], a, m1.rows, m1.cols, b, m2.cols, row, col)
        {
          var sum := DotLoop(m1, m2, row, col);
          ProductStep(m.data[..], a, m1.rows, m1.cols, b, m2.cols, row, col);
          m.Set(row, col, sum);
        }
        ProductNextRow(m.data[..], a, m1.rows, m1.cols, b, m2.cols, row);
      }
      assert ProductUpTo(m.data[..], a, m1.rows, m1.cols, b, m2.cols, m1.rows, 0);
    }

    /** The innermost loop of `multiply_two_normal`: `sum` of `m1[row][i] * m2[i][col]` from `0.0`. */
    static method DotLoop(m1: Matrix, m2: Matrix, row: nat, col: nat) returns (sum: real)
      requires m1.Valid() && m2.Valid() && m1.cols == m2.rows && row < m1.rows && col < m2.cols
      ensures sum == Dot(m1.data[..], m1.rows, m1.cols, m2.data[..], m2.cols, row, col, m1.cols)
    {
      sum := 0.0;
      for i := 0 to m1.cols
        invariant sum == Dot(m1.data[..], m1.rows, m1.cols, m2.data[..], m2.cols, row, col, i)
      {
        CellInRange(row, i, m1.rows, m1.cols);
        CellInRange(i, col, m2.rows, m2.cols);
        sum := sum + m1.Get(row, i) * m2.Get(i, col);
      }
    }

    /** `from_vec`: a `len` x 1 matrix holding the values in order. */
    static method FromVec(arr: seq<real>) returns (m: Matrix)
      ensures fresh(m) && fresh(m.data) && m.Valid() && m.rows == |arr| && m.cols == 1 && m.data[..] == arr
    {
      m := new Matrix(|arr|, 1);
      TimesOne(|arr|);
      for i := 0 to |arr|
        invariant m.data[..i] == arr[..i]
      {
        TimesOne(i);
        m.Set(i, 0, arr[i]);
      }
    }

    /** `to_vec`: the cells row by row, which is the data itself. */
    method ToVec() returns (arr: seq<real>)
      requires Valid()
      ensures arr == data[..]
    {
      arr := [];
      for i := 0 to rows
        invariant Times(i, cols) <= data.Length
        invariant arr == data[..Times(i, cols)]
      {
        RowInside(i, rows, cols);
        for j := 0 to cols
          invariant arr == data[..Times(i, cols) + j]
        {
          arr := arr + [Get(i, j)];
        }
      }
    }

    /** `from_2d_vec`: rows of equal length laid out row by row; an empty list panics. */
    static method From2dVec(arr: seq<seq<real>>) returns (m: Matrix)
      requires |arr| > 0 && Rectangular(arr, |arr[0]|)
      ensures fresh(m) && fresh(m.data) && m.Valid() && m.rows == |arr| && m.cols == |arr[0]|
      ensures m.data[..] == Concat(arr)
    {
      var width := |arr[0]|;
      m := new Matrix(|arr|, width);
      for i := 0 to |arr|
        invariant forall r, c :: 0 <= r < i && 0 <= c < width ==> m.Cell(r, c) == arr[r][c]
      {
        for j := 0 to |arr[i]|
          invariant forall r, c :: 0 <= r < i && 0 <= c < width ==> m.Cell(r, c) == arr[r][c]
          invariant forall c :: 0 <= c < j ==> m.Cell(i, c) == arr[i][c]
        {
          AtUpdate(m.data[..], |arr|, width, i, j, arr[i][j]);
          m.Set(i, j, arr[i][j]);
        }
      }
      ConcatCells(arr, width);
      SameCells(m.data[..], Concat(arr), |arr|, width);
    }

    /** `to_2d_vec`: one list per row. */
    method To2dVec() returns (arr: seq<seq<real>>)
      requires Valid()
      ensures arr == Rows(data[..], rows, cols)
    {
      arr := [];
      for i := 0 to rows
        invariant arr == Rows(data[..], rows, cols)[..i]
      {
        RowInside(i, rows, cols);
        var row := [];
        for j := 0 to cols
          invariant row == data[Times(i, cols)..Times(i, cols) + j]
        {
          row := row + [Get(i, j)];
        }
        RowOfRows(data[..], rows, cols, i);
        arr := arr + [row];
      }
    }

    /** `max`: the greatest value, starting from `get(0, 0)`, which panics on an empty matrix. */
    method Max() returns (max: real)
      requires Valid() && data.Length > 0
      ensures max in data[..]
      ensures forall i :: 0 <= i < data.Length ==> data[i] <= max
    {
      max := Get(0, 0);
      for i := 0 to rows
        invariant Times(i, cols) <= data.Length
        invariant max in data[..]
        invariant forall k :: 0 <= k < Times(i, cols) ==> data[k] <= max
      {
        RowInside(i, rows, cols);
        for j := 0 to cols
          invariant max in data[..]
          invariant forall k :: 0 <= k < Times(i, cols) + j ==> data[k] <= max
        {
          if Get(i, j) > max {
            max := Get(i, j);
          }
        }
      }
    }
  }

  /** `to_vec(from_vec(v)) == v`. */
  method VecRoundTrip(v: seq<real>) returns (r: seq<real>)
    ensures r == v
  {
    var m := Matrix.FromVec(v);
    r := m.ToVec();
  }

  /** `to_2d_vec(from_2d_vec(a)) == a` for a non-empty rectangular `a`. */
  method RowsRoundTrip(a: seq<seq<real>>) returns (r: seq<seq<real>>)
    requires |a| > 0 && Rectangular(a, |a[0]|)
    ensures r == a
  {
    var m := Matrix.From2dVec(a);
    r := m.To2dVec();
    RowsOfConcat(a, |a[0]|);
  }

  /** Transposing a matrix twice gives back its shape and data. */
  method TransposeRoundTrip(m: Matrix) returns (u: Matrix)
    requires m.Valid()
    ensures u.rows == m.rows && u.cols == m.cols && u.data[..] == m.data[..]
  {
    var t := Matrix.Transpose(m);
    u := Matrix.Transpose(t);
    TransposeTwice(m.data[..], t.data[..], u.data[..], m.rows, m.cols);
  }
}
