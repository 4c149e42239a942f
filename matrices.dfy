/**
  Nested-vector matrices (`Vec<Vec<f32>>` in the source) and the row-major
  flattening that the dense layer performs before calling the GEMM kernel.
*/
module Matrices {
  import opened Scalars

  type Matrix = seq<seq<real>>

  /** `a` has `rows` rows, each of length `cols`. */
  predicate IsMatrix(a: Matrix, rows: nat, cols: nat)
  {
    |a| == rows && forall i :: 0 <= i < |a| ==> |a[i]| == cols
  }

  /** `rows × cols` with 1.0 where the row and column index agree. */
  function Identity(rows: nat, cols: nat): (r: Matrix)
    ensures IsMatrix(r, rows, cols)
  {
    seq(rows, i => seq(cols, j => if i == j then 1.0 else 0.0))
  }

  function Zeros(n: nat): seq<real>
  {
    seq(n, _ => 0.0)
  }

  /** Concatenation of the rows, as `for row in input { a.extend_from_slice(row) }`. */
  function Flatten(a: Matrix): seq<real>
  {
    if a == [] then [] else Flatten(a[..|a| - 1]) + a[|a| - 1]
  }

  /** Σ_{p < upto} x[p] * w[p][j]: row vector times column `j` of `w`. */
  function RowCol(x: seq<real>, w: Matrix, j: nat, upto: nat): real
    requires upto <= |x| && upto <= |w|
    requires forall p :: 0 <= p < upto ==> j < |w[p]|
  {
    if upto == 0 then 0.0 else RowCol(x, w, j, upto - 1) + x[upto - 1] * w[upto - 1][j]
  }

  lemma MulStep(r: nat, c: nat)
    ensures (r + 1) * c == r * c + c
  {
  }

  lemma MulMono(r: nat, s: nat, c: nat)
    requires r <= s
    ensures r * c <= s * c
  {
    assert s * c - r * c == (s - r) * c;
  }

  /** Row `i` of a row-major `rows × cols` layout ends inside it. */
  lemma RowEnd(i: nat, rows: nat, cols: nat)
    requires i < rows
    ensures i * cols + cols == (i + 1) * cols <= rows * cols
  {
    MulStep(i, cols);
    MulMono(i + 1, rows, cols);
  }

  /** Row-major cell `(i, p)` of a `rows × cols` layout is inside it. */
  lemma CellBelow(i: nat, p: nat, rows: nat, cols: nat)
    requires i < rows && p < cols
    ensures i * cols + p < rows * cols
    ensures (i + 1) * cols <= rows * cols
  {
    MulStep(i, cols);
    MulMono(i + 1, rows, cols);
  }

  lemma {:induction false} FlattenLength(a: Matrix, rows: nat, cols: nat)
    requires IsMatrix(a, rows, cols)
    ensures |Flatten(a)| == rows * cols
    decreases rows
  {
    if rows > 0 {
      FlattenLength(a[..rows - 1], rows - 1, cols);
      MulStep(rows - 1, cols);
    }
  }

  /** Flattening places `a[i][p]` at `i * cols + p`. */
  lemma {:induction false} FlattenIndex(a: Matrix, rows: nat, cols: nat, i: nat, p: nat)
    requires IsMatrix(a, rows, cols)
    requires i < rows && p < cols
    ensures |Flatten(a)| == rows * cols
    ensures i * cols + p < |Flatten(a)| && Flatten(a)[i * cols + p] == a[i][p]
    decreases rows
  {
    FlattenLength(a, rows, cols);
    CellBelow(i, p, rows, cols);
    var a' := a[..rows - 1];
    FlattenLength(a', rows - 1, cols);
    assert Flatten(a) == Flatten(a') + a[rows - 1];
    if i < rows - 1 {
      FlattenIndex(a', rows - 1, cols, i, p);
    } else {
      assert i * cols + p == (rows - 1) * cols + p;
    }
  }

  /** Multiplying by an identity-like matrix selects a coordinate:
      Σ_{p<upto} x[p] * I[p][j] is `x[j]` when `j < upto` and 0 otherwise. */
  lemma {:induction false} RowColIdentity(x: seq<real>, rows: nat, cols: nat, j: nat, upto: nat)
    requires upto <= |x| && upto <= rows && j < cols
    ensures RowCol(x, Identity(rows, cols), j, upto) == if j < upto then x[j] else 0.0
    decreases upto
  {
    if upto > 0 {
      RowColIdentity(x, rows, cols, j, upto - 1);
    }
  }

  /** Matrices of the same shape with the same cells are equal. */
  lemma CellsEqual(a: Matrix, b: Matrix, rows: nat, cols: nat)
    requires IsMatrix(a, rows, cols) && IsMatrix(b, rows, cols)
    requires forall r, c :: 0 <= r < rows && 0 <= c < cols ==> a[r][c] == b[r][c]
    ensures a == b
  {
    forall r | 0 <= r < rows
      ensures a[r] == b[r]
    {
    }
  }
}
