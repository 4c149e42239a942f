/**
  The dense layer `Linear` (core/src/lib.rs) and the naive GEMM kernel it
  calls (core/src/blas.rs, the build without the `blas` feature).

  `Forward` flattens the input and the weight into row-major buffers, runs
  `Sgemm` on a zeroed output buffer and adds the bias per output column. Its
  exact behaviour is the function `Affine`, which reads the flattened
  buffers the way the kernel does; `AffineIsRowTimesColumn` shows that on
  well-shaped matrices this is `input[i] · weight[.., j] + bias[j]`.
*/
module Dense {
  import opened Scalars
  import opened Matrices

  /** `weight` is `in_dim × out_dim`, one row per input feature. */
  datatype Linear = Linear(weight: Matrix, bias: seq<real>)

  /** Σ_{p < upto} a[i*k + p] * b[p*n + j]: the `sum` of the kernel's inner loop. */
  function GemmSum(a: seq<real>, b: seq<real>, n: nat, k: nat, i: nat, j: nat, upto: nat): real
    requires j < n && upto <= k
    requires i * k + upto <= |a| && upto * n <= |b|
    decreases upto
  {
    if upto == 0 then 0.0
    else
      MulStep(upto - 1, n);
      GemmSum(a, b, n, k, i, j, upto - 1) + a[i * k + upto - 1] * b[(upto - 1) * n + j]
  }

  /** Row `i` of the product, as the kernel computes it. */
  function GemmRow(a: seq<real>, b: seq<real>, n: nat, k: nat, i: nat): (r: seq<real>)
    requires n > 0 ==> (i + 1) * k <= |a| && k * n <= |b|
    ensures |r| == n
  {
    MulStep(i, k);
    seq(n, j requires 0 <= j < n => GemmSum(a, b, n, k, i, j, k))
  }

  /** The first `m` rows of the product, flattened row-major. */
  function GemmRows(a: seq<real>, b: seq<real>, m: nat, n: nat, k: nat): (r: seq<real>)
    requires n > 0 ==> m * k <= |a|
    requires m > 0 ==> k * n <= |b|
    ensures |r| == m * n
    decreases m
  {
    if m == 0 then []
    else
      MulStep(m - 1, k);
      MulStep(m - 1, n);
      GemmRows(a, b, m - 1, n, k) + GemmRow(a, b, n, k, m - 1)
  }

  lemma GemmRowsStep(a: seq<real>, b: seq<real>, i: nat, n: nat, k: nat)
    requires n > 0 ==> (i + 1) * k <= |a|
    requires k * n <= |b|
    ensures GemmRows(a, b, i + 1, n, k) == GemmRows(a, b, i, n, k) + GemmRow(a, b, n, k, i)
  {
    MulMono(i, i + 1, k);
  }

  /** With `k = 0` every cell the kernel writes is `0.0`. */
  lemma {:induction false} GemmRowsZeroDepth(a: seq<real>, b: seq<real>, m: nat, n: nat)
    ensures GemmRows(a, b, m, n, 0) == Zeros(m * n)
    decreases m
  {
    if m > 0 {
      GemmRowsZeroDepth(a, b, m - 1, n);
      MulStep(m - 1, n);
      assert GemmRow(a, b, n, 0, m - 1) == Zeros(n);
      assert Zeros(m * n) == Zeros((m - 1) * n) + Zeros(n);
    }
  }

  /** Cell `(i, j)` of the flattened product sits at `i*n + j`. */
  lemma {:induction false} GemmRowsAt(a: seq<real>, b: seq<real>, m: nat, n: nat, k: nat, i: nat, j: nat)
    requires n > 0 ==> m * k <= |a|
    requires m > 0 ==> k * n <= |b|
    requires i < m && j < n
    ensures i * n + j < m * n && (i + 1) * k <= |a|
    ensures GemmRows(a, b, m, n, k)[i * n + j] == GemmSum(a, b, n, k, i, j, k)
    decreases m
  {
    CellBelow(i, j, m, n);
    RowEnd(i, m, k);
    MulStep(m - 1, k);
    MulStep(m - 1, n);
    var prev := GemmRows(a, b, m - 1, n, k);
    assert GemmRows(a, b, m, n, k) == prev + GemmRow(a, b, n, k, m - 1);
    if i < m - 1 {
      MulMono(m - 1, m, k);
      GemmRowsAt(a, b, m - 1, n, k, i, j);
    } else {
      assert i * n + j == |prev| + j;
    }
  }

  /** The kernel's innermost loop: the running `sum` for cell `(i, j)`. */
  method CellSum(a: array<real>, b: array<real>, n: nat, k: nat, i: nat, j: nat) returns (sum: real)
    requires j < n && i * k + k <= a.Length && k * n <= b.Length
    ensures sum == GemmSum(a[..], b[..], n, k, i, j, k)
  {
    sum := 0.0;
    var p := 0;
    while p < k
      invariant 0 <= p <= k
      invariant sum == GemmSum(a[..], b[..], n, k, i, j, p)
    {
      MulStep(p, n);
      MulMono(p + 1, k, n);
      sum := sum + a[i * k + p] * b[p * n + j];
      p := p + 1;
    }
  }

  /** One pass of the kernel's middle loop: row `i` of the product is written
      to `c[start .. start + n)`, where `start` is `i * n`, and nothing else changes. */
  method KernelRow(n: nat, k: nat, i: nat, start: nat, a: array<real>, b: array<real>, c: array<real>)
    requires n > 0 ==> i * k + k <= a.Length && k * n <= b.Length
    requires start + n <= c.Length
    requires c != a && c != b
    modifies c
    ensures c[..start] == old(c[..start])
    ensures c[start..start + n] == GemmRow(a[..], b[..], n, k, i)
    ensures c[start + n..] == old(c[start + n..])
  {
    MulStep(i, k);
    var j := 0;
    while j < n
      invariant 0 <= j <= n
      invariant c[..start] == old(c[..start])
      invariant c[start..start + j] == GemmRow(a[..], b[..], n, k, i)[..j]
      invariant c[start + j..] == old(c[start + j..])
    {
      var sum := CellSum(a, b, n, k, i, j);
      ghost var before := c[..];
      c[start + j] := sum;
      assert c[start..start + j + 1] == before[start..start + j] + [sum];
      assert c[start + j + 1..] == before[start + j + 1..];
      j := j + 1;
    }
  }

  /**
    The kernel: for all `i < m`, `j < n`, `c[i*n + j] := Σ_{p<k} a[i*k+p] * b[p*n+j]`
    (the cell form is `GemmRowsAt`).
    Cells `[0, m*n)` are overwritten (never accumulated into) and the rest of
    `c` is left alone. The bounds are exactly those under which no slice index
    panics: `a` is read only when some cell is written and `b` only when a row
    is visited.
  */
  method Sgemm(m: nat, n: nat, k: nat, a: array<real>, b: array<real>, c: array<real>)
    requires n > 0 ==> m * k <= a.Length
    requires m > 0 ==> k * n <= b.Length
    requires m * n <= c.Length
    requires c != a && c != b
    modifies c
    ensures c[..m * n] == GemmRows(a[..], b[..], m, n, k)
    ensures c[m * n..] == old(c[m * n..])
  {
    var i, start := 0, 0;
    while i < m
      invariant 0 <= i <= m && start == i * n <= m * n
      invariant c[..start] == GemmRows(a[..], b[..], i, n, k)
      invariant c[start..] == old(c[start..])
    {
      RowEnd(i, m, k);
      RowEnd(i, m, n);
      GemmRowsStep(a[..], b[..], i, n, k);
      ghost var done, rest := c[..start], c[start..];
      assert rest[n..] == c[start + n..];
      KernelRow(n, k, i, start, a, b, c);
      assert c[..start + n] == c[..start] + c[start..start + n];
      assert c[start + n..] == rest[n..] == old(c[start..])[n..] == old(c[start + n..]);
      i, start := i + 1, start + n;
    }
  }

  /** When `layer.forward(input)` runs without panicking: `input[0]`,
      `weight[0]` and `bias[j]` exist and the kernel's reads stay inside the
      flattened buffers. */
  predicate ForwardDefined(layer: Linear, input: Matrix)
  {
    |input| > 0 && |layer.weight| > 0 &&
    var m, k, n := |input|, |input[0]|, |layer.weight[0]|;
    (n > 0 ==> m * k <= |Flatten(input)|) &&
    k * n <= |Flatten(layer.weight)| &&
    n <= |layer.bias|
  }

  /** What `Linear::forward` returns: `m` rows of `n = weight[0].len()`
      cells, each the kernel's sum plus `bias[j]`. */
  function Affine(layer: Linear, input: Matrix): (r: Matrix)
    requires ForwardDefined(layer, input)
    ensures IsMatrix(r, |input|, |layer.weight[0]|)
  {
    var m, k, n := |input|, |input[0]|, |layer.weight[0]|;
    var a, b := Flatten(input), Flatten(layer.weight);
    seq(m, i requires 0 <= i < m =>
      RowEnd(i, m, k);
      seq(n, j requires 0 <= j < n => GemmSum(a, b, n, k, i, j, k) + layer.bias[j]))
  }

  /** Rows laid end to end, as `for row in input { a.extend_from_slice(row) }`. */
  method FlattenRows(rows: Matrix) returns (flat: seq<real>)
    ensures flat == Flatten(rows)
  {
    flat := [];
    for r := 0 to |rows|
      invariant flat == Flatten(rows[..r])
    {
      assert rows[..r + 1][..r] == rows[..r];
      flat := flat + rows[r];
    }
    assert rows[..|rows|] == rows;
  }

  /** `m` rows of `n` cells, cell `(i, j)` being `c[i*n + j] + bias[j]`. */
  function BiasRows(c: seq<real>, m: nat, n: nat, bias: seq<real>): (r: Matrix)
    requires m * n <= |c| && n <= |bias|
    ensures IsMatrix(r, m, n)
  {
    seq(m, i requires 0 <= i < m =>
      RowEnd(i, m, n);
      seq(n, j requires 0 <= j < n => c[i * n + j] + bias[j]))
  }

  /** The output loop of `forward`: `output[i][j] = c[i*n + j] + bias[j]`. */
  method AddBias(c: array<real>, m: nat, n: nat, bias: seq<real>) returns (output: Matrix)
    requires m * n <= c.Length && n <= |bias|
    ensures output == BiasRows(c[..], m, n, bias)
  {
    ghost var spec := BiasRows(c[..], m, n, bias);
    output := seq(m, _ => Zeros(n));
    for i := 0 to m
      invariant |output| == m
      invariant forall r :: 0 <= r < i ==> output[r] == spec[r]
      invariant forall r :: i <= r < m ==> output[r] == Zeros(n)
    {
      RowEnd(i, m, n);
      for j := 0 to n
        invariant |output| == m && |output[i]| == n
        invariant forall r :: 0 <= r < i ==> output[r] == spec[r]
        invariant forall r :: i < r < m ==> output[r] == Zeros(n)
        invariant forall q :: 0 <= q < j ==> output[i][q] == spec[i][q]
      {
        output := output[i := output[i][j := c[i * n + j] + bias[j]]];
      }
      assert output[i] == spec[i];
    }
  }

  /** Adding the bias to the kernel's product gives `Affine`. */
  lemma KernelThenBias(layer: Linear, input: Matrix, c: seq<real>)
    requires ForwardDefined(layer, input)
    requires |c| == |input| * |layer.weight[0]|
    requires c == GemmRows(Flatten(input), Flatten(layer.weight), |input|, |layer.weight[0]|, |input[0]|)
    ensures BiasRows(c, |input|, |layer.weight[0]|, layer.bias) == Affine(layer, input)
  {
    var m, k, n := |input|, |input[0]|, |layer.weight[0]|;
    var a, b := Flatten(input), Flatten(layer.weight);
    var lhs, rhs := BiasRows(c, m, n, layer.bias), Affine(layer, input);
    forall i, j | 0 <= i < m && 0 <= j < n
      ensures lhs[i][j] == rhs[i][j]
    {
      GemmRowsAt(a, b, m, n, k, i, j);
    }
    forall i | 0 <= i < m
      ensures lhs[i] == rhs[i]
    {
    }
  }

  /** `Linear::forward`: flatten, multiply, add the bias. It reads `layer`
      and `input` only. */
  method Forward(layer: Linear, input: Matrix) returns (output: Matrix)
    requires ForwardDefined(layer, input)
    ensures output == Affine(layer, input)
  {
    var m := |input|;
    var k := |input[0]|;
    var n := |layer.weight[0]|;
    var a := FlattenRows(input);
    var b := FlattenRows(layer.weight);
    var aBuf := new real[|a|](t requires 0 <= t < |a| => a[t]);
    var bBuf := new real[|b|](t requires 0 <= t < |b| => b[t]);
    var c := new real[m * n](_ => 0.0);
    assert aBuf[..] == a && bBuf[..] == b;
    Sgemm(m, n, k, aBuf, bBuf, c);
    assert c[..] == c[..m * n];
    output := AddBias(c, m, n, layer.bias);
    KernelThenBias(layer, input, c[..]);
  }

  /** On an `m × k` input and a `k × n` weight, cell `(i, j)` of the result
      is `Σ_p input[i][p] * weight[p][j] + bias[j]`. */
  lemma AffineIsRowTimesColumn(layer: Linear, input: Matrix, m: nat, k: nat, n: nat, i: nat, j: nat)
    requires IsMatrix(input, m, k) && IsMatrix(layer.weight, k, n) && |layer.bias| == n
    requires m > 0 && k > 0
    requires i < m && j < n
    ensures ForwardDefined(layer, input)
    ensures Affine(layer, input)[i][j] == RowCol(input[i], layer.weight, j, k) + layer.bias[j]
  {
    AffineDefined(layer, input, m, k, n);
    RowEnd(i, m, k);
    var a, b := Flatten(input), Flatten(layer.weight);
    forall p | 0 <= p < k
      ensures a[i * k + p] == input[i][p]
    {
      FlattenIndex(input, m, k, i, p);
    }
    forall p | 0 <= p < k
      ensures p * n + j < |b| && b[p * n + j] == layer.weight[p][j]
    {
      FlattenIndex(layer.weight, k, n, p, j);
    }
    GemmSumIsRowCol(a, b, input[i], layer.weight, n, k, i, j, k);
  }

  lemma {:induction false} GemmSumIsRowCol(a: seq<real>, b: seq<real>, x: seq<real>, w: Matrix, n: nat, k: nat, i: nat, j: nat, upto: nat)
    requires |x| == k && IsMatrix(w, k, n) && j < n && upto <= k
    requires i * k + k <= |a| && k * n <= |b|
    requires forall p :: 0 <= p < k ==> a[i * k + p] == x[p]
    requires forall p :: 0 <= p < k ==> p * n + j < |b| && b[p * n + j] == w[p][j]
    ensures upto * n <= |b|
    ensures GemmSum(a, b, n, k, i, j, upto) == RowCol(x, w, j, upto)
    decreases upto
  {
    MulMono(upto, k, n);
    if upto > 0 {
      GemmSumIsRowCol(a, b, x, w, n, k, i, j, upto - 1);
      assert a[i * k + (upto - 1)] == x[upto - 1];
      assert b[(upto - 1) * n + j] == w[upto - 1][j];
    }
  }

  /** `layer` maps `k` features to `n`: a `k × n` weight and `n` biases. */
  predicate Shaped(layer: Linear, k: nat, n: nat)
  {
    IsMatrix(layer.weight, k, n) && |layer.bias| == n
  }

  /** `Linear::new(identity, zeros)` as the model's constructors build it:
      weight `[i][j] = 1` iff `i == j`, of shape `k × n`, and zero bias. */
  function IdentityLinear(k: nat, n: nat): (layer: Linear)
    ensures Shaped(layer, k, n)
  {
    Linear(Identity(k, n), Zeros(n))
  }

  /** Shape: an `m × k` input through a `k × n` layer is `m × n`. */
  lemma AffineShape(layer: Linear, input: Matrix, m: nat, k: nat, n: nat)
    requires Shaped(layer, k, n) && IsMatrix(input, m, k) && m > 0 && k > 0
    ensures ForwardDefined(layer, input)
    ensures IsMatrix(Affine(layer, input), m, n)
  {
    AffineDefined(layer, input, m, k, n);
  }

  /** The identity-like layer copies the first `min(k, n)` features and
      pads with zeros. */
  lemma AffineIdentity(input: Matrix, m: nat, k: nat, n: nat)
    requires IsMatrix(input, m, k) && m > 0 && k > 0
    ensures ForwardDefined(IdentityLinear(k, n), input)
    ensures var out := Affine(IdentityLinear(k, n), input);
      IsMatrix(out, m, n) &&
      forall i, j :: 0 <= i < m && 0 <= j < n ==> out[i][j] == if j < k then input[i][j] else 0.0
  {
    var layer := IdentityLinear(k, n);
    AffineShape(layer, input, m, k, n);
    forall i, j | 0 <= i < m && 0 <= j < n
      ensures Affine(layer, input)[i][j] == if j < k then input[i][j] else 0.0
    {
      AffineIsRowTimesColumn(layer, input, m, k, n, i, j);
      RowColIdentity(input[i], k, n, j, k);
    }
  }

  /** A square identity layer returns its input. */
  lemma AffineSquareIdentity(input: Matrix, m: nat, k: nat)
    requires IsMatrix(input, m, k) && m > 0 && k > 0
    ensures ForwardDefined(IdentityLinear(k, k), input)
    ensures Affine(IdentityLinear(k, k), input) == input
  {
    AffineIdentity(input, m, k, k);
    var out := Affine(IdentityLinear(k, k), input);
    forall i | 0 <= i < m
      ensures out[i] == input[i]
    {
    }
  }

  /** Well-shaped operands never make `forward` panic. */
  lemma AffineDefined(layer: Linear, input: Matrix, m: nat, k: nat, n: nat)
    requires IsMatrix(input, m, k) && IsMatrix(layer.weight, k, n) && |layer.bias| == n
    requires m > 0 && k > 0
    ensures ForwardDefined(layer, input)
  {
    FlattenLength(input, m, k);
    FlattenLength(layer.weight, k, n);
  }

  /** The unit test of lib.rs: `[1,1] · [[1,2],[3,4]] + [0.5,-0.5] = [4.5, 5.5]`. */
  lemma ForwardExample()
    ensures ForwardDefined(Linear([[1.0, 2.0], [3.0, 4.0]], [0.5, -0.5]), [[1.0, 1.0]])
    ensures Affine(Linear([[1.0, 2.0], [3.0, 4.0]], [0.5, -0.5]), [[1.0, 1.0]]) == [[4.5, 5.5]]
  {
    var layer := Linear([[1.0, 2.0], [3.0, 4.0]], [0.5, -0.5]);
    var input := [[1.0, 1.0]];
    AffineIsRowTimesColumn(layer, input, 1, 2, 2, 0, 0);
    AffineIsRowTimesColumn(layer, input, 1, 2, 2, 0, 1);
    var r := Affine(layer, input);
    assert r[0] == [4.5, 5.5];
  }
}
