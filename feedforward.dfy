/**
  The position-wise feed-forward block (core/src/feedforward.rs): a dense
  layer to the hidden width, GELU on every cell, and a dense layer back.
*/
module FeedForwards {
  import opened Scalars
  import opened Matrices
  import Dense

  datatype FeedForward = FeedForward(w1: Dense.Linear, w2: Dense.Linear)

  /** `std::f32::consts::PI` as a decimal. */
  const Pi: real := 3.14159265358979323846

  /** The hyperbolic tangent stays within [-1, 1]. */
  ghost predicate TanhBounded(m: Math)
  {
    forall x: real :: -1.0 <= m.tanh(x) <= 1.0
  }

  /** `x` gated by `(1 + t) / 2`. */
  function Gate(x: real, t: real): real
  {
    0.5 * x * (1.0 + t)
  }

  /** For `t` in [-1, 1] the gated value lies between 0 and `x`. */
  lemma GateBetween(x: real, t: real)
    requires -1.0 <= t <= 1.0
    ensures x >= 0.0 ==> 0.0 <= Gate(x, t) <= x
    ensures x < 0.0 ==> x <= Gate(x, t) <= 0.0
  {
    var u := 0.5 * (1.0 + t);
    assert 0.0 <= u <= 1.0;
    assert Gate(x, t) == x * u;
    if x >= 0.0 {
      assert x * u <= x * 1.0;
      assert x * u >= x * 0.0;
    } else {
      assert (-x) * u <= (-x) * 1.0;
      assert (-x) * u >= (-x) * 0.0;
    }
  }

  /** The tanh approximation of GELU:
      `0.5 x (1 + tanh(x · sqrt(2 / pi) · (1 + 0.044715 x²)))`. */
  function Gelu(m: Math, x: real): real
  {
    Gate(x, m.tanh(TanhArgument(m, x)))
  }

  /** `x · sqrt(2 / pi) · (1 + 0.044715 x²)`. */
  function TanhArgument(m: Math, x: real): real
  {
    x * m.sqrt(2.0 / Pi) * (1.0 + 0.044715 * x * x)
  }

  /** With a bounded tanh, GELU lies between 0 and its argument: it keeps
      the sign of `x` and never exceeds `|x|`. */
  lemma GeluBetween(m: Math, x: real)
    requires TanhBounded(m)
    ensures x >= 0.0 ==> 0.0 <= Gelu(m, x) <= x
    ensures x < 0.0 ==> x <= Gelu(m, x) <= 0.0
  {
    var t := m.tanh(TanhArgument(m, x));
    assert -1.0 <= t <= 1.0;
    GateBetween(x, t);
  }

  /** GELU on every cell, independently of all the others. */
  function Activate(m: Math, h: Matrix): (r: Matrix)
    ensures |r| == |h|
    ensures forall i :: 0 <= i < |h| ==> |r[i]| == |h[i]|
    ensures forall i, j :: 0 <= i < |h| && 0 <= j < |h[i]| ==> r[i][j] == Gelu(m, h[i][j])
  {
    seq(|h|, i requires 0 <= i < |h| => seq(|h[i]|, j requires 0 <= j < |h[i]| => Gelu(m, h[i][j])))
  }

  /** `FeedForward::new(embed_dim, hidden_dim)`: `w1` is the
      `embed × hidden` matrix with 1 where `i == j`, `w2` the
      `hidden × embed` one, both biases zero. */
  function New(e: nat, h: nat): (ff: FeedForward)
    ensures Dense.Shaped(ff.w1, e, h) && Dense.Shaped(ff.w2, h, e)
    ensures ff.w1.bias == Zeros(h) && ff.w2.bias == Zeros(e)
    ensures forall i, j :: 0 <= i < e && 0 <= j < h ==> ff.w1.weight[i][j] == if i == j then 1.0 else 0.0
    ensures forall i, j :: 0 <= i < h && 0 <= j < e ==> ff.w2.weight[i][j] == if i == j then 1.0 else 0.0
  {
    FeedForward(Dense.IdentityLinear(e, h), Dense.IdentityLinear(h, e))
  }

  /** Neither dense layer panics. */
  predicate Defined(m: Math, ff: FeedForward, x: Matrix)
  {
    Dense.ForwardDefined(ff.w1, x) && Dense.ForwardDefined(ff.w2, Activate(m, Dense.Affine(ff.w1, x)))
  }

  /** `FeedForward::forward`: `w2(map gelu (w1 x))`. */
  function Forward(m: Math, ff: FeedForward, x: Matrix): (r: Matrix)
    requires Defined(m, ff, x)
    ensures IsMatrix(r, |x|, |ff.w2.weight[0]|)
  {
    Dense.Affine(ff.w2, Activate(m, Dense.Affine(ff.w1, x)))
  }

  /** `ff` maps `e` features to `e` through a non-empty hidden width. */
  predicate Shaped(ff: FeedForward, e: nat)
  {
    |ff.w2.weight| > 0 && Dense.Shaped(ff.w1, e, |ff.w2.weight|) && Dense.Shaped(ff.w2, |ff.w2.weight|, e)
  }

  /** An `n × e` input comes out `n × e`. */
  lemma ForwardShape(m: Math, ff: FeedForward, x: Matrix, n: nat, e: nat)
    requires Shaped(ff, e) && IsMatrix(x, n, e) && n > 0 && e > 0
    ensures Defined(m, ff, x)
    ensures IsMatrix(Forward(m, ff, x), n, e)
  {
    var h := |ff.w2.weight|;
    Dense.AffineShape(ff.w1, x, n, e, h);
    Dense.AffineShape(ff.w2, Activate(m, Dense.Affine(ff.w1, x)), n, h, e);
  }

  /** Through `new(e, h)` each cell `j < h` is `gelu` of the input cell and
      the cells `j >= h` are 0, since the hidden layer keeps only the first
      `min(e, h)` features. */
  lemma NewForward(m: Math, x: Matrix, n: nat, e: nat, h: nat)
    requires IsMatrix(x, n, e) && n > 0 && e > 0 && h > 0
    ensures Defined(m, New(e, h), x)
    ensures var out := Forward(m, New(e, h), x);
      IsMatrix(out, n, e) &&
      forall i, j :: 0 <= i < n && 0 <= j < e ==> out[i][j] == if j < h then Gelu(m, x[i][j]) else 0.0
  {
    var ff := New(e, h);
    Dense.AffineIdentity(x, n, e, h);
    var hidden := Dense.Affine(ff.w1, x);
    var act := Activate(m, hidden);
    Dense.AffineIdentity(act, n, h, e);
    var out := Forward(m, ff, x);
    forall i, j | 0 <= i < n && 0 <= j < e
      ensures out[i][j] == if j < h then Gelu(m, x[i][j]) else 0.0
    {
      if j < h {
        assert act[i][j] == Gelu(m, hidden[i][j]);
      }
    }
  }

  /** The unit test: `new(2, 2)` on `[[0.5, -0.5]]` gives
      `[[gelu(0.5), gelu(-0.5)]]`. */
  lemma NewForwardExample(m: Math)
    ensures Defined(m, New(2, 2), [[0.5, -0.5]])
    ensures Forward(m, New(2, 2), [[0.5, -0.5]]) == [[Gelu(m, 0.5), Gelu(m, -0.5)]]
  {
    var x := [[0.5, -0.5]];
    NewForward(m, x, 1, 2, 2);
    var out := Forward(m, New(2, 2), x);
    assert out[0] == [Gelu(m, 0.5), Gelu(m, -0.5)];
  }
}
