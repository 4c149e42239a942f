/**
  Layer normalization (core/src/layernorm.rs). Every row is normalized on
  its own: `y[i] = gamma[i] * ((x[i] - mean) / sqrt(var + eps)) + beta[i]`,
  with the mean and the (population) variance both divided by the row length.
*/
module LayerNorms {
  import opened Scalars
  import opened Matrices

  datatype LayerNorm = LayerNorm(gamma: seq<real>, beta: seq<real>, eps: real)

  /** `LayerNorm::new(dim)`: unit gain, zero shift, `eps = 1e-5`. */
  function New(dim: nat): (ln: LayerNorm)
    ensures |ln.gamma| == dim && |ln.beta| == dim && ln.eps == 0.00001
    ensures forall i :: 0 <= i < dim ==> ln.gamma[i] == 1.0 && ln.beta[i] == 0.0
  {
    LayerNorm(seq(dim, _ => 1.0), Zeros(dim), 0.00001)
  }

  /** Over the reals `sqrt(var + eps)` is non-zero when `eps > 0`, given that
      `sqrt` is positive on positive arguments. */
  ghost predicate DenomDefined(m: Math, ln: LayerNorm)
  {
    SqrtPositive(m) && ln.eps > 0.0
  }

  /** `gamma[i]` and `beta[i]` exist for every coordinate of every row. */
  predicate FitsRows(ln: LayerNorm, input: Matrix)
  {
    forall r :: 0 <= r < |input| ==> |input[r]| <= |ln.gamma| && |input[r]| <= |ln.beta|
  }

  function Mean(row: seq<real>): real
    requires |row| > 0
  {
    Sum(row) / (|row| as real)
  }

  function SquaredDeviations(row: seq<real>, mean: real): (d: seq<real>)
    ensures |d| == |row|
    ensures forall i :: 0 <= i < |d| ==> d[i] >= 0.0
  {
    seq(|row|, i requires 0 <= i < |row| => Square(row[i] - mean))
  }

  function Variance(row: seq<real>): (v: real)
    requires |row| > 0
    ensures v >= 0.0
  {
    var d := SquaredDeviations(row, Mean(row));
    SumNonNegative(d);
    Sum(d) / (|row| as real)
  }

  /** The denominator `sqrt(var + eps)`. */
  function Denom(m: Math, ln: LayerNorm, row: seq<real>): (d: real)
    requires DenomDefined(m, ln) && |row| > 0
    ensures d > 0.0
  {
    m.sqrt(Variance(row) + ln.eps)
  }

  /** One normalized row. An empty row maps to an empty row (the mean would
      be 0/0, but no element is produced). */
  function NormRow(m: Math, ln: LayerNorm, row: seq<real>): (y: seq<real>)
    requires DenomDefined(m, ln) && |row| <= |ln.gamma| && |row| <= |ln.beta|
    ensures |y| == |row|
  {
    if |row| == 0 then []
    else
      var mean, denom := Mean(row), Denom(m, ln, row);
      seq(|row|, i requires 0 <= i < |row| => ln.gamma[i] * ((row[i] - mean) / denom) + ln.beta[i])
  }

  /** `LayerNorm::forward`: the rows normalized independently. */
  function Forward(m: Math, ln: LayerNorm, input: Matrix): (out: Matrix)
    requires DenomDefined(m, ln) && FitsRows(ln, input)
    ensures |out| == |input|
    ensures forall r :: 0 <= r < |input| ==> |out[r]| == |input[r]|
  {
    seq(|input|, r requires 0 <= r < |input| => NormRow(m, ln, input[r]))
  }

  /** Shape: a `rows × cols` input gives a `rows × cols` output. */
  lemma ForwardShape(m: Math, ln: LayerNorm, input: Matrix, rows: nat, cols: nat)
    requires DenomDefined(m, ln) && FitsRows(ln, input) && IsMatrix(input, rows, cols)
    ensures IsMatrix(Forward(m, ln, input), rows, cols)
  {
  }

  /** Row independence: normalizing a prefix gives the prefix of the output. */
  lemma ForwardPrefix(m: Math, ln: LayerNorm, input: Matrix, t: nat)
    requires DenomDefined(m, ln) && FitsRows(ln, input) && t <= |input|
    ensures FitsRows(ln, input[..t])
    ensures Forward(m, ln, input[..t]) == Forward(m, ln, input)[..t]
  {
  }

  /** With unit gain and zero shift the normalized row sums to exactly 0, so
      its mean is 0 (the unit test checks `|mean| < 1e-6`). */
  lemma UnitNormZeroMean(m: Math, ln: LayerNorm, row: seq<real>)
    requires DenomDefined(m, ln) && |row| <= |ln.gamma| && |row| <= |ln.beta|
    requires forall i :: 0 <= i < |row| ==> ln.gamma[i] == 1.0 && ln.beta[i] == 0.0
    ensures Sum(NormRow(m, ln, row)) == 0.0
  {
    if |row| > 0 {
      var mean, denom := Mean(row), Denom(m, ln, row);
      var shifted := seq(|row|, i requires 0 <= i < |row| => row[i] - mean);
      var scaled := seq(|shifted|, i requires 0 <= i < |shifted| => shifted[i] * (1.0 / denom));
      UnitNormScaled(m, ln, row, scaled);
      SumScale(shifted, 1.0 / denom);
      CenteredSumZero(row, shifted);
    }
  }

  /** With unit gain and zero shift, normalizing is scaling the centered
      row by `1 / denom`. */
  lemma UnitNormScaled(m: Math, ln: LayerNorm, row: seq<real>, scaled: seq<real>)
    requires DenomDefined(m, ln) && 0 < |row| <= |ln.gamma| && |row| <= |ln.beta|
    requires forall i :: 0 <= i < |row| ==> ln.gamma[i] == 1.0 && ln.beta[i] == 0.0
    requires |scaled| == |row|
    requires forall i :: 0 <= i < |row| ==> scaled[i] == (row[i] - Mean(row)) * (1.0 / Denom(m, ln, row))
    ensures Sum(NormRow(m, ln, row)) == Sum(scaled)
  {
    var y := NormRow(m, ln, row);
    forall i | 0 <= i < |row|
      ensures y[i] == scaled[i]
    {
      UnitGain(ln.gamma[i], ln.beta[i], row[i] - Mean(row), Denom(m, ln, row));
    }
    SumEqual(y, scaled);
  }

  lemma UnitGain(g: real, b: real, x: real, d: real)
    requires g == 1.0 && b == 0.0 && d != 0.0
    ensures g * (x / d) + b == x * (1.0 / d)
  {
    DivAsMul(x, d);
  }

  /** The deviations from the mean sum to 0. */
  lemma CenteredSumZero(row: seq<real>, shifted: seq<real>)
    requires |row| > 0 && |shifted| == |row|
    requires forall i :: 0 <= i < |row| ==> shifted[i] == row[i] - Mean(row)
    ensures Sum(shifted) == 0.0
  {
    var mean := Mean(row);
    SumShift(row, mean);
    assert shifted == seq(|row|, i requires 0 <= i < |row| => row[i] - mean);
    MulDivCancel(Sum(row), |row| as real);
  }

  /** `LayerNorm::new` satisfies the hypothesis of `UnitNormZeroMean` for
      every row of length at most `dim`. */
  lemma NewNormZeroMean(m: Math, dim: nat, row: seq<real>)
    requires SqrtPositive(m) && |row| <= dim
    ensures DenomDefined(m, New(dim))
    ensures Sum(NormRow(m, New(dim), row)) == 0.0
  {
    UnitNormZeroMean(m, New(dim), row);
  }
}
