/**
  Symmetric int8 quantization (core/src/quant.rs): one scale per matrix,
  chosen so that the entry of largest magnitude maps to ±127; every entry
  stored as its rounded and clamped multiple of the scale; and a dense layer
  that multiplies by the stored integers and the scale.
*/
module Quantization {
  import opened Scalars
  import opened Matrices
  import Dense

  /** The values of an `i8`. */
  type Int8 = x: int | -128 <= x <= 127

  type QMatrix = seq<seq<Int8>>

  /** `fold(0.0, |m, v| m.max(v.abs()))` over one row: at least every
      magnitude in the row. */
  function RowMaxAbs(row: seq<real>): (r: real)
    ensures r >= 0.0
    ensures forall j :: 0 <= j < |row| ==> Abs(row[j]) <= r
  {
    if row == [] then 0.0
    else
      var init := row[..|row| - 1];
      assert forall j :: 0 <= j < |init| ==> init[j] == row[j];
      Max(RowMaxAbs(init), Abs(row[|row| - 1]))
  }

  /** The same fold over every entry, row after row. */
  function MaxAbs(w: Matrix): (r: real)
    ensures r >= 0.0
    ensures forall i, j :: 0 <= i < |w| && 0 <= j < |w[i]| ==> Abs(w[i][j]) <= r
  {
    if w == [] then 0.0
    else
      var init := w[..|w| - 1];
      assert forall i :: 0 <= i < |init| ==> init[i] == w[i];
      Max(MaxAbs(init), RowMaxAbs(w[|w| - 1]))
  }

  /** The row maximum is 0 or the magnitude of one of its entries. */
  lemma {:induction false} RowMaxAbsAttained(row: seq<real>)
    ensures RowMaxAbs(row) == 0.0 || exists j :: 0 <= j < |row| && Abs(row[j]) == RowMaxAbs(row)
  {
    if row != [] {
      var init := row[..|row| - 1];
      RowMaxAbsAttained(init);
      if RowMaxAbs(row) != Abs(row[|row| - 1]) && RowMaxAbs(row) != 0.0 {
        var j :| 0 <= j < |init| && Abs(init[j]) == RowMaxAbs(init);
        assert row[j] == init[j];
      }
    }
  }

  /** The matrix maximum is 0 or the magnitude of one of its entries. */
  lemma {:induction false} MaxAbsAttained(w: Matrix)
    ensures MaxAbs(w) == 0.0 || exists i, j :: 0 <= i < |w| && 0 <= j < |w[i]| && Abs(w[i][j]) == MaxAbs(w)
  {
    if w != [] {
      var init := w[..|w| - 1];
      var last := |w| - 1;
      MaxAbsAttained(init);
      RowMaxAbsAttained(w[last]);
      if MaxAbs(w) != 0.0 {
        if MaxAbs(w) == RowMaxAbs(w[last]) {
          var j :| 0 <= j < |w[last]| && Abs(w[last][j]) == RowMaxAbs(w[last]);
        } else {
          var i, j :| 0 <= i < |init| && 0 <= j < |init[i]| && Abs(init[i][j]) == MaxAbs(init);
          assert w[i] == init[i];
        }
      }
    }
  }

  /** `max_abs / 127`, or 1 when every entry is 0: positive, and scaling
      every entry into `[-127, 127]`. */
  function Scale(w: Matrix): (s: real)
    ensures s > 0.0
    ensures forall i, j :: 0 <= i < |w| && 0 <= j < |w[i]| ==> Abs(w[i][j]) <= 127.0 * s
  {
    var mx := MaxAbs(w);
    if mx == 0.0 then 1.0 else mx / 127.0
  }

  /** The scale is 1 for an all-zero matrix; otherwise it is the least one
      that keeps every entry in range: the largest entry lands exactly on
      ±127. */
  lemma ScaleCases(w: Matrix)
    ensures (forall i, j :: 0 <= i < |w| && 0 <= j < |w[i]| ==> w[i][j] == 0.0) ==> Scale(w) == 1.0
    ensures (exists i, j :: 0 <= i < |w| && 0 <= j < |w[i]| && w[i][j] != 0.0) ==>
              exists i, j :: 0 <= i < |w| && 0 <= j < |w[i]| && Abs(w[i][j]) == 127.0 * Scale(w)
  {
    MaxAbsAttained(w);
  }

  /** `f32::clamp(lo, hi)`. */
  function Clamp(x: int, lo: int, hi: int): (r: int)
    requires lo <= hi
    ensures lo <= r <= hi
    ensures lo <= x <= hi ==> r == x
    ensures x < lo ==> r == lo
    ensures x > hi ==> r == hi
  {
    if x < lo then lo else if x > hi then hi else x
  }

  /** `(v / scale).round().clamp(-128.0, 127.0) as i8`. */
  function QuantizeEntry(v: real, s: real): Int8
    requires s > 0.0
  {
    Clamp(Round(v / s), -128, 127)
  }

  datatype Quantized = Quantized(values: QMatrix, scale: real)

  /** `quantize_i8`: every row keeps its length. */
  function Quantize(w: Matrix): (q: Quantized)
    ensures q.scale == Scale(w)
    ensures |q.values| == |w| && forall i :: 0 <= i < |w| ==> |q.values[i]| == |w[i]|
    ensures forall i, j :: 0 <= i < |w| && 0 <= j < |w[i]| ==> q.values[i][j] == QuantizeEntry(w[i][j], q.scale)
  {
    var s := Scale(w);
    Quantized(seq(|w|, i requires 0 <= i < |w| => seq(|w[i]|, j requires 0 <= j < |w[i]| => QuantizeEntry(w[i][j], s))), s)
  }

  /** `v as f32 * scale`. */
  function Dequant(v: Int8, s: real): real
  {
    v as real * s
  }

  /** `dequantize_i8`: every row keeps its length. */
  function Dequantize(q: QMatrix, s: real): (w: Matrix)
    ensures |w| == |q| && forall i :: 0 <= i < |q| ==> |w[i]| == |q[i]|
    ensures forall i, j :: 0 <= i < |q| && 0 <= j < |q[i]| ==> w[i][j] == Dequant(q[i][j], s)
  {
    seq(|q|, i requires 0 <= i < |q| => seq(|q[i]|, j requires 0 <= j < |q[i]| => Dequant(q[i][j], s)))
  }

  lemma QuotientBounded(v: real, s: real)
    requires s > 0.0 && Abs(v) <= 127.0 * s
    ensures -127.0 <= v / s <= 127.0
  {
  }

  /** An entry the scale maps into `[-127, 127]` is not clamped: it is
      the rounded quotient, and lies in `[-127, 127]`. */
  lemma EntryUnclamped(v: real, s: real)
    requires s > 0.0 && Abs(v) <= 127.0 * s
    ensures QuantizeEntry(v, s) == Round(v / s)
    ensures -127 <= QuantizeEntry(v, s) <= 127
  {
    QuotientBounded(v, s);
  }

  /** `|v − r·s| ≤ s/2` when `r` is within 1/2 of `v/s`. */
  lemma ScaledError(v: real, s: real, r: int)
    requires s > 0.0 && -0.5 <= r as real - v / s <= 0.5
    ensures Abs(v - r as real * s) <= s / 2.0
  {
    var d := r as real - v / s;
    assert v / s * s == v;
    assert r as real * s - v == d * s;
    if d >= 0.0 {
      assert d * s <= 0.5 * s;
    } else {
      assert -d * s <= 0.5 * s;
    }
  }

  /** One entry comes back within half a scale. */
  lemma EntryRoundTrip(v: real, s: real)
    requires s > 0.0 && Abs(v) <= 127.0 * s
    ensures Abs(v - Dequant(QuantizeEntry(v, s), s)) <= s / 2.0
  {
    EntryUnclamped(v, s);
    ScaledError(v, s, Round(v / s));
  }

  /** The clamp never bites: every quantized entry lies in `[-127, 127]`,
      although the clamp allows -128. */
  lemma QuantizedRange(w: Matrix)
    ensures var q := Quantize(w);
      forall i, j :: 0 <= i < |w| && 0 <= j < |w[i]| ==> -127 <= q.values[i][j] <= 127
  {
    var q := Quantize(w);
    forall i, j | 0 <= i < |w| && 0 <= j < |w[i]|
      ensures -127 <= q.values[i][j] <= 127
    {
      EntryUnclamped(w[i][j], q.scale);
    }
  }

  /** Quantizing and dequantizing moves every entry by at most half the
      scale. */
  lemma RoundTrip(w: Matrix)
    ensures var q := Quantize(w);
      var d := Dequantize(q.values, q.scale);
      forall i, j :: 0 <= i < |w| && 0 <= j < |w[i]| ==> Abs(w[i][j] - d[i][j]) <= q.scale / 2.0
  {
    var q := Quantize(w);
    var d := Dequantize(q.values, q.scale);
    forall i, j | 0 <= i < |w| && 0 <= j < |w[i]|
      ensures Abs(w[i][j] - d[i][j]) <= q.scale / 2.0
    {
      EntryRoundTrip(w[i][j], q.scale);
    }
  }

  /** The unit test: `[[0.5, -0.5], [1.0, -1.0]]` has scale 1/127 and
      quantizes to `[[64, -64], [127, -127]]` (63.5 rounds away from zero);
      every entry comes back within 1/254, which is below 1e-2. */
  lemma RoundTripExample()
    ensures Quantize([[0.5, -0.5], [1.0, -1.0]]) == Quantized([[64, -64], [127, -127]], 1.0 / 127.0)
    ensures var w := [[0.5, -0.5], [1.0, -1.0]];
      var d := Dequantize([[64, -64], [127, -127]], 1.0 / 127.0);
      forall i, j :: 0 <= i < 2 && 0 <= j < 2 ==> Abs(w[i][j] - d[i][j]) < 0.01
  {
    var w := [[0.5, -0.5], [1.0, -1.0]];
    var r0, r1 := [0.5, -0.5], [1.0, -1.0];
    assert r0[..1] == [0.5] && r1[..1] == [1.0] && [0.5][..0] == [] && [1.0][..0] == [];
    assert RowMaxAbs([0.5]) == 0.5 && RowMaxAbs([1.0]) == 1.0;
    assert RowMaxAbs(r0) == 0.5 && RowMaxAbs(r1) == 1.0;
    var empty: Matrix := [];
    assert w[..1] == [r0] && [r0][..0] == empty;
    assert MaxAbs([r0]) == 0.5;
    assert MaxAbs(w) == 1.0;
    var s := Scale(w);
    assert s == 1.0 / 127.0;
    assert 0.5 / s == 63.5 && -0.5 / s == -63.5 && 1.0 / s == 127.0 && -1.0 / s == -127.0;
    var q := Quantize(w);
    assert q.values[0] == [64, -64] && q.values[1] == [127, -127];
    assert q.values == [[64, -64], [127, -127]];
    RoundTrip(w);
  }

  /** `QuantizedLinear`: an `in × out` quantized weight, its scale and a
      float bias. */
  datatype QuantizedLinear = QuantizedLinear(weight: QMatrix, bias: seq<real>, scale: real)

  /** `QuantizedLinear::from_linear`: the bias is copied, and every weight is
      stored as an integer whose multiple of the scale is within half a
      scale of the original. */
  function FromLinear(layer: Dense.Linear): (q: QuantizedLinear)
    ensures q.bias == layer.bias && q.scale > 0.0
    ensures |q.weight| == |layer.weight| && forall i :: 0 <= i < |q.weight| ==> |q.weight[i]| == |layer.weight[i]|
    ensures forall i, j :: 0 <= i < |q.weight| && 0 <= j < |q.weight[i]| ==>
              Abs(layer.weight[i][j] - Dequant(q.weight[i][j], q.scale)) <= q.scale / 2.0
  {
    var wq := Quantize(layer.weight);
    RoundTrip(layer.weight);
    QuantizedLinear(wq.values, layer.bias, wq.scale)
  }

  /** `Σ_{i < upto} row[i] · weight[i][j] · scale`, in loop order. */
  function QDot(q: QuantizedLinear, row: seq<real>, j: nat, upto: nat): real
    requires upto <= |row| && upto <= |q.weight| && forall i :: 0 <= i < upto ==> j < |q.weight[i]|
  {
    if upto == 0 then 0.0
    else QDot(q, row, j, upto - 1) + row[upto - 1] * (q.weight[upto - 1][j] as real) * q.scale
  }

  /** `forward` does not panic on `row`: `weight[0]` exists, every
      `weight[i]` the row reaches has the `weight[0].len()` columns that
      are read, and so does the bias. */
  predicate RowDefined(q: QuantizedLinear, row: seq<real>)
  {
    |q.weight| > 0 && |row| <= |q.weight| && |q.weight[0]| <= |q.bias| &&
    forall i :: 0 <= i < |row| ==> |q.weight[0]| <= |q.weight[i]|
  }

  predicate ForwardDefined(q: QuantizedLinear, input: Matrix)
  {
    forall r :: 0 <= r < |input| ==> RowDefined(q, input[r])
  }

  /** What `QuantizedLinear::forward` returns. */
  function Apply(q: QuantizedLinear, input: Matrix): (r: Matrix)
    requires ForwardDefined(q, input)
    ensures |r| == |input|
    ensures forall i :: 0 <= i < |input| ==> RowDefined(q, input[i]) && |r[i]| == |q.weight[0]|
  {
    seq(|input|, r requires 0 <= r < |input| =>
      assert RowDefined(q, input[r]);
      seq(|q.weight[0]|, j requires 0 <= j < |q.weight[0]| => QDot(q, input[r], j, |input[r]|) + q.bias[j]))
  }

  /** The inner loop of `forward` for output `j` of `row`. */
  method Cell(q: QuantizedLinear, row: seq<real>, j: nat) returns (out: real)
    requires RowDefined(q, row) && j < |q.weight[0]|
    ensures out == QDot(q, row, j, |row|) + q.bias[j]
  {
    var sum := 0.0;
    for i := 0 to |row|
      invariant sum == QDot(q, row, j, i)
    {
      sum := sum + row[i] * (q.weight[i][j] as real) * q.scale;
    }
    out := sum + q.bias[j];
  }

  /** `QuantizedLinear::forward`: every row, every output column. */
  method Forward(q: QuantizedLinear, input: Matrix) returns (output: Matrix)
    requires ForwardDefined(q, input)
    ensures output == Apply(q, input)
  {
    output := [];
    for r := 0 to |input|
      invariant |output| == r
      invariant forall r' :: 0 <= r' < r ==> output[r'] == Apply(q, input)[r']
    {
      var row := input[r];
      var n := |q.weight[0]|;
      var cells := [];
      for j := 0 to n
        invariant |cells| == j
        invariant forall j' :: 0 <= j' < j ==> cells[j'] == QDot(q, row, j', |row|) + q.bias[j']
      {
        var c := Cell(q, row, j);
        cells := cells + [c];
      }
      output := output + [cells];
    }
  }

  /** The quantized sum is the float sum against the dequantized weight. */
  lemma {:induction false} QDotIsDequantized(q: QuantizedLinear, row: seq<real>, j: nat, upto: nat)
    requires upto <= |row| && upto <= |q.weight| && forall i :: 0 <= i < upto ==> j < |q.weight[i]|
    ensures var d := Dequantize(q.weight, q.scale);
      forall i :: 0 <= i < upto ==> j < |d[i]|
    ensures QDot(q, row, j, upto) == RowCol(row, Dequantize(q.weight, q.scale), j, upto)
  {
    if upto > 0 {
      QDotIsDequantized(q, row, j, upto - 1);
      var d := Dequantize(q.weight, q.scale);
      assert row[upto - 1] * (q.weight[upto - 1][j] as real) * q.scale == row[upto - 1] * d[upto - 1][j];
    }
  }

  /** Each output is the affine map of the row by the dequantized weight:
      `Σ_i row[i] · (weight[i][j] · scale) + bias[j]`. */
  lemma ApplyIsDequantizedAffine(q: QuantizedLinear, input: Matrix, r: nat, j: nat)
    requires ForwardDefined(q, input) && r < |input| && j < |q.weight[0]|
    ensures var d := Dequantize(q.weight, q.scale);
      forall i :: 0 <= i < |input[r]| ==> j < |d[i]|
    ensures Apply(q, input)[r][j] == RowCol(input[r], Dequantize(q.weight, q.scale), j, |input[r]|) + q.bias[j]
  {
    QDotIsDequantized(q, input[r], j, |input[r]|);
  }
}
