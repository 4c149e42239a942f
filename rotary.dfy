/**
  Rotary positional encoding (core/src/rotary.rs). Coordinates `2i` and
  `2i + 1` of the token at position `pos` are rotated by the angle
  `pos / base^(2i / dim)`, for `i < dim / 2`. The output buffer starts as
  zeros, so when `dim` is odd its last coordinate is never written and stays
  `0.0`.
*/
module Rotary {
  import opened Scalars
  import opened Matrices

  datatype RotaryEmbedding = RotaryEmbedding(dim: nat, base: real)

  /** `RotaryEmbedding::new`: the given width and frequency base 10000. */
  function New(dim: nat): (r: RotaryEmbedding)
    ensures r.dim == dim && r.base == 10000.0
  {
    RotaryEmbedding(dim, 10000.0)
  }

  /** Over the reals `pos / base^e` is defined when the power is non-zero,
      which a positive base guarantees. */
  ghost predicate AngleDefined(m: Math, r: RotaryEmbedding)
  {
    PowPositive(m) && r.base > 0.0
  }

  /** Number of coordinates the encoding writes: `2 * (dim / 2)`. */
  function Rotated(r: RotaryEmbedding): nat
  {
    2 * (r.dim / 2)
  }

  /** Every token is long enough for the reads `token[2i]`, `token[2i+1]`. */
  predicate TokensLongEnough(r: RotaryEmbedding, input: Matrix)
  {
    forall pos :: 0 <= pos < |input| ==> |input[pos]| >= Rotated(r)
  }

  /** The rotation angle for pair `i` at position `pos`. */
  function Angle(m: Math, r: RotaryEmbedding, pos: nat, i: nat): real
    requires AngleDefined(m, r) && r.dim > 0
  {
    (pos as real) / m.powf(r.base, 2.0 * (i as real) / (r.dim as real))
  }

  /** Output coordinate `c` of the token at `pos`. */
  function Coordinate(m: Math, r: RotaryEmbedding, pos: nat, token: seq<real>, c: nat): real
    requires AngleDefined(m, r) && c < r.dim && |token| >= Rotated(r)
  {
    if c < Rotated(r) then
      var i := c / 2;
      var theta := Angle(m, r, pos, i);
      var x1, x2 := token[2 * i], token[2 * i + 1];
      if c % 2 == 0 then First(x1, x2, m.cos(theta), m.sin(theta))
      else Second(x1, x2, m.cos(theta), m.sin(theta))
    else 0.0
  }

  /** The two coordinates of the pair `(x1, x2)` rotated by the angle
      whose cosine and sine are `cs` and `sn`. */
  function First(x1: real, x2: real, cs: real, sn: real): real
  {
    x1 * cs - x2 * sn
  }

  function Second(x1: real, x2: real, cs: real, sn: real): real
  {
    x1 * sn + x2 * cs
  }

  /** The encoded token at position `pos`. */
  function EncodeRow(m: Math, r: RotaryEmbedding, pos: nat, token: seq<real>): (row: seq<real>)
    requires AngleDefined(m, r) && |token| >= Rotated(r)
    ensures |row| == r.dim
  {
    seq(r.dim, c requires 0 <= c < r.dim => Coordinate(m, r, pos, token, c))
  }

  /** The value `forward` returns: each row encoded at its own position. */
  function Encode(m: Math, r: RotaryEmbedding, input: Matrix): (out: Matrix)
    requires AngleDefined(m, r) && TokensLongEnough(r, input)
    ensures IsMatrix(out, |input|, r.dim)
  {
    seq(|input|, pos requires 0 <= pos < |input| => EncodeRow(m, r, pos, input[pos]))
  }

  /** `RotaryEmbedding::forward`: a zeroed `len × dim` buffer, then for
      every position and pair the two rotated coordinates are written. */
  method Forward(m: Math, r: RotaryEmbedding, input: Matrix) returns (output: Matrix)
    requires AngleDefined(m, r) && TokensLongEnough(r, input)
    ensures output == Encode(m, r, input)
  {
    ghost var spec := Encode(m, r, input);
    output := seq(|input|, _ => Zeros(r.dim));
    for pos := 0 to |input|
      invariant |output| == |input|
      invariant forall p :: 0 <= p < pos ==> output[p] == spec[p]
      invariant forall p :: pos <= p < |input| ==> output[p] == Zeros(r.dim)
    {
      var row := RotateRow(m, r, pos, input[pos], output[pos]);
      output := output[pos := row];
    }
  }

  /** The pair loop of `forward` for the token at `pos`, writing into its
      zeroed output row. */
  method RotateRow(m: Math, r: RotaryEmbedding, pos: nat, token: seq<real>, zeros: seq<real>)
    returns (row: seq<real>)
    requires AngleDefined(m, r) && |token| >= Rotated(r) && zeros == Zeros(r.dim)
    ensures row == EncodeRow(m, r, pos, token)
  {
    ghost var spec := EncodeRow(m, r, pos, token);
    row := zeros;
    for i := 0 to r.dim / 2
      invariant |row| == r.dim
      invariant forall c :: 0 <= c < 2 * i ==> row[c] == spec[c]
      invariant forall c :: 2 * i <= c < r.dim ==> row[c] == 0.0
    {
      var angle := (pos as real) / m.powf(r.base, 2.0 * (i as real) / (r.dim as real));
      var cos, sin := m.cos(angle), m.sin(angle);
      var x1, x2 := token[2 * i], token[2 * i + 1];
      assert (2 * i) / 2 == i && (2 * i + 1) / 2 == i;
      row := row[2 * i := First(x1, x2, cos, sin)][2 * i + 1 := Second(x1, x2, cos, sin)];
    }
  }

  /** Coordinates `2i` and `2i + 1` are the rotation of the pair. */
  lemma PairCoordinates(m: Math, r: RotaryEmbedding, pos: nat, token: seq<real>, i: nat)
    requires AngleDefined(m, r) && |token| >= Rotated(r) && i < r.dim / 2
    ensures var theta := Angle(m, r, pos, i);
      Coordinate(m, r, pos, token, 2 * i) == token[2 * i] * m.cos(theta) - token[2 * i + 1] * m.sin(theta) &&
      Coordinate(m, r, pos, token, 2 * i + 1) == token[2 * i] * m.sin(theta) + token[2 * i + 1] * m.cos(theta)
  {
    assert (2 * i) / 2 == i && (2 * i + 1) / 2 == i && (2 * i) % 2 == 0 && (2 * i + 1) % 2 == 1;
  }

  /** At position 0 the angle is 0, so (given cos 0 = 1 and sin 0 = 0) the
      rotated coordinates of the first token are unchanged. */
  lemma FirstPositionUnchanged(m: Math, r: RotaryEmbedding, input: Matrix, c: nat)
    requires AngleDefined(m, r) && TrigAtZero(m) && TokensLongEnough(r, input)
    requires |input| > 0 && c < Rotated(r)
    ensures Encode(m, r, input)[0][c] == input[0][c]
  {
    assert Angle(m, r, 0, c / 2) == 0.0;
  }

  /** For odd `dim` the last coordinate is never written and stays 0. */
  lemma OddLastCoordinateZero(m: Math, r: RotaryEmbedding, input: Matrix, pos: nat)
    requires AngleDefined(m, r) && TokensLongEnough(r, input)
    requires r.dim % 2 == 1 && pos < |input|
    ensures Encode(m, r, input)[pos][r.dim - 1] == 0.0
  {
  }

  /** Each pair is rotated, not scaled: given sin² + cos² = 1 its squared
      length is preserved. */
  lemma PairNormPreserved(m: Math, r: RotaryEmbedding, input: Matrix, pos: nat, i: nat)
    requires AngleDefined(m, r) && Pythagorean(m) && TokensLongEnough(r, input)
    requires pos < |input| && i < r.dim / 2
    ensures var out, x := Encode(m, r, input)[pos], input[pos];
      out[2 * i] * out[2 * i] + out[2 * i + 1] * out[2 * i + 1]
        == x[2 * i] * x[2 * i] + x[2 * i + 1] * x[2 * i + 1]
  {
    var theta := Angle(m, r, pos, i);
    PairCoordinates(m, r, pos, input[pos], i);
    assert m.sin(theta) * m.sin(theta) + m.cos(theta) * m.cos(theta) == 1.0;
    RotationNorm(input[pos][2 * i], input[pos][2 * i + 1], m.cos(theta), m.sin(theta));
  }

  lemma RotationNorm(x1: real, x2: real, cs: real, sn: real)
    requires sn * sn + cs * cs == 1.0
    ensures (x1 * cs - x2 * sn) * (x1 * cs - x2 * sn) + (x1 * sn + x2 * cs) * (x1 * sn + x2 * cs)
      == x1 * x1 + x2 * x2
  {
    calc {
      (x1 * cs - x2 * sn) * (x1 * cs - x2 * sn) + (x1 * sn + x2 * cs) * (x1 * sn + x2 * cs);
      x1 * x1 * (cs * cs + sn * sn) + x2 * x2 * (sn * sn + cs * cs);
      x1 * x1 + x2 * x2;
    }
  }

  /** A row's encoding depends only on its own position and token: encoding
      a prefix of the sequence gives the prefix of the encoding. */
  lemma EncodePrefix(m: Math, r: RotaryEmbedding, input: Matrix, t: nat)
    requires AngleDefined(m, r) && TokensLongEnough(r, input) && t <= |input|
    ensures TokensLongEnough(r, input[..t])
    ensures Encode(m, r, input[..t]) == Encode(m, r, input)[..t]
  {
  }
}
