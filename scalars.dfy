/**
  Scalars used throughout the engine. Every `f32` of the source is a `real`
  here; the library functions applied to them (exp, ln, sqrt, tanh, sin,
  cos, powf and the f16 conversion) are uninterpreted: they are fields of a
  `Math` record that callers pass in, and the few facts a proof needs about
  them are stated as predicates on that record.
*/
module Scalars {

  /** The transcendental and conversion functions the engine takes from the
      floating-point library. */
  datatype Math = Math(
    exp: real -> real,
    ln: real -> real,
    sqrt: real -> real,
    tanh: real -> real,
    sin: real -> real,
    cos: real -> real,
    powf: (real, real) -> real,
    f16: real -> real)

  ghost predicate ExpPositive(m: Math) {
    forall x: real :: m.exp(x) > 0.0
  }

  ghost predicate ExpZero(m: Math) {
    m.exp(0.0) == 1.0
  }

  ghost predicate LnNonNegativeFromOne(m: Math) {
    forall x: real :: x >= 1.0 ==> m.ln(x) >= 0.0
  }

  ghost predicate SqrtPositive(m: Math) {
    forall x: real :: x > 0.0 ==> m.sqrt(x) > 0.0
  }

  ghost predicate PowPositive(m: Math) {
    forall b: real, e: real :: b > 0.0 ==> m.powf(b, e) > 0.0
  }

  ghost predicate TrigAtZero(m: Math) {
    m.cos(0.0) == 1.0 && m.sin(0.0) == 0.0
  }

  ghost predicate Pythagorean(m: Math) {
    forall x: real :: m.sin(x) * m.sin(x) + m.cos(x) * m.cos(x) == 1.0
  }

  /** `x * x`, never negative. */
  function Square(x: real): (y: real)
    ensures y >= 0.0
  {
    x * x
  }

  /** The square of a non-zero number is positive; the chain makes
      `x * x > 0.0` a step of its own. */
  lemma SquarePositive(x: real)
    requires x != 0.0
    ensures Square(x) > 0.0
  {
    calc {
      Square(x);
    ==
      x * x;
    >
      0.0;
    }
  }

  /** Left-to-right sum, the order of Rust's `Iterator::sum` and of an
      accumulating `for` loop. */
  function Sum(s: seq<real>): real
  {
    if s == [] then 0.0 else Sum(s[..|s| - 1]) + s[|s| - 1]
  }

  function Max(a: real, b: real): real
  {
    if a >= b then a else b
  }

  /** `fold(f32::NEG_INFINITY, f32::max)` over a non-empty sequence. */
  function MaxOf(s: seq<real>): (r: real)
    requires |s| > 0
    ensures forall i :: 0 <= i < |s| ==> s[i] <= r
    ensures exists i :: 0 <= i < |s| && s[i] == r
  {
    if |s| == 1 then s[0]
    else
      var r' := MaxOf(s[..|s| - 1]);
      assert forall i :: 0 <= i < |s| - 1 ==> s[..|s| - 1][i] == s[i];
      Max(r', s[|s| - 1])
  }

  function Abs(x: real): real
  {
    if x < 0.0 then -x else x
  }

  /** Rust's `f32::round`: to the nearest integer, halves away from zero. */
  function Round(x: real): (r: int)
    ensures -0.5 <= r as real - x <= 0.5
  {
    if x >= 0.0 then (x + 0.5).Floor else -((-x + 0.5).Floor)
  }

  lemma {:induction false} SumAppend(s: seq<real>, x: real)
    ensures Sum(s + [x]) == Sum(s) + x
  {
    assert (s + [x])[..|s + [x]| - 1] == s;
  }

  lemma {:induction false} SumConcat(s: seq<real>, t: seq<real>)
    ensures Sum(s + t) == Sum(s) + Sum(t)
    decreases |t|
  {
    if t == [] {
      assert s + t == s;
    } else {
      var t' := t[..|t| - 1];
      assert s + t == (s + t') + [t[|t| - 1]];
      SumAppend(s + t', t[|t| - 1]);
      SumConcat(s, t');
      assert t == t' + [t[|t| - 1]];
      SumAppend(t', t[|t| - 1]);
    }
  }

  /** Sums of pointwise-positive sequences are positive. */
  lemma {:induction false} SumPositive(s: seq<real>)
    requires |s| > 0
    requires forall i :: 0 <= i < |s| ==> s[i] > 0.0
    ensures Sum(s) > 0.0
    decreases |s|
  {
    if |s| > 1 {
      SumPositive(s[..|s| - 1]);
    }
  }

  lemma {:induction false} SumNonNegative(s: seq<real>)
    requires forall i :: 0 <= i < |s| ==> s[i] >= 0.0
    ensures Sum(s) >= 0.0
    decreases |s|
  {
    if |s| > 0 {
      SumNonNegative(s[..|s| - 1]);
    }
  }

  /** A sum of non-negative terms is at least each of its terms. */
  lemma {:induction false} SumAtLeastTerm(s: seq<real>, k: nat)
    requires k < |s|
    requires forall i :: 0 <= i < |s| ==> s[i] >= 0.0
    ensures Sum(s) >= s[k]
    decreases |s|
  {
    if k == |s| - 1 {
      SumNonNegative(s[..|s| - 1]);
    } else {
      SumAtLeastTerm(s[..|s| - 1], k);
    }
  }

  /** Subtracting a constant from every term subtracts it |s| times. */
  lemma {:induction false} SumShift(s: seq<real>, c: real)
    ensures Sum(seq(|s|, i requires 0 <= i < |s| => s[i] - c)) == Sum(s) - (|s| as real) * c
    decreases |s|
  {
    var d := seq(|s|, i requires 0 <= i < |s| => s[i] - c);
    if |s| > 0 {
      var s' := s[..|s| - 1];
      var d' := seq(|s'|, i requires 0 <= i < |s'| => s'[i] - c);
      assert d[..|d| - 1] == d';
      SumShift(s', c);
    }
  }

  /** Scaling every term scales the sum. */
  lemma {:induction false} SumScale(s: seq<real>, c: real)
    ensures Sum(seq(|s|, i requires 0 <= i < |s| => s[i] * c)) == Sum(s) * c
    decreases |s|
  {
    var d := seq(|s|, i requires 0 <= i < |s| => s[i] * c);
    if |s| > 0 {
      var s' := s[..|s| - 1];
      var d' := seq(|s'|, i requires 0 <= i < |s'| => s'[i] * c);
      assert forall i :: 0 <= i < |s'| ==> d[..|d| - 1][i] == s[i] * c == d'[i];
      assert d[..|d| - 1] == d';
      SumScale(s', c);
    }
  }

  /** Pointwise-equal sequences have equal sums. */
  lemma SumEqual(s: seq<real>, t: seq<real>)
    requires |s| == |t|
    requires forall i :: 0 <= i < |s| ==> s[i] == t[i]
    ensures Sum(s) == Sum(t)
  {
    assert s == t;
  }

  /** A two-element sequence sums to its two elements. */
  lemma SumPair(a: real, b: real)
    ensures Sum([a, b]) == a + b
  {
    assert [a][..0] == [];
    assert Sum([a]) == a;
    assert [a, b][..1] == [a];
  }

  /** A sequence of zeros sums to zero. */
  lemma {:induction false} SumZero(s: seq<real>)
    requires forall i :: 0 <= i < |s| ==> s[i] == 0.0
    ensures Sum(s) == 0.0
    decreases |s|
  {
    if |s| > 0 {
      SumZero(s[..|s| - 1]);
    }
  }

  lemma DivAsMul(x: real, d: real)
    requires d != 0.0
    ensures x / d == x * (1.0 / d)
  {
  }

  lemma MulDivCancel(s: real, n: real)
    requires n != 0.0
    ensures n * (s / n) == s
  {
  }

  /** Dividing every term by `c` divides the sum by `c`. */
  lemma {:induction false} SumDiv(x: seq<real>, y: seq<real>, c: real)
    requires c != 0.0 && |x| == |y|
    requires forall j :: 0 <= j < |x| ==> x[j] == y[j] / c
    ensures Sum(x) == Sum(y) / c
    decreases |x|
  {
    if |x| > 0 {
      var n := |x| - 1;
      SumDiv(x[..n], y[..n], c);
      assert (Sum(y[..n]) + y[n]) / c == Sum(y[..n]) / c + y[n] / c;
    }
  }

  /** `x = y / c` and `y = c + z` give `x = 1 + z / c`. */
  lemma DivSplit(x: real, y: real, c: real, z: real)
    requires c != 0.0 && x == y / c && y == c + z
    ensures x == 1.0 + z / c
  {
    assert c / c == 1.0;
    assert (c + z) / c == c / c + z / c;
  }

  /** Substitution of equals inside a quotient. */
  lemma QuotientTransfer(x: real, y: real, c: real, x': real, y': real)
    requires x == x' && y == y' && c != 0.0 && x' == y' / c
    ensures x == y / c
  {
  }
}
