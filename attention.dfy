/**
  Single-head causal attention (core/src/attention.rs).

  `Sdpa` is `scaled_dot_product_attention` as written. For every query row
  `i` it scores positions `j <= i` by `(q[i] · k[j]) / sqrt(q[0].len())`,
  leaves the masked scores `j > i` at `0.0`, takes the maximum over all
  `seq_len` scores, sums `exp(s - max)` over the scores that are not exactly
  `0.0`, and adds `weight_j * v[j]` into the output row for `j <= i`, where
  `weight_j = exp(s_j - max) / exp_sum` when `exp_sum > 0` and `0` otherwise.
  Its value is the function `Attention`.
*/
module Attention {
  import opened Scalars
  import opened Matrices
  import Dense

  /** Σ_{d < upto} x[d] * y[d], accumulated left to right. */
  function Dot(x: seq<real>, y: seq<real>, upto: nat): real
    requires upto <= |x| && upto <= |y|
  {
    if upto == 0 then 0.0 else Dot(x, y, upto - 1) + x[upto - 1] * y[upto - 1]
  }

  /** The indexing `sdpa` does without panicking: `q[0]`, `v[0]`, `k[j]`,
      `v[j]` for `j < seq_len`, `k[j][d]` for `d < q[i].len()` and
      `v[j][d]` for `d < v[0].len()`. */
  predicate SdpaShaped(q: Matrix, k: Matrix, v: Matrix)
  {
    |q| > 0 && |v| > 0 && |k| >= |q| && |v| >= |q| &&
    (forall i, j :: 0 <= j <= i < |q| ==> |k[j]| >= |q[i]|) &&
    (forall j :: 0 <= j < |q| ==> |v[j]| >= |v[0]|)
  }

  /** Over the reals the division by `scale = sqrt(q[0].len())` needs a
      non-zero scale. */
  predicate SdpaDefined(m: Math, q: Matrix, k: Matrix, v: Matrix)
  {
    SdpaShaped(q, k, v) && m.sqrt(|q[0]| as real) != 0.0
  }

  /** The score vector of query row `i`: scaled dot products for `j <= i`,
      `0.0` for the masked positions. */
  function Scores(m: Math, q: Matrix, k: Matrix, v: Matrix, i: nat): (s: seq<real>)
    requires SdpaDefined(m, q, k, v) && i < |q|
    ensures |s| == |q|
  {
    seq(|q|, j requires 0 <= j < |q| =>
      if j <= i then Dot(q[i], k[j], |q[i]|) / m.sqrt(|q[0]| as real) else 0.0)
  }

  /** The terms of `exp_sum`: a score exactly `0.0` contributes nothing. */
  function ExpTerms(m: Math, s: seq<real>, mx: real): (t: seq<real>)
    ensures |t| == |s|
  {
    seq(|s|, j requires 0 <= j < |s| => if s[j] != 0.0 then m.exp(s[j] - mx) else 0.0)
  }

  function ExpSum(m: Math, s: seq<real>): real
    requires |s| > 0
  {
    Sum(ExpTerms(m, s, MaxOf(s)))
  }

  /** The numerators `exp(s_j - max)` of every position. */
  function Numerators(m: Math, s: seq<real>, mx: real): (e: seq<real>)
    ensures |e| == |s|
  {
    seq(|s|, j requires 0 <= j < |s| => m.exp(s[j] - mx))
  }

  /** A numerator over `exp_sum`, or 0 when `exp_sum` is not positive. */
  function GuardedQuotient(num: real, es: real): real
  {
    if es > 0.0 then num / es else 0.0
  }

  /** The softmax weights of a score row, with the zero-sum guard. */
  function Weights(m: Math, s: seq<real>): (w: seq<real>)
    requires |s| > 0
    ensures |w| == |s|
  {
    var e, es := Numerators(m, s, MaxOf(s)), ExpSum(m, s);
    seq(|s|, j requires 0 <= j < |s| => GuardedQuotient(e[j], es))
  }

  /** Σ_{j < upto} w[j] * v[j][d], accumulated from `0.0` in order of `j`. */
  function Mix(w: seq<real>, v: Matrix, d: nat, upto: nat): real
    requires upto <= |w| && upto <= |v|
    requires forall j :: 0 <= j < upto ==> d < |v[j]|
  {
    if upto == 0 then 0.0 else Mix(w, v, d, upto - 1) + w[upto - 1] * v[upto - 1][d]
  }

  /** Output row `i`: the weighted sum of the value rows `j <= i`. */
  function AttentionRow(m: Math, q: Matrix, k: Matrix, v: Matrix, i: nat): (row: seq<real>)
    requires SdpaDefined(m, q, k, v) && i < |q|
    ensures |row| == |v[0]|
  {
    var w := Weights(m, Scores(m, q, k, v, i));
    seq(|v[0]|, d requires 0 <= d < |v[0]| => Mix(w, v, d, i + 1))
  }

  /** What `scaled_dot_product_attention` returns. */
  function Attention(m: Math, q: Matrix, k: Matrix, v: Matrix): (out: Matrix)
    requires SdpaDefined(m, q, k, v)
    ensures IsMatrix(out, |q|, |v[0]|)
  {
    seq(|q|, i requires 0 <= i < |q| => AttentionRow(m, q, k, v, i))
  }

  /** The `j` loop of `sdpa`, with its inner `dot` loop: the score row of
      query `i`, masked positions left at `0.0`. */
  method ScoreRow(m: Math, q: Matrix, k: Matrix, v: Matrix, i: nat) returns (scores: seq<real>)
    requires SdpaDefined(m, q, k, v) && i < |q|
    ensures scores == Scores(m, q, k, v, i)
  {
    var scale := m.sqrt(|q[0]| as real);
    ghost var spec := Scores(m, q, k, v, i);
    scores := Zeros(|q|);
    for j := 0 to i + 1
      invariant |scores| == |q|
      invariant forall t :: 0 <= t < j ==> scores[t] == spec[t]
      invariant forall t :: j <= t < |q| ==> scores[t] == 0.0
    {
      var dot := 0.0;
      for d := 0 to |q[i]|
        invariant dot == Dot(q[i], k[j], d)
      {
        dot := dot + q[i][d] * k[j][d];
      }
      scores := scores[j := dot / scale];
    }
    assert scores == spec;
  }

  /** The weighted-sum loop of `sdpa` for query `i`: `row[d] += weight * v[j][d]`
      for `j <= i`, starting from the zero row. */
  method MixRow(m: Math, scores: seq<real>, maxScore: real, expSum: real, v: Matrix, i: nat)
    returns (row: seq<real>)
    requires i < |scores| && maxScore == MaxOf(scores) && expSum == ExpSum(m, scores)
    requires i < |v| && forall j :: 0 <= j <= i ==> |v[j]| >= |v[0]|
    ensures |row| == |v[0]|
    ensures forall d :: 0 <= d < |v[0]| ==> row[d] == Mix(Weights(m, scores), v, d, i + 1)
  {
    ghost var w := Weights(m, scores);
    var width := |v[0]|;
    row := Zeros(width);
    for j := 0 to i + 1
      invariant |row| == width
      invariant forall d :: 0 <= d < width ==> row[d] == Mix(w, v, d, j)
    {
      var weight := GuardedQuotient(m.exp(scores[j] - maxScore), expSum);
      assert m.exp(scores[j] - maxScore) == Numerators(m, scores, maxScore)[j];
      row := MixInto(w, v, j, width, weight, row);
    }
  }

  /** The inner loop for value row `j`: `row[d] += weight * v[j][d]` for
      every `d`, which extends every sum by the term of row `j`. */
  method MixInto(ghost w: seq<real>, v: Matrix, j: nat, width: nat, weight: real, start: seq<real>)
    returns (row: seq<real>)
    requires j < |w| && j < |v| && weight == w[j] && |start| == width
    requires forall i :: 0 <= i <= j ==> |v[i]| >= width
    requires forall d :: 0 <= d < width ==> start[d] == Mix(w, v, d, j)
    ensures |row| == width
    ensures forall d :: 0 <= d < width ==> row[d] == Mix(w, v, d, j + 1)
  {
    row := start;
    for d := 0 to width
      invariant |row| == width
      invariant forall e :: 0 <= e < d ==> row[e] == Mix(w, v, e, j + 1)
      invariant forall e :: d <= e < width ==> row[e] == Mix(w, v, e, j)
    {
      row := row[d := row[d] + weight * v[j][d]];
    }
  }

  /** `scaled_dot_product_attention`. */
  method Sdpa(m: Math, q: Matrix, k: Matrix, v: Matrix) returns (output: Matrix)
    requires SdpaDefined(m, q, k, v)
    ensures output == Attention(m, q, k, v)
  {
    var seqLen := |q|;
    var width := |v[0]|;
    ghost var spec := Attention(m, q, k, v);
    output := seq(seqLen, _ => Zeros(width));
    for i := 0 to seqLen
      invariant |output| == seqLen
      invariant forall r :: 0 <= r < i ==> output[r] == spec[r]
    {
      var scores := ScoreRow(m, q, k, v, i);
      var maxScore := MaxOf(scores);
      var expSum := Sum(ExpTerms(m, scores, maxScore));
      var row := MixRow(m, scores, maxScore, expSum, v, i);
      assert row == spec[i];
      output := output[i := row];
    }
  }

  lemma {:induction false} MixAgree(w: seq<real>, v: Matrix, v': Matrix, d: nat, upto: nat)
    requires upto <= |w| && upto <= |v| && upto <= |v'|
    requires forall j :: 0 <= j < upto ==> d < |v[j]| && v[j] == v'[j]
    ensures Mix(w, v, d, upto) == Mix(w, v', d, upto)
    decreases upto
  {
    if upto > 0 {
      MixAgree(w, v, v', d, upto - 1);
    }
  }

  lemma {:induction false} MixZeroWeights(w: seq<real>, v: Matrix, d: nat, upto: nat)
    requires upto <= |w| && upto <= |v|
    requires forall j :: 0 <= j < upto ==> d < |v[j]| && w[j] == 0.0
    ensures Mix(w, v, d, upto) == 0.0
    decreases upto
  {
    if upto > 0 {
      MixZeroWeights(w, v, d, upto - 1);
    }
  }

  /** Causality: output row `i` is determined by `q[i]`, `k[0..=i]` and
      `v[0..=i]` (for operands of the same length and leading widths, which
      fix the scale, the number of masked zeros and the output width). */
  lemma Causal(m: Math, q: Matrix, k: Matrix, v: Matrix, q': Matrix, k': Matrix, v': Matrix, i: nat)
    requires SdpaDefined(m, q, k, v) && SdpaDefined(m, q', k', v')
    requires |q| == |q'| && |q[0]| == |q'[0]| && |v[0]| == |v'[0]| && i < |q|
    requires q[i] == q'[i]
    requires forall j :: 0 <= j <= i ==> k[j] == k'[j] && v[j] == v'[j]
    ensures Attention(m, q, k, v)[i] == Attention(m, q', k', v')[i]
  {
    var s, s' := Scores(m, q, k, v, i), Scores(m, q', k', v', i);
    assert s == s';
    var w := Weights(m, s);
    var row, row' := Attention(m, q, k, v)[i], Attention(m, q', k', v')[i];
    forall d | 0 <= d < |v[0]|
      ensures row[d] == row'[d]
    {
      MixAgree(w, v, v', d, i + 1);
    }
  }

  /** The zero-sum guard: when `exp_sum` is not positive every weight is 0
      and output row `i` stays the zero vector. */
  lemma GuardGivesZeroRow(m: Math, q: Matrix, k: Matrix, v: Matrix, i: nat)
    requires SdpaDefined(m, q, k, v) && i < |q|
    requires ExpSum(m, Scores(m, q, k, v, i)) <= 0.0
    ensures Attention(m, q, k, v)[i] == Zeros(|v[0]|)
  {
    var w := Weights(m, Scores(m, q, k, v, i));
    var row := Attention(m, q, k, v)[i];
    forall d | 0 <= d < |v[0]|
      ensures row[d] == 0.0
    {
      MixZeroWeights(w, v, d, i + 1);
    }
  }

  /** Because scores equal to `0.0` are left out of `exp_sum`, a query whose
      unmasked scores are all `0.0` gets the zero row, not the average of
      the value rows. */
  lemma ZeroScoresGiveZeroRow(m: Math, q: Matrix, k: Matrix, v: Matrix, i: nat)
    requires SdpaDefined(m, q, k, v) && i < |q|
    requires forall j :: 0 <= j <= i ==> Scores(m, q, k, v, i)[j] == 0.0
    ensures ExpSum(m, Scores(m, q, k, v, i)) == 0.0
    ensures Attention(m, q, k, v)[i] == Zeros(|v[0]|)
  {
    var s := Scores(m, q, k, v, i);
    SumZero(ExpTerms(m, s, MaxOf(s)));
    GuardGivesZeroRow(m, q, k, v, i);
  }

  /** Number of scores among `s` that are exactly `0.0`. */
  function ZeroCount(s: seq<real>): nat
  {
    if s == [] then 0 else ZeroCount(s[..|s| - 1]) + if s[|s| - 1] == 0.0 then 1 else 0
  }

  /** `n` copies of `a` added up, i.e. `n * a` without the product. */
  function Copies(n: nat, a: real): real
  {
    if n == 0 then 0.0 else Copies(n - 1, a) + a
  }

  lemma {:induction false} CopiesPositive(n: nat, a: real)
    requires n > 0 && a > 0.0
    ensures Copies(n, a) > 0.0
    decreases n
  {
    if n > 1 {
      CopiesPositive(n - 1, a);
    }
  }

  /** Softmax bookkeeping on plain sequences: `e` are the numerators, `t`
      the terms of the normalizer (a numerator, or 0 where the score `s` is
      exactly 0, in which case the numerator is `a`). A prefix of the
      numerators is its normalizer terms plus one `a` per zero score. */
  lemma {:induction false} SplitNumerators(e: seq<real>, t: seq<real>, s: seq<real>, a: real, upto: nat)
    requires |e| == |t| == |s| && upto <= |s|
    requires forall j :: 0 <= j < |s| ==> t[j] == if s[j] != 0.0 then e[j] else 0.0
    requires forall j :: 0 <= j < |s| ==> s[j] == 0.0 ==> e[j] == a
    ensures Sum(e[..upto]) == Sum(t[..upto]) + Copies(ZeroCount(s[..upto]), a)
    decreases upto
  {
    if upto > 0 {
      SplitNumerators(e, t, s, a, upto - 1);
      assert e[..upto][..upto - 1] == e[..upto - 1];
      assert t[..upto][..upto - 1] == t[..upto - 1];
      assert s[..upto][..upto - 1] == s[..upto - 1];
    }
  }

  /** The visible weights `w[j] = e[j] / es` of a score row whose tail after
      `i` is masked to 0 add up to `1 + z * a / es`, `es` being the sum of
      the normalizer terms and `z` the number of visible zero scores. */
  lemma SoftmaxTotal(w: seq<real>, e: seq<real>, t: seq<real>, s: seq<real>, a: real, es: real, i: nat)
    requires |w| == |e| == |t| == |s| && i < |s|
    requires es > 0.0 && Sum(t) == es
    requires forall j :: 0 <= j < |s| ==> w[j] == GuardedQuotient(e[j], es)
    requires forall j :: 0 <= j < |s| ==> t[j] == if s[j] != 0.0 then e[j] else 0.0
    requires forall j :: 0 <= j < |s| ==> s[j] == 0.0 ==> e[j] == a
    requires forall j :: i < j < |s| ==> s[j] == 0.0
    ensures Sum(w[..i + 1]) == 1.0 + GuardedQuotient(Copies(ZeroCount(s[..i + 1]), a), es)
  {
    var wp, ep := w[..i + 1], e[..i + 1];
    forall j | 0 <= j < |wp|
      ensures wp[j] == ep[j] / es
    {
      assert wp[j] == w[j];
    }
    SumDiv(wp, ep, es);
    SplitNumerators(e, t, s, a, i + 1);
    assert t == t[..i + 1] + t[i + 1..];
    SumConcat(t[..i + 1], t[i + 1..]);
    SumZero(t[i + 1..]);
    DivSplit(Sum(w[..i + 1]), Sum(e[..i + 1]), es, Copies(ZeroCount(s[..i + 1]), a));
  }

  /** With positive numerators the total is exactly 1 if and only if no
      visible score is exactly 0, and it exceeds 1 otherwise. */
  lemma SoftmaxTotalIsOneIff(w: seq<real>, e: seq<real>, t: seq<real>, s: seq<real>, a: real, es: real, i: nat)
    requires |w| == |e| == |t| == |s| && i < |s|
    requires es > 0.0 && Sum(t) == es && a > 0.0
    requires forall j :: 0 <= j < |s| ==> w[j] == GuardedQuotient(e[j], es)
    requires forall j :: 0 <= j < |s| ==> t[j] == if s[j] != 0.0 then e[j] else 0.0
    requires forall j :: 0 <= j < |s| ==> s[j] == 0.0 ==> e[j] == a
    requires forall j :: i < j < |s| ==> s[j] == 0.0
    ensures Sum(w[..i + 1]) >= 1.0
    ensures Sum(w[..i + 1]) == 1.0 <==> ZeroCount(s[..i + 1]) == 0
  {
    SoftmaxTotal(w, e, t, s, a, es, i);
    var z := ZeroCount(s[..i + 1]);
    if z > 0 {
      CopiesPositive(z, a);
      QuotientPositive(Copies(z, a), es);
    } else {
      assert Copies(0, a) == 0.0;
    }
  }

  lemma QuotientPositive(x: real, y: real)
    requires x > 0.0 && y > 0.0
    ensures GuardedQuotient(x, y) > 0.0
  {
  }

  lemma WeightsAreQuotients(m: Math, s: seq<real>)
    requires |s| > 0
    ensures forall j :: 0 <= j < |s| ==>
      Weights(m, s)[j] == GuardedQuotient(Numerators(m, s, MaxOf(s))[j], ExpSum(m, s))
  {
  }

  lemma ExpTermsSkipZeros(m: Math, s: seq<real>, mx: real)
    ensures forall j :: 0 <= j < |s| ==>
      ExpTerms(m, s, mx)[j] == if s[j] != 0.0 then Numerators(m, s, mx)[j] else 0.0
  {
    forall j | 0 <= j < |s|
      ensures ExpTerms(m, s, mx)[j] == if s[j] != 0.0 then Numerators(m, s, mx)[j] else 0.0
    {
      NumeratorAt(m, s, mx, j);
      ExpTermAt(m, s, mx, j);
    }
  }

  lemma ZeroScoreNumerators(m: Math, s: seq<real>, mx: real)
    ensures forall j :: 0 <= j < |s| ==> s[j] == 0.0 ==> Numerators(m, s, mx)[j] == ZeroNumerator(m, mx)
  {
    forall j | 0 <= j < |s|
      ensures s[j] == 0.0 ==> Numerators(m, s, mx)[j] == ZeroNumerator(m, mx)
    {
      NumeratorAt(m, s, mx, j);
    }
  }

  lemma NumeratorAt(m: Math, s: seq<real>, mx: real, j: nat)
    requires j < |s|
    ensures Numerators(m, s, mx)[j] == m.exp(s[j] - mx)
  {
  }

  lemma ExpTermAt(m: Math, s: seq<real>, mx: real, j: nat)
    requires j < |s|
    ensures ExpTerms(m, s, mx)[j] == if s[j] != 0.0 then m.exp(s[j] - mx) else 0.0
  {
  }

  /** The numerator `exp(0 - max)` of a score that is exactly `0.0`. */
  function ZeroNumerator(m: Math, mx: real): real
  {
    m.exp(0.0 - mx)
  }

  /** The visible weights of a causal score row add up to
      `1 + z * exp(0 - max) / exp_sum`, `z` being the number of visible
      scores that are exactly `0.0`: such a score is left out of `exp_sum`
      but still gets a weight. */
  lemma WeightsTotal(m: Math, s: seq<real>, i: nat)
    requires i < |s| && ExpSum(m, s) > 0.0
    requires forall j :: i < j < |s| ==> s[j] == 0.0
    ensures Sum(Weights(m, s)[..i + 1]) ==
      1.0 + GuardedQuotient(Copies(ZeroCount(s[..i + 1]), ZeroNumerator(m, MaxOf(s))), ExpSum(m, s))
  {
    var mx := MaxOf(s);
    WeightsAreQuotients(m, s);
    ExpTermsSkipZeros(m, s, mx);
    ZeroScoreNumerators(m, s, mx);
    SoftmaxTotal(Weights(m, s), Numerators(m, s, mx), ExpTerms(m, s, mx), s, ZeroNumerator(m, mx), ExpSum(m, s), i);
  }

  /** Given `exp > 0`, the visible weights of a causal score row sum to
      exactly 1 if and only if no visible score is exactly `0.0`; otherwise
      they sum to more than 1. */
  lemma WeightsSumToOneIff(m: Math, s: seq<real>, i: nat)
    requires ExpPositive(m)
    requires i < |s| && ExpSum(m, s) > 0.0
    requires forall j :: i < j < |s| ==> s[j] == 0.0
    ensures Sum(Weights(m, s)[..i + 1]) >= 1.0
    ensures Sum(Weights(m, s)[..i + 1]) == 1.0 <==> ZeroCount(s[..i + 1]) == 0
  {
    var mx := MaxOf(s);
    WeightsAreQuotients(m, s);
    ExpTermsSkipZeros(m, s, mx);
    ZeroScoreNumerators(m, s, mx);
    SoftmaxTotalIsOneIff(Weights(m, s), Numerators(m, s, mx), ExpTerms(m, s, mx), s,
      ZeroNumerator(m, mx), ExpSum(m, s), i);
  }

  /** A vector's dot product with itself is a sum of squares: never
      negative, and 0 only when every coordinate counted is 0. */
  lemma {:induction false} SelfDotZero(x: seq<real>, upto: nat)
    requires upto <= |x|
    ensures Dot(x, x, upto) >= 0.0
    ensures Dot(x, x, upto) == 0.0 ==> forall d :: 0 <= d < upto ==> x[d] == 0.0
    decreases upto
  {
    if upto > 0 {
      SelfDotZero(x, upto - 1);
      SelfDotStep(x, upto);
      if x[upto - 1] != 0.0 {
        SquarePositive(x[upto - 1]);
      }
    }
  }

  lemma SelfDotStep(x: seq<real>, upto: nat)
    requires 0 < upto <= |x|
    ensures Dot(x, x, upto) == Dot(x, x, upto - 1) + Square(x[upto - 1])
  {
  }

  lemma QuotientNonZero(a: real, c: real)
    requires a != 0.0 && c != 0.0
    ensures a / c != 0.0
  {
    assert (a / c) * c == a;
  }

  lemma QuotientSelf(a: real)
    requires a > 0.0
    ensures GuardedQuotient(a, a) == 1.0
  {
  }

  /** With one token the only score is `(x · x) / sqrt(e)`. When `x · x`
      is non-zero its weight is 1; for the zero vector the score is 0, the
      guard applies and the zero row comes back. Either way attention
      returns the token unchanged. */
  lemma SingleToken(m: Math, x: seq<real>)
    requires ExpPositive(m) && m.sqrt(|x| as real) != 0.0
    ensures SdpaDefined(m, [x], [x], [x])
    ensures Attention(m, [x], [x], [x]) == [x]
  {
    var s := Scores(m, [x], [x], [x], 0);
    var dot, scale := Dot(x, x, |x|), m.sqrt(|x| as real);
    assert s == [dot / scale];
    var w := Weights(m, s);
    OneScoreWeights(m, s);
    if dot != 0.0 {
      QuotientNonZero(dot, scale);
    } else {
      SelfDotZero(x, |x|);
    }
    var row := Attention(m, [x], [x], [x])[0];
    forall d | 0 <= d < |x|
      ensures row[d] == x[d]
    {
      MixOne(w, [x], d);
    }
    assert row == x;
  }

  lemma MixOne(w: seq<real>, v: Matrix, d: nat)
    requires |w| >= 1 && |v| >= 1 && d < |v[0]|
    ensures Mix(w, v, d, 1) == w[0] * v[0][d]
  {
  }

  /** A single score gets weight 1, unless it is exactly 0: then `exp_sum`
      is 0 and the guard gives weight 0. */
  lemma OneScoreWeights(m: Math, s: seq<real>)
    requires ExpPositive(m) && |s| == 1
    ensures Weights(m, s) == [if s[0] != 0.0 then 1.0 else 0.0]
  {
    assert MaxOf(s) == s[0];
    var t := ExpTerms(m, s, s[0]);
    assert |t| == 1 && t[..0] == [];
    assert ExpSum(m, s) == Sum(t) == Sum(t[..0]) + t[0] == t[0];
    assert s[0] - s[0] == 0.0;
    assert Numerators(m, s, s[0])[0] == m.exp(0.0);
    if s[0] != 0.0 {
      QuotientSelf(m.exp(0.0));
    }
  }

  /** The attention sublayer: query, key, value and output projections. */
  datatype SelfAttention = SelfAttention(wq: Dense.Linear, wk: Dense.Linear, wv: Dense.Linear, wo: Dense.Linear)

  /** `SelfAttention::new(embed_dim)`: all four projections are the
      `embed_dim × embed_dim` identity with zero bias. */
  function NewSelfAttention(e: nat): (sa: SelfAttention)
    ensures sa.wq == sa.wk == sa.wv == sa.wo
    ensures Dense.Shaped(sa.wq, e, e) && sa.wq.bias == Zeros(e)
    ensures forall i, j :: 0 <= i < e && 0 <= j < e ==> sa.wq.weight[i][j] == if i == j then 1.0 else 0.0
  {
    var id := Dense.IdentityLinear(e, e);
    SelfAttention(id, id, id, id)
  }

  /** Every projection and the attention call stay inside their operands. */
  predicate Defined(m: Math, sa: SelfAttention, x: Matrix)
  {
    Dense.ForwardDefined(sa.wq, x) && Dense.ForwardDefined(sa.wk, x) && Dense.ForwardDefined(sa.wv, x) &&
    var q, k, v := Dense.Affine(sa.wq, x), Dense.Affine(sa.wk, x), Dense.Affine(sa.wv, x);
    SdpaDefined(m, q, k, v) && Dense.ForwardDefined(sa.wo, Attention(m, q, k, v))
  }

  /** `SelfAttention::forward`: `w_o(sdpa(w_q x, w_k x, w_v x))`. */
  function Forward(m: Math, sa: SelfAttention, x: Matrix): (r: Matrix)
    requires Defined(m, sa, x)
    ensures IsMatrix(r, |x|, |sa.wo.weight[0]|)
  {
    var q, k, v := Dense.Affine(sa.wq, x), Dense.Affine(sa.wk, x), Dense.Affine(sa.wv, x);
    Dense.Affine(sa.wo, Attention(m, q, k, v))
  }

  predicate Shaped(sa: SelfAttention, e: nat)
  {
    Dense.Shaped(sa.wq, e, e) && Dense.Shaped(sa.wk, e, e) &&
    Dense.Shaped(sa.wv, e, e) && Dense.Shaped(sa.wo, e, e)
  }

  /** Four `e × e` projections take any non-empty `n × e` input (`e > 0`)
      to an `n × e` output. */
  lemma ForwardShape(m: Math, sa: SelfAttention, x: Matrix, n: nat, e: nat)
    requires SqrtPositive(m) && Shaped(sa, e)
    requires IsMatrix(x, n, e) && n > 0 && e > 0
    ensures Defined(m, sa, x)
    ensures IsMatrix(Forward(m, sa, x), n, e)
  {
    Dense.AffineShape(sa.wq, x, n, e, e);
    Dense.AffineShape(sa.wk, x, n, e, e);
    Dense.AffineShape(sa.wv, x, n, e, e);
    var q, k, v := Dense.Affine(sa.wq, x), Dense.Affine(sa.wk, x), Dense.Affine(sa.wv, x);
    assert m.sqrt(|q[0]| as real) > 0.0;
    Dense.AffineShape(sa.wo, Attention(m, q, k, v), n, e, e);
  }

  /** A single token through `SelfAttention::new(e)` comes back unchanged,
      whatever its value. */
  lemma NewSingleTokenIdentity(m: Math, x: seq<real>)
    requires ExpPositive(m) && SqrtPositive(m) && |x| > 0
    ensures Defined(m, NewSelfAttention(|x|), [x])
    ensures Forward(m, NewSelfAttention(|x|), [x]) == [x]
  {
    var e := |x|;
    var sa := NewSelfAttention(e);
    Dense.AffineSquareIdentity([x], 1, e);
    assert sa.wq == sa.wk == sa.wv == sa.wo == Dense.IdentityLinear(e, e);
    SqrtOfPositive(m, e as real);
    SingleToken(m, x);
    ThroughProjections(m, sa, [x], [x], [x], [x]);
  }

  lemma SqrtOfPositive(m: Math, r: real)
    requires SqrtPositive(m) && r > 0.0
    ensures m.sqrt(r) != 0.0
  {
  }

  /** `forward` once the three input projections and the attention output
      are known. */
  lemma ThroughProjections(m: Math, sa: SelfAttention, x: Matrix, q: Matrix, k: Matrix, v: Matrix)
    requires Dense.ForwardDefined(sa.wq, x) && Dense.ForwardDefined(sa.wk, x) && Dense.ForwardDefined(sa.wv, x)
    requires Dense.Affine(sa.wq, x) == q && Dense.Affine(sa.wk, x) == k && Dense.Affine(sa.wv, x) == v
    requires SdpaDefined(m, q, k, v) && Dense.ForwardDefined(sa.wo, Attention(m, q, k, v))
    ensures Defined(m, sa, x)
    ensures Forward(m, sa, x) == Dense.Affine(sa.wo, Attention(m, q, k, v))
  {
  }

  /** The test input `[1, 0]`. */
  lemma NewIdentityExample(m: Math)
    requires ExpPositive(m) && SqrtPositive(m)
    ensures Defined(m, NewSelfAttention(2), [[1.0, 0.0]])
    ensures Forward(m, NewSelfAttention(2), [[1.0, 0.0]]) == [[1.0, 0.0]]
  {
    NewSingleTokenIdentity(m, [1.0, 0.0]);
  }
}
