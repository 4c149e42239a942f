/**
  Cross-entropy over a sequence of logits rows and integer targets
  (core/src/loss.rs): the mean over positions of the negative
  log-softmax probability of the target, computed with the row maximum
  subtracted before exponentiation.
*/
module Losses {
  import opened Scalars

  /** `Σ_j exp(row[j] − c)`, summed left to right. */
  function ExpSum(m: Math, row: seq<real>, c: real): real
  {
    Sum(seq(|row|, j requires 0 <= j < |row| => m.exp(row[j] - c)))
  }

  /** `logit[target] − max − ln(Σ exp(x − max))` for one position. */
  function LogProb(m: Math, row: seq<real>, target: nat): real
    requires target < |row|
  {
    var mx := MaxOf(row);
    row[target] - mx - m.ln(ExpSum(m, row, mx))
  }

  /** One target per logits row, each indexing within its row. */
  predicate TargetsFit(logits: seq<seq<real>>, targets: seq<nat>)
  {
    |logits| == |targets| && forall i :: 0 <= i < |logits| ==> targets[i] < |logits[i]|
  }

  /** The log-probabilities of the targets, position by position. */
  function LogProbs(m: Math, logits: seq<seq<real>>, targets: seq<nat>): (r: seq<real>)
    requires TargetsFit(logits, targets)
    ensures |r| == |logits|
    ensures forall i :: 0 <= i < |r| ==> r[i] == LogProb(m, logits[i], targets[i])
  {
    seq(|logits|, i requires 0 <= i < |logits| => LogProb(m, logits[i], targets[i]))
  }

  /** The value of `loss` after the first `n` positions: `0 − lp_0 − … − lp_{n−1}`. */
  function Accumulated(m: Math, logits: seq<seq<real>>, targets: seq<nat>, n: nat): real
    requires TargetsFit(logits, targets) && n <= |logits|
  {
    if n == 0 then 0.0
    else Accumulated(m, logits, targets, n - 1) - LogProb(m, logits[n - 1], targets[n - 1])
  }

  /** The value `cross_entropy` returns. */
  function Loss(m: Math, logits: seq<seq<real>>, targets: seq<nat>): real
    requires TargetsFit(logits, targets) && |logits| > 0
  {
    Accumulated(m, logits, targets, |logits|) / (|logits| as real)
  }

  /** `cross_entropy`: one pass over the positions with a running `loss`,
      divided by the number of positions at the end. The length check
      (`assert_eq!`) and the target index are preconditions. */
  method CrossEntropy(m: Math, logits: seq<seq<real>>, targets: seq<nat>) returns (loss: real)
    requires TargetsFit(logits, targets) && |logits| > 0
    ensures loss == Loss(m, logits, targets)
  {
    loss := SumLosses(m, logits, targets);
    loss := loss / (|logits| as real);
  }

  /** The loop of `cross_entropy`: `loss -= log_prob` for every position. */
  method SumLosses(m: Math, logits: seq<seq<real>>, targets: seq<nat>) returns (loss: real)
    requires TargetsFit(logits, targets)
    ensures loss == Accumulated(m, logits, targets, |logits|)
  {
    loss := 0.0;
    for i := 0 to |logits|
      invariant loss == Accumulated(m, logits, targets, i)
    {
      var logit := logits[i];
      var max := MaxOf(logit);
      var expSum := ExpSum(m, logit, max);
      var logProb := logit[targets[i]] - max - m.ln(expSum);
      loss := loss - logProb;
    }
  }

  /** The running loss is the negated sum of the first `n` log-probabilities. */
  lemma {:induction false} AccumulatedIsNegatedSum(m: Math, logits: seq<seq<real>>, targets: seq<nat>, n: nat)
    requires TargetsFit(logits, targets) && n <= |logits|
    ensures Accumulated(m, logits, targets, n) == -Sum(LogProbs(m, logits, targets)[..n])
    decreases n
  {
    if n > 0 {
      var lp := LogProbs(m, logits, targets);
      AccumulatedIsNegatedSum(m, logits, targets, n - 1);
      assert lp[..n] == lp[..n - 1] + [lp[n - 1]];
      SumAppend(lp[..n - 1], lp[n - 1]);
    }
  }

  /** The loss is the mean of the negative log-probabilities. */
  lemma LossIsMean(m: Math, logits: seq<seq<real>>, targets: seq<nat>)
    requires TargetsFit(logits, targets) && |logits| > 0
    ensures Loss(m, logits, targets) == -Sum(LogProbs(m, logits, targets)) / (|logits| as real)
  {
    var lp := LogProbs(m, logits, targets);
    AccumulatedIsNegatedSum(m, logits, targets, |logits|);
    assert lp[..|logits|] == lp;
  }

  /** With a positive `exp` that is 1 at 0 and a `ln` that is non-negative
      from 1 on, every log-probability is at most 0: the shifted exponential
      sum contains the term `exp(0) = 1` of the maximum. */
  lemma LogProbNonPositive(m: Math, row: seq<real>, target: nat)
    requires ExpPositive(m) && ExpZero(m) && LnNonNegativeFromOne(m)
    requires target < |row|
    ensures LogProb(m, row, target) <= 0.0
  {
    var mx := MaxOf(row);
    var k :| 0 <= k < |row| && row[k] == mx;
    var terms := seq(|row|, j requires 0 <= j < |row| => m.exp(row[j] - mx));
    assert terms[k] == m.exp(0.0) == 1.0;
    SumAtLeastTerm(terms, k);
    assert m.ln(ExpSum(m, row, mx)) >= 0.0;
  }

  lemma {:induction false} AccumulatedNonNegative(m: Math, logits: seq<seq<real>>, targets: seq<nat>, n: nat)
    requires ExpPositive(m) && ExpZero(m) && LnNonNegativeFromOne(m)
    requires TargetsFit(logits, targets) && n <= |logits|
    ensures Accumulated(m, logits, targets, n) >= 0.0
    decreases n
  {
    if n > 0 {
      AccumulatedNonNegative(m, logits, targets, n - 1);
      LogProbNonPositive(m, logits[n - 1], targets[n - 1]);
    }
  }

  lemma QuotientNonNegative(x: real, d: real)
    requires x >= 0.0 && d > 0.0
    ensures x / d >= 0.0
  {
  }

  /** Under the same facts about `exp` and `ln` the loss is never negative. */
  lemma LossNonNegative(m: Math, logits: seq<seq<real>>, targets: seq<nat>)
    requires ExpPositive(m) && ExpZero(m) && LnNonNegativeFromOne(m)
    requires TargetsFit(logits, targets) && |logits| > 0
    ensures Loss(m, logits, targets) >= 0.0
  {
    AccumulatedNonNegative(m, logits, targets, |logits|);
    QuotientNonNegative(Accumulated(m, logits, targets, |logits|), |logits| as real);
  }

  /** The unit test: with target 0, `[0.1, 2.0]` costs exactly 1.9 more
      than `[2.0, 0.1]`, whatever `exp` and `ln` are, because both rows have
      maximum 2.0 and the same shifted exponential sum. */
  lemma CorrectPredictionExample(m: Math)
    ensures TargetsFit([[2.0, 0.1]], [0]) && TargetsFit([[0.1, 2.0]], [0])
    ensures Loss(m, [[0.1, 2.0]], [0]) - Loss(m, [[2.0, 0.1]], [0]) == 1.9
    ensures Loss(m, [[2.0, 0.1]], [0]) < Loss(m, [[0.1, 2.0]], [0])
  {
    var good := [2.0, 0.1];
    var bad := [0.1, 2.0];
    assert MaxOf(good) == 2.0 && MaxOf(bad) == 2.0;
    var e0 := m.exp(0.0);
    var e1 := m.exp(-1.9);
    assert seq(2, j requires 0 <= j < 2 => m.exp(good[j] - 2.0)) == [e0, e1];
    assert seq(2, j requires 0 <= j < 2 => m.exp(bad[j] - 2.0)) == [e1, e0];
    SumPair(e0, e1);
    SumPair(e1, e0);
    assert ExpSum(m, good, 2.0) == ExpSum(m, bad, 2.0);
    var l := m.ln(ExpSum(m, good, 2.0));
    assert LogProb(m, good, 0) == -l;
    assert LogProb(m, bad, 0) == -1.9 - l;
    assert Accumulated(m, [good], [0], 1) == l;
    assert Accumulated(m, [bad], [0], 1) == 1.9 + l;
  }
}
