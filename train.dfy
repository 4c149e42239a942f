/**
  The training program (core/src/bin/train.rs): the token sequence is split
  into inputs and next-token targets, and every epoch runs one forward pass
  of the current model, then walks the positions accumulating the
  cross-entropy gradient of the OUTPUT LAYER ONLY into two buffers, which are
  applied as an SGD step (divided by the number of accumulated positions)
  every `accum_steps` positions and once more for a leftover partial bucket.

  The hidden states and logits of an epoch are computed once, before any
  update, and are reused for every position of that epoch even after a
  mid-epoch step has changed the output layer.

  The `--fp16` branch differs only in passing every accumulated value through
  `f16::from_f32`; both branches are the same procedure over the rounding
  `Round`, which is the identity for `f32`.
*/
module Training {
  import opened Scalars
  import opened Matrices
  import Dense
  import Embeddings
  import Rotary
  import Transformers
  import Models
  import Losses

  // ---------------------------------------------------------------------
  // Token split

  datatype Split = TooFewTokens | Pairs(inputs: seq<nat>, targets: seq<nat>)

  /** Fewer than two tokens abort the program; otherwise the inputs are all
      tokens but the last and the targets all tokens but the first, so the
      target at each position is the input at the next one. */
  function SplitTokens(tokens: seq<nat>): (r: Split)
    ensures r.TooFewTokens? <==> |tokens| < 2
    ensures r.Pairs? ==> |r.inputs| == |r.targets| == |tokens| - 1
    ensures r.Pairs? ==> r.inputs + [tokens[|tokens| - 1]] == tokens && [tokens[0]] + r.targets == tokens
    ensures r.Pairs? ==> forall t :: 0 <= t < |r.inputs| - 1 ==> r.targets[t] == r.inputs[t + 1]
  {
    if |tokens| < 2 then TooFewTokens else Pairs(tokens[..|tokens| - 1], tokens[1..])
  }

  // ---------------------------------------------------------------------
  // The gradient of one position

  /** `exp(x − max) / exp_sum` for every logit of the row. With a positive
      `exp` every probability is positive and they sum to 1. */
  function Softmax(m: Math, logit: seq<real>): (p: seq<real>)
    requires ExpPositive(m) && |logit| > 0
    ensures |p| == |logit|
    ensures forall i :: 0 <= i < |p| ==> p[i] > 0.0
    ensures Sum(p) == 1.0
  {
    var mx := MaxOf(logit);
    var e := seq(|logit|, j requires 0 <= j < |logit| => m.exp(logit[j] - mx));
    ExpSumPositive(e);
    var p := seq(|logit|, j requires 0 <= j < |logit| => e[j] / Sum(e));
    SoftmaxTotal(p, e);
    p
  }

  lemma ExpSumPositive(e: seq<real>)
    requires |e| > 0 && forall j :: 0 <= j < |e| ==> e[j] > 0.0
    ensures Sum(e) > 0.0
  {
    SumPositive(e);
  }

  /** Positive terms divided by their own sum are positive and sum to 1. */
  lemma SoftmaxTotal(p: seq<real>, e: seq<real>)
    requires |e| > 0 && Sum(e) > 0.0 && |p| == |e|
    requires forall j :: 0 <= j < |e| ==> e[j] > 0.0 && p[j] == e[j] / Sum(e)
    ensures Sum(p) == 1.0
    ensures forall j :: 0 <= j < |p| ==> p[j] > 0.0
  {
    var s := Sum(e);
    SumDiv(p, e, s);
    SelfQuotient(s);
    forall j | 0 <= j < |p|
      ensures p[j] > 0.0
    {
      QuotientPositive(e[j], s);
    }
  }

  lemma SelfQuotient(s: real)
    requires s != 0.0
    ensures s / s == 1.0
  {
  }

  lemma QuotientPositive(x: real, d: real)
    requires x > 0.0 && d > 0.0
    ensures x / d > 0.0
  {
  }

  /** `softmax[i] − (1 if i == target else 0)`: the derivative of the
      position's cross-entropy with respect to logit `i`. */
  function Gradient(p: seq<real>, target: nat): (g: seq<real>)
    ensures |g| == |p|
  {
    seq(|p|, i requires 0 <= i < |p| => p[i] - if i == target then 1.0 else 0.0)
  }

  /** Subtracting the one-hot target subtracts exactly 1 from the total. */
  lemma {:induction false} GradientTotal(p: seq<real>, target: nat)
    requires target < |p|
    ensures Sum(Gradient(p, target)) == Sum(p) - 1.0
  {
    GradientPrefixTotal(p, target, |p|);
    assert Gradient(p, target)[..|p|] == Gradient(p, target);
    assert p[..|p|] == p;
  }

  lemma {:induction false} GradientPrefixTotal(p: seq<real>, target: nat, k: nat)
    requires k <= |p|
    ensures Sum(Gradient(p, target)[..k]) == Sum(p[..k]) - if target < k then 1.0 else 0.0
    decreases k
  {
    if k > 0 {
      var g := Gradient(p, target);
      GradientPrefixTotal(p, target, k - 1);
      assert g[..k][..k - 1] == g[..k - 1];
      assert p[..k][..k - 1] == p[..k - 1];
    }
  }

  /** With a positive `exp` the gradient of a row sums to 0, is negative at
      the target and positive everywhere else. */
  lemma GradientSigns(m: Math, logit: seq<real>, target: nat)
    requires ExpPositive(m) && target < |logit|
    ensures Sum(Gradient(Softmax(m, logit), target)) == 0.0
    ensures Gradient(Softmax(m, logit), target)[target] <= 0.0
    ensures forall i :: 0 <= i < |logit| && i != target ==> Gradient(Softmax(m, logit), target)[i] > 0.0
  {
    var p := Softmax(m, logit);
    GradientTotal(p, target);
    SumAtLeastTerm(p, target);
  }

  // ---------------------------------------------------------------------
  // Accumulation buffers and SGD steps

  /** `vec![vec![0.0; cols]; rows]`. */
  function ZeroGrid(rows: nat, cols: nat): (r: Matrix)
    ensures IsMatrix(r, rows, cols)
    ensures forall j, i :: 0 <= j < rows && 0 <= i < cols ==> r[j][i] == 0.0
  {
    seq(rows, _ => Zeros(cols))
  }

  /** The rounding each accumulated value passes through: `f16::from_f32`
      in the `f16` branch, none in the `f32` one. */
  function Round(m: Math, fp16: bool, x: real): real
  {
    if fp16 then m.f16(x) else x
  }

  /** `grad_b[i] = Round(m, fp16, grad_b[i] + grad_i)` for every output `i`. */
  function AddBias(m: Math, fp16: bool, gradB: seq<real>, g: seq<real>): (r: seq<real>)
    requires |g| == |gradB|
    ensures |r| == |gradB|
    ensures forall i :: 0 <= i < |gradB| ==> r[i] == Round(m, fp16, gradB[i] + g[i])
  {
    seq(|gradB|, i requires 0 <= i < |gradB| => Round(m, fp16, gradB[i] + g[i]))
  }

  /** `grad_w[j][i] = Round(m, fp16, grad_w[j][i] + h[j] * grad_i)`: the outer product
      of the hidden state and the gradient, added to the buffer. */
  function AddWeight(m: Math, fp16: bool, gradW: Matrix, h: seq<real>, g: seq<real>): (r: Matrix)
    requires IsMatrix(gradW, |h|, |g|)
    ensures IsMatrix(r, |h|, |g|)
    ensures forall j, i :: 0 <= j < |h| && 0 <= i < |g| ==> r[j][i] == Accumulated(m, fp16, gradW, h, g, j, i)
  {
    seq(|h|, j requires 0 <= j < |h| => seq(|g|, i requires 0 <= i < |g| => Accumulated(m, fp16, gradW, h, g, j, i)))
  }

  /** `round(grad_w[r][c] + h[r] * g[c])`. */
  function Accumulated(m: Math, fp16: bool, gradW: Matrix, h: seq<real>, g: seq<real>, r: nat, c: nat): real
    requires IsMatrix(gradW, |h|, |g|) && r < |h| && c < |g|
  {
    Round(m, fp16, gradW[r][c] + h[r] * g[c])
  }


  /** One SGD step with the mean of `n` accumulated gradients:
      `bias[i] -= lr * grad_b[i] / n`, `weight[j][i] -= lr * grad_w[j][i] / n`. */
  function Descend(layer: Dense.Linear, gradW: Matrix, gradB: seq<real>, lr: real, n: nat, e: nat, v: nat): (r: Dense.Linear)
    requires n > 0 && Dense.Shaped(layer, e, v) && IsMatrix(gradW, e, v) && |gradB| == v
    ensures Dense.Shaped(r, e, v)
  {
    Dense.Linear(
      seq(e, j requires 0 <= j < e => seq(v, i requires 0 <= i < v => Stepped(layer.weight[j][i], gradW[j][i], lr, n))),
      seq(v, i requires 0 <= i < v => Stepped(layer.bias[i], gradB[i], lr, n)))
  }

  /** `x -= lr * g / n` for one parameter. */
  function Stepped(x: real, g: real, lr: real, n: nat): real
    requires n > 0
  {
    x - lr * g / (n as real)
  }

  /** The output layer being trained, the two buffers and the `accum` counter. */
  datatype Accumulator = Accumulator(layer: Dense.Linear, gradW: Matrix, gradB: seq<real>, accum: nat)

  predicate Fits(st: Accumulator, e: nat, v: nat)
  {
    Dense.Shaped(st.layer, e, v) && IsMatrix(st.gradW, e, v) && |st.gradB| == v
  }

  /** One position: accumulate, count, and when the count reaches
      `accum_steps` apply the step, zero the buffers and reset the count. */
  function Step(m: Math, fp16: bool, lr: real, a: nat, st: Accumulator, h: seq<real>, g: seq<real>, e: nat, v: nat): (r: Accumulator)
    requires Fits(st, e, v) && |h| == e && |g| == v
    ensures Fits(r, e, v)
  {
    var gradW := AddWeight(m, fp16, st.gradW, h, g);
    var gradB := AddBias(m, fp16, st.gradB, g);
    var count := st.accum + 1;
    if count == a then Accumulator(Descend(st.layer, gradW, gradB, lr, count, e, v), ZeroGrid(e, v), Zeros(v), 0)
    else Accumulator(st.layer, gradW, gradB, count)
  }

  /** The first `k` positions of an epoch, in order, with hidden states `hs`
      and gradients `gs`. */
  function Pass(m: Math, fp16: bool, lr: real, a: nat, st: Accumulator, hs: Matrix, gs: Matrix, k: nat, e: nat, v: nat): (r: Accumulator)
    requires Fits(st, e, v) && IsMatrix(hs, |hs|, e) && IsMatrix(gs, |hs|, v) && k <= |hs|
    ensures Fits(r, e, v)
  {
    if k == 0 then st
    else Step(m, fp16, lr, a, Pass(m, fp16, lr, a, st, hs, gs, k - 1, e, v), hs[k - 1], gs[k - 1], e, v)
  }

  /** The state an epoch starts from: zeroed buffers and a zero count. */
  function Fresh(layer: Dense.Linear, e: nat, v: nat): (st: Accumulator)
    ensures Dense.Shaped(layer, e, v) ==> Fits(st, e, v)
  {
    Accumulator(layer, ZeroGrid(e, v), Zeros(v), 0)
  }

  /** The output layer after one epoch: every position, then the partial
      bucket if one is left. */
  function EpochUpdate(m: Math, fp16: bool, lr: real, a: nat, layer: Dense.Linear, hs: Matrix, gs: Matrix, e: nat, v: nat): (r: Dense.Linear)
    requires Dense.Shaped(layer, e, v) && IsMatrix(hs, |hs|, e) && IsMatrix(gs, |hs|, v)
    ensures Dense.Shaped(r, e, v)
  {
    var st := Pass(m, fp16, lr, a, Fresh(layer, e, v), hs, gs, |hs|, e, v);
    if st.accum > 0 then Descend(st.layer, st.gradW, st.gradB, lr, st.accum, e, v) else st.layer
  }

  // ---------------------------------------------------------------------
  // The flush schedule

  /** `accum` after `k` positions, following `accum += 1; if accum ==
      accum_steps { …; accum = 0 }`. */
  function Counter(k: nat, a: nat): nat
  {
    if k == 0 then 0
    else if Counter(k - 1, a) + 1 == a then 0 else Counter(k - 1, a) + 1
  }

  /** Number of mid-epoch steps among the first `k` positions. */
  function Flushes(k: nat, a: nat): nat
  {
    if k == 0 then 0
    else Flushes(k - 1, a) + if Counter(k - 1, a) + 1 == a then 1 else 0
  }

  /** All steps of an epoch over `k` positions, the final partial one included. */
  function TotalFlushes(k: nat, a: nat): nat
  {
    Flushes(k, a) + if Counter(k, a) > 0 then 1 else 0
  }

  /** `k = flushes · a + accum` with `accum < a`: a step every `a`
      positions, the remainder left in the buffers. */
  lemma {:induction false} CounterDivides(k: nat, a: nat)
    requires a > 0
    ensures k == Flushes(k, a) * a + Counter(k, a) && Counter(k, a) < a
  {
    if k > 0 {
      CounterDivides(k - 1, a);
      if Counter(k - 1, a) + 1 == a {
        assert Flushes(k, a) * a == Flushes(k - 1, a) * a + a;
      }
    }
  }

  /** With `accum_steps = a ≥ 1` an epoch of `k ≥ 1` positions takes
      `ceil(k / a)` steps: the least number of buckets of `a` that cover
      `k`. */
  lemma EpochStepsCeil(k: nat, a: nat)
    requires a > 0 && k > 0
    ensures (TotalFlushes(k, a) - 1) * a < k <= TotalFlushes(k, a) * a
  {
    CounterDivides(k, a);
    var f, c := Flushes(k, a), Counter(k, a);
    if c > 0 {
      assert TotalFlushes(k, a) * a == f * a + a;
    } else {
      assert f > 0;
      assert (f - 1) * a == f * a - a;
    }
  }

  /** With `accum_steps = 0` the count never matches after an increment:
      no mid-epoch step, and one final step over all `k` positions. */
  lemma {:induction false} ZeroAccumSteps(k: nat)
    ensures Counter(k, 0) == k && Flushes(k, 0) == 0
    ensures k > 0 ==> TotalFlushes(k, 0) == 1
  {
    if k > 0 {
      ZeroAccumSteps(k - 1);
    }
  }

  /** The training state follows the schedule: its count is `Counter`, and
      when no step has happened yet the layer is the epoch's initial one. */
  lemma {:induction false} PassFollowsSchedule(m: Math, fp16: bool, lr: real, a: nat, st: Accumulator, hs: Matrix, gs: Matrix, k: nat, e: nat, v: nat)
    requires Fits(st, e, v) && IsMatrix(hs, |hs|, e) && IsMatrix(gs, |hs|, v) && k <= |hs|
    requires st.accum == 0
    ensures Pass(m, fp16, lr, a, st, hs, gs, k, e, v).accum == Counter(k, a)
    ensures Flushes(k, a) == 0 ==> Pass(m, fp16, lr, a, st, hs, gs, k, e, v).layer == st.layer
  {
    if k > 0 {
      PassFollowsSchedule(m, fp16, lr, a, st, hs, gs, k - 1, e, v);
    }
  }

  // ---------------------------------------------------------------------
  // The two branches

  /** A half-precision conversion that represents every value exactly. */
  ghost predicate ExactHalf(m: Math)
  {
    forall x :: m.f16(x) == x
  }

  /** With an exact conversion the `f16` accumulation equals the `f32` one. */
  lemma AccumulateExact(m: Math, gradW: Matrix, gradB: seq<real>, h: seq<real>, g: seq<real>)
    requires ExactHalf(m) && IsMatrix(gradW, |h|, |g|) && |gradB| == |g|
    ensures AddBias(m, true, gradB, g) == AddBias(m, false, gradB, g)
    ensures AddWeight(m, true, gradW, h, g) == AddWeight(m, false, gradW, h, g)
  {
    var exact, plain := AddWeight(m, true, gradW, h, g), AddWeight(m, false, gradW, h, g);
    forall j, i | 0 <= j < |h| && 0 <= i < |g|
      ensures exact[j][i] == plain[j][i]
    {
      AccumulatedIs(m, true, gradW, h, g, j, i);
      AccumulatedIs(m, false, gradW, h, g, j, i);
    }
    CellsEqual(exact, plain, |h|, |g|);
  }

  /** The two branches walk an epoch through the same states. */
  lemma {:induction false} PassExact(m: Math, lr: real, a: nat, st: Accumulator, hs: Matrix, gs: Matrix, k: nat, e: nat, v: nat)
    requires ExactHalf(m)
    requires Fits(st, e, v) && IsMatrix(hs, |hs|, e) && IsMatrix(gs, |hs|, v) && k <= |hs|
    ensures Pass(m, true, lr, a, st, hs, gs, k, e, v) == Pass(m, false, lr, a, st, hs, gs, k, e, v)
  {
    if k > 0 {
      PassExact(m, lr, a, st, hs, gs, k - 1, e, v);
      var prev := Pass(m, false, lr, a, st, hs, gs, k - 1, e, v);
      AccumulateExact(m, prev.gradW, prev.gradB, hs[k - 1], gs[k - 1]);
    }
  }

  lemma EpochUpdateExact(m: Math, lr: real, a: nat, layer: Dense.Linear, hs: Matrix, gs: Matrix, e: nat, v: nat)
    requires ExactHalf(m)
    requires Dense.Shaped(layer, e, v) && IsMatrix(hs, |hs|, e) && IsMatrix(gs, |hs|, v)
    ensures EpochUpdate(m, true, lr, a, layer, hs, gs, e, v) == EpochUpdate(m, false, lr, a, layer, hs, gs, e, v)
  {
    PassExact(m, lr, a, Fresh(layer, e, v), hs, gs, |hs|, e, v);
  }

  // ---------------------------------------------------------------------
  // Epochs of the model

  /** The gradient of every position, from the logits of the epoch. */
  function Gradients(m: Math, logits: Matrix, targets: seq<nat>, v: nat): (gs: Matrix)
    requires ExpPositive(m) && v > 0 && IsMatrix(logits, |logits|, v) && |targets| == |logits|
    ensures IsMatrix(gs, |logits|, v)
    ensures forall t :: 0 <= t < |logits| ==> gs[t] == Gradient(Softmax(m, logits[t]), targets[t])
  {
    seq(|logits|, t requires 0 <= t < |logits| => Gradient(Softmax(m, logits[t]), targets[t]))
  }

  /** What one epoch needs: a well-shaped model, an `exp` that keeps every
      softmax denominator positive, and valid inputs with one target each. */
  ghost predicate EpochReady(m: Math, md: Models.Model, inputs: seq<nat>, targets: seq<nat>)
  {
    Models.Ready(m, md) && ExpPositive(m) &&
    |inputs| > 0 && Embeddings.IdsInRange(md.embedding, inputs) && |targets| == |inputs|
  }

  /** One epoch (lines 72-190): hidden states and logits of the model as it
      is at the start, then every position's gradient from those same
      logits. Only the output layer changes. */
  function Epoch(m: Math, md: Models.Model, inputs: seq<nat>, targets: seq<nat>, a: nat, lr: real, fp16: bool): (r: Models.Model)
    requires EpochReady(m, md, inputs, targets)
    ensures r.embedding == md.embedding && r.positional == md.positional && r.transformer == md.transformer
    ensures EpochReady(m, r, inputs, targets)
  {
    var e, v := md.positional.dim, Models.Vocab(md);
    Models.HiddenShape(m, md, inputs);
    Models.ForwardShape(m, md, inputs);
    assert inputs[0] < v;
    var gs := Gradients(m, Models.Forward(m, md, inputs), targets, v);
    md.(output := EpochUpdate(m, fp16, lr, a, md.output, Models.Hidden(m, md, inputs), gs, e, v))
  }

  /** The model after `epochs` epochs. */
  function Trained(m: Math, md: Models.Model, inputs: seq<nat>, targets: seq<nat>, epochs: nat, a: nat, lr: real, fp16: bool): (r: Models.Model)
    requires EpochReady(m, md, inputs, targets)
    ensures r.embedding == md.embedding && r.positional == md.positional && r.transformer == md.transformer
    ensures EpochReady(m, r, inputs, targets)
  {
    if epochs == 0 then md
    else Epoch(m, Trained(m, md, inputs, targets, epochs - 1, a, lr, fp16), inputs, targets, a, lr, fp16)
  }

  /** With an exact half-precision conversion, training with `--fp16`
      gives the model that training without it gives. */
  lemma EpochExact(m: Math, md: Models.Model, inputs: seq<nat>, targets: seq<nat>, a: nat, lr: real)
    requires ExactHalf(m) && EpochReady(m, md, inputs, targets)
    ensures Epoch(m, md, inputs, targets, a, lr, true) == Epoch(m, md, inputs, targets, a, lr, false)
  {
    var e, v := md.positional.dim, Models.Vocab(md);
    Models.HiddenShape(m, md, inputs);
    Models.ForwardShape(m, md, inputs);
    assert inputs[0] < v;
    EpochUpdateExact(m, lr, a, md.output, Models.Hidden(m, md, inputs),
      Gradients(m, Models.Forward(m, md, inputs), targets, v), e, v);
  }

  /** One more epoch trains the model of the epochs before. */
  lemma TrainedStep(m: Math, md: Models.Model, inputs: seq<nat>, targets: seq<nat>, epochs: nat, a: nat, lr: real, fp16: bool)
    requires EpochReady(m, md, inputs, targets) && epochs > 0
    ensures Trained(m, md, inputs, targets, epochs, a, lr, fp16) ==
      Epoch(m, Trained(m, md, inputs, targets, epochs - 1, a, lr, fp16), inputs, targets, a, lr, fp16)
  {
  }

  /** The model after each number of epochs. */
  function ModelCurve(m: Math, md: Models.Model, inputs: seq<nat>, targets: seq<nat>, a: nat, lr: real, fp16: bool): nat -> Models.Model
    requires EpochReady(m, md, inputs, targets)
  {
    (k: nat) => Trained(m, md, inputs, targets, k, a, lr, fp16)
  }

  /** Two sequences of models agree at `k + 1` if they agree at `k`. */
  predicate Successor(f: nat -> Models.Model, g: nat -> Models.Model, k: nat)
  {
    f(k) == g(k) ==> f(k + 1) == g(k + 1)
  }

  /** Two sequences of models that start equal and stay equal from one
      index to the next are equal everywhere. */
  lemma {:induction false} SameIterates(f: nat -> Models.Model, g: nat -> Models.Model, n: nat)
    requires f(0) == g(0)
    requires forall k: nat :: k < n ==> Successor(f, g, k)
    ensures f(n) == g(n)
  {
    if n > 0 {
      SameIterates(f, g, n - 1);
      assert Successor(f, g, n - 1);
    }
  }

  /** With an exact half-precision conversion, training with `--fp16`
      gives the model that training without it gives. */
  lemma TrainedExact(m: Math, md: Models.Model, inputs: seq<nat>, targets: seq<nat>, epochs: nat, a: nat, lr: real)
    requires ExactHalf(m) && EpochReady(m, md, inputs, targets)
    ensures Trained(m, md, inputs, targets, epochs, a, lr, true) == Trained(m, md, inputs, targets, epochs, a, lr, false)
  {
    CurvesStart(m, md, inputs, targets, a, lr);
    CurvesStep(m, md, inputs, targets, epochs, a, lr);
    SameIterates(ModelCurve(m, md, inputs, targets, a, lr, true), ModelCurve(m, md, inputs, targets, a, lr, false), epochs);
  }

  lemma CurvesStart(m: Math, md: Models.Model, inputs: seq<nat>, targets: seq<nat>, a: nat, lr: real)
    requires EpochReady(m, md, inputs, targets)
    ensures ModelCurve(m, md, inputs, targets, a, lr, true)(0) == ModelCurve(m, md, inputs, targets, a, lr, false)(0)
  {
    TrainedZero(m, md, inputs, targets, a, lr, true);
    TrainedZero(m, md, inputs, targets, a, lr, false);
  }

  lemma CurvesStep(m: Math, md: Models.Model, inputs: seq<nat>, targets: seq<nat>, n: nat, a: nat, lr: real)
    requires ExactHalf(m) && EpochReady(m, md, inputs, targets)
    ensures forall k: nat :: k < n ==>
      Successor(ModelCurve(m, md, inputs, targets, a, lr, true), ModelCurve(m, md, inputs, targets, a, lr, false), k)
  {
    forall k: nat | k < n
      ensures Successor(ModelCurve(m, md, inputs, targets, a, lr, true), ModelCurve(m, md, inputs, targets, a, lr, false), k)
    {
      CurveStep(m, md, inputs, targets, k, a, lr);
    }
  }

  lemma CurveStep(m: Math, md: Models.Model, inputs: seq<nat>, targets: seq<nat>, k: nat, a: nat, lr: real)
    requires ExactHalf(m) && EpochReady(m, md, inputs, targets)
    ensures Successor(ModelCurve(m, md, inputs, targets, a, lr, true), ModelCurve(m, md, inputs, targets, a, lr, false), k)
  {
    if Trained(m, md, inputs, targets, k, a, lr, true) == Trained(m, md, inputs, targets, k, a, lr, false) {
      TrainedExactStep(m, md, inputs, targets, k, a, lr);
    }
  }

  lemma TrainedZero(m: Math, md: Models.Model, inputs: seq<nat>, targets: seq<nat>, a: nat, lr: real, fp16: bool)
    requires EpochReady(m, md, inputs, targets)
    ensures Trained(m, md, inputs, targets, 0, a, lr, fp16) == md
  {
  }

  /** The induction step: equal models before an epoch stay equal after it. */
  lemma TrainedExactStep(m: Math, md: Models.Model, inputs: seq<nat>, targets: seq<nat>, k: nat, a: nat, lr: real)
    requires ExactHalf(m) && EpochReady(m, md, inputs, targets)
    requires Trained(m, md, inputs, targets, k, a, lr, true) == Trained(m, md, inputs, targets, k, a, lr, false)
    ensures Trained(m, md, inputs, targets, k + 1, a, lr, true) == Trained(m, md, inputs, targets, k + 1, a, lr, false)
  {
    var prior := Trained(m, md, inputs, targets, k, a, lr, false);
    TrainedStep(m, md, inputs, targets, k + 1, a, lr, true);
    TrainedStep(m, md, inputs, targets, k + 1, a, lr, false);
    EpochExact(m, prior, inputs, targets, a, lr);
  }

  /** The loss the program prints for a model. */
  function EpochLoss(m: Math, md: Models.Model, inputs: seq<nat>, targets: seq<nat>): real
    requires EpochReady(m, md, inputs, targets) && Embeddings.IdsInRange(md.embedding, targets)
  {
    Models.ForwardShape(m, md, inputs);
    Losses.Loss(m, Models.Forward(m, md, inputs), targets)
  }

  // ---------------------------------------------------------------------
  // The loops of the program

  lemma AccumulatedIs(m: Math, fp16: bool, gradW: Matrix, h: seq<real>, g: seq<real>, r: nat, c: nat)
    requires IsMatrix(gradW, |h|, |g|) && r < |h| && c < |g|
    ensures Accumulated(m, fp16, gradW, h, g, r, c) == Round(m, fp16, gradW[r][c] + h[r] * g[c])
  {
  }

  /** The cells before column `i`, and the first `j` cells of column `i`,
      hold their accumulated value; the others their old one. */
  ghost predicate AccumulatedUpTo(m: Math, fp16: bool, gw: Matrix, gradW: Matrix, h: seq<real>, g: seq<real>, i: nat, j: nat)
    requires IsMatrix(gradW, |h|, |g|) && IsMatrix(gw, |h|, |g|)
  {
    forall r, c :: 0 <= r < |h| && 0 <= c < |g| ==>
      gw[r][c] == if c < i || (c == i && r < j) then Accumulated(m, fp16, gradW, h, g, r, c) else gradW[r][c]
  }

  /** Lines 144-150 (89-95 with `f16` rounding): for every output `i`
      compute `grad = softmax[i] − [i == target]`, add it to `grad_b[i]` and
      `transformed[step][j] * grad` to every `grad_w[j][i]`. */
  method AccumulatePosition(m: Math, fp16: bool, gradW: Matrix, gradB: seq<real>, h: seq<real>, softmax: seq<real>, target: nat)
    returns (gw: Matrix, gb: seq<real>)
    requires IsMatrix(gradW, |h|, |softmax|) && |gradB| == |softmax|
    ensures gw == AddWeight(m, fp16, gradW, h, Gradient(softmax, target))
    ensures gb == AddBias(m, fp16, gradB, Gradient(softmax, target))
  {
    ghost var g := Gradient(softmax, target);
    gw, gb := gradW, gradB;
    for i := 0 to |softmax|
      invariant |gb| == |softmax| && IsMatrix(gw, |h|, |softmax|)
      invariant forall c :: 0 <= c < |softmax| ==> gb[c] == if c < i then Round(m, fp16, gradB[c] + g[c]) else gradB[c]
      invariant AccumulatedUpTo(m, fp16, gw, gradW, h, g, i, 0)
    {
      var grad := softmax[i] - if i == target then 1.0 else 0.0;
      assert grad == g[i];
      gb := gb[i := Round(m, fp16, gb[i] + grad)];
      gw := AccumulateColumn(m, fp16, gradW, h, g, gw, i, grad);
      NextColumn(m, fp16, gw, gradW, h, g, i);
    }
    ghost var spec := AddWeight(m, fp16, gradW, h, g);
    forall r, c | 0 <= r < |h| && 0 <= c < |g|
      ensures gw[r][c] == spec[r][c]
    {
    }
    CellsEqual(gw, spec, |h|, |softmax|);
  }

  /** The inner loop of lines 146-149: `grad_w[j][i] += h[j] * grad` for
      every row `j` of column `i`. */
  method AccumulateColumn(m: Math, fp16: bool, gradW: Matrix, h: seq<real>, ghost g: seq<real>, start: Matrix, i: nat, grad: real)
    returns (gw: Matrix)
    requires IsMatrix(gradW, |h|, |g|) && IsMatrix(start, |h|, |g|) && i < |g| && grad == g[i]
    requires AccumulatedUpTo(m, fp16, start, gradW, h, g, i, 0)
    ensures IsMatrix(gw, |h|, |g|)
    ensures AccumulatedUpTo(m, fp16, gw, gradW, h, g, i, |h|)
  {
    gw := start;
    for j := 0 to |h|
      invariant IsMatrix(gw, |h|, |g|)
      invariant AccumulatedUpTo(m, fp16, gw, gradW, h, g, i, j)
    {
      ghost var before := gw;
      var cell := Round(m, fp16, gw[j][i] + h[j] * grad);
      assert before[j][i] == gradW[j][i];
      assert gradW[j][i] + h[j] * g[i] == before[j][i] + h[j] * grad;
      AccumulatedIs(m, fp16, gradW, h, g, j, i);
      assert cell == Accumulated(m, fp16, gradW, h, g, j, i);
      gw := gw[j := gw[j][i := cell]];
      CellStep(m, fp16, before, gw, gradW, h, g, i, j);
    }
  }

  /** Writing the accumulated value of cell `(j, i)` extends the finished
      part of column `i` by one row. */
  lemma CellStep(m: Math, fp16: bool, before: Matrix, gw: Matrix, gradW: Matrix, h: seq<real>, g: seq<real>, i: nat, j: nat)
    requires IsMatrix(gradW, |h|, |g|) && IsMatrix(before, |h|, |g|) && i < |g| && j < |h|
    requires AccumulatedUpTo(m, fp16, before, gradW, h, g, i, j)
    requires gw == before[j := before[j][i := Accumulated(m, fp16, gradW, h, g, j, i)]]
    ensures IsMatrix(gw, |h|, |g|)
    ensures AccumulatedUpTo(m, fp16, gw, gradW, h, g, i, j + 1)
  {
    assert forall c :: 0 <= c < |g| && c != i ==> gw[j][c] == before[j][c];
    assert forall r :: 0 <= r < |h| && r != j ==> gw[r] == before[r];
  }

  /** A finished column `i` is the start of column `i + 1`. */
  lemma NextColumn(m: Math, fp16: bool, gw: Matrix, gradW: Matrix, h: seq<real>, g: seq<real>, i: nat)
    requires IsMatrix(gradW, |h|, |g|) && IsMatrix(gw, |h|, |g|)
    requires AccumulatedUpTo(m, fp16, gw, gradW, h, g, i, |h|)
    ensures AccumulatedUpTo(m, fp16, gw, gradW, h, g, i + 1, 0)
  {
  }

  /** Lines 153-170 (`reset`) and 174-188: the SGD step with the mean over
      `n` positions, bias first and then weight; a mid-epoch step also
      zeroes each buffer cell right after reading it. */
  method Flush(layer: Dense.Linear, gradW: Matrix, gradB: seq<real>, lr: real, n: nat, reset: bool)
    returns (updated: Dense.Linear, gw: Matrix, gb: seq<real>)
    requires n > 0 && Dense.Shaped(layer, |gradW|, |gradB|) && IsMatrix(gradW, |gradW|, |gradB|)
    ensures updated == Descend(layer, gradW, gradB, lr, n, |gradW|, |gradB|)
    ensures gw == if reset then ZeroGrid(|gradW|, |gradB|) else gradW
    ensures gb == if reset then Zeros(|gradB|) else gradB
  {
    var e, v := |gradW|, |gradB|;
    var bias, weight := layer.bias, layer.weight;
    gw, gb := gradW, gradB;
    for i := 0 to v
      invariant |bias| == v && |gb| == v
      invariant forall c :: 0 <= c < v ==> bias[c] == if c < i then Stepped(layer.bias[c], gradB[c], lr, n) else layer.bias[c]
      invariant forall c :: 0 <= c < v ==> gb[c] == if c < i && reset then 0.0 else gradB[c]
    {
      bias := bias[i := Stepped(bias[i], gb[i], lr, n)];
      if reset {
        gb := gb[i := 0.0];
      }
    }
    for i := 0 to v
      invariant IsMatrix(weight, e, v) && IsMatrix(gw, e, v)
      invariant forall r, c :: 0 <= r < e && 0 <= c < v ==>
        weight[r][c] == if c < i then Stepped(layer.weight[r][c], gradW[r][c], lr, n) else layer.weight[r][c]
      invariant forall r, c :: 0 <= r < e && 0 <= c < v ==> gw[r][c] == if c < i && reset then 0.0 else gradW[r][c]
    {
      for j := 0 to e
        invariant IsMatrix(weight, e, v) && IsMatrix(gw, e, v)
        invariant forall r, c :: 0 <= r < e && 0 <= c < v ==>
          weight[r][c] == if c < i || (c == i && r < j) then Stepped(layer.weight[r][c], gradW[r][c], lr, n) else layer.weight[r][c]
        invariant forall r, c :: 0 <= r < e && 0 <= c < v ==>
          gw[r][c] == if (c < i || (c == i && r < j)) && reset then 0.0 else gradW[r][c]
      {
        weight := weight[j := weight[j][i := Stepped(weight[j][i], gw[j][i], lr, n)]];
        if reset {
          gw := gw[j := gw[j][i := 0.0]];
        }
      }
    }
    updated := Dense.Linear(weight, bias);
    CellsEqual(weight, Descend(layer, gradW, gradB, lr, n, e, v).weight, e, v);
    if reset {
      CellsEqual(gw, ZeroGrid(e, v), e, v);
    } else {
      CellsEqual(gw, gradW, e, v);
    }
  }

  /** Lines 140-171 (85-116 with `f16` rounding): one position of the
      epoch. */
  method Position(m: Math, fp16: bool, lr: real, a: nat, layer: Dense.Linear, gradW: Matrix, gradB: seq<real>, accum: nat,
                  h: seq<real>, logit: seq<real>, target: nat, e: nat, v: nat)
    returns (layer': Dense.Linear, gradW': Matrix, gradB': seq<real>, accum': nat)
    requires ExpPositive(m) && |logit| == v && v > 0 && |h| == e
    requires Fits(Accumulator(layer, gradW, gradB, accum), e, v)
    ensures Accumulator(layer', gradW', gradB', accum') ==
      Step(m, fp16, lr, a, Accumulator(layer, gradW, gradB, accum), h, Gradient(Softmax(m, logit), target), e, v)
  {
    var softmax := Softmax(m, logit);
    layer' := layer;
    gradW', gradB' := AccumulatePosition(m, fp16, gradW, gradB, h, softmax, target);
    accum' := accum + 1;
    if accum' == a {
      layer', gradW', gradB' := Flush(layer', gradW', gradB', lr, accum', true);
      accum' := 0;
    }
  }

  /** Lines 136-189 (81-134 with `f16` rounding): zeroed buffers, then every
      position's softmax gradient is accumulated, with a step every
      `accum_steps` positions and a final step for a partial bucket. The
      logits and hidden states are the ones the epoch started with. */
  method AccumulateEpoch(m: Math, fp16: bool, layer: Dense.Linear, transformed: Matrix, logits: Matrix, targets: seq<nat>, a: nat, lr: real, e: nat, v: nat)
    returns (updated: Dense.Linear)
    requires ExpPositive(m) && v > 0 && Dense.Shaped(layer, e, v)
    requires IsMatrix(transformed, |transformed|, e) && IsMatrix(logits, |transformed|, v) && |targets| == |transformed|
    ensures updated == EpochUpdate(m, fp16, lr, a, layer, transformed, Gradients(m, logits, targets, v), e, v)
  {
    var gradW, gradB, accum;
    updated, gradW, gradB, accum := Positions(m, fp16, layer, transformed, logits, targets, a, lr, e, v);
    if accum > 0 {
      updated, gradW, gradB := Flush(updated, gradW, gradB, lr, accum, false);
    }
  }

  /** Lines 136-172 (81-117 with `f16` rounding): the loop over the
      positions, from zeroed buffers. */
  method Positions(m: Math, fp16: bool, layer: Dense.Linear, transformed: Matrix, logits: Matrix, targets: seq<nat>, a: nat, lr: real, e: nat, v: nat)
    returns (updated: Dense.Linear, gradW: Matrix, gradB: seq<real>, accum: nat)
    requires ExpPositive(m) && v > 0 && Dense.Shaped(layer, e, v)
    requires IsMatrix(transformed, |transformed|, e) && IsMatrix(logits, |transformed|, v) && |targets| == |transformed|
    ensures Accumulator(updated, gradW, gradB, accum) ==
      Pass(m, fp16, lr, a, Fresh(layer, e, v), transformed, Gradients(m, logits, targets, v), |targets|, e, v)
  {
    ghost var gs := Gradients(m, logits, targets, v);
    gradW, gradB, accum := ZeroGrid(e, v), Zeros(v), 0;
    updated := layer;
    for step := 0 to |targets|
      invariant Accumulator(updated, gradW, gradB, accum) == Pass(m, fp16, lr, a, Fresh(layer, e, v), transformed, gs, step, e, v)
    {
      PassStep(m, fp16, lr, a, Fresh(layer, e, v), transformed, gs, step, e, v);
      assert gs[step] == Gradient(Softmax(m, logits[step]), targets[step]);
      updated, gradW, gradB, accum := Position(m, fp16, lr, a, updated, gradW, gradB, accum, transformed[step], logits[step], targets[step], e, v);
    }
  }

  lemma PassStep(m: Math, fp16: bool, lr: real, a: nat, st: Accumulator, hs: Matrix, gs: Matrix, k: nat, e: nat, v: nat)
    requires Fits(st, e, v) && IsMatrix(hs, |hs|, e) && IsMatrix(gs, |hs|, v) && k < |hs|
    ensures Pass(m, fp16, lr, a, st, hs, gs, k + 1, e, v) == Step(m, fp16, lr, a, Pass(m, fp16, lr, a, st, hs, gs, k, e, v), hs[k], gs[k], e, v)
  {
  }

  /** Lines 72-75 and 194-197: embedding, rotary encoding, transformer, and
      the output layer applied to the hidden states. */
  method ForwardPass(m: Math, md: Models.Model, inputs: seq<nat>) returns (transformed: Matrix, logits: Matrix)
    requires Models.Ready(m, md) && |inputs| > 0 && Embeddings.IdsInRange(md.embedding, inputs)
    ensures Models.Defined(m, md, inputs)
    ensures transformed == Models.Hidden(m, md, inputs) && logits == Models.Forward(m, md, inputs)
    ensures IsMatrix(transformed, |inputs|, md.positional.dim) && IsMatrix(logits, |inputs|, Models.Vocab(md))
  {
    Models.HiddenShape(m, md, inputs);
    Models.ForwardShape(m, md, inputs);
    var embedded := Embeddings.Forward(md.embedding, inputs);
    var positioned := Rotary.Forward(m, md.positional, embedded);
    transformed := Transformers.Forward(m, md.transformer, positioned);
    logits := Dense.Forward(md.output, transformed);
  }

  /** One epoch of lines 71-191: the forward pass, the loss, and the
      accumulation loop of the branch `use_fp16` selects. */
  method RunEpoch(m: Math, md: Models.Model, inputs: seq<nat>, targets: seq<nat>, a: nat, lr: real, fp16: bool)
    returns (trained: Models.Model, loss: real)
    requires EpochReady(m, md, inputs, targets) && Embeddings.IdsInRange(md.embedding, targets)
    ensures trained == Epoch(m, md, inputs, targets, a, lr, fp16)
    ensures loss == EpochLoss(m, md, inputs, targets)
  {
    var transformed, logits := ForwardPass(m, md, inputs);
    loss := Losses.CrossEntropy(m, logits, targets);
    var e, v := md.positional.dim, Models.Vocab(md);
    assert inputs[0] < v;
    var layer;
    if fp16 {
      layer := AccumulateEpoch(m, true, md.output, transformed, logits, targets, a, lr, e, v);
    } else {
      layer := AccumulateEpoch(m, false, md.output, transformed, logits, targets, a, lr, e, v);
    }
    trained := md.(output := layer);
  }

  datatype Outcome = Aborted | Finished(model: Models.Model, losses: seq<real>, finalLoss: real)

  /** `[f(0), …, f(n − 1)]`, built one push at a time. */
  function Series(f: nat -> real, n: nat): (r: seq<real>)
    ensures |r| == n
  {
    if n == 0 then [] else Series(f, n - 1) + [f(n - 1)]
  }

  lemma {:induction false} SeriesAt(f: nat -> real, n: nat, k: nat)
    requires k < n
    ensures Series(f, n)[k] == f(k)
  {
    if k < n - 1 {
      SeriesAt(f, n - 1, k);
    }
  }

  lemma {:induction false} SeriesEqual(f: nat -> real, g: nat -> real, n: nat)
    requires forall k :: 0 <= k < n ==> f(k) == g(k)
    ensures Series(f, n) == Series(g, n)
  {
    if n > 0 {
      SeriesEqual(f, g, n - 1);
    }
  }

  /** The loss printed at the start of each epoch, as a function of the
      number of epochs already run. */
  function LossCurve(m: Math, md: Models.Model, inputs: seq<nat>, targets: seq<nat>, a: nat, lr: real, fp16: bool): nat -> real
    requires EpochReady(m, md, inputs, targets) && Embeddings.IdsInRange(md.embedding, targets)
  {
    (k: nat) => EpochLoss(m, Trained(m, md, inputs, targets, k, a, lr, fp16), inputs, targets)
  }

  /** The losses printed before each of the first `n` epochs. */
  function LossesUpTo(m: Math, md: Models.Model, inputs: seq<nat>, targets: seq<nat>, n: nat, a: nat, lr: real, fp16: bool): (r: seq<real>)
    requires EpochReady(m, md, inputs, targets) && Embeddings.IdsInRange(md.embedding, targets)
    ensures |r| == n
  {
    Series(LossCurve(m, md, inputs, targets, a, lr, fp16), n)
  }

  /** The `k`-th printed loss is the loss of the model after `k` epochs. */
  lemma LossesUpToAt(m: Math, md: Models.Model, inputs: seq<nat>, targets: seq<nat>, n: nat, a: nat, lr: real, fp16: bool, k: nat)
    requires EpochReady(m, md, inputs, targets) && Embeddings.IdsInRange(md.embedding, targets)
    requires k < n
    ensures LossesUpTo(m, md, inputs, targets, n, a, lr, fp16)[k] == EpochLoss(m, Trained(m, md, inputs, targets, k, a, lr, fp16), inputs, targets)
  {
    SeriesAt(LossCurve(m, md, inputs, targets, a, lr, fp16), n, k);
  }

  /** A fresh model is ready for training on ids below its vocabulary size. */
  lemma NewReady(m: Math, vocab: nat, e: nat, h: nat, layers: nat, heads: nat, inputs: seq<nat>, targets: seq<nat>)
    requires SqrtPositive(m) && PowPositive(m) && ExpPositive(m)
    requires e > 0 && (layers == 0 || h > 0)
    requires |inputs| > 0 && |targets| == |inputs|
    requires forall t :: 0 <= t < |inputs| ==> inputs[t] < vocab && targets[t] < vocab
    ensures EpochReady(m, Models.New(vocab, e, h, layers, heads), inputs, targets)
    ensures Embeddings.IdsInRange(Models.New(vocab, e, h, layers, heads).embedding, targets)
  {
  }

  /** What the program computes: an abort with fewer than two tokens, else
      the model after `epochs` epochs from `Model::new`, the loss printed
      at each epoch and the final loss. */
  function Program(m: Math, tokens: seq<nat>, vocab: nat, e: nat, h: nat, layers: nat, heads: nat,
                   epochs: nat, a: nat, lr: real, fp16: bool): (r: Outcome)
    requires SqrtPositive(m) && PowPositive(m) && ExpPositive(m)
    requires e > 0 && (layers == 0 || h > 0)
    requires forall t :: 0 <= t < |tokens| ==> tokens[t] < vocab
    ensures r.Aborted? <==> |tokens| < 2
    ensures r.Finished? ==> |r.losses| == epochs
  {
    var split := SplitTokens(tokens);
    if split.TooFewTokens? then Aborted
    else
      var inputs, targets := split.inputs, split.targets;
      var initial := Models.New(vocab, e, h, layers, heads);
      NewReady(m, vocab, e, h, layers, heads, inputs, targets);
      var final := Trained(m, initial, inputs, targets, epochs, a, lr, fp16);
      Finished(final, LossesUpTo(m, initial, inputs, targets, epochs, a, lr, fp16), EpochLoss(m, final, inputs, targets))
  }

  /** The program after reading its inputs: `tokens` are the encoded text,
      `vocab` the vocabulary size, `e`, `h`, `layers`, `heads` the
      hyperparameters, `a` the accumulation steps and `lr` the learning
      rate. */
  method Train(m: Math, tokens: seq<nat>, vocab: nat, e: nat, h: nat, layers: nat, heads: nat,
               epochs: nat, a: nat, lr: real, fp16: bool) returns (r: Outcome)
    requires SqrtPositive(m) && PowPositive(m) && ExpPositive(m)
    requires e > 0 && (layers == 0 || h > 0)
    requires forall t :: 0 <= t < |tokens| ==> tokens[t] < vocab
    ensures r == Program(m, tokens, vocab, e, h, layers, heads, epochs, a, lr, fp16)
  {
    var split := SplitTokens(tokens);
    if split.TooFewTokens? {
      return Aborted;
    }
    var inputs, targets := split.inputs, split.targets;
    var initial := Models.New(vocab, e, h, layers, heads);
    NewReady(m, vocab, e, h, layers, heads, inputs, targets);
    var md, losses := Epochs(m, initial, inputs, targets, epochs, a, lr, fp16);
    var finalLoss := FinalLoss(m, md, inputs, targets);
    r := Finished(md, losses, finalLoss);
  }

  /** Lines 194-198: the loss of the trained model. */
  method FinalLoss(m: Math, md: Models.Model, inputs: seq<nat>, targets: seq<nat>) returns (loss: real)
    requires EpochReady(m, md, inputs, targets) && Embeddings.IdsInRange(md.embedding, targets)
    ensures loss == EpochLoss(m, md, inputs, targets)
  {
    var transformed, logits := ForwardPass(m, md, inputs);
    loss := Losses.CrossEntropy(m, logits, targets);
  }

  /** Lines 71-191: `epochs` epochs, each pushing the loss it starts with. */
  method Epochs(m: Math, initial: Models.Model, inputs: seq<nat>, targets: seq<nat>, epochs: nat, a: nat, lr: real, fp16: bool)
    returns (md: Models.Model, losses: seq<real>)
    requires EpochReady(m, initial, inputs, targets) && Embeddings.IdsInRange(initial.embedding, targets)
    ensures md == Trained(m, initial, inputs, targets, epochs, a, lr, fp16)
    ensures losses == LossesUpTo(m, initial, inputs, targets, epochs, a, lr, fp16)
  {
    md, losses := initial, [];
    for epoch := 0 to epochs
      invariant md == Trained(m, initial, inputs, targets, epoch, a, lr, fp16)
      invariant losses == LossesUpTo(m, initial, inputs, targets, epoch, a, lr, fp16)
    {
      var loss;
      md, loss := RunEpoch(m, md, inputs, targets, a, lr, fp16);
      TrainedStep(m, initial, inputs, targets, epoch + 1, a, lr, fp16);
      LossesUpToNext(m, initial, inputs, targets, epoch, a, lr, fp16);
      losses := losses + [loss];
    }
  }

  lemma LossesUpToNext(m: Math, md: Models.Model, inputs: seq<nat>, targets: seq<nat>, n: nat, a: nat, lr: real, fp16: bool)
    requires EpochReady(m, md, inputs, targets) && Embeddings.IdsInRange(md.embedding, targets)
    ensures LossesUpTo(m, md, inputs, targets, n + 1, a, lr, fp16) ==
      LossesUpTo(m, md, inputs, targets, n, a, lr, fp16) + [EpochLoss(m, Trained(m, md, inputs, targets, n, a, lr, fp16), inputs, targets)]
  {
  }

  /** With an exact half-precision conversion both branches print the same
      losses. */
  lemma LossesExact(m: Math, md: Models.Model, inputs: seq<nat>, targets: seq<nat>, n: nat, a: nat, lr: real)
    requires ExactHalf(m) && EpochReady(m, md, inputs, targets) && Embeddings.IdsInRange(md.embedding, targets)
    ensures LossesUpTo(m, md, inputs, targets, n, a, lr, true) == LossesUpTo(m, md, inputs, targets, n, a, lr, false)
  {
    var exact, plain := LossCurve(m, md, inputs, targets, a, lr, true), LossCurve(m, md, inputs, targets, a, lr, false);
    forall k | 0 <= k < n
      ensures exact(k) == plain(k)
    {
      TrainedExact(m, md, inputs, targets, k, a, lr);
    }
    SeriesEqual(exact, plain, n);
  }
}
