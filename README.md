# dragon core, modelled in Dafny

This project models the core of dragon, a small decoder-only transformer
written in Rust, together with its batch vocabulary tools and the PHP API
middleware. The model covers:

- the engine: the dense layer, the naive GEMM kernel, the embedding table,
  rotary positions, LayerNorm, single-head causal attention, the
  feed-forward block, the decoder block, the transformer stack, the model
  with greedy generation, and cross-entropy;
- the training program: the token split, gradient accumulation with its
  flush schedule, and the f16 branch;
- int8 quantization;
- the whitespace tokenizer and the line dataset;
- the tensor-file layout;
- the two vocabulary tools;
- the Bearer check and the fixed-window rate limiter of the middleware.

Every `f32` is a Dafny `real`. The library functions the engine calls are
uninterpreted functions held in a `Math` record that callers pass in. These
are `exp`, `ln`, `sqrt`, `tanh`, `sin`, `cos`, `powf` and `f16::from_f32`.
Each fact a proof needs about them, such as `exp(x) > 0` or
`cos 0 = 1, sin 0 = 0`, is a named predicate and appears only in the
`requires` of the lemmas that use it. `f32::round` is defined exactly
(half away from zero).

Each source file is one module:

| module | file |
|---|---|
| `Scalars` | `scalars.dfy` |
| `Matrices` | `matrices.dfy` |
| `Dense` | `dense.dfy` |
| `Embeddings` | `embedding.dfy` |
| `Rotary` | `rotary.dfy` |
| `LayerNorms` | `layernorm.dfy` |
| `Attention` | `attention.dfy` |
| `FeedForwards` | `feedforward.dfy` |
| `Decoders` | `decoder.dfy` |
| `Transformers` | `transformer.dfy` |
| `Models` | `model.dfy` |
| `Losses` | `loss.dfy` |
| `Training` | `train.dfy` |
| `Quantization` | `quant.dfy` |
| `Texts` | `text.dfy` |
| `Tokenizers` | `tokenizer.dfy` |
| `Datasets` | `dataset.dfy` |
| `Safetensors` | `serialization.dfy` |
| `Vocabularies` | `vocab.dfy` |
| `Middleware` | `middleware.dfy` |
| `Wrappers` | `wrappers.dfy` |

The files that work by mutation become methods with loops. These are
`sgemm`, `Linear::forward`, rotary `forward`, the attention kernel, the
transformer constructor, `generate`, `cross_entropy`, the training loops,
the quantized forward, the tokenizer constructor, the dataset reader, the
two sides of the tensor file, the vocabulary tools and the rate limiter.
Each such method is proved equal to a specification function, and the
properties are proved about that function. The pure files become functions
and lemmas.

`TextDataset` and the rate limiter keep state between calls. They are
classes: the reader's cursor is a field, and so is the map of per-address
windows. A panic of the source (an index out of range, `input[0]` on an
empty input, the length `assert`) becomes a `requires`. `Embedding::new`
is the datatype constructor `Embedding(weights)` itself.

Where the design documentation and the code disagree, the model follows the
code:

- `RotaryEmbedding::new` accepts an odd `dim`. The last coordinate is then
  never written and stays `0.0`; the documentation says an odd `dim` is
  rejected.
- `generate` breaks ties in the arg-max toward the highest index, as
  `max_by` does. The documentation says the first occurrence wins.
- Attention takes the maximum over all `seq_len` scores, masked zeros
  included. It leaves out of `exp_sum` every score exactly equal to `0.0`.
  Both are unlike the documented softmax over `j <= i`, so the weights need
  not sum to 1.
- The decoder block always applies both LayerNorms.

## Model

| member | source | states |
|---|---|---|
| `Matrices.FlattenLength` | core/src/lib.rs:35-43 | flattening `rows` rows of `cols` cells gives `rows*cols` cells |
| `Matrices.FlattenIndex` | core/src/lib.rs:35-43 | flattening places `a[i][p]` at `i*cols + p` |
| `Matrices.Identity` | core/src/feedforward.rs:11-32 | the identity-like matrix is `rows × cols` |
| `Matrices.RowColIdentity` | core/src/feedforward.rs:11-32 | a row times column `j` of the identity-like matrix is `x[j]`, or 0 past the depth |
| `Dense.GemmRows` | core/src/blas.rs:50-58 | the kernel's product of `m` rows has `m*n` cells |
| `Dense.GemmRowsAt` | core/src/blas.rs:49-58 | cell `(i, j)` sits at `i*n + j` and is `Σ_{p<k} a[i*k+p]*b[p*n+j]` |
| `Dense.GemmRowsZeroDepth` | core/src/blas.rs:52-56 | with `k = 0` every written cell is 0 |
| `Dense.CellSum` | core/src/blas.rs:52-55 | the inner loop's running `sum` ends as the cell's dot product |
| `Dense.KernelRow` | core/src/blas.rs:51-57 | one middle-loop pass overwrites row `i`'s `n` cells with the product row and leaves every other cell as it was |
| `Dense.Sgemm` | core/src/blas.rs:49-59 | `c[..m*n]` becomes the product, overwriting its prior contents; cells from `m*n` on are untouched; `a` and `b` are only read |
| `Dense.Affine` | core/src/lib.rs:30-55 | the layer's result is `|input|` rows of `weight[0].len()` cells |
| `Dense.FlattenRows` | core/src/lib.rs:35-43 | the `extend_from_slice` loop lays the rows end to end |
| `Dense.AddBias` | core/src/lib.rs:48-53 | the output loop sets `output[i][j] = c[i*n+j] + bias[j]` |
| `Dense.KernelThenBias` | core/src/lib.rs:45-54 | adding the bias to the kernel's product is the affine map |
| `Dense.Forward` | core/src/lib.rs:30-55 | `forward` returns the affine map of its input; the layer is a value and is not changed |
| `Dense.AffineIsRowTimesColumn` | core/src/lib.rs:45-54 | on an `m × k` input and `k × n` weight, `output[i][j] = Σ_p input[i][p]*weight[p][j] + bias[j]` |
| `Dense.GemmSumIsRowCol` | core/src/lib.rs:35-46 | the kernel's sum over the flattened buffers is the row-times-column sum of the matrices |
| `Dense.IdentityLinear` | core/src/attention.rs:52-60 | the identity-like layer with zero bias maps `k` features to `n` |
| `Dense.AffineShape` | core/src/lib.rs:31-48 | an `m × k` input through a `k × n` layer is `m × n`, without a panic |
| `Dense.AffineIdentity` | core/src/lib.rs:45-54 | the identity-like layer copies the first `min(k, n)` features and zero-fills the rest |
| `Dense.AffineSquareIdentity` | core/src/lib.rs:45-54 | a square identity layer returns its input |
| `Dense.AffineDefined` | core/src/lib.rs:31-33 | well-shaped, non-empty operands do not make `input[0]` or `weight[0]` panic |
| `Dense.ForwardExample` | core/src/lib.rs:69-78 | `[1,1]·[[1,2],[3,4]] + [0.5,-0.5] = [4.5, 5.5]` |
| `Embeddings.Forward` | core/src/embedding.rs:15-20 | one output row per id |
| `Embeddings.ForwardRows` | core/src/embedding.rs:18 | output row `t` is table row `ids[t]`; a uniform table of width `d` gives `|ids| × d` |
| `Embeddings.ForwardConcat` | core/src/embedding.rs:15-20 | lookup is position-wise: a concatenation of ids gives the concatenation of the lookups |
| `Embeddings.ForwardExample` | core/src/embedding.rs:28-41 | ids `[2,0,1]` give rows 2, 0, 1 of the table |
| `Rotary.New` | core/src/rotary.rs:9-11 | the width is stored and the base is 10000 |
| `Rotary.EncodeRow` | core/src/rotary.rs:17-28 | each encoded row has `dim` coordinates |
| `Rotary.Encode` | core/src/rotary.rs:16-31 | the encoding has `input.len()` rows of `dim` coordinates |
| `Rotary.Forward` | core/src/rotary.rs:16-31 | the nested `pos`/`i` loops over a zeroed buffer produce exactly the encoding: `out[2i] = x1·cos θ − x2·sin θ`, `out[2i+1] = x1·sin θ + x2·cos θ`, `θ = pos / base^(2i/dim)` |
| `Rotary.RotateRow` | core/src/rotary.rs:20-29 | the pair loop over one zeroed output row writes exactly that row's encoding: every pair rotated, an odd last coordinate left 0 |
| `Rotary.FirstPositionUnchanged` | core/src/rotary.rs:20-27 | at position 0 the angle is 0, so the rotated coordinates of row 0 are unchanged |
| `Rotary.OddLastCoordinateZero` | core/src/rotary.rs:17-19 | for odd `dim` the last coordinate is never written and stays 0 |
| `Rotary.PairNormPreserved` | core/src/rotary.rs:22-27 | each pair is rotated: its squared length is kept |
| `Rotary.EncodePrefix` | core/src/rotary.rs:18-28 | a row's encoding depends only on its own position and token |
| `LayerNorms.New` | core/src/layernorm.rs:14-20 | `dim` gains of 1, `dim` shifts of 0, `eps = 1e-5` |
| `LayerNorms.SquaredDeviations` | core/src/layernorm.rs:29-34 | one squared deviation per element |
| `LayerNorms.Variance` | core/src/layernorm.rs:29-36 | the population variance (divided by the row length) is non-negative |
| `LayerNorms.Denom` | core/src/layernorm.rs:37 | `sqrt(var + eps)` is positive, so the division is defined |
| `LayerNorms.NormRow` | core/src/layernorm.rs:26-43 | a normalized row has the input row's length |
| `LayerNorms.Forward` | core/src/layernorm.rs:23-46 | one output row per input row, each of the same length |
| `LayerNorms.ForwardShape` | core/src/layernorm.rs:23-46 | a `rows × cols` input gives a `rows × cols` output |
| `LayerNorms.ForwardPrefix` | core/src/layernorm.rs:24-45 | rows are normalized independently: a prefix of the input gives the prefix of the output |
| `LayerNorms.UnitNormZeroMean` | core/src/layernorm.rs:53-68 | with unit gain and zero shift the normalized row sums to exactly 0 |
| `LayerNorms.NewNormZeroMean` | core/src/layernorm.rs:53-68 | the layer `new` builds normalizes every row to mean 0 |
| `Attention.Scores` | core/src/attention.rs:15-22 | one score per position; masked positions `j > i` keep `0.0` |
| `Attention.ExpTerms` | core/src/attention.rs:25-28 | one `exp_sum` term per score |
| `Attention.Weights` | core/src/attention.rs:29-34 | one weight per score |
| `Attention.AttentionRow` | core/src/attention.rs:29-38 | output row `i` has `v[0].len()` cells |
| `Attention.Attention` | core/src/attention.rs:7-41 | the result is `seq_len × v[0].len()` |
| `Attention.ScoreRow` | core/src/attention.rs:15-22 | the `j ≤ i` loop with its inner `dot` loop yields `(q[i]·k[j]) / sqrt(q[0].len())` for `j ≤ i` and `0.0` beyond |
| `Attention.MixRow` | core/src/attention.rs:29-38 | the `output[i][d] +=` loop accumulates `Σ_{j≤i} weight_j · v[j][d]` |
| `Attention.MixInto` | core/src/attention.rs:35-37 | the `d` loop extends every coordinate's sum by the term `weight · v[j][d]` of value row `j` |
| `Attention.Sdpa` | core/src/attention.rs:7-41 | the nested loops compute exactly the attention function |
| `Attention.Causal` | core/src/attention.rs:15-29 | output row `i` depends only on `q[i]`, `k[0..=i]` and `v[0..=i]` |
| `Attention.GuardGivesZeroRow` | core/src/attention.rs:30-34 | when `exp_sum` is not positive the output row stays the zero vector |
| `Attention.ZeroScoresGiveZeroRow` | core/src/attention.rs:25-34 | because scores equal to `0.0` are skipped in `exp_sum`, a row whose visible scores are all 0 gets the zero vector |
| `Attention.WeightsAreQuotients` | core/src/attention.rs:24-34 | each weight is `exp(s_j − max)` over `exp_sum`, with the max taken over all scores including the masked zeros, or 0 under the guard |
| `Attention.ExpTermsSkipZeros` | core/src/attention.rs:25-28 | a score exactly `0.0` contributes nothing to `exp_sum` |
| `Attention.SoftmaxTotal` | core/src/attention.rs:24-34 | for any quotients `e[j]/es` whose normalizer `es` leaves out the terms of zero scores, each of which has numerator `a`, the visible quotients sum to `1 + z·a/es`, `z` the number of visible zero scores |
| `Attention.WeightsTotal` | core/src/attention.rs:24-34 | the weights of a causal score row, read up to position `i`, sum to `1 + z·exp(0 − max)/exp_sum`, `z` the number of visible scores that are exactly `0.0` |
| `Attention.WeightsSumToOneIff` | core/src/attention.rs:24-34 | the visible weights sum to at least 1, and to exactly 1 if and only if no visible score is `0.0` |
| `Attention.OneScoreWeights` | core/src/attention.rs:24-34 | a single score gets weight 1, or 0 when it is exactly `0.0` |
| `Attention.SingleToken` | core/src/attention.rs:7-41 | one token attending to itself comes back unchanged |
| `Attention.NewSelfAttention` | core/src/attention.rs:52-68 | four equal `e × e` identity projections with zero biases |
| `Attention.Forward` | core/src/attention.rs:70-76 | `w_o(sdpa(w_q x, w_k x, w_v x))` has `|x|` rows of `w_o`'s width |
| `Attention.ForwardShape` | core/src/attention.rs:70-76 | four `e × e` projections take an `n × e` input to an `n × e` output |
| `Attention.NewSingleTokenIdentity` | core/src/attention.rs:83-91 | a single token through `SelfAttention::new` comes back unchanged |
| `Attention.NewIdentityExample` | core/src/attention.rs:83-91 | `[1, 0]` through `SelfAttention::new(2)` gives `[1, 0]` |
| `FeedForwards.GateBetween` | core/src/feedforward.rs:45-47 | `x·(1+t)/2` lies between 0 and `x` for `t` in [-1, 1] |
| `FeedForwards.GeluBetween` | core/src/feedforward.rs:45-47 | with a bounded `tanh`, `gelu(x)` lies between 0 and `x` |
| `FeedForwards.Activate` | core/src/feedforward.rs:37-40 | `gelu` applied to every cell independently, shape kept |
| `FeedForwards.New` | core/src/feedforward.rs:11-32 | `w1` is `embed × hidden` and `w2` is `hidden × embed`, each `1` exactly where `i == j`, with zero biases |
| `FeedForwards.Forward` | core/src/feedforward.rs:35-42 | `w2(map gelu (w1 x))` has the input's row count and `w2`'s width |
| `FeedForwards.ForwardShape` | core/src/feedforward.rs:35-42 | an `n × e` input comes out `n × e` |
| `FeedForwards.NewForward` | core/src/feedforward.rs:11-42 | through `new(e, h)` each cell `j < h` is `gelu` of the input cell and the rest is 0 |
| `FeedForwards.NewForwardExample` | core/src/feedforward.rs:53-61 | `new(2, 2)` on `[[0.5, -0.5]]` gives `[[gelu(0.5), gelu(-0.5)]]` exactly |
| `Decoders.New` | core/src/decoder.rs:18-25 | two equal unit LayerNorms of width `embed_dim`, identity attention projections and the `(embed_dim, hidden_dim)` feed-forward block; `num_heads` is ignored |
| `Decoders.Forward` | core/src/decoder.rs:28-33 | `feedforward(ln2(self_attn(ln1(input))))` keeps the row count |
| `Decoders.FactorsThroughFirstNorm` | core/src/decoder.rs:28-33 | there is no residual: the block sees its input only through `ln1` |
| `Decoders.ForwardShape` | core/src/decoder.rs:28-33 | a non-empty `n × e` input comes out `n × e` |
| `Decoders.NewForwardShapeExample` | core/src/decoder.rs:41-47 | `new(2, 2, 1)` on a `1 × 2` input gives a `1 × 2` output |
| `Transformers.Built` | core/src/transformer.rs:10-16 | exactly `num_layers` blocks, each built with the same arguments |
| `Transformers.New` | core/src/transformer.rs:10-16 | the push loop builds that stack |
| `Transformers.Run` | core/src/transformer.rs:19-21 | the fold keeps the row count and returns the input for an empty stack |
| `Transformers.Forward` | core/src/transformer.rs:19-21 | `forward` with zero layers returns a copy of the input |
| `Transformers.RunConcat` | core/src/transformer.rs:20 | the fold is left to right: a stack `a + b` runs `a` and then `b` |
| `Transformers.RunShape` | core/src/transformer.rs:19-21 | blocks that map `e` features to `e` keep an `n × e` input `n × e` |
| `Transformers.NewForwardShapeExample` | core/src/transformer.rs:28-35 | three blocks keep a `1 × 2` input `1 × 2` |
| `Models.New` | core/src/model.rs:16-39 | a `vocab × embed` embedding that is `1` exactly where `i == j`, rotary width `embed` with base 10000, the stack `Transformer::new` builds, and an `embed × vocab` identity-like output layer with zero bias |
| `Models.Hidden` | core/src/model.rs:43-45 | `transformer(positional(embedding(ids)))` has one row per token |
| `Models.Forward` | core/src/model.rs:42-47 | the output layer over the hidden states: one row of the output width per token |
| `Models.HiddenShape` | core/src/model.rs:42-45 | a well-shaped model takes valid non-empty ids to `|ids| × embed` hidden states |
| `Models.ForwardShape` | core/src/model.rs:42-47 | and to one row of `vocab_size` logits per token |
| `Models.NewForwardShapeExample` | core/src/model.rs:76-84 | `new(2, 2, 2, 1, 1)` on ids `[0, 1]` gives a `2 × 2` result |
| `Models.ArgMaxLast` | core/src/model.rs:59-64 | the chosen index holds a maximum and every later cell is strictly smaller, so ties go to the highest index; an empty row gives 0 |
| `Models.ArgMaxLastExample` | core/src/model.rs:59-64 | `[1, 3, 3, 2]` gives index 2 |
| `Models.NextToken` | core/src/model.rs:57-64 | the greedy choice is a valid id |
| `Models.Greedy` | core/src/model.rs:54-69 | decoding returns `input.len() + steps` tokens and starts with `input` unchanged |
| `Models.GreedyPrefix` | core/src/model.rs:56-67 | the first `s` steps do not depend on how many follow |
| `Models.GreedyChoice` | core/src/model.rs:57-65 | each appended token is the rule applied to all tokens before it |
| `Models.GreedyBelow` | core/src/model.rs:56-67 | a rule yielding ids below `vocab` keeps every token below `vocab` |
| `Models.GeneratedValid` | core/src/model.rs:86-93 | every generated token is `< vocab_size` |
| `Models.GeneratedGreedy` | core/src/model.rs:57-65 | every appended token is the arg-max of the last logits row of `forward` over the whole sequence before it |
| `Models.Push` | core/src/model.rs:57-65 | one loop pass appends the greedy choice |
| `Models.Generate` | core/src/model.rs:54-69 | the loop returns the greedy decoding and only valid ids; the model is a value and is not changed |
| `Models.GenerateExample` | core/src/model.rs:86-93 | `generate([0], 3)` on `new(2, 2, 2, 1, 1)` gives 4 tokens, all `< 2` |
| `Losses.LogProbs` | core/src/loss.rs:9-15 | one `logit[target] − max − ln(Σ exp(x − max))` per position |
| `Losses.CrossEntropy` | core/src/loss.rs:6-19 | the result is the loss, the summed negated log-probabilities over the number of positions; `logits.len() == targets.len()` and in-row targets are demanded |
| `Losses.SumLosses` | core/src/loss.rs:8-17 | the loop leaves the negated sum of the log-probabilities of every position's target |
| `Losses.AccumulatedIsNegatedSum` | core/src/loss.rs:8-17 | after `n` positions the running `loss` is `−Σ_{i<n} log_prob_i` |
| `Losses.LossIsMean` | core/src/loss.rs:16-18 | the result is `−Σ log_prob / logits.len()` |
| `Losses.LogProbNonPositive` | core/src/loss.rs:10-15 | given `exp > 0`, `exp(0) = 1` and monotone `ln`, each log-probability is at most 0 |
| `Losses.AccumulatedNonNegative` | core/src/loss.rs:8-17 | the running loss is never negative |
| `Losses.LossNonNegative` | core/src/loss.rs:6-19 | the loss is never negative |
| `Losses.CorrectPredictionExample` | core/src/loss.rs:25-33 | with target 0, `[0.1, 2.0]` costs exactly 1.9 more than `[2.0, 0.1]`, so the correct prediction has the lower loss |
| `Training.SplitTokens` | core/src/bin/train.rs:59-65 | fewer than two tokens abort; otherwise `inputs = tokens[..n-1]` and `targets = tokens[1..]`, shifted by one |
| `Training.Softmax` | core/src/bin/train.rs:141-143 | with a positive `exp` the softmax is positive and sums to exactly 1 |
| `Training.Gradient` | core/src/bin/train.rs:145-147 | one gradient entry per logit |
| `Training.GradientTotal` | core/src/bin/train.rs:145-147 | subtracting the one-hot target subtracts exactly 1 from the total |
| `Training.GradientSigns` | core/src/bin/train.rs:141-147 | each row's gradient sums to 0, is at most 0 at the target and positive elsewhere |
| `Training.ZeroGrid` | core/src/bin/train.rs:136-139 | the gradient buffer starts as a `rows × cols` grid of zeros |
| `Training.AddBias` | core/src/bin/train.rs:144-150 | `grad_b[i] += grad_i`, passed through the rounding of the branch |
| `Training.AddWeight` | core/src/bin/train.rs:144-150 | `grad_w[j][i] += transformed[step][j] * grad_i`, passed through the rounding of the branch |
| `Training.Descend` | core/src/bin/train.rs:151-171 | the SGD step keeps the output layer's shape |
| `Training.Step` | core/src/bin/train.rs:140-171 | one position keeps the accumulator well-shaped |
| `Training.Pass` | core/src/bin/train.rs:140-171 | any number of positions keeps the accumulator well-shaped |
| `Training.Fresh` | core/src/bin/train.rs:136-139 | an epoch starts from zeroed, well-shaped buffers |
| `Training.EpochUpdate` | core/src/bin/train.rs:135-190 | an epoch's update keeps the output layer's shape |
| `Training.CounterDivides` | core/src/bin/train.rs:151-152 | after `k` positions, `k = flushes · accum_steps + accum` with `accum < accum_steps` |
| `Training.EpochStepsCeil` | core/src/bin/train.rs:151-189 | for `accum_steps ≥ 1` an epoch of `T` positions takes `ceil(T / accum_steps)` steps, the partial one included |
| `Training.ZeroAccumSteps` | core/src/bin/train.rs:151-173 | with `accum_steps = 0` the count never matches, so only the final flush happens |
| `Training.PassFollowsSchedule` | core/src/bin/train.rs:151-171 | the state's counter follows the schedule, and the layer is unchanged until the first mid-epoch flush |
| `Training.AccumulateExact` | core/src/bin/train.rs:89-95 | with an exact `f16` conversion the `f16` accumulation equals the `f32` one |
| `Training.PassExact` | core/src/bin/train.rs:80-134 | with an exact conversion both branches walk the positions through the same states |
| `Training.EpochUpdateExact` | core/src/bin/train.rs:80-134 | with an exact conversion both branches update the layer identically |
| `Training.Gradients` | core/src/bin/train.rs:141-147 | the gradient of every position comes from the softmax of that position's logits |
| `Training.Epoch` | core/src/bin/train.rs:72-190 | an epoch changes only the output layer: embedding, positional and transformer are unchanged |
| `Training.Trained` | core/src/bin/train.rs:71-191 | after any number of epochs only the output layer has changed |
| `Training.EpochExact` | core/src/bin/train.rs:80-134 | with an exact conversion `--fp16` trains the same epoch as `f32` |
| `Training.TrainedExact` | core/src/bin/train.rs:80-134 | with an exact conversion `--fp16` trains the same model |
| `Training.AccumulatePosition` | core/src/bin/train.rs:144-150 | the per-position loops add the softmax gradient into both buffers |
| `Training.AccumulateColumn` | core/src/bin/train.rs:147-149 | the `j` loop rounds `grad_w[j][i] + h[j]·grad` into column `i` for every `j` and leaves the other columns as they were |
| `Training.Positions` | core/src/bin/train.rs:139-172 | the position loop applies the per-position step (accumulate, count, flush at `accum_steps`) to every target in order |
| `Training.Flush` | core/src/bin/train.rs:151-171 | `bias[i] -= lr·grad_b[i]/n` and `weight[j][i] -= lr·grad_w[j][i]/n`, then the buffers are zeroed when resetting |
| `Training.Position` | core/src/bin/train.rs:140-171 | one position: accumulate, count, and step and reset when the count reaches `accum_steps` |
| `Training.AccumulateEpoch` | core/src/bin/train.rs:135-190 | the position loop plus the final partial flush is the epoch's update, from logits and hidden states computed once at the epoch's start |
| `Training.ForwardPass` | core/src/bin/train.rs:72-75 | `transformed` and `logits` are the model's hidden states and logits, computed once per epoch |
| `Training.RunEpoch` | core/src/bin/train.rs:71-191 | one epoch returns the updated model and the printed loss |
| `Training.Epochs` | core/src/bin/train.rs:71-191 | after the epoch loop the model is `epochs` iterations of the epoch function, and the printed losses are the loss before each of them |
| `Training.FinalLoss` | core/src/bin/train.rs:194-198 | the final loss is the loss of the trained model's forward pass |
| `Training.Series` | core/src/bin/train.rs:71-79 | one printed value per epoch |
| `Training.LossesUpTo` | core/src/bin/train.rs:71-79 | one printed loss per epoch |
| `Training.LossesUpToAt` | core/src/bin/train.rs:71-79 | the `k`-th printed loss is the loss of the model after `k` epochs |
| `Training.NewReady` | core/src/bin/train.rs:66-70 | a fresh model accepts ids below its vocabulary size |
| `Training.Program` | core/src/bin/train.rs:59-198 | the program aborts exactly when there are fewer than two tokens, and otherwise prints one loss per epoch |
| `Training.Train` | core/src/bin/train.rs:59-198 | the program's loops compute exactly that outcome |
| `Training.LossesExact` | core/src/bin/train.rs:80-134 | with an exact conversion both branches print the same losses |
| `Quantization.RowMaxAbs` | core/src/quant.rs:2-5 | the fold over one row is non-negative and bounds every magnitude in it |
| `Quantization.MaxAbs` | core/src/quant.rs:2-5 | the fold over all entries is non-negative and bounds every magnitude |
| `Quantization.RowMaxAbsAttained` | core/src/quant.rs:2-5 | the row maximum is 0 or the magnitude of one of its entries |
| `Quantization.MaxAbsAttained` | core/src/quant.rs:2-5 | the matrix maximum is 0 or the magnitude of one of its entries |
| `Quantization.Scale` | core/src/quant.rs:6 | the scale is positive and `127 · scale` bounds every magnitude |
| `Quantization.ScaleCases` | core/src/quant.rs:6 | the scale is 1 for an all-zero matrix and `max_abs / 127` otherwise |
| `Quantization.Clamp` | core/src/quant.rs:11 | the clamped value lies in `[lo, hi]`, equals `x` inside and the nearer bound outside |
| `Quantization.Quantize` | core/src/quant.rs:1-16 | the same shape, the scale of the matrix, each entry `round(v / scale)` clamped to `[-128, 127]` |
| `Quantization.Dequantize` | core/src/quant.rs:18-23 | the same shape, each entry `v · scale` |
| `Quantization.EntryUnclamped` | core/src/quant.rs:11 | an entry within `127 · scale` is just rounded, into `[-127, 127]` |
| `Quantization.ScaledError` | core/src/quant.rs:11 | rounding within 1/2 puts the rescaled value within `scale / 2` |
| `Quantization.EntryRoundTrip` | core/src/quant.rs:11-21 | one entry comes back within half a scale |
| `Quantization.QuantizedRange` | core/src/quant.rs:11 | the clamp never bites: every quantized entry lies in `[-127, 127]` |
| `Quantization.RoundTrip` | core/src/quant.rs:7-23 | quantizing and dequantizing keeps the shape and moves every entry by at most `scale / 2` |
| `Quantization.RoundTripExample` | core/src/quant.rs:69-78 | `[[0.5, -0.5], [1, -1]]` quantizes to `[[64, -64], [127, -127]]` with scale `1/127` |
| `Quantization.FromLinear` | core/src/quant.rs:36-43 | the bias is copied and the weight is the quantized layer weight with its scale |
| `Quantization.Apply` | core/src/quant.rs:45-60 | one output row per input row, each of `weight[0].len()` cells |
| `Quantization.Cell` | core/src/quant.rs:50-55 | the inner loop computes `Σ_i row[i] · weight[i][j] · scale + bias[j]` |
| `Quantization.Forward` | core/src/quant.rs:45-60 | the loops compute that value for every row and column |
| `Quantization.QDotIsDequantized` | core/src/quant.rs:51-54 | the quantized sum is the float sum against the dequantized weight |
| `Quantization.ApplyIsDequantizedAffine` | core/src/quant.rs:45-60 | each output is the affine map of the row by the dequantized weight |
| `Texts.WordLength` | core/src/tokenizer.rs:27 | the leading run of non-whitespace ends at the first whitespace |
| `Texts.Words` | core/src/tokenizer.rs:27 | `split_whitespace` yields non-empty runs of non-whitespace |
| `Texts.TrimEnd` | core/src/dataset.rs:37 | `trim_end` removes exactly the trailing whitespace |
| `Texts.WordsOfWordThen` | core/src/tokenizer.rs:27 | a word followed by whitespace or nothing is split off whole |
| `Texts.WordsOfJoin` | core/src/tokenizer.rs:33-39 | splitting words joined by single spaces gives the words back |
| `Texts.WordsOfSpaceSuffix` | core/src/tokenizer.rs:27 | trailing whitespace does not change the words |
| `Texts.WordsOfSpaces` | core/src/tokenizer.rs:27 | a string of whitespace has no words |
| `Texts.WordsOfTrimEnd` | core/src/dataset.rs:37 | `trim_end` does not change the words |
| `Tokenizers.IndexOf` | core/src/tokenizer.rs:17-23 | the map's keys are exactly the vocabulary's tokens |
| `Tokenizers.LastIndexWins` | core/src/tokenizer.rs:19-21 | each token maps to an index holding it, the last such index: for duplicates the last insertion wins |
| `Tokenizers.New` | core/src/tokenizer.rs:17-23 | the insertion loop builds that map and keeps the list and `unk_id` |
| `Tokenizers.Encode` | core/src/tokenizer.rs:26-30 | one id per whitespace-separated word, in order: the word's index, or `unk_id` |
| `Tokenizers.Names` | core/src/tokenizer.rs:34-37 | one token per id: `inv_vocab[id]`, or `""` out of range |
| `Tokenizers.DecodeEncode` | core/src/tokenizer.rs:46-55 | decoding an encoded text whose words are all in the vocabulary gives its words joined by single spaces |
| `Tokenizers.EncodeDecode` | core/src/tokenizer.rs:26-39 | encoding a decoded in-range id sequence gives the ids back when the vocabulary holds distinct words |
| `Tokenizers.DecodedWords` | core/src/tokenizer.rs:33-39 | splitting a decoded text gives the tokens of its ids |
| `Tokenizers.EncodeOfWords` | core/src/tokenizer.rs:26-30 | a text whose words look up to `ids` encodes to `ids` |
| `Tokenizers.LookupOfName` | core/src/tokenizer.rs:17-36 | with distinct tokens, looking up the token of an id gives the id |
| `Tokenizers.UnknownTokenExample` | core/src/tokenizer.rs:58-63 | `"c a"` with `["a", "b"]` and `unk_id = 1` encodes to `[1, 0]` |
| `Tokenizers.RoundTripExample` | core/src/tokenizer.rs:46-55 | `"hello world"` encodes to `[0, 1]` and decodes back to itself |
| `Datasets.Shifted` | core/src/dataset.rs:39-42 | both halves have `n-1` ids: `input[i] = tokens[i]` and `target[i] = tokens[i+1]` |
| `Datasets.Next` | core/src/dataset.rs:30-45 | a call consumes at least one line when any is left, and `None` leaves the reader at the end of the file |
| `Datasets.TextDataset.Open` | core/src/dataset.rs:19-25 | the reader starts at the first line with the given tokenizer |
| `Datasets.TextDataset.NextSample` | core/src/dataset.rs:30-45 | the read loop, with its line buffer cleared after each line, returns `Next`'s sample and advances the reader as `Next` does |
| `Datasets.LineTokensOfRaw` | core/src/dataset.rs:37 | trimming the line terminator does not change the ids |
| `Datasets.NextSome` | core/src/dataset.rs:32-43 | a returned sample is the shifted pair of the first line with at least two tokens; every line before it is skipped |
| `Datasets.NextNone` | core/src/dataset.rs:33-35 | the result is `None` exactly when no remaining line has two tokens, and then the whole file is consumed |
| `Datasets.NoneStays` | core/src/dataset.rs:33-35 | once `None` is returned every later call returns `None` |
| `Datasets.TwoWordLine` | core/src/dataset.rs:37 | a line of two words and a newline gives the ids of the two words |
| `Datasets.IterateSamplesExample` | core/src/dataset.rs:53-75 | `"hello world"` gives `([0], [1])`, `"foo bar"` gives `([2], [3])`, then `None` |
| `Safetensors.LittleEndian` | core/src/serialization.rs:40 | `to_le_bytes` gives `width` bytes |
| `Safetensors.FromLittleEndian` | core/src/serialization.rs:58-60 | `from_le_bytes` gives a number below `256^width` |
| `Safetensors.FromLittleEndianOf` | core/src/serialization.rs:37-60 | a header length below `2^64` written as 8 little-endian bytes is read back identically |
| `Safetensors.LittleEndianOf` | core/src/serialization.rs:58-60 | every 8-byte prefix is the encoding of the number it is read as |
| `Safetensors.TensorBytes` | core/src/serialization.rs:42-51 | a tensor's data takes `4 · data.len()` bytes |
| `Safetensors.Elements` | core/src/serialization.rs:82-92 | a span is copied into `(end − start) / 4` elements |
| `Safetensors.ElementsOfTensorBytes` | core/src/serialization.rs:42-92 | copying a tensor's bytes back gives its data |
| `Safetensors.AscendingDistinct` | core/src/serialization.rs:20-21 | the names of an ascending map are distinct |
| `Safetensors.HeaderOf` | core/src/serialization.rs:20-32 | the header has one entry per tensor name |
| `Safetensors.WithMetadata` | core/src/serialization.rs:33-35 | `__metadata__` is inserted only when metadata is given, replacing any same-named entry; every other entry is kept |
| `Safetensors.Payload` | core/src/serialization.rs:42-51 | the data section has exactly the bytes the offsets account for |
| `Safetensors.BuildHeader` | core/src/serialization.rs:18-35 | the loop with its running `offset` builds that header, then adds the metadata |
| `Safetensors.Write` | core/src/serialization.rs:14-53 | the file is the 8-byte header length, the header bytes, then every tensor's bytes in key order |
| `Safetensors.AppendTensors` | core/src/serialization.rs:42-51 | the tensor loop appends every tensor's bytes, in key order, after what was already written |
| `Safetensors.Layout` | core/src/serialization.rs:20-32 | each tensor's entry is `F32`, its shape, and the span `[off, off + 4·data.len()]`, `off` the size of the tensors before it |
| `Safetensors.Contiguous` | core/src/serialization.rs:20-32 | spans start at 0, each ends where the next begins, and the last ends at the data section's end |
| `Safetensors.Span` | core/src/serialization.rs:42-51 | the data section holds each tensor's bytes in its declared span |
| `Safetensors.Entry` | core/src/serialization.rs:76-92 | a read entry has the written shape and `(end − start) / 4` elements |
| `Safetensors.Read` | core/src/serialization.rs:56-96 | an error when the file is too short for the length prefix or the header; otherwise every entry but `__metadata__` as a tensor, and `__metadata__` as the metadata |
| `Safetensors.ReadFile` | core/src/serialization.rs:56-96 | the read loop computes exactly that result |
| `Safetensors.Collect` | core/src/serialization.rs:69-95 | the header loop yields exactly one tensor per non-metadata key, read from its byte range, and the metadata value when the reserved key is present |
| `Safetensors.AsMap` | core/src/serialization.rs:14-16 | the map written from has the tensor names as keys |
| `Safetensors.SectionsOf` | core/src/serialization.rs:40-67 | a length prefix below `2^64`, the header bytes and the data are split back into the decoded header and the data |
| `Safetensors.WrittenSections` | core/src/serialization.rs:36-67 | the read side finds the header and data sections the write side laid down |
| `Safetensors.EntryOfWritten` | core/src/serialization.rs:76-92 | a tensor's written entry reads back as the tensor: `num_elems = (end − start) / 4` equals the written `data.len()` |
| `Safetensors.RoundTrip` | core/src/serialization.rs:14-96 | with a lossless JSON codec and no tensor named `__metadata__`, reading a written file gives back the tensors and the metadata |
| `Safetensors.ReservedName` | core/src/serialization.rs:33-35 | a tensor named `__metadata__` does not come back as a tensor, and the metadata read is the given one or else that tensor's entry |
| `Vocabularies.ParseUsize` | core/src/bin/train_vocab.rs:22 | a parsed limit is below `2^64`; the empty string gives no limit |
| `Vocabularies.Decimal` | core/src/bin/train_vocab.rs:22 | a numeral is a non-empty string of decimal digits |
| `Vocabularies.DigitsValueOfDecimal` | core/src/bin/train_vocab.rs:22 | the digits of a numeral denote the number it was written from |
| `Vocabularies.ParseDecimal` | core/src/bin/train_vocab.rs:22 | a numeral below `2^64`, with or without a leading `+`, parses to its value |
| `Vocabularies.ParseExamples` | core/src/bin/update_vocab.rs:33 | `"60"` is a limit; `"-1"`, `"ten"` and `"+"` are none |
| `Vocabularies.CountsOf` | core/src/bin/update_vocab.rs:40-45 | the counted words are exactly the words not skipped, each with its number of occurrences |
| `Vocabularies.CountWords` | core/src/bin/update_vocab.rs:40-45 | the `entry(..).or_insert(0) += 1` loop, skipping words in `existing`, computes those counts |
| `Vocabularies.Items` | core/src/bin/train_vocab.rs:30 | `collect` gives one `(word, count)` item per word of the iteration order |
| `Vocabularies.InsertSplits` | core/src/bin/train_vocab.rs:31 | an item is placed after every item with a larger count and before the rest |
| `Vocabularies.InsertDescending` | core/src/bin/train_vocab.rs:31 | inserting into a list sorted by descending count keeps it sorted |
| `Vocabularies.InsertMultiset` | core/src/bin/train_vocab.rs:31 | inserting adds the one item and loses none |
| `Vocabularies.InsertDistinct` | core/src/bin/train_vocab.rs:31 | inserting a new token keeps the tokens distinct |
| `Vocabularies.SortByCountKeeps` | core/src/bin/train_vocab.rs:31 | `sort_by` by descending count gives a permutation of the items that is sorted, and keeps distinct tokens distinct |
| `Vocabularies.Truncate` | core/src/bin/train_vocab.rs:32-34 | `truncate(n)` keeps the first `min(n, len)` items |
| `Vocabularies.Tokens` | core/src/bin/train_vocab.rs:37-38 | one line per item, holding its token, in order |
| `Vocabularies.TrainVocab` | core/src/bin/train_vocab.rs:24-39 | counting, sorting, truncating and writing compute the vocabulary `TrainedVocab` |
| `Vocabularies.RankingCounts` | core/src/bin/train_vocab.rs:30-31 | each ranked item is a counted word with its count, one item per counted word |
| `Vocabularies.RankingDistinct` | core/src/bin/train_vocab.rs:30-31 | the ranked tokens are distinct |
| `Vocabularies.RankingDescending` | core/src/bin/train_vocab.rs:31 | the ranking is by non-increasing count |
| `Vocabularies.RankingComplete` | core/src/bin/train_vocab.rs:30-31 | every counted word is ranked |
| `Vocabularies.EnumerationSize` | core/src/bin/train_vocab.rs:30 | the iteration order has one entry per distinct word |
| `Vocabularies.TrainedIsRanked` | core/src/bin/train_vocab.rs:30-39 | the written lines are the tokens of the first `min(limit, #words)` ranked items |
| `Vocabularies.TrainedVocabWords` | core/src/bin/train_vocab.rs:25-39 | every written token is a word of the text |
| `Vocabularies.TrainedVocabDistinct` | core/src/bin/train_vocab.rs:25-39 | no token is written twice |
| `Vocabularies.TrainedVocabOrdered` | core/src/bin/train_vocab.rs:31-39 | the tokens come by non-increasing number of occurrences in the text |
| `Vocabularies.TrainedVocabSize` | core/src/bin/train_vocab.rs:32-39 | `min(limit, #distinct words)` tokens are written, and without a limit every word of the text is |
| `Vocabularies.Appended` | core/src/bin/update_vocab.rs:50-64 | with a limit the vocabulary never ends up longer than it |
| `Vocabularies.UpdateVocab` | core/src/bin/update_vocab.rs:35-69 | reading the prior lines, counting the new words, sorting and extending compute `UpdatedVocab` |
| `Vocabularies.Extend` | core/src/bin/update_vocab.rs:50-64 | the push-until-the-limit loop and the final truncation compute `Appended` |
| `Vocabularies.AppendedBounds` | core/src/bin/update_vocab.rs:50-64 | with a limit the result is at most that long; a prior vocabulary that reaches the limit is cut to it; otherwise it is a prefix of the result; without a limit every candidate is appended |
| `Vocabularies.UpdatedIsRanked` | core/src/bin/update_vocab.rs:36-57 | under the limit, the prior lines are kept in order and the first ranked new words follow |
| `Vocabularies.UpdatedVocabNew` | core/src/bin/update_vocab.rs:41-52 | every appended token is a word of the text that was not in the prior vocabulary |
| `Vocabularies.UpdatedVocabDistinct` | core/src/bin/update_vocab.rs:41-52 | the appended tokens are distinct |
| `Vocabularies.UpdatedVocabOrdered` | core/src/bin/update_vocab.rs:47-52 | the appended tokens come by non-increasing count in the text |
| `Vocabularies.UpdatedVocabComplete` | core/src/bin/update_vocab.rs:41-57 | without a limit every new word of the text is appended |
| `Middleware.ExpectedKey` | php/api/middleware.php:5 | the key is `DRAGON_API_KEY`, or `secret` when it is unset or PHP-falsy (`""`, `"0"`); never empty |
| `Middleware.FirstBearer` | php/api/middleware.php:6 | the first position where `Bearer` and a blank begin, at or after `from`; none before it |
| `Middleware.SpaceEnd` | php/api/middleware.php:6 | the end of the run of blanks after `Bearer` |
| `Middleware.LineEnd` | php/api/middleware.php:6 | `(.*)` stops at the first newline |
| `Middleware.Captured` | php/api/middleware.php:6 | the captured token holds no newline and does not start with a blank |
| `Middleware.Trim` | php/api/middleware.php:7 | PHP `trim` leaves no default trim character at either end and never lengthens the string |
| `Middleware.CheckAuthHeader` | php/api/middleware.php:4-10 | a header is accepted only when `Bearer` and a blank occur in it and the trimmed token after the first such match is non-empty (the expected key never is) |
| `Middleware.NoBearerRejected` | php/api/middleware.php:9 | a header without `Bearer` and a blank is rejected |
| `Middleware.TrimBare` | php/api/middleware.php:7 | trimming a key without surrounding blanks leaves it unchanged |
| `Middleware.FirstBearerAt` | php/api/middleware.php:6 | the regex matches at the first `Bearer` position when none precedes it |
| `Middleware.CapturedBare` | php/api/middleware.php:6 | after `Bearer ` the capture is the rest of a one-line key |
| `Middleware.BearerToken` | php/api/middleware.php:4-10 | `prefix + "Bearer " + key` is accepted iff the key is the expected one, when the prefix has no match |
| `Middleware.DefaultKeyExample` | php/api/middleware.php:5-8 | `Bearer secret` passes with `DRAGON_API_KEY` unset or `"0"`, and fails with `DRAGON_API_KEY=k` |
| `Middleware.NoBearerInPrefix` | php/api/middleware.php:6 | no match starts inside a prefix without `B` |
| `Middleware.PrefixedDefault` | php/api/middleware.php:6-8 | a match need not start the header: `prefix + "Bearer secret"` passes by default |
| `Middleware.PrefixedExample` | php/api/middleware.php:6-8 | `Token x; Bearer secret` passes by default |
| `Middleware.LowerCaseExample` | php/api/middleware.php:6 | the match is case-sensitive: `bearer secret` fails |
| `Middleware.NoBlankExample` | php/api/middleware.php:6 | `\s+` needs a blank: `Bearersecret` fails |
| `Middleware.Step` | php/api/middleware.php:15-29 | a missing state or an expired window starts a new window of one request; a full window refuses and stores nothing; otherwise the count is increased |
| `Middleware.RateLimiter.constructor` | php/api/middleware.php:13-15 | no client has a state file yet |
| `Middleware.RateLimiter.UpdateRateLimit` | php/api/middleware.php:12-32 | the answer is `Step`'s, the client's state becomes `Step`'s window when allowed, and nothing changes when refused |
| `Middleware.StepStartsWindow` | php/api/middleware.php:17-19 | an expired or missing window allows the request and starts counting at `now` |
| `Middleware.StepWithinWindow` | php/api/middleware.php:21-24 | inside the window a request is allowed iff fewer than `limit` were counted, and then the count grows by one |
| `Middleware.StepKeepsBound` | php/api/middleware.php:21-24 | the stored count never exceeds a positive limit |
| `Middleware.Run` | php/api/middleware.php:12-32 | over a series of requests at most one is allowed per request |
| `Middleware.RunWithinWindow` | php/api/middleware.php:21-24 | within one window, `min(#requests, limit − count)` requests are allowed |
| `Middleware.RunFromFresh` | php/api/middleware.php:12-32 | a new client gets `min(#requests, limit)` requests through in its first window |

## Left out

- IEEE `f32` and `f16` arithmetic. Scalars are unbounded reals, and the
  float tolerances of the unit tests (`1e-5`, `1e-4`, `1e-2`, `1e-1`) are
  not proved. The worked examples are stated exactly over the reals.
- The NaN panic of `partial_cmp().unwrap()` in `generate` (core/src/model.rs:62).
  Over the reals every comparison is defined.
- Divisions that would give NaN or infinity in `f32` are excluded by
  preconditions:
  - the attention scale `sqrt(q[0].len())` is required to be non-zero;
  - `sqrt(var + eps)` and `powf(base, e)` are required to be positive, via
    facts on `Math`;
  - `cross_entropy` over zero positions is excluded;
  - training requires `exp` to be positive.
- Multi-head attention: `MultiHeadAttention` is not part of this model. The
  decoder uses the single-head `SelfAttention`, and `num_heads` is accepted
  and ignored, as every call in the repository uses one head.
- The BLAS-backed `sgemm` (a foreign `cblas_sgemm` call) and core/src/ffi.rs
  (a C ABI over raw pointers).
- The CLI programs `infer`, `infer_text`, `generate_text`,
  `generate_tokens` and `eval_perplexity`. They parse arguments and print
  around `forward` and `generate`.
- `perplexity` and `BpeTokenizer` are not part of this model. The training
  program's token sequence is an input in place of the BPE encoding.
- Files and arguments of `train`, `train_vocab` and `update_vocab`: file
  contents, argument values and printed lines are parameters and results.
  Printing of the epoch losses is the returned list of losses.
- JSON and files in the tensor format:
  - `serde_json`'s encoder and decoder are an abstract `Codec` of two total
    functions, and the round trip assumes it is lossless;
  - an `f32` element is its 32-bit pattern. The writer's `from_raw_parts`
    and the reader's `copy_nonoverlapping` copy each element in the host's
    native byte order; only the header length is explicitly little-endian.
    The model fixes little-endian elements, i.e. the file a little-endian
    host writes and reads;
  - `serde_json::from_slice(..).unwrap()` cannot fail here, as the codec's
    decoder is total;
  - `usize` overflow of the running offset is not modelled; the header
    length is taken modulo `2^64`, as `as u64` does.
- Safetensors.Read and Safetensors.ReadFile: their precondition `Readable`
  excludes every file on which `read_safetensors` panics
  (core/src/serialization.rs:76-91): an entry that is not an object with a
  `shape` and two `data_offsets` (the `unwrap`s at lines 76-81), a span with
  `start > end` (the subtraction at line 82), a span whose `end` lies beyond
  the data (the slice at line 84), and a span whose length is not a
  multiple of 4.
- The last of those is a hazard in the source, recorded here without having
  been executed: for a span of `end − start` bytes with a remainder modulo 4,
  `tensor_data` holds `4·⌊(end − start)/4⌋` bytes while `copy_nonoverlapping`
  copies `end − start` bytes into it, writing past the buffer. The model
  excludes such spans rather than giving them a meaning.
- Datasets.TextDataset.NextSample: returns an `Option`, not an
  `io::Result`. A read error passed on by the `?` at core/src/dataset.rs:33,
  including `InvalidData` for a line that is not UTF-8, is not modelled; the
  file is its sequence of lines.
- Safetensors.RoundTrip and Safetensors.ReservedName: proved only for
  headers shorter than `2^64` bytes. A longer header's length is written
  modulo `2^64` and would not read back.
- `HashMap` iteration order in the vocabulary tools is an input (`order`),
  constrained only to list every counted word once. So the order among
  equal counts is not fixed.
- Middleware persistence:
  - the temp-file naming by `md5`, `sys_get_temp_dir` and `LOCK_EX` are
    left out; the files are a map from address to window;
  - `time()` is the parameter `now`;
  - the read-modify-write race between concurrent requests is a concurrency
    matter and out of scope;
  - a stored file is always a well-formed `start:count`, so the
    `intval`/`explode` parse of a malformed file is not modelled;
  - `hash_equals` is plain string equality, its constant-time behaviour
    being out of scope;
  - header bytes are characters.
- core/src/hyperparams.rs is constants only; its values are passed as
  parameters. `lib.rs::add` is trivial.
- The unit test of LayerNorm also checks unit variance within a tolerance.
  That depends on `sqrt` and float rounding and is not stated.
