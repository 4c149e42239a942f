/**
  One decoder block (core/src/decoder.rs): LayerNorm, self-attention,
  LayerNorm, feed-forward, applied in that order and with no residual
  connection around either sublayer.
*/
module Decoders {
  import opened Scalars
  import opened Matrices
  import LayerNorms
  import Attention
  import FeedForwards
  import Dense

  datatype DecoderBlock = DecoderBlock(
    ln1: LayerNorms.LayerNorm,
    ln2: LayerNorms.LayerNorm,
    attn: Attention.SelfAttention,
    ff: FeedForwards.FeedForward)

  /** A LayerNorm over `e` features with a positive epsilon. */
  predicate NormShaped(ln: LayerNorms.LayerNorm, e: nat)
  {
    |ln.gamma| == e && |ln.beta| == e && ln.eps > 0.0
  }

  /** Every sublayer maps `e` features to `e` features. */
  predicate Shaped(b: DecoderBlock, e: nat)
  {
    NormShaped(b.ln1, e) && NormShaped(b.ln2, e) &&
    Attention.Shaped(b.attn, e) && FeedForwards.Shaped(b.ff, e)
  }

  /** `DecoderBlock::new(embed_dim, hidden_dim, num_heads)`: both norms are
      `LayerNorm::new(embed_dim)`, the attention is the single-head identity
      layer over `embed_dim` and the feed-forward block is
      `FeedForward::new(embed_dim, hidden_dim)`. `num_heads` does not change
      the single-head layer and is not used. */
  function New(e: nat, h: nat, heads: nat): (b: DecoderBlock)
    ensures b.ln1 == b.ln2 && b.ln1.eps == 0.00001
    ensures NormShaped(b.ln1, e) && forall i :: 0 <= i < e ==> b.ln1.gamma[i] == 1.0 && b.ln1.beta[i] == 0.0
    ensures b.attn.wq == b.attn.wk == b.attn.wv == b.attn.wo == Dense.IdentityLinear(e, e)
    ensures b.ff.w1 == Dense.IdentityLinear(e, h) && b.ff.w2 == Dense.IdentityLinear(h, e)
    ensures h > 0 ==> Shaped(b, e)
  {
    var ln := LayerNorms.New(e);
    DecoderBlock(ln, ln, Attention.NewSelfAttention(e), FeedForwards.New(e, h))
  }

  /** No sublayer panics and no denominator is zero. */
  ghost predicate Defined(m: Math, b: DecoderBlock, x: Matrix)
  {
    LayerNorms.DenomDefined(m, b.ln1) && LayerNorms.FitsRows(b.ln1, x) &&
    var n1 := LayerNorms.Forward(m, b.ln1, x);
    Attention.Defined(m, b.attn, n1) &&
    var a := Attention.Forward(m, b.attn, n1);
    LayerNorms.DenomDefined(m, b.ln2) && LayerNorms.FitsRows(b.ln2, a) &&
    FeedForwards.Defined(m, b.ff, LayerNorms.Forward(m, b.ln2, a))
  }

  /** `DecoderBlock::forward`: `feedforward(ln2(self_attn(ln1(input))))`. */
  function Forward(m: Math, b: DecoderBlock, x: Matrix): (r: Matrix)
    requires Defined(m, b, x)
    ensures |r| == |x|
  {
    var n1 := LayerNorms.Forward(m, b.ln1, x);
    var a := Attention.Forward(m, b.attn, n1);
    FeedForwards.Forward(m, b.ff, LayerNorms.Forward(m, b.ln2, a))
  }

  /** The block sees its input only through `ln1`: inputs that `ln1` maps
      to the same rows give the same output. A residual connection would
      break this. */
  lemma FactorsThroughFirstNorm(m: Math, b: DecoderBlock, x: Matrix, x': Matrix)
    requires Defined(m, b, x) && LayerNorms.DenomDefined(m, b.ln1) && LayerNorms.FitsRows(b.ln1, x')
    requires LayerNorms.Forward(m, b.ln1, x) == LayerNorms.Forward(m, b.ln1, x')
    ensures Defined(m, b, x')
    ensures Forward(m, b, x) == Forward(m, b, x')
  {
  }

  /** A well-shaped block takes a non-empty `n × e` input to `n × e`. */
  lemma ForwardShape(m: Math, b: DecoderBlock, x: Matrix, n: nat, e: nat)
    requires SqrtPositive(m) && Shaped(b, e)
    requires IsMatrix(x, n, e) && n > 0 && e > 0
    ensures Defined(m, b, x)
    ensures IsMatrix(Forward(m, b, x), n, e)
  {
    LayerNorms.ForwardShape(m, b.ln1, x, n, e);
    var n1 := LayerNorms.Forward(m, b.ln1, x);
    Attention.ForwardShape(m, b.attn, n1, n, e);
    var a := Attention.Forward(m, b.attn, n1);
    LayerNorms.ForwardShape(m, b.ln2, a, n, e);
    FeedForwards.ForwardShape(m, b.ff, LayerNorms.Forward(m, b.ln2, a), n, e);
  }

  /** The unit test: `new(2, 2, 1)` on a `1 × 2` input gives a `1 × 2`
      output. */
  lemma NewForwardShapeExample(m: Math)
    requires SqrtPositive(m)
    ensures Defined(m, New(2, 2, 1), [[0.5, -0.5]])
    ensures IsMatrix(Forward(m, New(2, 2, 1), [[0.5, -0.5]]), 1, 2)
  {
    ForwardShape(m, New(2, 2, 1), [[0.5, -0.5]], 1, 2);
  }
}
