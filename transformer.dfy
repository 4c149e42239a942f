/**
  The transformer stack (core/src/transformer.rs): `num_layers` decoder
  blocks applied one after another, the output of each block being the
  input of the next.
*/
module Transformers {
  import opened Scalars
  import opened Matrices
  import Decoders

  datatype Transformer = Transformer(blocks: seq<Decoders.DecoderBlock>)

  /** The stack that `Transformer::new(num_layers, embed_dim, hidden_dim,
      num_heads)` builds: `num_layers` copies of the same block. */
  function Built(layers: nat, e: nat, h: nat, heads: nat): (t: Transformer)
    ensures |t.blocks| == layers
    ensures forall i :: 0 <= i < layers ==> t.blocks[i] == Decoders.New(e, h, heads)
  {
    Transformer(seq(layers, _ => Decoders.New(e, h, heads)))
  }

  /** `Transformer::new`: pushes one freshly built block per layer. */
  method New(layers: nat, e: nat, h: nat, heads: nat) returns (t: Transformer)
    ensures t == Built(layers, e, h, heads)
  {
    var blocks: seq<Decoders.DecoderBlock> := [];
    for i := 0 to layers
      invariant |blocks| == i
      invariant forall j :: 0 <= j < i ==> blocks[j] == Decoders.New(e, h, heads)
    {
      blocks := blocks + [Decoders.New(e, h, heads)];
    }
    t := Transformer(blocks);
  }

  /** Every block of the fold is defined on the value it receives. */
  ghost predicate Runs(m: Math, blocks: seq<Decoders.DecoderBlock>, x: Matrix)
    decreases |blocks|
  {
    blocks == [] ||
    (Decoders.Defined(m, blocks[0], x) && Runs(m, blocks[1..], Decoders.Forward(m, blocks[0], x)))
  }

  /** `blocks.iter().fold(input, |acc, block| block.forward(&acc))`:
      `block_{n-1}(… block_0(x))`. No block changes the number of rows, and
      an empty stack returns the input itself. */
  function Run(m: Math, blocks: seq<Decoders.DecoderBlock>, x: Matrix): (r: Matrix)
    requires Runs(m, blocks, x)
    ensures |r| == |x|
    ensures blocks == [] ==> r == x
    decreases |blocks|
  {
    if blocks == [] then x else Run(m, blocks[1..], Decoders.Forward(m, blocks[0], x))
  }

  /** `Transformer::forward`. */
  function Forward(m: Math, t: Transformer, x: Matrix): (r: Matrix)
    requires Runs(m, t.blocks, x)
    ensures |r| == |x|
    ensures t.blocks == [] ==> r == x
  {
    Run(m, t.blocks, x)
  }

  /** The fold over a concatenated stack is the fold over the second part
      applied to the fold over the first: the blocks run strictly in order. */
  lemma {:induction false} RunConcat(m: Math, a: seq<Decoders.DecoderBlock>, b: seq<Decoders.DecoderBlock>, x: Matrix)
    ensures Runs(m, a + b, x) <==> Runs(m, a, x) && Runs(m, b, Run(m, a, x))
    ensures Runs(m, a + b, x) ==> Run(m, a + b, x) == Run(m, b, Run(m, a, x))
    decreases |a|
  {
    if a == [] {
      assert a + b == b;
    } else {
      assert (a + b)[0] == a[0];
      assert (a + b)[1..] == a[1..] + b;
      if Decoders.Defined(m, a[0], x) {
        RunConcat(m, a[1..], b, Decoders.Forward(m, a[0], x));
      }
    }
  }

  /** A stack of blocks that all map `e` features to `e` takes a non-empty
      `n × e` input to an `n × e` output. */
  lemma {:induction false} RunShape(m: Math, blocks: seq<Decoders.DecoderBlock>, x: Matrix, n: nat, e: nat)
    requires SqrtPositive(m)
    requires forall i :: 0 <= i < |blocks| ==> Decoders.Shaped(blocks[i], e)
    requires IsMatrix(x, n, e) && n > 0 && e > 0
    ensures Runs(m, blocks, x)
    ensures IsMatrix(Run(m, blocks, x), n, e)
    decreases |blocks|
  {
    if blocks != [] {
      Decoders.ForwardShape(m, blocks[0], x, n, e);
      RunShape(m, blocks[1..], Decoders.Forward(m, blocks[0], x), n, e);
    }
  }

  /** The unit test: three blocks of `new(3, 2, 2, 1)` keep a `1 × 2` input
      `1 × 2`. */
  lemma NewForwardShapeExample(m: Math)
    requires SqrtPositive(m)
    ensures Runs(m, Built(3, 2, 2, 1).blocks, [[1.0, -1.0]])
    ensures IsMatrix(Forward(m, Built(3, 2, 2, 1), [[1.0, -1.0]]), 1, 2)
  {
    var t := Built(3, 2, 2, 1);
    forall i | 0 <= i < |t.blocks|
      ensures Decoders.Shaped(t.blocks[i], 2)
    {
    }
    RunShape(m, t.blocks, [[1.0, -1.0]], 1, 2);
  }
}
