/**
  The end-to-end model (core/src/model.rs): token embedding, rotary
  positions, the transformer stack and a dense output layer to vocabulary
  logits, plus greedy autoregressive generation.
*/
module Models {
  import opened Scalars
  import opened Matrices
  import Dense
  import Embeddings
  import Rotary
  import Decoders
  import Transformers

  datatype Model = Model(
    embedding: Embeddings.Embedding,
    positional: Rotary.RotaryEmbedding,
    transformer: Transformers.Transformer,
    output: Dense.Linear)

  /** Vocabulary size: the number of rows of the embedding table. */
  function Vocab(md: Model): nat
  {
    |md.embedding.weights|
  }

  /** `Model::new(vocab_size, embed_dim, hidden_dim, num_layers, num_heads)`:
      an identity-like `vocab × embed` embedding table, rotary encoding over
      `embed_dim`, the stack of `num_layers` blocks, and an identity-like
      `embed × vocab` output layer with zero bias. */
  function New(vocab: nat, e: nat, h: nat, layers: nat, heads: nat): (md: Model)
    ensures IsMatrix(md.embedding.weights, vocab, e) && Vocab(md) == vocab
    ensures forall i, j :: 0 <= i < vocab && 0 <= j < e ==> md.embedding.weights[i][j] == if i == j then 1.0 else 0.0
    ensures md.positional.dim == e && md.positional.base == 10000.0
    ensures md.transformer == Transformers.Built(layers, e, h, heads)
    ensures Dense.Shaped(md.output, e, vocab)
    ensures forall i, j :: 0 <= i < e && 0 <= j < vocab ==> md.output.weight[i][j] == if i == j then 1.0 else 0.0
    ensures forall j :: 0 <= j < vocab ==> md.output.bias[j] == 0.0
    ensures e > 0 && (layers == 0 || h > 0) ==> Shaped(md)
  {
    var md := Model(
      Embeddings.Embedding(Identity(vocab, e)),
      Rotary.New(e),
      Transformers.Built(layers, e, h, heads),
      Dense.IdentityLinear(e, vocab));
    assert e > 0 && (layers == 0 || h > 0) ==> forall i :: 0 <= i < layers ==> Decoders.Shaped(md.transformer.blocks[i], e);
    md
  }

  /** The widths agree: a `vocab × e` table with `e > 0`, a rotary width of
      `e` with a positive base, blocks that map `e` features to `e`, and an
      `e × vocab` output layer. */
  predicate Shaped(md: Model)
  {
    var vocab, e := Vocab(md), md.positional.dim;
    e > 0 && IsMatrix(md.embedding.weights, vocab, e) && md.positional.base > 0.0 &&
    (forall i :: 0 <= i < |md.transformer.blocks| ==> Decoders.Shaped(md.transformer.blocks[i], e)) &&
    Dense.Shaped(md.output, e, vocab)
  }

  /** A well-shaped model together with the facts about `sqrt` and `powf`
      that keep every division of the forward pass defined. */
  ghost predicate Ready(m: Math, md: Model)
  {
    Shaped(md) && SqrtPositive(m) && PowPositive(m)
  }

  /** No stage before the output layer panics or divides by zero. */
  ghost predicate HiddenDefined(m: Math, md: Model, ids: seq<nat>)
  {
    Embeddings.IdsInRange(md.embedding, ids) &&
    var x := Embeddings.Forward(md.embedding, ids);
    Rotary.AngleDefined(m, md.positional) && Rotary.TokensLongEnough(md.positional, x) &&
    Transformers.Runs(m, md.transformer.blocks, Rotary.Encode(m, md.positional, x))
  }

  /** `transformer(positional(embedding(ids)))`: the hidden states the
      output layer reads. They do not depend on the output layer. */
  function Hidden(m: Math, md: Model, ids: seq<nat>): (h: Matrix)
    requires HiddenDefined(m, md, ids)
    ensures |h| == |ids|
  {
    var x := Embeddings.Forward(md.embedding, ids);
    Transformers.Forward(m, md.transformer, Rotary.Encode(m, md.positional, x))
  }

  /** No stage of `forward` panics or divides by zero. */
  ghost predicate Defined(m: Math, md: Model, ids: seq<nat>)
  {
    HiddenDefined(m, md, ids) && Dense.ForwardDefined(md.output, Hidden(m, md, ids))
  }

  /** `Model::forward`: `output_layer(transformer(positional(embedding(ids))))`. */
  function Forward(m: Math, md: Model, ids: seq<nat>): (logits: Matrix)
    requires Defined(m, md, ids)
    ensures IsMatrix(logits, |ids|, |md.output.weight[0]|)
  {
    Dense.Affine(md.output, Hidden(m, md, ids))
  }

  /** A well-shaped model turns every non-empty sequence of valid ids into
      one row of `e` hidden features per token. */
  lemma HiddenShape(m: Math, md: Model, ids: seq<nat>)
    requires Ready(m, md)
    requires |ids| > 0 && Embeddings.IdsInRange(md.embedding, ids)
    ensures HiddenDefined(m, md, ids)
    ensures IsMatrix(Hidden(m, md, ids), |ids|, md.positional.dim)
  {
    var n, e := |ids|, md.positional.dim;
    Embeddings.ForwardRows(md.embedding, ids, e);
    var x := Embeddings.Forward(md.embedding, ids);
    assert Rotary.Rotated(md.positional) <= e;
    Transformers.RunShape(m, md.transformer.blocks, Rotary.Encode(m, md.positional, x), n, e);
  }

  /** ... and one row of `vocab` logits per token. */
  lemma ForwardShape(m: Math, md: Model, ids: seq<nat>)
    requires Ready(m, md)
    requires |ids| > 0 && Embeddings.IdsInRange(md.embedding, ids)
    ensures Defined(m, md, ids)
    ensures IsMatrix(Forward(m, md, ids), |ids|, Vocab(md))
  {
    HiddenShape(m, md, ids);
    Dense.AffineShape(md.output, Hidden(m, md, ids), |ids|, md.positional.dim, Vocab(md));
  }

  /** The unit test: `new(2, 2, 2, 1, 1)` on ids `[0, 1]` gives two rows of
      two logits. */
  lemma NewForwardShapeExample(m: Math)
    requires SqrtPositive(m) && PowPositive(m)
    ensures Defined(m, New(2, 2, 2, 1, 1), [0, 1])
    ensures IsMatrix(Forward(m, New(2, 2, 2, 1, 1), [0, 1]), 2, 2)
  {
    ForwardShape(m, New(2, 2, 2, 1, 1), [0, 1]);
  }

  /** `row.iter().enumerate().max_by(partial_cmp).map(|(i, _)| i).unwrap_or(0)`:
      the index of a maximum, the last one when several cells tie, and 0 for
      an empty row. */
  function ArgMaxLast(row: seq<real>): (r: nat)
    ensures |row| == 0 ==> r == 0
    ensures |row| > 0 ==> r < |row|
    ensures forall j :: 0 <= j < |row| ==> row[j] <= row[r]
    ensures forall j :: r < j < |row| ==> row[j] < row[r]
    decreases |row|
  {
    if |row| <= 1 then 0
    else
      var best := ArgMaxLast(row[..|row| - 1]);
      assert forall j :: 0 <= j < |row| - 1 ==> row[..|row| - 1][j] == row[j];
      if row[|row| - 1] >= row[best] then |row| - 1 else best
  }

  /** Ties go to the highest index. */
  lemma ArgMaxLastExample()
    ensures ArgMaxLast([1.0, 3.0, 3.0, 2.0]) == 2
  {
    var r := ArgMaxLast([1.0, 3.0, 3.0, 2.0]);
    assert [1.0, 3.0, 3.0, 2.0][2] == 3.0;
  }

  /** The greedy choice after `tokens`: the arg-max of the last logits row. */
  function NextToken(m: Math, md: Model, tokens: seq<nat>): (next: nat)
    requires Ready(m, md) && |tokens| > 0 && Embeddings.IdsInRange(md.embedding, tokens)
    ensures next < Vocab(md)
  {
    ForwardShape(m, md, tokens);
    var logits := Forward(m, md, tokens);
    ArgMaxLast(logits[|logits| - 1])
  }

  /** `NextToken` unfolded. */
  lemma NextTokenIs(m: Math, md: Model, tokens: seq<nat>)
    requires Ready(m, md) && |tokens| > 0 && Embeddings.IdsInRange(md.embedding, tokens)
    ensures Defined(m, md, tokens)
    ensures NextToken(m, md, tokens) == ArgMaxLast(Forward(m, md, tokens)[|tokens| - 1])
  {
    ForwardShape(m, md, tokens);
  }

  /** Greedy decoding with the next-token rule `next`: each step appends
      `next` of the whole sequence so far. The result starts with `input`
      and is `steps` tokens longer. */
  function Greedy(next: seq<nat> -> nat, input: seq<nat>, steps: nat): (r: seq<nat>)
    ensures |r| == |input| + steps && r[..|input|] == input
    decreases steps
  {
    if steps == 0 then input
    else
      var t := Greedy(next, input, steps - 1);
      assert (t + [next(t)])[..|input|] == t[..|input|];
      t + [next(t)]
  }

  /** Decoding only extends: the first `s` steps do not depend on how many
      more steps follow. */
  lemma {:induction false} GreedyPrefix(next: seq<nat> -> nat, input: seq<nat>, s: nat, steps: nat)
    requires s <= steps
    ensures Greedy(next, input, steps)[..|input| + s] == Greedy(next, input, s)
    decreases steps - s
  {
    if s < steps {
      GreedyPrefix(next, input, s, steps - 1);
      var u := Greedy(next, input, steps - 1);
      assert (u + [next(u)])[..|input| + s] == u[..|input| + s];
    }
  }

  /** Every appended token is the rule applied to the tokens before it. */
  lemma GreedyChoice(next: seq<nat> -> nat, input: seq<nat>, steps: nat, p: nat)
    requires |input| <= p < |input| + steps
    ensures Greedy(next, input, steps)[p] == next(Greedy(next, input, steps)[..p])
  {
    var s := p - |input|;
    var r := Greedy(next, input, steps);
    GreedyPrefix(next, input, s, steps);
    GreedyPrefix(next, input, s + 1, steps);
    var u := Greedy(next, input, s);
    assert r[..p + 1] == u + [next(u)];
    assert r[p] == r[..p + 1][p];
  }

  /** A rule that only yields ids below `vocab` keeps every token below
      `vocab`, given an input that already is. */
  lemma {:induction false} GreedyBelow(next: seq<nat> -> nat, input: seq<nat>, steps: nat, vocab: nat)
    requires forall t :: 0 <= t < |input| ==> input[t] < vocab
    requires forall t: seq<nat> :: next(t) < vocab
    ensures forall t :: 0 <= t < |Greedy(next, input, steps)| ==> Greedy(next, input, steps)[t] < vocab
    decreases steps
  {
    if steps > 0 {
      GreedyBelow(next, input, steps - 1, vocab);
      var u := Greedy(next, input, steps - 1);
      var r := Greedy(next, input, steps);
      assert r == u + [next(u)];
      forall t | 0 <= t < |r|
        ensures r[t] < vocab
      {
        if t < |u| {
          assert r[t] == u[t];
        } else {
          assert r[t] == next(u);
        }
      }
    }
  }

  /** The model's rule: the greedy token for a valid non-empty sequence. The
      fallback 0 is never reached from a valid non-empty input. */
  ghost function Rule(m: Math, md: Model): seq<nat> -> nat
    requires Ready(m, md)
  {
    t => if |t| > 0 && Embeddings.IdsInRange(md.embedding, t) then NextToken(m, md, t) else 0
  }

  /** What `generate(input, steps)` returns. */
  ghost function Generated(m: Math, md: Model, input: seq<nat>, steps: nat): seq<nat>
    requires Ready(m, md)
  {
    Greedy(Rule(m, md), input, steps)
  }

  /** Generation from a valid input yields only valid ids: every token is
      below the vocabulary size. */
  lemma GeneratedValid(m: Math, md: Model, input: seq<nat>, steps: nat)
    requires Ready(m, md) && Embeddings.IdsInRange(md.embedding, input)
    requires steps == 0 || |input| > 0
    ensures Embeddings.IdsInRange(md.embedding, Generated(m, md, input, steps))
  {
    var rule := Rule(m, md);
    if steps > 0 {
      forall t: seq<nat>
        ensures rule(t) < Vocab(md)
      {
        if |t| > 0 && Embeddings.IdsInRange(md.embedding, t) {
        } else {
          assert input[0] < Vocab(md);
        }
      }
      GreedyBelow(rule, input, steps, Vocab(md));
    }
    var r := Greedy(rule, input, steps);
    assert forall t :: 0 <= t < |r| ==> r[t] < Vocab(md);
  }

  /** Every token that `generate` appends is the arg-max of the last logits
      row of `forward` over the tokens before it. */
  lemma GeneratedGreedy(m: Math, md: Model, input: seq<nat>, steps: nat, p: nat)
    requires Ready(m, md) && Embeddings.IdsInRange(md.embedding, input) && |input| > 0
    requires |input| <= p < |input| + steps
    ensures p > 0 && Embeddings.IdsInRange(md.embedding, Generated(m, md, input, steps)[..p])
    ensures Generated(m, md, input, steps)[p] == NextToken(m, md, Generated(m, md, input, steps)[..p])
  {
    var r := Generated(m, md, input, steps);
    GeneratedValid(m, md, input, steps);
    PrefixInRange(md.embedding, r, p);
    GreedyChoice(Rule(m, md), input, steps, p);
    RuleIs(m, md, r[..p]);
  }

  /** On a valid non-empty sequence the rule is the greedy choice. */
  lemma RuleIs(m: Math, md: Model, t: seq<nat>)
    requires Ready(m, md) && |t| > 0 && Embeddings.IdsInRange(md.embedding, t)
    ensures Rule(m, md)(t) == NextToken(m, md, t)
  {
  }

  /** A prefix of valid ids is valid. */
  lemma PrefixInRange(e: Embeddings.Embedding, t: seq<nat>, p: nat)
    requires Embeddings.IdsInRange(e, t) && p <= |t|
    ensures Embeddings.IdsInRange(e, t[..p])
  {
  }

  /** `Model::generate`: reruns `forward` over the whole current sequence
      and pushes the arg-max of its last row, `steps` times. The model is a
      value and is not changed. */
  method Generate(m: Math, md: Model, input: seq<nat>, steps: nat) returns (tokens: seq<nat>)
    requires Ready(m, md) && Embeddings.IdsInRange(md.embedding, input)
    requires steps == 0 || |input| > 0
    ensures tokens == Generated(m, md, input, steps)
    ensures Embeddings.IdsInRange(md.embedding, tokens)
  {
    tokens := input;
    for s := 0 to steps
      invariant tokens == Greedy(Rule(m, md), input, s)
      invariant Embeddings.IdsInRange(md.embedding, tokens)
    {
      GeneratedValid(m, md, input, s + 1);
      RuleIs(m, md, tokens);
      tokens := Push(m, md, tokens);
    }
  }

  /** One pass of the loop in `generate`: run `forward` over the current
      tokens and, when it returns a last row, push that row's arg-max. For a
      valid non-empty sequence this is one greedy step. */
  method Push(m: Math, md: Model, tokens: seq<nat>) returns (extended: seq<nat>)
    requires Ready(m, md) && |tokens| > 0 && Embeddings.IdsInRange(md.embedding, tokens)
    ensures extended == tokens + [NextToken(m, md, tokens)]
  {
    ForwardShape(m, md, tokens);
    var logits := Forward(m, md, tokens);
    extended := tokens;
    if |logits| > 0 {
      var next := ArgMaxLast(logits[|logits| - 1]);
      NextTokenIs(m, md, tokens);
      extended := tokens + [next];
    }
  }

  /** The unit test: generating 3 tokens after `[0]` with
      `new(2, 2, 2, 1, 1)` gives 4 tokens, all below 2. */
  lemma GenerateExample(m: Math)
    requires SqrtPositive(m) && PowPositive(m)
    ensures |Generated(m, New(2, 2, 2, 1, 1), [0], 3)| == 4
    ensures forall t :: 0 <= t < 4 ==> Generated(m, New(2, 2, 2, 1, 1), [0], 3)[t] < 2
  {
    GeneratedValid(m, New(2, 2, 2, 1, 1), [0], 3);
  }
}
