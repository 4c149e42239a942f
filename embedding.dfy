/**
  The token embedding table (core/src/embedding.rs): `forward` maps every
  token id to a copy of its row of the table.
*/
module Embeddings {
  import opened Matrices

  /** `weights` is `vocab_size × embed_dim`. `Embedding::new` only stores it. */
  datatype Embedding = Embedding(weights: Matrix)

  /** Every id indexes a row of the table; any other id makes `forward` panic. */
  predicate IdsInRange(e: Embedding, ids: seq<nat>)
  {
    forall t :: 0 <= t < |ids| ==> ids[t] < |e.weights|
  }

  /** `Embedding::forward`: one row per id, in order. */
  function Forward(e: Embedding, ids: seq<nat>): (r: Matrix)
    requires IdsInRange(e, ids)
    ensures |r| == |ids|
  {
    seq(|ids|, t requires 0 <= t < |ids| => e.weights[ids[t]])
  }

  /** Output row `t` is the table row of `ids[t]`, and a table of uniform
      width `d` gives a `|ids| × d` result. */
  lemma ForwardRows(e: Embedding, ids: seq<nat>, d: nat)
    requires IdsInRange(e, ids)
    ensures forall t :: 0 <= t < |ids| ==> Forward(e, ids)[t] == e.weights[ids[t]]
    ensures IsMatrix(e.weights, |e.weights|, d) ==> IsMatrix(Forward(e, ids), |ids|, d)
  {
  }

  /** Lookup is position-wise: looking up a concatenation concatenates the
      lookups, so each output row depends on its own id only. */
  lemma {:induction false} ForwardConcat(e: Embedding, xs: seq<nat>, ys: seq<nat>)
    requires IdsInRange(e, xs) && IdsInRange(e, ys)
    ensures IdsInRange(e, xs + ys)
    ensures Forward(e, xs + ys) == Forward(e, xs) + Forward(e, ys)
  {
    assert forall t :: 0 <= t < |xs + ys| ==> (xs + ys)[t] == if t < |xs| then xs[t] else ys[t - |xs|];
  }

  /** The unit test: ids `[2, 0, 1]` give rows 2, 0 and 1 of the table. */
  lemma ForwardExample()
    ensures var e := Embedding([[0.1, 0.2], [0.3, 0.4], [0.5, 0.6]]);
      IdsInRange(e, [2, 0, 1]) &&
      Forward(e, [2, 0, 1]) == [[0.5, 0.6], [0.1, 0.2], [0.3, 0.4]]
  {
  }
}
