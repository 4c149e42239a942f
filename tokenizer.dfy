/**
  The whitespace tokenizer (core/src/tokenizer.rs): a vocabulary list, the
  map from each token to its index, and an id for unknown words.
*/
module Tokenizers {
  import opened Texts

  datatype Tokenizer = Tokenizer(ids: map<string, nat>, inv: seq<string>, unk: nat)

  /** The map that inserting `(vocab[i], i)` for `i = 0, 1, …` builds: its
      keys are the vocabulary's tokens. */
  function IndexOf(vocab: seq<string>): (ids: map<string, nat>)
    ensures forall w :: w in ids <==> w in vocab
  {
    if vocab == [] then map[]
    else
      var init := vocab[..|vocab| - 1];
      var ids' := IndexOf(init);
      assert forall w :: w in init ==> w in vocab by {
        forall w | w in init ensures w in vocab {
          var i :| 0 <= i < |init| && init[i] == w;
          assert vocab[i] == w;
        }
      }
      assert forall w :: w in vocab ==> w in init || w == vocab[|vocab| - 1] by {
        forall w | w in vocab ensures w in init || w == vocab[|vocab| - 1] {
          var i :| 0 <= i < |vocab| && vocab[i] == w;
          if i < |vocab| - 1 { assert init[i] == w; }
        }
      }
      ids'[vocab[|vocab| - 1] := |vocab| - 1]
  }

  /** Each token maps to the LAST index it occurs at: a duplicate later in
      the list overwrites the earlier entry. */
  lemma {:induction false} LastIndexWins(vocab: seq<string>, w: string)
    requires w in vocab
    ensures IndexOf(vocab)[w] < |vocab| && vocab[IndexOf(vocab)[w]] == w
    ensures forall j :: IndexOf(vocab)[w] < j < |vocab| ==> vocab[j] != w
  {
    var last := |vocab| - 1;
    if vocab[last] != w {
      var init := vocab[..last];
      LastIndexWins(init, w);
      assert IndexOf(vocab)[w] == IndexOf(init)[w];
    }
  }

  /** `WhitespaceTokenizer::new`: one insertion per vocabulary entry, in
      order; the list itself is kept for decoding. */
  method New(vocab: seq<string>, unk: nat) returns (t: Tokenizer)
    ensures t == Tokenizer(IndexOf(vocab), vocab, unk)
  {
    var m: map<string, nat> := map[];
    for i := 0 to |vocab|
      invariant m == IndexOf(vocab[..i])
    {
      assert vocab[..i + 1][..i] == vocab[..i];
      m := m[vocab[i] := i];
    }
    assert vocab[..|vocab|] == vocab;
    t := Tokenizer(m, vocab, unk);
  }

  /** `vocab.get(w).cloned().unwrap_or(unk_id)`. */
  function Lookup(t: Tokenizer, w: string): nat
  {
    if w in t.ids then t.ids[w] else t.unk
  }

  /** `encode`: one id per whitespace-separated word, in order. */
  function Encode(t: Tokenizer, text: string): (ids: seq<nat>)
    ensures |ids| == |Words(text)|
    ensures forall i :: 0 <= i < |ids| ==> ids[i] == Lookup(t, Words(text)[i])
  {
    var ws := Words(text);
    seq(|ws|, i requires 0 <= i < |ws| => Lookup(t, ws[i]))
  }

  /** `inv_vocab.get(id).cloned().unwrap_or_else(|| "".into())`. */
  function Name(t: Tokenizer, id: nat): string
  {
    if id < |t.inv| then t.inv[id] else ""
  }

  /** The token of every id, `""` for an id outside the vocabulary. */
  function Names(t: Tokenizer, tokens: seq<nat>): (ns: seq<string>)
    ensures |ns| == |tokens|
    ensures forall i :: 0 <= i < |tokens| ==> ns[i] == Name(t, tokens[i])
  {
    seq(|tokens|, i requires 0 <= i < |tokens| => Name(t, tokens[i]))
  }

  /** `decode`: the tokens joined by single spaces. */
  function Decode(t: Tokenizer, tokens: seq<nat>): string
  {
    Join(Names(t, tokens))
  }

  /** Decoding an encoded text gives its words, joined by single spaces,
      whenever every word is in the vocabulary. */
  lemma DecodeEncode(vocab: seq<string>, unk: nat, text: string)
    requires forall i :: 0 <= i < |Words(text)| ==> Words(text)[i] in vocab
    ensures var t := Tokenizer(IndexOf(vocab), vocab, unk);
      Decode(t, Encode(t, text)) == Join(Words(text))
  {
    var t := Tokenizer(IndexOf(vocab), vocab, unk);
    var ws := Words(text);
    var ns := Names(t, Encode(t, text));
    forall i | 0 <= i < |ws|
      ensures ns[i] == ws[i]
    {
      LastIndexWins(vocab, ws[i]);
    }
    assert ns == ws;
  }

  /** Encoding a decoded id sequence gives the ids back when the vocabulary
      holds distinct words and every id is in range. */
  lemma EncodeDecode(vocab: seq<string>, unk: nat, tokens: seq<nat>)
    requires forall i :: 0 <= i < |vocab| ==> IsWord(vocab[i])
    requires forall i, j :: 0 <= i < j < |vocab| ==> vocab[i] != vocab[j]
    requires forall i :: 0 <= i < |tokens| ==> tokens[i] < |vocab|
    ensures var t := Tokenizer(IndexOf(vocab), vocab, unk);
      Encode(t, Decode(t, tokens)) == tokens
  {
    var t := Tokenizer(IndexOf(vocab), vocab, unk);
    var ns := Names(t, tokens);
    DecodedWords(vocab, unk, tokens);
    forall i | 0 <= i < |tokens|
      ensures Lookup(t, ns[i]) == tokens[i]
    {
      LookupOfName(vocab, unk, tokens[i]);
    }
    EncodeOfWords(t, Decode(t, tokens), ns, tokens);
  }

  /** When the vocabulary holds words, splitting a decoded text gives the
      tokens of its ids. */
  lemma DecodedWords(vocab: seq<string>, unk: nat, tokens: seq<nat>)
    requires forall i :: 0 <= i < |vocab| ==> IsWord(vocab[i])
    requires forall i :: 0 <= i < |tokens| ==> tokens[i] < |vocab|
    ensures var t := Tokenizer(IndexOf(vocab), vocab, unk);
      Words(Decode(t, tokens)) == Names(t, tokens)
  {
    NamesAreWords(vocab, unk, tokens);
    WordsOfJoin(Names(Tokenizer(IndexOf(vocab), vocab, unk), tokens));
  }

  /** A text whose words look up to `ids` encodes to `ids`. */
  lemma EncodeOfWords(t: Tokenizer, text: string, ws: seq<string>, ids: seq<nat>)
    requires Words(text) == ws && |ws| == |ids|
    requires forall i :: 0 <= i < |ws| ==> Lookup(t, ws[i]) == ids[i]
    ensures Encode(t, text) == ids
  {
  }

  lemma NamesAreWords(vocab: seq<string>, unk: nat, tokens: seq<nat>)
    requires forall i :: 0 <= i < |vocab| ==> IsWord(vocab[i])
    requires forall i :: 0 <= i < |tokens| ==> tokens[i] < |vocab|
    ensures var ns := Names(Tokenizer(IndexOf(vocab), vocab, unk), tokens);
      forall i :: 0 <= i < |ns| ==> IsWord(ns[i])
  {
  }

  /** With distinct tokens, looking up the token of an id gives the id. */
  lemma LookupOfName(vocab: seq<string>, unk: nat, id: nat)
    requires forall i, j :: 0 <= i < j < |vocab| ==> vocab[i] != vocab[j]
    requires id < |vocab|
    ensures var t := Tokenizer(IndexOf(vocab), vocab, unk);
      Lookup(t, Name(t, id)) == id
  {
    var w := vocab[id];
    LastIndexWins(vocab, w);
    var k := IndexOf(vocab)[w];
    assert vocab[k] == w;
  }

  /** The unit test `unknown_token`: with `["a", "b"]` and `unk_id = 1`,
      `"c a"` encodes to `[1, 0]`. */
  lemma UnknownTokenExample()
    ensures Encode(Tokenizer(IndexOf(["a", "b"]), ["a", "b"], 1), "c a") == [1, 0]
  {
    assert IsWord("c") && IsWord("a");
    assert Join(["c", "a"]) == "c a";
    WordsOfJoin(["c", "a"]);
    assert "c" !in ["a", "b"];
    LastIndexWins(["a", "b"], "a");
  }

  /** The unit test `encode_decode_roundtrip`: `"hello world"` encodes to
      `[0, 1]` and decodes back to itself. */
  lemma RoundTripExample()
    ensures var t := Tokenizer(IndexOf(["hello", "world"]), ["hello", "world"], 0);
      Encode(t, "hello world") == [0, 1] && Decode(t, [0, 1]) == "hello world"
  {
    EncodeHelloWorld();
    DecodeHelloWorld();
  }

  lemma EncodeHelloWorld()
    ensures Encode(Tokenizer(IndexOf(["hello", "world"]), ["hello", "world"], 0), "hello world") == [0, 1]
  {
    var t := Tokenizer(IndexOf(["hello", "world"]), ["hello", "world"], 0);
    HelloWorldWords();
    EncodeTwoWords(t, "hello world", "hello", "world");
    HelloWorldLookups();
  }

  /** A text of two words encodes to their two ids. */
  lemma EncodeTwoWords(t: Tokenizer, text: string, a: string, b: string)
    requires Words(text) == [a, b]
    ensures Encode(t, text) == [Lookup(t, a), Lookup(t, b)]
  {
  }

  lemma HelloWorldLookups()
    ensures var t := Tokenizer(IndexOf(["hello", "world"]), ["hello", "world"], 0);
      Lookup(t, "hello") == 0 && Lookup(t, "world") == 1
  {
    LastIndexWins(["hello", "world"], "hello");
    LastIndexWins(["hello", "world"], "world");
  }

  lemma DecodeHelloWorld()
    ensures Decode(Tokenizer(IndexOf(["hello", "world"]), ["hello", "world"], 0), [0, 1]) == "hello world"
  {
    var t := Tokenizer(IndexOf(["hello", "world"]), ["hello", "world"], 0);
    DecodeTwoIds(t, 0, 1);
    assert Name(t, 0) == "hello" && Name(t, 1) == "world";
    HelloWorldWords();
  }

  /** Two ids decode to their two tokens joined by a space. */
  lemma DecodeTwoIds(t: Tokenizer, x: nat, y: nat)
    ensures Decode(t, [x, y]) == Join([Name(t, x), Name(t, y)])
  {
    assert Names(t, [x, y]) == [Name(t, x), Name(t, y)];
  }

  lemma HelloWorldWords()
    ensures Join(["hello", "world"]) == "hello world"
    ensures Words("hello world") == ["hello", "world"]
  {
    assert IsWord("hello") && IsWord("world");
    WordsOfJoin(["hello", "world"]);
  }
}
