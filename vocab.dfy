/**
  The vocabulary tools (core/src/bin/train_vocab.rs and
  core/src/bin/update_vocab.rs): count the whitespace-separated words of a
  text, sort them by descending count, and keep a limited number of them.
  File contents are inputs (the text, the prior vocabulary's lines) and the
  output file is the returned list of lines. A `HashMap` iterates in an
  unspecified order, which the model takes as an input: `order` lists the
  counted words, each once.
*/
module Vocabularies {
  import opened Texts
  import opened Wrappers

  const UsizeLimit: nat := 0x1_0000_0000_0000_0000

  // --------------------------------------------------------- the limit

  predicate IsDigit(c: char)
  {
    '0' <= c <= '9'
  }

  predicate AllDigits(s: string)
  {
    forall i :: 0 <= i < |s| ==> IsDigit(s[i])
  }

  /** The number a string of decimal digits denotes. */
  function DigitsValue(s: string): nat
    requires AllDigits(s)
  {
    if s == [] then 0 else DigitsValue(s[..|s| - 1]) * 10 + (s[|s| - 1] as int - '0' as int)
  }

  /** `str::parse::<usize>` on a 64-bit target: an optional `+`, then at
      least one decimal digit, with a value below 2^64. */
  function ParseUsize(s: string): (r: Option<nat>)
    ensures r.Some? ==> r.value < UsizeLimit
    ensures s == [] ==> r.None?
  {
    var d := if |s| > 0 && s[0] == '+' then s[1..] else s;
    if d == [] || !AllDigits(d) then None
    else if DigitsValue(d) < UsizeLimit then Some(DigitsValue(d))
    else None
  }

  /** `args.next().and_then(|s| s.parse().ok())`: a missing or unparsable
      argument means no limit. */
  function Limit(arg: Option<string>): Option<nat>
  {
    if arg.None? then None else ParseUsize(arg.value)
  }

  /** The decimal numeral of `n`, as `to_string` writes it. */
  function Decimal(n: nat): (s: string)
    ensures |s| > 0 && AllDigits(s)
  {
    var digit := ('0' as int + n % 10) as char;
    if n < 10 then [digit] else Decimal(n / 10) + [digit]
  }

  lemma {:induction false} DigitsValueOfDecimal(n: nat)
    ensures DigitsValue(Decimal(n)) == n
  {
    var s := Decimal(n);
    if n >= 10 {
      DigitsValueOfDecimal(n / 10);
      assert s[..|s| - 1] == Decimal(n / 10);
    }
  }

  /** A numeral below 2^64 parses to its value. */
  lemma ParseDecimal(n: nat)
    requires n < UsizeLimit
    ensures ParseUsize(Decimal(n)) == Some(n)
    ensures ParseUsize("+" + Decimal(n)) == Some(n)
  {
    DigitsValueOfDecimal(n);
    assert ("+" + Decimal(n))[1..] == Decimal(n);
  }

  /** A sign other than `+`, or a non-digit, leaves no limit. */
  lemma ParseExamples()
    ensures ParseUsize("60") == Some(60)
    ensures ParseUsize("-1").None? && ParseUsize("ten").None? && ParseUsize("+").None?
  {
    assert !IsDigit("-1"[0]) && !IsDigit("ten"[0]);
    assert "60"[..1] == "6" && "6"[..0] == "";
    assert DigitsValue("6") == 6;
  }

  // ---------------------------------------------------------- counting

  /** What the counting loop leaves in `counts`: every word not in `skip`,
      with its number of occurrences. */
  function CountsOf(words: seq<string>, skip: set<string>): (counts: map<string, nat>)
    ensures forall w :: w in counts <==> w in words && w !in skip
    ensures forall w :: w in counts ==> counts[w] == multiset(words)[w]
  {
    if words == [] then map[]
    else
      var init := words[..|words| - 1];
      var w := words[|words| - 1];
      assert words == init + [w];
      var c := CountsOf(init, skip);
      if w in skip then c
      else c[w := (if w in c then c[w] else 0) + 1]
  }

  /** `*counts.entry(word).or_insert(0) += 1` for every word, except (in
      `update_vocab`) those already in the vocabulary. */
  method CountWords(words: seq<string>, existing: set<string>) returns (counts: map<string, nat>)
    ensures counts == CountsOf(words, existing)
  {
    counts := map[];
    for i := 0 to |words|
      invariant counts == CountsOf(words[..i], existing)
    {
      var w := words[i];
      assert words[..i + 1][..i] == words[..i];
      if w !in existing {
        counts := counts[w := (if w in counts then counts[w] else 0) + 1];
      }
    }
    assert words[..|words|] == words;
  }

  /** `order` lists the keys of `m`, each exactly once. */
  ghost predicate Enumerates(order: seq<string>, m: map<string, nat>)
  {
    (forall i, j :: 0 <= i < j < |order| ==> order[i] != order[j]) &&
    (forall w :: w in m <==> w in order)
  }

  type Item = (string, nat)

  /** `counts.into_iter().collect()` in the iteration order `order`. */
  function Items(counts: map<string, nat>, order: seq<string>): (items: seq<Item>)
    requires forall i :: 0 <= i < |order| ==> order[i] in counts
    ensures |items| == |order|
    ensures forall i :: 0 <= i < |order| ==> items[i] == (order[i], counts[order[i]])
  {
    seq(|order|, i requires 0 <= i < |order| => (order[i], counts[order[i]]))
  }

  // ----------------------------------------------------------- sorting

  predicate Descending(items: seq<Item>)
  {
    forall i, j :: 0 <= i < j < |items| ==> items[i].1 >= items[j].1
  }

  predicate DistinctTokens(items: seq<Item>)
  {
    forall i, j :: 0 <= i < j < |items| ==> items[i].0 != items[j].0
  }

  /** Places `x` before the first item whose count is not larger. */
  function Insert(x: Item, s: seq<Item>): seq<Item>
  {
    if s == [] then [x]
    else if s[0].1 <= x.1 then [x] + s
    else [s[0]] + Insert(x, s[1..])
  }

  /** `sort_by(|a, b| b.1.cmp(&a.1))`: a stable sort by descending count. */
  function SortByCount(items: seq<Item>): seq<Item>
  {
    if items == [] then [] else Insert(items[0], SortByCount(items[1..]))
  }

  lemma {:induction false} InsertSplits(x: Item, s: seq<Item>) returns (k: nat)
    ensures k <= |s| && Insert(x, s) == s[..k] + [x] + s[k..]
    ensures forall i :: 0 <= i < k ==> s[i].1 > x.1
    ensures k < |s| ==> s[k].1 <= x.1
  {
    if s == [] || s[0].1 <= x.1 {
      k := 0;
    } else {
      var k' := InsertSplits(x, s[1..]);
      k := k' + 1;
      assert s[..k] == [s[0]] + s[1..][..k'];
      assert s[k..] == s[1..][k'..];
    }
  }

  lemma InsertDescending(x: Item, s: seq<Item>)
    requires Descending(s)
    ensures Descending(Insert(x, s))
  {
    var k := InsertSplits(x, s);
    var r := Insert(x, s);
    assert forall i :: 0 <= i < |r| ==> r[i] == if i < k then s[i] else if i == k then x else s[i - 1];
  }

  lemma InsertMultiset(x: Item, s: seq<Item>)
    ensures multiset(Insert(x, s)) == multiset(s) + multiset{x}
    ensures forall y :: y in Insert(x, s) <==> y == x || y in s
  {
    var k := InsertSplits(x, s);
    assert s == s[..k] + s[k..];
  }

  lemma InsertDistinct(x: Item, s: seq<Item>)
    requires DistinctTokens(s) && forall i :: 0 <= i < |s| ==> s[i].0 != x.0
    ensures DistinctTokens(Insert(x, s))
  {
    var k := InsertSplits(x, s);
    var r := Insert(x, s);
    assert forall i :: 0 <= i < |r| ==> r[i] == if i < k then s[i] else if i == k then x else s[i - 1];
  }

  /** The sort yields the same items, by non-increasing count, and keeps
      distinct tokens distinct. */
  lemma SortByCountKeeps(items: seq<Item>)
    ensures Descending(SortByCount(items))
    ensures multiset(SortByCount(items)) == multiset(items)
    ensures |SortByCount(items)| == |items|
    ensures forall y :: y in SortByCount(items) <==> y in items
    ensures DistinctTokens(items) ==> DistinctTokens(SortByCount(items))
  {
    SortDescending(items);
    SortPermutes(items);
    assert |SortByCount(items)| == |multiset(SortByCount(items))|;
    if DistinctTokens(items) {
      SortDistinct(items);
    }
  }

  lemma {:induction false} SortDescending(items: seq<Item>)
    ensures Descending(SortByCount(items))
  {
    if items != [] {
      SortDescending(items[1..]);
      InsertDescending(items[0], SortByCount(items[1..]));
    }
  }

  lemma {:induction false} SortPermutes(items: seq<Item>)
    ensures multiset(SortByCount(items)) == multiset(items)
    ensures forall y :: y in SortByCount(items) <==> y in items
  {
    if items != [] {
      var rest := items[1..];
      SortPermutes(rest);
      InsertMultiset(items[0], SortByCount(rest));
      assert items == [items[0]] + rest;
      assert multiset(items) == multiset{items[0]} + multiset(rest);
    }
  }

  lemma {:induction false} SortDistinct(items: seq<Item>)
    requires DistinctTokens(items)
    ensures DistinctTokens(SortByCount(items))
  {
    if items != [] {
      var rest := items[1..];
      assert DistinctTokens(rest);
      SortDistinct(rest);
      SortPermutes(rest);
      var sorted := SortByCount(rest);
      forall i | 0 <= i < |sorted| ensures sorted[i].0 != items[0].0 {
        assert sorted[i] in rest;
        var j :| 0 <= j < |rest| && rest[j] == sorted[i];
        assert items[j + 1] == rest[j];
      }
      InsertDistinct(items[0], sorted);
    }
  }

  // -------------------------------------------------------- the output

  /** `items.truncate(n)`: at most the first `n` items. */
  function Truncate<T>(s: seq<T>, n: nat): (r: seq<T>)
    ensures |r| == if n < |s| then n else |s|
    ensures r == s[..|r|]
  {
    if n < |s| then s[..n] else s
  }

  /** The tokens of the items, in order. */
  function Tokens(items: seq<Item>): (ts: seq<string>)
    ensures |ts| == |items|
    ensures forall i :: 0 <= i < |items| ==> ts[i] == items[i].0
  {
    if items == [] then [] else Tokens(items[..|items| - 1]) + [items[|items| - 1].0]
  }

  /** The vocabulary `train_vocab` writes, one token per line. */
  function TrainedVocab(words: seq<string>, order: seq<string>, limit: Option<nat>): seq<string>
    requires Enumerates(order, CountsOf(words, {}))
  {
    var items := SortByCount(Items(CountsOf(words, {}), order));
    Tokens(if limit.Some? then Truncate(items, limit.value) else items)
  }

  lemma TokensPrefix(items: seq<Item>, i: nat)
    requires i < |items|
    ensures Tokens(items[..i + 1]) == Tokens(items[..i]) + [items[i].0]
  {
    assert items[..i + 1][..i] == items[..i];
  }

  /** `train_vocab`'s `main` after reading its arguments and the input. */
  method TrainVocab(text: string, order: seq<string>, limit: Option<nat>) returns (vocab: seq<string>)
    requires Enumerates(order, CountsOf(Words(text), {}))
    ensures vocab == TrainedVocab(Words(text), order, limit)
  {
    var counts := CountWords(Words(text), {});
    var items := Items(counts, order);
    items := SortByCount(items);
    if limit.Some? {
      items := Truncate(items, limit.value);
    }
    vocab := [];
    for i := 0 to |items|
      invariant vocab == Tokens(items[..i])
    {
      TokensPrefix(items, i);
      vocab := vocab + [items[i].0];
    }
    assert items[..|items|] == items;
  }

  /** The counted words sorted by count. */
  function Ranking(counts: map<string, nat>, order: seq<string>): seq<Item>
    requires forall i :: 0 <= i < |order| ==> order[i] in counts
  {
    SortByCount(Items(counts, order))
  }

  /** Each ranked item is a counted word with its count, and the ranking
      has one item per counted word. */
  lemma RankingCounts(counts: map<string, nat>, order: seq<string>)
    requires Enumerates(order, counts)
    ensures var s := Ranking(counts, order);
      |s| == |order| && forall i :: 0 <= i < |s| ==> s[i].0 in counts && s[i].1 == counts[s[i].0]
  {
    var items := Items(counts, order);
    SortByCountKeeps(items);
    var s := SortByCount(items);
    forall i | 0 <= i < |s| ensures s[i].0 in counts && s[i].1 == counts[s[i].0] {
      assert s[i] in items;
    }
  }

  lemma RankingDistinct(counts: map<string, nat>, order: seq<string>)
    requires Enumerates(order, counts)
    ensures DistinctTokens(Ranking(counts, order))
  {
    SortByCountKeeps(Items(counts, order));
  }

  lemma RankingDescending(counts: map<string, nat>, order: seq<string>)
    requires Enumerates(order, counts)
    ensures Descending(Ranking(counts, order))
  {
    SortByCountKeeps(Items(counts, order));
  }

  lemma RankingComplete(counts: map<string, nat>, order: seq<string>, w: string)
    requires Enumerates(order, counts) && w in counts
    ensures exists i :: 0 <= i < |Ranking(counts, order)| && Ranking(counts, order)[i].0 == w
  {
    var items := Items(counts, order);
    SortByCountKeeps(items);
    var j :| 0 <= j < |order| && order[j] == w;
    assert items[j] in Ranking(counts, order);
  }

  lemma {:induction false} DistinctCount(order: seq<string>, keys: set<string>)
    requires forall i, j :: 0 <= i < j < |order| ==> order[i] != order[j]
    requires forall w :: w in keys <==> w in order
    ensures |keys| == |order|
    decreases |order|
  {
    if order != [] {
      var last := order[|order| - 1];
      var init := order[..|order| - 1];
      forall w ensures w in keys - {last} <==> w in init {
        if w in order {
          var i :| 0 <= i < |order| && order[i] == w;
          if w != last { assert init[i] == w; }
        }
        if w in init {
          var i :| 0 <= i < |init| && init[i] == w;
          assert order[i] == w;
        }
      }
      DistinctCount(init, keys - {last});
    }
  }

  /** The number of distinct words is the length of their enumeration. */
  lemma EnumerationSize(order: seq<string>, m: map<string, nat>)
    requires Enumerates(order, m)
    ensures |m.Keys| == |order|
  {
    DistinctCount(order, m.Keys);
  }

  /** `train_vocab` writes the tokens of the first `limit` ranked items. */
  lemma TrainedIsRanked(words: seq<string>, order: seq<string>, limit: Option<nat>)
    requires Enumerates(order, CountsOf(words, {}))
    ensures var v := TrainedVocab(words, order, limit);
      var s := Ranking(CountsOf(words, {}), order);
      |v| == (if limit.Some? && limit.value < |order| then limit.value else |order|) &&
      forall i :: 0 <= i < |v| ==> v[i] == s[i].0
  {
    RankingCounts(CountsOf(words, {}), order);
  }

  /** Every written token is a word of the text. */
  lemma TrainedVocabWords(words: seq<string>, order: seq<string>, limit: Option<nat>)
    requires Enumerates(order, CountsOf(words, {}))
    ensures var v := TrainedVocab(words, order, limit);
      forall i :: 0 <= i < |v| ==> v[i] in words
  {
    TrainedIsRanked(words, order, limit);
    RankingCounts(CountsOf(words, {}), order);
  }

  /** The written tokens are distinct. */
  lemma TrainedVocabDistinct(words: seq<string>, order: seq<string>, limit: Option<nat>)
    requires Enumerates(order, CountsOf(words, {}))
    ensures var v := TrainedVocab(words, order, limit);
      forall i, j :: 0 <= i < j < |v| ==> v[i] != v[j]
  {
    TrainedIsRanked(words, order, limit);
    RankingDistinct(CountsOf(words, {}), order);
  }

  /** The written tokens come by non-increasing number of occurrences. */
  lemma TrainedVocabOrdered(words: seq<string>, order: seq<string>, limit: Option<nat>)
    requires Enumerates(order, CountsOf(words, {}))
    ensures var v := TrainedVocab(words, order, limit);
      forall i, j :: 0 <= i < j < |v| ==> multiset(words)[v[i]] >= multiset(words)[v[j]]
  {
    TrainedIsRanked(words, order, limit);
    RankingCounts(CountsOf(words, {}), order);
    RankingDescending(CountsOf(words, {}), order);
  }

  /** `min(limit, #distinct words)` tokens are written; without a limit,
      every word of the text is among them. */
  lemma TrainedVocabSize(words: seq<string>, order: seq<string>, limit: Option<nat>)
    requires Enumerates(order, CountsOf(words, {}))
    ensures var v := TrainedVocab(words, order, limit);
      var distinct := |CountsOf(words, {}).Keys|;
      |v| == (if limit.Some? && limit.value < distinct then limit.value else distinct) &&
      (limit.None? ==> forall w :: w in words ==> w in v)
  {
    var counts := CountsOf(words, {});
    TrainedIsRanked(words, order, limit);
    EnumerationSize(order, counts);
    var v := TrainedVocab(words, order, limit);
    var s := Ranking(counts, order);
    if limit.None? {
      forall w | w in words ensures w in v {
        RankingComplete(counts, order, w);
        var i :| 0 <= i < |s| && s[i].0 == w;
        assert v[i] == w;
      }
    }
  }

  // ------------------------------------------------------ update_vocab

  /** What `update_vocab` writes: the candidates are appended while the
      vocabulary is under the limit, and the result is cut to the limit. */
  function Appended(prior: seq<string>, candidates: seq<string>, limit: Option<nat>): (v: seq<string>)
    ensures limit.Some? ==> |v| <= limit.value
  {
    if limit.None? then prior + candidates
    else if |prior| >= limit.value then prior[..limit.value]
    else prior + Truncate(candidates, limit.value - |prior|)
  }

  function UpdatedVocab(prior: seq<string>, words: seq<string>, order: seq<string>, limit: Option<nat>): seq<string>
    requires Enumerates(order, CountsOf(words, set w | w in prior))
  {
    Appended(prior, Tokens(Ranking(CountsOf(words, set w | w in prior), order)), limit)
  }

  /** `update_vocab`'s `main` after reading its arguments and inputs. */
  method UpdateVocab(prior: seq<string>, text: string, order: seq<string>, limit: Option<nat>)
    returns (vocab: seq<string>)
    requires Enumerates(order, CountsOf(Words(text), set w | w in prior))
    ensures vocab == UpdatedVocab(prior, Words(text), order, limit)
  {
    var existing := set w | w in prior;
    var counts := CountWords(Words(text), existing);
    var items := SortByCount(Items(counts, order));
    vocab := Extend(prior, items, limit);
  }

  /** The append loop and the final truncation of `update_vocab`. (The
      source also adds each appended token to `existing`, which is not read
      again.) */
  method Extend(prior: seq<string>, items: seq<Item>, limit: Option<nat>) returns (vocab: seq<string>)
    ensures vocab == Appended(prior, Tokens(items), limit)
  {
    vocab := prior;
    ghost var candidates := Tokens(items);
    var i := 0;
    while i < |items|
      invariant i <= |items|
      invariant vocab == prior + candidates[..i]
      invariant limit.Some? && i > 0 ==> |vocab| <= limit.value
    {
      if limit.None? || |vocab| < limit.value {
        assert candidates[..i + 1] == candidates[..i] + [items[i].0];
        vocab := vocab + [items[i].0];
        i := i + 1;
      } else {
        break;
      }
    }
    if limit.Some? && |vocab| > limit.value {
      vocab := vocab[..limit.value];
    }
    assert candidates[..|items|] == candidates;
  }

  /** With a limit the result is never longer than it; if the prior
      vocabulary already reaches it, the result is its first `limit`
      lines, and otherwise the prior vocabulary is a prefix of the result. */
  lemma AppendedBounds(prior: seq<string>, candidates: seq<string>, limit: Option<nat>)
    ensures var v := Appended(prior, candidates, limit);
      (limit.Some? ==> |v| <= limit.value) &&
      (limit.Some? && |prior| >= limit.value ==> v == prior[..limit.value]) &&
      ((limit.None? || |prior| < limit.value) ==> |prior| <= |v| && v[..|prior|] == prior) &&
      (limit.None? ==> v == prior + candidates)
  {
    var v := Appended(prior, candidates, limit);
    if limit.None? || |prior| < limit.value {
      assert v[..|prior|] == prior;
    }
  }

  /** The words appended after the prior vocabulary are its first ranked
      candidates. */
  lemma UpdatedIsRanked(prior: seq<string>, words: seq<string>, order: seq<string>, limit: Option<nat>)
    requires Enumerates(order, CountsOf(words, set w | w in prior))
    requires limit.None? || |prior| < limit.value
    ensures var v := UpdatedVocab(prior, words, order, limit);
      var s := Ranking(CountsOf(words, set w | w in prior), order);
      |prior| <= |v| <= |prior| + |s| && v[..|prior|] == prior &&
      forall i :: |prior| <= i < |v| ==> v[i] == s[i - |prior|].0
  {
    var s := Ranking(CountsOf(words, set w | w in prior), order);
    AppendedBounds(prior, Tokens(s), limit);
  }

  /** The appended words are words of the text absent from the prior
      vocabulary. */
  lemma UpdatedVocabNew(prior: seq<string>, words: seq<string>, order: seq<string>, limit: Option<nat>)
    requires Enumerates(order, CountsOf(words, set w | w in prior))
    requires limit.None? || |prior| < limit.value
    ensures var v := UpdatedVocab(prior, words, order, limit);
      forall i :: |prior| <= i < |v| ==> v[i] in words && v[i] !in prior
  {
    UpdatedIsRanked(prior, words, order, limit);
    RankingCounts(CountsOf(words, set w | w in prior), order);
  }

  /** The appended words are distinct. */
  lemma UpdatedVocabDistinct(prior: seq<string>, words: seq<string>, order: seq<string>, limit: Option<nat>)
    requires Enumerates(order, CountsOf(words, set w | w in prior))
    requires limit.None? || |prior| < limit.value
    ensures var v := UpdatedVocab(prior, words, order, limit);
      forall i, j :: |prior| <= i < j < |v| ==> v[i] != v[j]
  {
    UpdatedIsRanked(prior, words, order, limit);
    RankingDistinct(CountsOf(words, set w | w in prior), order);
  }

  /** The appended words come by non-increasing count in the text. */
  lemma UpdatedVocabOrdered(prior: seq<string>, words: seq<string>, order: seq<string>, limit: Option<nat>)
    requires Enumerates(order, CountsOf(words, set w | w in prior))
    requires limit.None? || |prior| < limit.value
    ensures var v := UpdatedVocab(prior, words, order, limit);
      forall i, j :: |prior| <= i < j < |v| ==> multiset(words)[v[i]] >= multiset(words)[v[j]]
  {
    UpdatedIsRanked(prior, words, order, limit);
    RankingCounts(CountsOf(words, set w | w in prior), order);
    RankingDescending(CountsOf(words, set w | w in prior), order);
  }

  /** Without a limit every new word of the text is appended. */
  lemma UpdatedVocabComplete(prior: seq<string>, words: seq<string>, order: seq<string>)
    requires Enumerates(order, CountsOf(words, set w | w in prior))
    ensures forall w :: w in words && w !in prior ==> w in UpdatedVocab(prior, words, order, None)
  {
    var counts := CountsOf(words, set w | w in prior);
    var s := Ranking(counts, order);
    var v := UpdatedVocab(prior, words, order, None);
    UpdatedIsRanked(prior, words, order, None);
    forall w | w in words && w !in prior ensures w in v {
      RankingComplete(counts, order, w);
      var i :| 0 <= i < |s| && s[i].0 == w;
      assert v[|prior| + i] == w;
    }
  }
}
