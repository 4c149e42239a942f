/**
  The line-by-line training corpus (core/src/dataset.rs). The file is the
  sequence of lines that successive `read_line` calls return, each with its
  line terminator; the reader's cursor is the index of the next unread line.
*/
module Datasets {
  import opened Texts
  import opened Tokenizers
  import opened Wrappers

  /** An `(input, target)` pair of token id sequences. */
  datatype Sample = Sample(input: seq<nat>, target: seq<nat>)

  /** The ids of one line as `next_sample` computes them. */
  function LineTokens(t: Tokenizer, line: string): seq<nat>
  {
    Encode(t, TrimEnd(line))
  }

  /** A line yields a sample iff it has at least two tokens. */
  predicate Usable(t: Tokenizer, line: string)
  {
    |LineTokens(t, line)| > 1
  }

  /** The input/target pair shifted by one token. */
  function Shifted(tokens: seq<nat>): (s: Sample)
    requires |tokens| > 1
    ensures |s.input| == |s.target| == |tokens| - 1
    ensures forall i :: 0 <= i < |s.input| ==> s.input[i] == tokens[i] && s.target[i] == tokens[i + 1]
  {
    Sample(tokens[..|tokens| - 1], tokens[1..])
  }

  /** What one call of `next_sample` returns when the cursor is at `pos`,
      and where it leaves the cursor: lines with fewer than two tokens are
      skipped; at the end of the file the result is `None`. */
  function Next(t: Tokenizer, lines: seq<string>, pos: nat): (r: (Option<Sample>, nat))
    requires pos <= |lines|
    ensures pos <= r.1 <= |lines|
    ensures pos < |lines| ==> pos < r.1
    ensures r.0.None? ==> r.1 == |lines|
    decreases |lines| - pos
  {
    if pos == |lines| then (None, pos)
    else
      var tokens := LineTokens(t, lines[pos]);
      if |tokens| > 1 then (Some(Shifted(tokens)), pos + 1)
      else Next(t, lines, pos + 1)
  }

  class TextDataset {
    const tokenizer: Tokenizer
    /** The lines of the file, as `read_line` returns them. */
    const lines: seq<string>
    /** How many lines the reader has consumed. */
    var pos: nat

    ghost predicate Valid()
      reads this
    {
      pos <= |lines|
    }

    /** `TextDataset::open`: a reader at the start of the file. */
    constructor Open(lines: seq<string>, tokenizer: Tokenizer)
      ensures Valid()
      ensures this.lines == lines && this.tokenizer == tokenizer && pos == 0
    {
      this.lines := lines;
      this.tokenizer := tokenizer;
      pos := 0;
    }

    /** `next_sample`: reads lines into a buffer that is cleared after each
        one, until a line has two tokens or the file ends. */
    method NextSample() returns (r: Option<Sample>)
      requires Valid()
      modifies this
      ensures Valid()
      ensures (r, pos) == Next(tokenizer, lines, old(pos))
    {
      var line: string := "";
      while true
        invariant pos <= |lines| && line == ""
        invariant Next(tokenizer, lines, pos) == Next(tokenizer, lines, old(pos))
        decreases |lines| - pos
      {
        if pos == |lines| {
          return None;
        }
        line := line + lines[pos];
        assert line == lines[pos];
        var tokens := Encode(tokenizer, TrimEnd(line));
        line := "";
        pos := pos + 1;
        if |tokens| > 1 {
          return Some(Sample(tokens[..|tokens| - 1], tokens[1..]));
        }
      }
    }
  }

  /** Trimming the line terminator does not change the ids. */
  lemma LineTokensOfRaw(t: Tokenizer, line: string)
    ensures LineTokens(t, line) == Encode(t, line)
  {
    WordsOfTrimEnd(line);
  }

  /** A returned sample comes from the first usable line at or after the
      cursor; every line before it is skipped. */
  lemma NextSome(t: Tokenizer, lines: seq<string>, pos: nat)
    requires pos <= |lines|
    requires Next(t, lines, pos).0.Some?
    ensures var (r, p) := Next(t, lines, pos);
      pos < p && Usable(t, lines[p - 1]) && r.value == Shifted(LineTokens(t, lines[p - 1])) &&
      forall k :: pos <= k < p - 1 ==> !Usable(t, lines[k])
  {
    NextFound(t, lines, pos);
    NextSkips(t, lines, pos);
  }

  lemma {:induction false} NextFound(t: Tokenizer, lines: seq<string>, pos: nat)
    requires pos <= |lines|
    requires Next(t, lines, pos).0.Some?
    ensures var (r, p) := Next(t, lines, pos);
      pos < p && Usable(t, lines[p - 1]) && r.value == Shifted(LineTokens(t, lines[p - 1]))
    decreases |lines| - pos
  {
    if !Usable(t, lines[pos]) {
      NextFound(t, lines, pos + 1);
    }
  }

  lemma {:induction false} NextSkips(t: Tokenizer, lines: seq<string>, pos: nat)
    requires pos <= |lines|
    ensures forall k :: pos <= k < Next(t, lines, pos).1 - 1 ==> !Usable(t, lines[k])
    decreases |lines| - pos
  {
    if pos < |lines| && !Usable(t, lines[pos]) {
      NextSkips(t, lines, pos + 1);
    }
  }

  /** The result is `None` exactly when no remaining line is usable; the
      whole file is then consumed. */
  lemma {:induction false} NextNone(t: Tokenizer, lines: seq<string>, pos: nat)
    requires pos <= |lines|
    ensures Next(t, lines, pos).0.None? <==> forall k :: pos <= k < |lines| ==> !Usable(t, lines[k])
    ensures Next(t, lines, pos).0.None? ==> Next(t, lines, pos).1 == |lines|
    decreases |lines| - pos
  {
    if pos < |lines| {
      NextNone(t, lines, pos + 1);
      if !Usable(t, lines[pos]) {
        assert forall k :: pos <= k < |lines| ==> !Usable(t, lines[k]) <==>
          (pos + 1 <= k < |lines| ==> !Usable(t, lines[k]));
      }
    }
  }

  /** Once `None` is returned, every later call returns `None` again. */
  lemma NoneStays(t: Tokenizer, lines: seq<string>, pos: nat)
    requires pos <= |lines|
    requires Next(t, lines, pos).0.None?
    ensures Next(t, lines, Next(t, lines, pos).1) == (None, |lines|)
  {
  }

  /** The unit test `iterate_samples`: with the vocabulary
      `[hello, world, foo, bar]`, the file `"hello world\nfoo bar\n"` (its
      two lines written as their words, separator and newline) gives
      `([0], [1])`, then `([2], [3])`, then `None`. */
  lemma IterateSamplesExample()
    ensures var t := Tokenizer(IndexOf(["hello", "world", "foo", "bar"]), ["hello", "world", "foo", "bar"], 0);
      var lines := ["hello" + " " + "world" + "\n", "foo" + " " + "bar" + "\n"];
      Next(t, lines, 0) == (Some(Sample([0], [1])), 1) &&
      Next(t, lines, 1) == (Some(Sample([2], [3])), 2) &&
      Next(t, lines, 2) == (None, 2)
  {
    ExampleLines();
    TwoSamples(Tokenizer(IndexOf(["hello", "world", "foo", "bar"]), ["hello", "world", "foo", "bar"], 0),
      ["hello" + " " + "world" + "\n", "foo" + " " + "bar" + "\n"], [0, 1], [2, 3]);
  }

  lemma TwoSamples(t: Tokenizer, lines: seq<string>, first: seq<nat>, second: seq<nat>)
    requires |lines| == 2 && |first| == 2 && |second| == 2
    requires LineTokens(t, lines[0]) == first && LineTokens(t, lines[1]) == second
    ensures Next(t, lines, 0) == (Some(Sample([first[0]], [first[1]])), 1)
    ensures Next(t, lines, 1) == (Some(Sample([second[0]], [second[1]])), 2)
    ensures Next(t, lines, 2) == (None, 2)
  {
    assert Shifted(first) == Sample([first[0]], [first[1]]);
    assert Shifted(second) == Sample([second[0]], [second[1]]);
  }

  lemma ExampleLines()
    ensures var t := Tokenizer(IndexOf(["hello", "world", "foo", "bar"]), ["hello", "world", "foo", "bar"], 0);
      LineTokens(t, "hello" + " " + "world" + "\n") == [0, 1] && LineTokens(t, "foo" + " " + "bar" + "\n") == [2, 3]
  {
    ExampleLookups();
    ExampleLine("hello", "world");
    ExampleLine("foo", "bar");
  }

  lemma ExampleLine(a: string, b: string)
    requires a in ["hello", "world", "foo", "bar"] && b in ["hello", "world", "foo", "bar"]
    ensures var t := Tokenizer(IndexOf(["hello", "world", "foo", "bar"]), ["hello", "world", "foo", "bar"], 0);
      LineTokens(t, a + " " + b + "\n") == [Lookup(t, a), Lookup(t, b)]
  {
    ExampleWords(a);
    ExampleWords(b);
    TwoWordLine(Tokenizer(IndexOf(["hello", "world", "foo", "bar"]), ["hello", "world", "foo", "bar"], 0), a, b);
  }

  lemma ExampleWords(w: string)
    requires w in ["hello", "world", "foo", "bar"]
    ensures IsWord(w)
  {
    assert w == "hello" || w == "world" || w == "foo" || w == "bar";
  }

  lemma ExampleLookups()
    ensures var t := Tokenizer(IndexOf(["hello", "world", "foo", "bar"]), ["hello", "world", "foo", "bar"], 0);
      Lookup(t, "hello") == 0 && Lookup(t, "world") == 1 && Lookup(t, "foo") == 2 && Lookup(t, "bar") == 3
  {
    var vocab := ["hello", "world", "foo", "bar"];
    LastIndexWins(vocab, "hello");
    LastIndexWins(vocab, "world");
    LastIndexWins(vocab, "foo");
    LastIndexWins(vocab, "bar");
  }

  /** A line of two words and a newline gives the ids of the two words. */
  lemma TwoWordLine(t: Tokenizer, a: string, b: string)
    requires IsWord(a) && IsWord(b)
    ensures LineTokens(t, a + " " + b + "\n") == [Lookup(t, a), Lookup(t, b)]
  {
    LineTokensOfRaw(t, a + " " + b + "\n");
    assert Join([a, b]) == a + " " + b;
    assert forall i :: 0 <= i < |"\n"| ==> IsSpace("\n"[i]);
    WordsOfSpaceSuffix(Join([a, b]), "\n");
    WordsOfJoin([a, b]);
    EncodeOfWords(t, a + " " + b + "\n", [a, b], [Lookup(t, a), Lookup(t, b)]);
  }
}
