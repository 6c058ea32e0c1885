/** What the token list produced by `tokenize` looks like. */
module TokenizerProperties {
  import opened Wrappers
  import opened Tokens
  import opened Tokenizer
  import Strings

  /** The tokens are non-empty, lie inside the input and follow each other
      without gaps, the first one starting at `from`. */
  predicate Contiguous(ts: seq<Token>, from: int, input: seq<char>)
  {
    forall i :: 0 <= i < |ts| ==>
      && ts[i].start == (if i == 0 then from else ts[i - 1].end)
      && 0 <= ts[i].start < ts[i].end <= |input|
  }

  /** Where the last token ends (`from` when there is none). */
  function EndOf(ts: seq<Token>, from: int): int
  {
    if |ts| == 0 then from else ts[|ts| - 1].end
  }

  /** The source text each token covers, concatenated in order. */
  function Spelling(ts: seq<Token>, input: seq<char>): string
    requires forall i :: 0 <= i < |ts| ==> 0 <= ts[i].start <= ts[i].end <= |input|
  {
    if |ts| == 0 then ""
    else input[ts[0].start..ts[0].end] + Spelling(ts[1..], input)
  }

  lemma ContiguousCons(t: Token, ts: seq<Token>, from: int, input: seq<char>)
    requires t.start == from && 0 <= from < t.end <= |input|
    requires Contiguous(ts, t.end, input)
    ensures Contiguous([t] + ts, from, input)
  {
    var all := [t] + ts;
    forall i | 0 <= i < |all|
      ensures all[i].start == (if i == 0 then from else all[i - 1].end)
      ensures 0 <= all[i].start < all[i].end <= |input|
    {
      if i == 1 {
        assert all[0] == t && all[1] == ts[0];
      } else if i > 1 {
        assert all[i] == ts[i - 1] && all[i - 1] == ts[i - 2];
      }
    }
  }

  lemma SpellingCons(t: Token, ts: seq<Token>, input: seq<char>)
    requires 0 <= t.start <= t.end <= |input|
    requires forall i :: 0 <= i < |ts| ==> 0 <= ts[i].start <= ts[i].end <= |input|
    ensures Spelling([t] + ts, input) == input[t.start..t.end] + Spelling(ts, input)
  {
    assert ([t] + ts)[1..] == ts;
  }

  /** Draining a tokenizer yields contiguous tokens whose spelling is
      exactly the input consumed from `currentIndex` on. */
  lemma {:induction false} DrainCoversInput(l: Lexer)
    requires Valid(l)
    ensures Covers(Drain(l), l.index, l.input)
    decreases |l.input| - l.index
  {
    if l.current.Some? {
      var l' := Advance(l).value;
      DrainCoversInput(l');
      assert Drain(l) == [l.current.value] + Drain(l');
      CoversCons(l.current.value, Drain(l'), l.index, l.input);
    }
  }

  /** Contiguous tokens from `from` that spell exactly the input between
      `from` and the end of the last one. */
  predicate Covers(ts: seq<Token>, from: int, input: seq<char>)
  {
    && Contiguous(ts, from, input)
    && 0 <= from <= EndOf(ts, from) <= |input|
    && Spelling(ts, input) == input[from..EndOf(ts, from)]
  }

  lemma CoversCons(t: Token, rest: seq<Token>, from: int, input: seq<char>)
    requires t.start == from && 0 <= from < t.end <= |input|
    requires Covers(rest, t.end, input) == true
    ensures Covers([t] + rest, from, input)
  {
    ContiguousCons(t, rest, from, input);
    SpellingCons(t, rest, input);
    var e := EndOf(rest, t.end);
    assert EndOf([t] + rest, from) == e;
    assert input[from..e] == input[from..t.end] + input[t.end..e];
  }

  /** Property of `tokenize`: contiguous, non-empty tokens from offset 0 whose
      concatenated spelling reproduces the consumed prefix of the input. */
  lemma TokenizeCoversPrefix(input: seq<char>)
    ensures Contiguous(Tokenize(input), 0, input)
    ensures 0 <= EndOf(Tokenize(input), 0) <= |input|
    ensures Spelling(Tokenize(input), input) == input[..EndOf(Tokenize(input), 0)]
  {
    DrainCoversInput(Start(input));
  }

  /** When tokenizing reaches the end of the input, the tokens spell the
      whole input. */
  lemma TokenizeRoundTrip(input: seq<char>)
    requires EndOf(Tokenize(input), 0) == |input|
    ensures Contiguous(Tokenize(input), 0, input) && Spelling(Tokenize(input), input) == input
  {
    TokenizeCoversPrefix(input);
    assert input[..|input|] == input;
  }

  /** Every token is of a kind in the state table, and every scriptlet body
      is immediately followed by a scriptlet close. */
  lemma {:induction false} DrainShape(l: Lexer)
    requires Valid(l)
    ensures forall i :: 0 <= i < |Drain(l)| ==> IsLexedKind(Drain(l)[i].kind)
    ensures forall i :: 0 <= i < |Drain(l)| && Drain(l)[i].kind == ScriptletBody ==>
      i + 1 < |Drain(l)| && Drain(l)[i + 1].kind == ScriptletClose
    decreases |l.input| - l.index
  {
    if l.current.Some? {
      var t := l.current.value;
      var l' := Advance(l).value;
      DrainShape(l');
      var ts := Drain(l);
      assert ts == [t] + Drain(l');
      if t.kind == ScriptletBody {
        assert l'.current.Some? && l'.current.value.kind == ScriptletClose;
      }
      forall i | 0 <= i < |ts| && ts[i].kind == ScriptletBody
        ensures i + 1 < |ts| && ts[i + 1].kind == ScriptletClose
      {
        if i > 0 {
          assert ts[i] == Drain(l')[i - 1];
        }
      }
    }
  }

  lemma TokenizeShape(input: seq<char>)
    ensures forall i :: 0 <= i < |Tokenize(input)| ==> IsLexedKind(Tokenize(input)[i].kind)
    ensures forall i :: 0 <= i < |Tokenize(input)| && Tokenize(input)[i].kind == ScriptletBody ==>
      i + 1 < |Tokenize(input)| && Tokenize(input)[i + 1].kind == ScriptletClose
  {
    DrainShape(Start(input));
  }

  /** Input in which every character is plain text (no `$` before `{`, a
      letter or `_`, and no `<%`) is one TEXT token, or none when empty. */
  lemma PlainTextIsOneToken(input: seq<char>)
    requires AllUnits(input, 0, |input|, TextUnitAt)
    ensures Tokenize(input) == if |input| == 0 then [] else [Token(Text, 0, |input|)]
  {
    var l := Start(input);
    assert input[0..] == input;
    if |input| > 0 {
      assert TextUnitAt(input, 0);
      var x := StepText(input).value;
      assert x.length < |input| ==> TextUnitAt(input, x.length);
      assert x.length == |input|;
      assert l.current == Some(Token(Text, 0, |input|));
      var l' := Advance(l).value;
      assert l'.index == |input|;
      assert l'.input[l'.index..] == [];
      assert l'.current.None?;
      assert Drain(l) == [l.current.value] + Drain(l');
    } else {
      assert l.current.None?;
    }
  }
}
