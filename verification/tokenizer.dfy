/** The finite-state tokenizer (`FsmBasedTokenizer`) and the `tokenize`
    loop that drains it into a token list.

    Each anchored regular expression of the original becomes a prefix
    matcher over the remaining input `rest`, returning the match length or
    `None` when the pattern does not match.  The state table tries the
    matchers of the current state in registration order; the first match
    wins. */
module Tokenizer {
  import opened Wrappers
  import opened Tokens
  import Strings

  // ---------------------------------------------------------------------
  // Character classes

  predicate IsAsciiLetter(c: char) { 'a' <= c <= 'z' || 'A' <= c <= 'Z' }

  predicate IsAsciiDigit(c: char) { '0' <= c <= '9' }

  /** `[a-zA-Z_]` */
  predicate IsIdentStart(c: char) { IsAsciiLetter(c) || c == '_' }

  /** `[a-zA-Z0-9_]` */
  predicate IsIdentPart(c: char) { IsIdentStart(c) || IsAsciiDigit(c) }

  /** The characters Java's `.` refuses to match by default. */
  predicate IsLineTerminator(c: char)
  {
    c == '\n' || c == '\r' || c == '\U{0085}' || c == '\U{2028}' || c == '\U{2029}'
  }

  predicate StartsWith(s: seq<char>, p: seq<char>) { Strings.IsPrefix(p, s) }

  // ---------------------------------------------------------------------
  // Runs of single-character units

  /** Position `i` of `s` is one repetition of the text pattern: any
      character but `$` and `<`, a `$` not followed by `{`, a letter or `_`,
      or a `<` not followed by `%`.  The look-ahead sees the whole remaining
      input, not just the run. */
  predicate TextUnitAt(s: seq<char>, i: nat)
  {
    && i < |s|
    && (s[i] == '$' ==> !(i + 1 < |s| && (s[i + 1] == '{' || IsIdentStart(s[i + 1]))))
    && (s[i] == '<' ==> !(i + 1 < |s| && s[i + 1] == '%'))
  }

  /** Position `i` continues a dotted identifier path: an identifier
      character, or a `.` immediately followed by an identifier start. */
  predicate PathUnitAt(s: seq<char>, i: nat)
  {
    && i < |s|
    && (IsIdentPart(s[i]) || (s[i] == '.' && i + 1 < |s| && IsIdentStart(s[i + 1])))
  }

  /** Every position in `[from, to)` satisfies `unit`. */
  predicate AllUnits(s: seq<char>, from: nat, to: nat, unit: (seq<char>, nat) -> bool)
  {
    forall k :: from <= k < to ==> unit(s, k)
  }

  /** The end of the longest run of `unit` positions starting at `i`
      (a greedy `+`/`*` over single-character alternatives). */
  function LongestRun(s: seq<char>, i: nat, unit: (seq<char>, nat) -> bool): (n: nat)
    requires i <= |s|
    ensures i <= n <= |s|
    ensures AllUnits(s, i, n, unit)
    ensures n == |s| || !unit(s, n)
    decreases |s| - i
  {
    if i < |s| && unit(s, i) then LongestRun(s, i + 1, unit) else i
  }

  // ---------------------------------------------------------------------
  // The six matchers

  /** `^(?:[\w\W&&[^\$<]]|(?:\$(?![{a-zA-Z_]))|(?:<(?!%)))+` */
  function MatchText(s: seq<char>): (r: Option<nat>)
    ensures r.Some? <==> TextUnitAt(s, 0)
    ensures r.Some? ==> 1 <= r.value <= |s| && AllUnits(s, 0, r.value, TextUnitAt)
    ensures r.Some? ==> r.value == |s| || !TextUnitAt(s, r.value)
  {
    var n := LongestRun(s, 0, TextUnitAt);
    if n == 0 then None else Some(n)
  }

  /** A dollar path `$ident(.ident)*` spelled out character by character. */
  predicate IsDottedPath(q: seq<char>)
  {
    |q| >= 1 && IsIdentStart(q[0]) && forall i :: 0 <= i < |q| ==> PathUnitAt(q, i)
  }

  /** `^\$[a-zA-Z_][a-zA-Z0-9_]*(?:\.[a-zA-Z_][a-zA-Z0-9_]*)*` */
  function MatchDollarReference(s: seq<char>): (r: Option<nat>)
    ensures r.Some? <==> |s| >= 2 && s[0] == '$' && IsIdentStart(s[1])
    ensures r.Some? ==> 2 <= r.value <= |s| && IsDottedPath(s[1..r.value])
    ensures r.Some? ==> forall m :: r.value < m <= |s| ==> !IsDottedPath(s[1..m])
  {
    if |s| >= 2 && s[0] == '$' && IsIdentStart(s[1]) then
      var n := LongestRun(s, 1, PathUnitAt);
      DottedRunIsPath(s, n);
      DottedRunIsLongest(s, n);
      Some(n)
    else
      None
  }

  lemma DottedRunIsPath(s: seq<char>, n: nat)
    requires 2 <= |s| && IsIdentStart(s[1])
    requires 1 <= n <= |s| && AllUnits(s, 1, n, PathUnitAt)
    requires n == |s| || !PathUnitAt(s, n)
    ensures n >= 2
    ensures IsDottedPath(s[1..n])
  {
    assert PathUnitAt(s, 1);
    var q := s[1..n];
    forall i | 0 <= i < |q|
      ensures PathUnitAt(q, i)
    {
      assert PathUnitAt(s, i + 1);
      if !IsIdentPart(q[i]) {
        // a '.' at the end of the run would make the next position a unit
        assert s[i + 1] == '.' && IsIdentStart(s[i + 2]);
        assert PathUnitAt(s, i + 2);
        assert i + 2 < n;
      }
    }
  }

  lemma DottedRunIsLongest(s: seq<char>, n: nat)
    requires 2 <= n <= |s|
    requires n == |s| || !PathUnitAt(s, n)
    ensures forall m :: n < m <= |s| ==> !IsDottedPath(s[1..m])
  {
    forall m | n < m <= |s|
      ensures !IsDottedPath(s[1..m])
    {
      var q := s[1..m];
      assert q[n - 1] == s[n] && n < |s|;
      assert !PathUnitAt(s, n);
      assert !PathUnitAt(q, n - 1);
    }
  }

  /** `^<%(?!=)` */
  function MatchBlockScriptletOpen(s: seq<char>): (r: Option<nat>)
    ensures r.Some? <==> StartsWith(s, "<%") && !StartsWith(s, "<%=")
    ensures r.Some? ==> r.value == 2
  {
    if |s| >= 2 && s[0] == '<' && s[1] == '%' && !(|s| >= 3 && s[2] == '=') then Some(2) else None
  }

  /** `^<%=` */
  function MatchExpressionScriptletOpen(s: seq<char>): (r: Option<nat>)
    ensures r.Some? <==> StartsWith(s, "<%=")
    ensures r.Some? ==> r.value == 3
  {
    if |s| >= 3 && s[0] == '<' && s[1] == '%' && s[2] == '=' then Some(3) else None
  }

  /** `n` is a candidate length for `^.+?(?=%>)`: at least one character,
      no line terminator in the first `n` characters, and `%>` right after. */
  predicate BodyEndsAt(s: seq<char>, n: nat)
  {
    && 1 <= n
    && n + 2 <= |s|
    && s[n] == '%' && s[n + 1] == '>'
    && forall j :: 0 <= j < n ==> !IsLineTerminator(s[j])
  }

  /** The reluctant scan behind `^.+?(?=%>)`, having already consumed
      `k - 1` characters. */
  function ScanBody(s: seq<char>, k: nat): (r: Option<nat>)
    requires 1 <= k <= |s| + 1
    requires forall j :: 0 <= j < k - 1 ==> !IsLineTerminator(s[j])
    requires forall m :: 1 <= m < k ==> !BodyEndsAt(s, m)
    ensures r.Some? ==> BodyEndsAt(s, r.value) && forall m :: 1 <= m < r.value ==> !BodyEndsAt(s, m)
    ensures r.None? ==> forall m :: !BodyEndsAt(s, m)
    decreases |s| - k + 1
  {
    if k > |s| then
      None
    else if IsLineTerminator(s[k - 1]) then
      None
    else if k + 2 <= |s| && s[k] == '%' && s[k + 1] == '>' then
      Some(k)
    else
      ScanBody(s, k + 1)
  }

  /** `^.+?(?=%>)`: the shortest non-empty prefix without line terminators
      that is immediately followed by `%>`. */
  function MatchScriptletBody(s: seq<char>): (r: Option<nat>)
    ensures r.Some? ==> BodyEndsAt(s, r.value)
    ensures r.Some? ==> forall m :: 1 <= m < r.value ==> !BodyEndsAt(s, m)
    ensures r.None? ==> forall m :: !BodyEndsAt(s, m)
  {
    ScanBody(s, 1)
  }

  /** `^%>` */
  function MatchScriptletClose(s: seq<char>): (r: Option<nat>)
    ensures r.Some? <==> StartsWith(s, "%>")
    ensures r.Some? ==> r.value == 2
  {
    if |s| >= 2 && s[0] == '%' && s[1] == '>' then Some(2) else None
  }

  // ---------------------------------------------------------------------
  // The state table

  /** What one successful transition produces: the token kind, its length
      and the state shifted to. */
  datatype Lexeme = Lexeme(kind: TokenKind, length: nat, next: LexState)

  /** The configurations the tokenizer can be in when started in the text
      state: the text and scriptlet-body states, and the scriptlet-close
      state only with `%>` ahead (it is entered solely after a body whose
      look-ahead saw `%>`).  The other states have no rows in the table. */
  predicate Reachable(state: LexState, rest: seq<char>)
  {
    || state == TextState
    || state == ScriptletBodyState
    || (state == ScriptletCloseState && StartsWith(rest, "%>"))
  }

  /** The kinds the state table can produce. */
  predicate IsLexedKind(k: TokenKind)
  {
    k in {Text, DollarReference, BlockScriptletOpen, ExpressionScriptletOpen, ScriptletBody, ScriptletClose}
  }

  /** The text row set: text run, dollar reference, block-scriptlet open,
      expression-scriptlet open, else no match. */
  function StepText(rest: seq<char>): (r: Option<Lexeme>)
    ensures r.None? <==> |rest| == 0 || StartsWith(rest, "${")
    ensures TextUnitAt(rest, 0) ==>
      && r.Some? && r.value.kind == Text && r.value.next == TextState
      && 1 <= r.value.length
      && AllUnits(rest, 0, r.value.length, TextUnitAt)
      && (r.value.length == |rest| || !TextUnitAt(rest, r.value.length))
    ensures |rest| >= 2 && rest[0] == '$' && IsIdentStart(rest[1]) ==>
      && r.Some? && r.value.kind == DollarReference && r.value.next == TextState
      && 2 <= r.value.length <= |rest|
      && IsDottedPath(rest[1..r.value.length])
      && forall m :: r.value.length < m <= |rest| ==> !IsDottedPath(rest[1..m])
    ensures StartsWith(rest, "<%") && !StartsWith(rest, "<%=") ==>
      r == Some(Lexeme(BlockScriptletOpen, 2, ScriptletBodyState))
    ensures StartsWith(rest, "<%=") ==>
      r == Some(Lexeme(ExpressionScriptletOpen, 3, ScriptletBodyState))
  {
    if MatchText(rest).Some? then
      Some(Lexeme(Text, MatchText(rest).value, TextState))
    else if MatchDollarReference(rest).Some? then
      Some(Lexeme(DollarReference, MatchDollarReference(rest).value, TextState))
    else if MatchBlockScriptletOpen(rest).Some? then
      Some(Lexeme(BlockScriptletOpen, MatchBlockScriptletOpen(rest).value, ScriptletBodyState))
    else if MatchExpressionScriptletOpen(rest).Some? then
      Some(Lexeme(ExpressionScriptletOpen, MatchExpressionScriptletOpen(rest).value, ScriptletBodyState))
    else
      None
  }

  /** The scriptlet-body row set: the body is tried before the close, so a
      close is produced only when no body can end before a `%>`. */
  function StepScriptletBody(rest: seq<char>): (r: Option<Lexeme>)
    ensures r.Some? && r.value.kind == ScriptletBody ==>
      && r.value.next == ScriptletCloseState
      && BodyEndsAt(rest, r.value.length)
      && forall m :: 1 <= m < r.value.length ==> !BodyEndsAt(rest, m)
    ensures (r.Some? && r.value.kind == ScriptletBody) <==> exists m :: BodyEndsAt(rest, m)
    ensures (forall m :: !BodyEndsAt(rest, m)) ==>
      if StartsWith(rest, "%>") then r == Some(Lexeme(ScriptletClose, 2, TextState)) else r.None?
  {
    if MatchScriptletBody(rest).Some? then
      Some(Lexeme(ScriptletBody, MatchScriptletBody(rest).value, ScriptletCloseState))
    else if MatchScriptletClose(rest).Some? then
      Some(Lexeme(ScriptletClose, MatchScriptletClose(rest).value, TextState))
    else
      None
  }

  /** One application of the state table to the remaining input; `None`
      is the no-match row, which leaves the tokenizer exhausted.  The
      scriptlet-close state has a single row, `%>`, which always matches in
      a reachable configuration. */
  function Step(state: LexState, rest: seq<char>): (r: Option<Lexeme>)
    requires Reachable(state, rest)
    ensures r.Some? ==> 1 <= r.value.length <= |rest|
    ensures r.Some? ==> Reachable(r.value.next, rest[r.value.length..])
    ensures r.Some? ==> IsLexedKind(r.value.kind)
    ensures r.Some? && r.value.kind == ScriptletBody ==>
      state == ScriptletBodyState && r.value.next == ScriptletCloseState
    ensures state == ScriptletCloseState ==> r == Some(Lexeme(ScriptletClose, 2, TextState))
  {
    match state
    case TextState => StepText(rest)
    case ScriptletBodyState =>
      var r := StepScriptletBody(rest);
      if r.Some? && r.value.kind == ScriptletBody then
        assert StartsWith(rest[r.value.length..], "%>");
        r
      else
        r
    case ScriptletCloseState =>
      Some(Lexeme(ScriptletClose, MatchScriptletClose(rest).value, TextState))
  }

  // ---------------------------------------------------------------------
  // The tokenizer object

  /** The tokenizer's fields: the input, `currentIndex`, the state machine's
      state, `currentTokenState` (the state the current token was lexed in)
      and the buffered current token (`None` once exhausted). */
  datatype Lexer = Lexer(
    input: seq<char>,
    index: nat,
    state: LexState,
    tokenState: LexState,
    current: Option<Token>)

  /** The invariant every tokenizer reached through `Start` and `Advance`
      keeps: the current token starts at `currentIndex`, is non-empty, lies
      inside the input, has a kind of the state table (a body only when
      the machine then waits for the close), and the state machine can
      continue after it. */
  predicate Valid(l: Lexer)
  {
    && l.index <= |l.input|
    && (l.current.Some? ==>
          && l.current.value.start == l.index
          && l.index < l.current.value.end <= |l.input|
          && IsLexedKind(l.current.value.kind)
          && (l.current.value.kind == ScriptletBody ==> l.state == ScriptletCloseState)
          && Reachable(l.state, l.input[l.current.value.end..]))
  }

  /** `pullToken`: apply the state table to `input[index..]` and buffer the
      resulting token, or nothing when no row matches. */
  function Pull(input: seq<char>, index: nat, state: LexState): (l: Lexer)
    requires index <= |input| && Reachable(state, input[index..])
    ensures Valid(l) && l.input == input && l.index == index && l.tokenState == state
    ensures l.current.Some? <==> Step(state, input[index..]).Some?
    ensures l.current.Some? ==>
      var x := Step(state, input[index..]).value;
      l.current.value == Token(x.kind, index, index + x.length) && l.state == x.next
    ensures l.current.None? ==> l.state == state
  {
    var rest := input[index..];
    match Step(state, rest)
    case None => Lexer(input, index, state, state, None)
    case Some(x) =>
      assert input[index + x.length..] == rest[x.length..];
      Lexer(input, index, x.next, state, Some(Token(x.kind, index, index + x.length)))
  }

  /** `start(input, 0, |input|, TEXT)` on a fresh tokenizer. */
  function Start(input: seq<char>): (l: Lexer)
    ensures Valid(l) && l.input == input && l.index == 0 && l.tokenState == TextState
    ensures l.current.Some? <==> Step(TextState, input).Some?
  {
    assert input[0..] == input;
    Pull(input, 0, TextState)
  }

  /** `advance`: move `currentIndex` to the end of the current token and
      pull the next one; with no current token it throws. */
  function Advance(l: Lexer): (r: Outcome<Lexer>)
    requires Valid(l)
    ensures r.Failure? <==> l.current.None?
    ensures r.Failure? ==> r.fault.IllegalState?
    ensures r.Success? ==>
      && Valid(r.value)
      && r.value.input == l.input
      && r.value.index == l.current.value.end
      && r.value.index > l.index
  {
    if l.current.None? then
      Failure(IllegalState("cannot advance; this.currentToken is null"))
    else
      Success(Pull(l.input, l.current.value.end, l.state))
  }

  /** The tokens a tokenizer yields from its current one until it is
      exhausted. */
  function Drain(l: Lexer): seq<Token>
    requires Valid(l)
    decreases |l.input| - l.index
  {
    if l.current.None? then [] else [l.current.value] + Drain(Advance(l).value)
  }

  /** `tokenize(input)`, i.e. `tokenize(input, 0, |input|, TEXT)`. */
  function Tokenize(input: seq<char>): seq<Token>
  {
    Drain(Start(input))
  }

  /** The default `tokenize` loop as written: `start` once, then add the
      current token and `advance` until the current token is absent.  The
      ghost count records how often `advance` was called. */
  method TokenizeLoop(input: seq<char>) returns (tokens: seq<Token>, ghost advances: nat)
    ensures tokens == Tokenize(input)
    ensures advances == |tokens|
  {
    var l := Start(input);
    tokens := [];
    advances := 0;
    while l.current.Some?
      invariant Valid(l) && l.input == input
      invariant tokens + Drain(l) == Tokenize(input)
      invariant advances == |tokens|
      decreases |input| - l.index
    {
      tokens := tokens + [l.current.value];
      var next := Advance(l);
      assert next.Success?;
      l := next.value;
      advances := advances + 1;
    }
  }
}
