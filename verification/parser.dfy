/** `StandardGstParser` and its permissive subclass `ExtendedGstParser`: a
    recursive-descent parser over a token list read through the list
    cursor. Each production reports the nodes it adds to the enclosing
    frame; the accumulator calls that build them are modelled, call by
    call, in `ParserEvents`. */
module Parser {
  import opened Wrappers
  import opened Tokens
  import opened Diagnostics
  import opened Ast
  import opened TokenCursor
  import Strings

  /** The two parser classes: they differ only in `isImportBlockPermitted`. */
  datatype Mode = Standard | Extended

  function IsImportBlockPermitted(m: Mode): bool
  {
    m.Extended?
  }

  /** `ExtendedGstParser.toString`. */
  const ExtendedParserText: string := "ExtendedGstParser()"

  const PermissionMessage: string := "ImportBlocks are not permitted by the StandardGStringParser."

  /** The enum names of a list of kinds, in order. */
  function KindNames(ks: seq<TokenKind>): (r: seq<string>)
    ensures |r| == |ks|
    ensures forall i :: 0 <= i < |ks| ==> r[i] == KindName(ks[i])
  {
    if |ks| == 0 then [] else KindNames(ks[..|ks| - 1]) + [KindName(ks[|ks| - 1])]
  }

  /** `getDiagnosticMessage`: the prefix, then `.` when nothing is
      expected, `; expected K.` for one kind, and `; expected any of K1,
      …, Kn.` for several, in the order given. */
  function DiagnosticMessage(prefix: string, expected: seq<TokenKind>): string
  {
    if |expected| == 0 then prefix + "."
    else if |expected| == 1 then prefix + "; expected " + KindName(expected[0]) + "."
    else prefix + "; expected any of " + Strings.Join(KindNames(expected), ", ") + "."
  }

  /** `getDiagnosticMessage` as written: a builder and an indexed loop that
      appends `.` after the last kind and `, ` after every other one. */
  method BuildDiagnosticMessage(prefix: string, expected: seq<TokenKind>) returns (m: string)
    ensures m == DiagnosticMessage(prefix, expected)
  {
    if |expected| == 0 {
      return prefix + ".";
    } else if |expected| == 1 {
      return prefix + "; expected " + KindName(expected[0]) + ".";
    }
    var head := prefix + "; expected any of ";
    ghost var names := KindNames(expected);
    var b := "";
    var i := 0;
    while i < |expected|
      invariant 0 <= i <= |expected|
      invariant b == Strings.Join(names[..i], ", ") + (if i == 0 then "" else if i < |expected| then ", " else ".")
    {
      Strings.JoinStep(names, i, ", ");
      b := b + KindName(expected[i]);
      if i + 1 == |expected| {
        b := b + ".";
      } else {
        b := b + ", ";
      }
      i := i + 1;
    }
    assert names[..|expected|] == names;
    m := head + b;
  }

  /** `getUnexpectedMessage`. */
  function UnexpectedMessage(actual: TokenKind, expected: seq<TokenKind>): string
  {
    DiagnosticMessage("Unexpected token: " + KindName(actual), expected)
  }

  /** `getNullTokenMessage`. */
  function NullTokenMessage(expected: seq<TokenKind>): string
  {
    DiagnosticMessage("Ran out of tokens", expected)
  }

  /** The provider position and the stash of matched kinds. */
  datatype ParserState = ParserState(cursor: Cursor, stash: seq<TokenKind>)

  /** `isStashed`: the expected kinds are a prefix of the stash. */
  predicate IsStashed(stash: seq<TokenKind>, expected: seq<TokenKind>)
  {
    Strings.IsPrefix(expected, stash)
  }

  /** `isStashed` as written: compare index by index, failing as soon as
      the stash is too short or a kind differs. */
  method IsStashedLoop(stash: seq<TokenKind>, expected: seq<TokenKind>) returns (r: bool)
    ensures r <==> IsStashed(stash, expected)
  {
    var i := 0;
    while i < |expected|
      invariant 0 <= i <= |expected|
      invariant i <= |stash| && stash[..i] == expected[..i]
    {
      if i >= |stash| {
        return false;
      }
      if expected[i] != stash[i] {
        return false;
      }
      i := i + 1;
    }
    assert expected[..i] == expected;
    return true;
  }

  /** What one `expectLeaf` produced: the leaf it handed the accumulator,
      if any, the diagnostics it returned, and the parser state after. */
  datatype Expected = Expected(leaf: Option<AstNode>, diagnostics: seq<Diagnostic>, state: ParserState)

  /** The leaf as a list of zero or one nodes. */
  function LeafList(o: Option<AstNode>): seq<AstNode>
  {
    if o.Some? then [o.value] else []
  }

  /** `expectLeaf`: a token of an accepted kind becomes a plain leaf (and
      is stashed on request); any other token becomes a leaf carrying one
      "Unexpected token" diagnostic; no token returns one "Ran out of
      tokens" diagnostic. In every case the provider advances once. */
  function ExpectLeaf(st: ParserState, stash: bool, anyOf: seq<TokenKind>): (r: Expected)
    ensures r.state.cursor == Advance(st.cursor)
    ensures r.leaf.None? <==> Current(st.cursor).None?
    ensures r.leaf.None? ==> r.diagnostics == [OfMessage(NullTokenMessage(anyOf))]
    ensures r.leaf.Some? ==> r.diagnostics == [] && r.leaf.value.LeafNode?
    ensures r.leaf.Some? ==>
      var t := Current(st.cursor).value;
      if t.kind in anyOf then
        r.leaf.value == LeafNode([], t.kind, t.start, t.end)
        && r.state.stash == (if stash then st.stash + [t.kind] else st.stash)
      else
        r.leaf.value == LeafNode([OfMessage(UnexpectedMessage(t.kind, anyOf))], t.kind, t.start, t.end)
        && r.state.stash == st.stash
    ensures r.leaf.None? ==> r.state.stash == st.stash
  {
    var next := Advance(st.cursor);
    match Current(st.cursor)
    case None =>
      Expected(None, [OfMessage(NullTokenMessage(anyOf))], st.(cursor := next))
    case Some(t) =>
      if t.kind in anyOf then
        var stash' := if stash then st.stash + [t.kind] else st.stash;
        Expected(Some(LeafNode([], t.kind, t.start, t.end)), [], ParserState(next, stash'))
      else
        var d := OfMessage(UnexpectedMessage(t.kind, anyOf));
        Expected(Some(LeafNode([d], t.kind, t.start, t.end)), [], st.(cursor := next))
  }

  /** The leaf `expectLeaf` hands over, if any, is exactly the token it
      advanced past. */
  lemma ExpectLeafConsumes(st: ParserState, stash: bool, anyOf: seq<TokenKind>)
    ensures LeavesOver(LeafList(ExpectLeaf(st, stash, anyOf).leaf),
                       st.cursor.tokens, st.cursor.position, st.cursor.position + 1)
  {
    var e := ExpectLeaf(st, stash, anyOf);
    match Current(st.cursor)
    case None =>
      assert e.leaf.None?;
    case Some(t) =>
      assert e.leaf.Some? && e.leaf.value.LeafNode? && LeafTokens(e.leaf.value) == [t];
      assert LeafTokensSeq([e.leaf.value]) == LeafTokens(e.leaf.value);
  }

  /** `ns` are leaves whose tokens are exactly those of the list between
      the two positions. */
  predicate LeavesOver(ns: seq<AstNode>, tokens: seq<Token>, from: nat, to: nat)
  {
    && from <= to
    && (forall i :: 0 <= i < |ns| ==> ns[i].LeafNode?)
    && LeafTokensSeq(ns) == Consumed(tokens, from, to)
  }

  /** Leaves over two adjacent stretches are leaves over both. */
  lemma LeavesOverAppend(a: seq<AstNode>, b: seq<AstNode>, tokens: seq<Token>, p: nat, q: nat, r: nat)
    requires LeavesOver(a, tokens, p, q) == true
    requires LeavesOver(b, tokens, q, r) == true
    ensures LeavesOver(a + b, tokens, p, r)
  {
    LeafTokensSeqAppend(a, b);
    ConsumedSplit(tokens, p, q, r);
    assert forall i :: 0 <= i < |a| ==> (a + b)[i] == a[i];
    assert forall i :: |a| <= i < |a + b| ==> (a + b)[i] == b[i - |a|];
  }

  /** What a run of `expectLeaf` calls produced. */
  datatype ExpectedAll = ExpectedAll(leaves: seq<AstNode>, diagnostics: seq<Diagnostic>, state: ParserState)

  /** `expectLeaves`: one `expectLeaf` per kind, in order, collecting the
      returned diagnostics. */
  function ExpectLeaves(st: ParserState, kinds: seq<TokenKind>): (r: ExpectedAll)
    ensures TakesLeaves(st, |kinds|, r)
    decreases |kinds|
  {
    if |kinds| == 0 then ExpectedAll([], [], st)
    else
      var e := ExpectLeaf(st, false, [kinds[0]]);
      var rest := ExpectLeaves(e.state, kinds[1..]);
      ExpectLeafConsumes(st, false, [kinds[0]]);
      TakesLeavesCons(st, e, |kinds| - 1, rest);
      ExpectedAll(LeafList(e.leaf) + rest.leaves, e.diagnostics + rest.diagnostics, rest.state)
  }

  /** One `expectLeaf` in front of a run of them. */
  lemma TakesLeavesCons(st: ParserState, e: Expected, n: nat, rest: ExpectedAll)
    requires e.state.cursor == Advance(st.cursor) && e.state.stash == st.stash
    requires |LeafList(e.leaf)| + |e.diagnostics| == 1
    requires LeavesOver(LeafList(e.leaf), st.cursor.tokens, st.cursor.position, st.cursor.position + 1) == true
    requires TakesLeaves(e.state, n, rest) == true
    ensures TakesLeaves(st, n + 1, ExpectedAll(LeafList(e.leaf) + rest.leaves, e.diagnostics + rest.diagnostics, rest.state))
  {
    LeavesOverAppend(LeafList(e.leaf), rest.leaves, st.cursor.tokens,
                     st.cursor.position, st.cursor.position + 1, st.cursor.position + n + 1);
  }

  /** `r` took the next `n` tokens of the list as leaves, each leaf or
      returned diagnostic accounting for one of them, and kept the stash. */
  predicate TakesLeaves(st: ParserState, n: nat, r: ExpectedAll)
  {
    && r.state.cursor.tokens == st.cursor.tokens
    && r.state.cursor.position == st.cursor.position + n
    && r.state.stash == st.stash
    && LeavesOver(r.leaves, st.cursor.tokens, st.cursor.position, st.cursor.position + n)
    && |r.leaves| + |r.diagnostics| == n
  }

  /** What a production added to the enclosing frame, and the state after. */
  datatype Parsed = Parsed(nodes: seq<AstNode>, state: ParserState)

  /** `text`: one `expectLeaf(TEXT)`; the returned diagnostics are dropped. */
  function Text(st: ParserState): (r: Parsed)
    ensures Produces(st, r)
    ensures r.state.cursor.position == st.cursor.position + 1 && r.state.stash == st.stash
    ensures |r.nodes| <= 1
    ensures |r.nodes| == 0 <==> Current(st.cursor).None?
  {
    var e := ExpectLeaf(st, false, [TokenKind.Text]);
    ExpectLeafConsumes(st, false, [TokenKind.Text]);
    Parsed(LeafList(e.leaf), e.state)
  }

  /** The shape of what a production adds: a leaf, or an interior node
      other than G_STRING whose children are all leaves. */
  predicate Flat(n: AstNode)
  {
    n.LeafNode? ||
    (n.nodeType != GStringNode && forall i :: 0 <= i < |n.children| ==> n.children[i].LeafNode?)
  }

  /** What every production guarantees: the same list, at least one token
      consumed, an empty stash kept empty, flat nodes, and leaves that are
      exactly the consumed tokens. */
  predicate Produces(st: ParserState, r: Parsed)
  {
    && r.state.cursor.tokens == st.cursor.tokens
    && r.state.cursor.position > st.cursor.position
    && (st.stash == [] ==> r.state.stash == [])
    && (forall i :: 0 <= i < |r.nodes| ==> Flat(r.nodes[i]))
    && LeafTokensSeq(r.nodes) == Consumed(st.cursor.tokens, st.cursor.position, r.state.cursor.position)
  }

  /** The `expectLeaf` calls shared by import blocks and the three
      scriptlets: the opener, a stashed body-or-close slot, then the stash
      is cleared and a closer is expected only when the slot did not hold
      the closer. */
  function DelimitedLeaves(st: ParserState, open: TokenKind, body: TokenKind, close: TokenKind): (r: ExpectedAll)
    ensures r.state.cursor.tokens == st.cursor.tokens
    ensures r.state.stash == []
    ensures r.state.cursor.position == st.cursor.position + 2 || r.state.cursor.position == st.cursor.position + 3
    ensures LeavesOver(r.leaves, st.cursor.tokens, st.cursor.position, r.state.cursor.position)
  {
    var p := st.cursor.position;
    var tokens := st.cursor.tokens;
    var o := ExpectLeaf(st, false, [open]);
    var b := ExpectLeaf(o.state, true, [body, close]);
    ExpectLeafConsumes(st, false, [open]);
    ExpectLeafConsumes(o.state, true, [body, close]);
    var cleared := b.state.(stash := []);
    var leaves2 := LeafList(o.leaf) + LeafList(b.leaf);
    LeavesOverAppend(LeafList(o.leaf), LeafList(b.leaf), tokens, p, p + 1, p + 2);
    if IsStashed(b.state.stash, [close]) then
      ExpectedAll(leaves2, o.diagnostics + b.diagnostics, cleared)
    else
      var c := ExpectLeaf(cleared, false, [close]);
      ExpectLeafConsumes(cleared, false, [close]);
      LeavesOverAppend(leaves2, LeafList(c.leaf), tokens, p, p + 2, p + 3);
      ExpectedAll(leaves2 + LeafList(c.leaf), o.diagnostics + b.diagnostics + c.diagnostics, c.state)
  }

  /** With an empty stash, the delimited leaves take two tokens when the
      second is the closer and three otherwise. */
  lemma DelimitedAdvance(st: ParserState, open: TokenKind, body: TokenKind, close: TokenKind)
    requires st.stash == []
    ensures var p := st.cursor.position;
      var closed := p + 1 < |st.cursor.tokens| && st.cursor.tokens[p + 1].kind == close;
      DelimitedLeaves(st, open, body, close).state.cursor.position == p + (if closed then 2 else 3)
  {
    var o := ExpectLeaf(st, false, [open]);
    var b := ExpectLeaf(o.state, true, [body, close]);
    assert o.state.stash == [] && o.state.cursor == Advance(st.cursor);
    SlotClosed(o.state, body, close);
    var r := DelimitedLeaves(st, open, body, close);
    if IsStashed(b.state.stash, [close]) {
      assert r.state == b.state.(stash := []);
    } else {
      assert r.state == ExpectLeaf(b.state.(stash := []), false, [close]).state;
    }
  }

  /** With an empty stash, the body-or-close slot leaves the closer
      stashed exactly when the current token is the closer. */
  lemma SlotClosed(st: ParserState, body: TokenKind, close: TokenKind)
    ensures st.stash == [] ==>
      (IsStashed(ExpectLeaf(st, true, [body, close]).state.stash, [close]) <==>
         Current(st.cursor).Some? && Current(st.cursor).value.kind == close)
  {
    var e := ExpectLeaf(st, true, [body, close]);
    if st.stash == [] && Current(st.cursor).Some? {
      var k := Current(st.cursor).value.kind;
      if k in [body, close] {
        assert e.state.stash == [k];
      } else {
        assert e.state.stash == [];
      }
    }
  }

  /** An import block or scriptlet node: `start`, the delimited leaves,
      `done` with the initial diagnostics followed by those the
      `expectLeaf` calls returned. */
  function Delimited(st: ParserState, t: TreeNodeType, initial: seq<Diagnostic>,
                     open: TokenKind, body: TokenKind, close: TokenKind): (r: Parsed)
    ensures r.state == DelimitedLeaves(st, open, body, close).state
    ensures |r.nodes| == 1 && r.nodes[0].TreeNode? && r.nodes[0].nodeType == t
    ensures r.nodes[0].children == DelimitedLeaves(st, open, body, close).leaves
    ensures r.nodes[0].diagnostics == initial + DelimitedLeaves(st, open, body, close).diagnostics
    ensures t != GStringNode ==> Produces(st, r)
  {
    var e := DelimitedLeaves(st, open, body, close);
    var node := TreeNode(initial + e.diagnostics, t, e.leaves);
    assert LeafTokensSeq([node]) == LeafTokensSeq(e.leaves);
    Parsed([node], e.state)
  }

  /** `importBlock`: the permission diagnostic comes first when import
      blocks are not permitted. */
  function ImportBlock(mode: Mode, st: ParserState): Parsed
  {
    var initial := if IsImportBlockPermitted(mode) then [] else [OfMessage(PermissionMessage)];
    Delimited(st, ImportBlockNode, initial, ImportBlockOpen, ImportBlockBody, ImportBlockClose)
  }

  /** `blockScriptlet`. */
  function BlockScriptlet(st: ParserState): Parsed
  {
    Delimited(st, BlockScriptletNode, [], BlockScriptletOpen, ScriptletBody, ScriptletClose)
  }

  /** `expressionScriptlet`. */
  function ExpressionScriptlet(st: ParserState): Parsed
  {
    Delimited(st, ExpressionScriptletNode, [], ExpressionScriptletOpen, ScriptletBody, ScriptletClose)
  }

  /** `dollarScriptlet`. */
  function DollarScriptlet(st: ParserState): Parsed
  {
    Delimited(st, DollarScriptletNode, [], DollarScriptletOpen, DollarScriptletBody, DollarScriptletClose)
  }

  /** `dollarReference`: `start`, exactly two `expectLeaf` calls, `done`
      with what they returned. */
  function DollarReference(st: ParserState): (r: Parsed)
    ensures r.state.cursor.tokens == st.cursor.tokens
    ensures r.state.cursor.position == st.cursor.position + 2
    ensures r.state.stash == st.stash
    ensures |r.nodes| == 1 && r.nodes[0].TreeNode? && r.nodes[0].nodeType == DollarReferenceNode
    ensures |r.nodes[0].children| + |r.nodes[0].diagnostics| == 2
    ensures forall i :: 0 <= i < |r.nodes[0].children| ==> r.nodes[0].children[i].LeafNode?
    ensures LeafTokensSeq(r.nodes) == Consumed(st.cursor.tokens, st.cursor.position, st.cursor.position + 2)
    ensures Produces(st, r)
  {
    var e := ExpectLeaves(st, [DollarReferenceDollar, DollarReferenceBody]);
    var node := TreeNode(e.diagnostics, DollarReferenceNode, e.leaves);
    assert LeafTokensSeq([node]) == LeafTokensSeq(e.leaves);
    Parsed([node], e.state)
  }

  /** The kinds `gString` dispatches on, in the order its diagnostic
      lists them. */
  const Starters: seq<TokenKind> :=
    [TokenKind.Text, ImportBlockOpen, BlockScriptletOpen, ExpressionScriptletOpen,
     DollarReferenceDollar, DollarScriptletOpen]

  predicate IsStarter(k: TokenKind)
  {
    k in Starters
  }

  /** The production `gString` runs for a starter kind. */
  function Production(mode: Mode, st: ParserState, k: TokenKind): (r: Parsed)
    requires IsStarter(k)
    ensures Produces(st, r)
  {
    match k
    case Text => Text(st)
    case ImportBlockOpen => ImportBlock(mode, st)
    case BlockScriptletOpen => BlockScriptlet(st)
    case ExpressionScriptletOpen => ExpressionScriptlet(st)
    case DollarReferenceDollar => DollarReference(st)
    case DollarScriptletOpen => DollarScriptlet(st)
  }

  /** The root diagnostic for a token no production starts with. */
  function NonStarterDiagnostic(k: TokenKind): Diagnostic
  {
    OfMessage(UnexpectedMessage(k, Starters))
  }

  /** What the `gString` loop produced: the root's children, the root's
      diagnostics, the state after. */
  datatype Body = Body(children: seq<AstNode>, diagnostics: seq<Diagnostic>, state: ParserState)

  /** The `gString` loop, corrected: a token no production starts with
      gets its root diagnostic and is then skipped, so every iteration
      consumes at least one token. */
  function GStringBody(mode: Mode, st: ParserState): (r: Body)
    ensures r.state.cursor.tokens == st.cursor.tokens
    ensures Current(r.state.cursor).None?
    decreases |st.cursor.tokens| - st.cursor.position
  {
    match Current(st.cursor)
    case None => Body([], [], st)
    case Some(t) =>
      if IsStarter(t.kind) then
        var p := Production(mode, st, t.kind);
        var rest := GStringBody(mode, p.state);
        Body(p.nodes + rest.children, rest.diagnostics, rest.state)
      else
        var rest := GStringBody(mode, st.(cursor := Advance(st.cursor)));
        Body(rest.children, [NonStarterDiagnostic(t.kind)] + rest.diagnostics, rest.state)
  }

  /** The `gString` loop as written: on a non-starter it records the
      diagnostic and goes round again without advancing. `fuel` bounds
      the iterations; `None` means the fuel ran out. */
  function GStringBodyAsWritten(mode: Mode, st: ParserState, fuel: nat): Option<Body>
    decreases fuel
  {
    if fuel == 0 then None
    else
      match Current(st.cursor)
      case None => Some(Body([], [], st))
      case Some(t) =>
        if IsStarter(t.kind) then
          var p := Production(mode, st, t.kind);
          match GStringBodyAsWritten(mode, p.state, fuel - 1)
          case None => None
          case Some(rest) => Some(Body(p.nodes + rest.children, rest.diagnostics, rest.state))
        else
          match GStringBodyAsWritten(mode, st, fuel - 1)
          case None => None
          case Some(rest) => Some(Body(rest.children, [NonStarterDiagnostic(t.kind)] + rest.diagnostics, rest.state))
  }

  /** The state `parse` starts from: a fresh cursor and an empty stash. */
  function Initial(tokens: seq<Token>): ParserState
  {
    ParserState(NewCursor(tokens), [])
  }

  /** `parse` followed by `getResult`: the G_STRING root. */
  function GString(mode: Mode, tokens: seq<Token>): (root: AstNode)
    ensures root.TreeNode? && root.nodeType == GStringNode
  {
    var b := GStringBody(mode, Initial(tokens));
    TreeNode(b.diagnostics, GStringNode, b.children)
  }
}
