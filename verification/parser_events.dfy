/** The `start`, `leaf` and `done` calls `StandardGstParser` makes on its
    accumulator, one production at a time, and the proof that replaying
    them on a fresh `SimpleAccumulator` yields the tree the productions
    report. */
module ParserEvents {
  import opened Wrappers
  import opened Tokens
  import opened Diagnostics
  import opened Ast
  import opened TokenCursor
  import opened Parser
  import Accumulator

  type Event = Accumulator.Event

  /** The calls of one `expectLeaf`: one `leaf` call for the current
      token, without diagnostics when its kind is accepted and with one
      "Unexpected token" diagnostic otherwise; no call when no token is
      left. */
  function ExpectLeafCalls(st: ParserState, anyOf: seq<TokenKind>): (es: seq<Event>)
    ensures |es| <= 1
    ensures |es| == 1 <==> Current(st.cursor).Some?
    ensures |es| == 1 ==>
      var t := Current(st.cursor).value;
      es[0].LeafEvent? && es[0].kind == t.kind && es[0].start == t.start && es[0].end == t.end
    ensures |es| == 1 ==> (es[0].diagnostics == [] <==> Current(st.cursor).value.kind in anyOf)
  {
    match Current(st.cursor)
    case None => []
    case Some(t) =>
      if t.kind in anyOf then [Accumulator.LeafEvent(t.kind, t.start, t.end, [])]
      else [Accumulator.LeafEvent(t.kind, t.start, t.end, [OfMessage(UnexpectedMessage(t.kind, anyOf))])]
  }

  /** The calls of `expectLeaves`: one `expectLeaf` per kind, in order. */
  function ExpectLeavesCalls(st: ParserState, kinds: seq<TokenKind>): seq<Event>
    decreases |kinds|
  {
    if |kinds| == 0 then []
    else ExpectLeafCalls(st, [kinds[0]]) + ExpectLeavesCalls(ExpectLeaf(st, false, [kinds[0]]).state, kinds[1..])
  }

  /** The calls of `importBlock` and the three scriptlets: `start`, the
      opener slot, the body-or-close slot, the closer slot unless the
      closer was stashed, then `done` with the collected diagnostics. */
  function DelimitedCalls(st: ParserState, t: TreeNodeType, initial: seq<Diagnostic>,
                          open: TokenKind, body: TokenKind, close: TokenKind): (es: seq<Event>)
    ensures |es| >= 2 && es[0] == Accumulator.StartEvent(t) && es[|es| - 1].DoneEvent?
  {
    var o := ExpectLeaf(st, false, [open]);
    var b := ExpectLeaf(o.state, true, [body, close]);
    var slots := ExpectLeafCalls(st, [open]) + ExpectLeafCalls(o.state, [body, close]);
    var collected := initial + o.diagnostics + b.diagnostics;
    if IsStashed(b.state.stash, [close]) then
      [Accumulator.StartEvent(t)] + slots + [Accumulator.DoneEvent(collected)]
    else
      var cleared := b.state.(stash := []);
      var c := ExpectLeaf(cleared, false, [close]);
      [Accumulator.StartEvent(t)] + slots + ExpectLeafCalls(cleared, [close])
        + [Accumulator.DoneEvent(collected + c.diagnostics)]
  }

  /** The calls of `dollarReference`: `start`, two `expectLeaf` calls,
      `done` with what they returned. */
  function DollarReferenceCalls(st: ParserState): (es: seq<Event>)
    ensures |es| >= 2 && es[0] == Accumulator.StartEvent(DollarReferenceNode) && es[|es| - 1].DoneEvent?
  {
    var kinds := [DollarReferenceDollar, DollarReferenceBody];
    [Accumulator.StartEvent(DollarReferenceNode)] + ExpectLeavesCalls(st, kinds)
      + [Accumulator.DoneEvent(ExpectLeaves(st, kinds).diagnostics)]
  }

  /** The calls of the production `gString` runs for a starter kind; `text`
      makes only its `expectLeaf` call. */
  function ProductionCalls(mode: Mode, st: ParserState, k: TokenKind): seq<Event>
    requires IsStarter(k)
  {
    match k
    case Text => ExpectLeafCalls(st, [TokenKind.Text])
    case ImportBlockOpen =>
      var initial := if IsImportBlockPermitted(mode) then [] else [OfMessage(PermissionMessage)];
      DelimitedCalls(st, ImportBlockNode, initial, ImportBlockOpen, ImportBlockBody, ImportBlockClose)
    case BlockScriptletOpen =>
      DelimitedCalls(st, BlockScriptletNode, [], BlockScriptletOpen, ScriptletBody, ScriptletClose)
    case ExpressionScriptletOpen =>
      DelimitedCalls(st, ExpressionScriptletNode, [], ExpressionScriptletOpen, ScriptletBody, ScriptletClose)
    case DollarReferenceDollar => DollarReferenceCalls(st)
    case DollarScriptletOpen =>
      DelimitedCalls(st, DollarScriptletNode, [], DollarScriptletOpen, DollarScriptletBody, DollarScriptletClose)
  }

  /** The calls of the (corrected) `gString` loop: each starter's
      production calls in turn; a skipped token makes no call. */
  function BodyCalls(mode: Mode, st: ParserState): seq<Event>
    decreases |st.cursor.tokens| - st.cursor.position
  {
    match Current(st.cursor)
    case None => []
    case Some(t) =>
      if IsStarter(t.kind) then
        ProductionCalls(mode, st, t.kind) + BodyCalls(mode, Production(mode, st, t.kind).state)
      else
        BodyCalls(mode, st.(cursor := Advance(st.cursor)))
  }

  /** The accumulator calls `parse` makes: `start(G_STRING)`, the loop's
      calls, and `done` with the loop's root diagnostics. */
  function ParseEvents(mode: Mode, tokens: seq<Token>): (es: seq<Event>)
    ensures |es| >= 2
    ensures es[0] == Accumulator.StartEvent(GStringNode)
    ensures es[|es| - 1] == Accumulator.DoneEvent(GString(mode, tokens).diagnostics)
  {
    [Accumulator.StartEvent(GStringNode)] + BodyCalls(mode, Initial(tokens))
      + [Accumulator.DoneEvent(GStringBody(mode, Initial(tokens)).diagnostics)]
  }

  /** A fresh `SimpleAccumulator` fed by `parse`, then `getResult`: the
      calls rebuild exactly the G_STRING root the productions report. */
  function ParseTree(mode: Mode, tokens: seq<Token>): (r: Outcome<AstNode>)
    ensures r == Success(GString(mode, tokens))
  {
    var root := GString(mode, tokens);
    ParseEventsSerialiseTree(mode, tokens);
    Accumulator.RebuildsTree(GStringNode, root.diagnostics, root.children);
    match Accumulator.Run(Accumulator.Fresh, ParseEvents(mode, tokens))
    case Failure(f) => Failure(f)
    case Success(a) => Accumulator.GetResult(a)
  }

  /** One `expectLeaf`'s calls are the calls of the leaf it reports. */
  lemma ExpectLeafCallsMatch(st: ParserState, stash: bool, anyOf: seq<TokenKind>)
    ensures ExpectLeafCalls(st, anyOf) == Accumulator.EventsOfSeq(LeafList(ExpectLeaf(st, stash, anyOf).leaf))
  {
    var e := ExpectLeaf(st, stash, anyOf);
    if e.leaf.Some? {
      assert Accumulator.EventsOfSeq([e.leaf.value]) == Accumulator.EventsOf(e.leaf.value);
    }
  }

  /** `expectLeaves`' calls are the calls of the leaves it reports. */
  lemma {:induction false} ExpectLeavesCallsMatch(st: ParserState, kinds: seq<TokenKind>)
    ensures ExpectLeavesCalls(st, kinds) == Accumulator.EventsOfSeq(ExpectLeaves(st, kinds).leaves)
    decreases |kinds|
  {
    if |kinds| > 0 {
      var e := ExpectLeaf(st, false, [kinds[0]]);
      ExpectLeafCallsMatch(st, false, [kinds[0]]);
      ExpectLeavesCallsMatch(e.state, kinds[1..]);
      Accumulator.EventsOfSeqAppend(LeafList(e.leaf), ExpectLeaves(e.state, kinds[1..]).leaves);
    }
  }

  /** `start`, the calls of some leaves, `done`: the calls of the one node
      holding those leaves. */
  lemma WrapMatch(t: TreeNodeType, ds: seq<Diagnostic>, leaves: seq<AstNode>, calls: seq<Event>)
    requires calls == Accumulator.EventsOfSeq(leaves)
    ensures [Accumulator.StartEvent(t)] + calls + [Accumulator.DoneEvent(ds)]
         == Accumulator.EventsOfSeq([TreeNode(ds, t, leaves)])
  {
    assert Accumulator.EventsOfSeq([TreeNode(ds, t, leaves)]) == Accumulator.EventsOf(TreeNode(ds, t, leaves));
  }

  /** A delimited production's calls are the calls of the node it reports. */
  lemma DelimitedCallsMatch(st: ParserState, t: TreeNodeType, initial: seq<Diagnostic>,
                            open: TokenKind, body: TokenKind, close: TokenKind)
    ensures DelimitedCalls(st, t, initial, open, body, close)
         == Accumulator.EventsOfSeq(Delimited(st, t, initial, open, body, close).nodes)
  {
    var o := ExpectLeaf(st, false, [open]);
    var b := ExpectLeaf(o.state, true, [body, close]);
    ExpectLeafCallsMatch(st, false, [open]);
    ExpectLeafCallsMatch(o.state, true, [body, close]);
    Accumulator.EventsOfSeqAppend(LeafList(o.leaf), LeafList(b.leaf));
    if IsStashed(b.state.stash, [close]) {
      DelimitedStashedMatch(st, t, initial, open, body, close);
    } else {
      DelimitedOpenMatch(st, t, initial, open, body, close);
    }
  }

  /** The leaves and diagnostics of the delimited slots, by how the
      body-or-close slot ended. */
  lemma DelimitedLeavesShape(st: ParserState, open: TokenKind, body: TokenKind, close: TokenKind)
    ensures var o := ExpectLeaf(st, false, [open]);
      var b := ExpectLeaf(o.state, true, [body, close]);
      var c := ExpectLeaf(b.state.(stash := []), false, [close]);
      var e := DelimitedLeaves(st, open, body, close);
      if IsStashed(b.state.stash, [close]) then
        e.leaves == LeafList(o.leaf) + LeafList(b.leaf) && e.diagnostics == o.diagnostics + b.diagnostics
      else
        && e.leaves == LeafList(o.leaf) + LeafList(b.leaf) + LeafList(c.leaf)
        && e.diagnostics == o.diagnostics + b.diagnostics + c.diagnostics
  {
  }

  /** The closer filled the body-or-close slot. */
  lemma DelimitedStashedMatch(st: ParserState, t: TreeNodeType, initial: seq<Diagnostic>,
                              open: TokenKind, body: TokenKind, close: TokenKind)
    requires var o := ExpectLeaf(st, false, [open]);
      var b := ExpectLeaf(o.state, true, [body, close]);
      && IsStashed(b.state.stash, [close])
      && ExpectLeafCalls(st, [open]) + ExpectLeafCalls(o.state, [body, close])
         == Accumulator.EventsOfSeq(LeafList(o.leaf) + LeafList(b.leaf))
    ensures DelimitedCalls(st, t, initial, open, body, close)
         == Accumulator.EventsOfSeq(Delimited(st, t, initial, open, body, close).nodes)
  {
    var o := ExpectLeaf(st, false, [open]);
    var b := ExpectLeaf(o.state, true, [body, close]);
    var e := DelimitedLeaves(st, open, body, close);
    DelimitedLeavesShape(st, open, body, close);
    assert initial + e.diagnostics == initial + o.diagnostics + b.diagnostics;
    WrapMatch(t, initial + e.diagnostics, e.leaves,
              ExpectLeafCalls(st, [open]) + ExpectLeafCalls(o.state, [body, close]));
  }

  /** A body filled the slot, or it held something else: a closer slot
      follows. */
  lemma DelimitedOpenMatch(st: ParserState, t: TreeNodeType, initial: seq<Diagnostic>,
                           open: TokenKind, body: TokenKind, close: TokenKind)
    requires var o := ExpectLeaf(st, false, [open]);
      var b := ExpectLeaf(o.state, true, [body, close]);
      && !IsStashed(b.state.stash, [close])
      && ExpectLeafCalls(st, [open]) + ExpectLeafCalls(o.state, [body, close])
         == Accumulator.EventsOfSeq(LeafList(o.leaf) + LeafList(b.leaf))
    ensures DelimitedCalls(st, t, initial, open, body, close)
         == Accumulator.EventsOfSeq(Delimited(st, t, initial, open, body, close).nodes)
  {
    var o := ExpectLeaf(st, false, [open]);
    var b := ExpectLeaf(o.state, true, [body, close]);
    var cleared := b.state.(stash := []);
    var c := ExpectLeaf(cleared, false, [close]);
    var slots := ExpectLeafCalls(st, [open]) + ExpectLeafCalls(o.state, [body, close]);
    var closer := ExpectLeafCalls(cleared, [close]);
    assert DelimitedCalls(st, t, initial, open, body, close)
        == [Accumulator.StartEvent(t)] + slots + closer
           + [Accumulator.DoneEvent(initial + o.diagnostics + b.diagnostics + c.diagnostics)];
    DelimitedLeavesShape(st, open, body, close);
    ExpectLeafCallsMatch(cleared, false, [close]);
    OpenAssembly(t, initial, o.diagnostics, b.diagnostics, c.diagnostics,
                 LeafList(o.leaf) + LeafList(b.leaf), LeafList(c.leaf), slots, closer);
  }

  /** Assembling a node's calls from its slots' calls, when a closer slot
      follows the first two. */
  lemma OpenAssembly(t: TreeNodeType, initial: seq<Diagnostic>, od: seq<Diagnostic>, bd: seq<Diagnostic>,
                     cd: seq<Diagnostic>, two: seq<AstNode>, last: seq<AstNode>, slots: seq<Event>, closer: seq<Event>)
    requires slots == Accumulator.EventsOfSeq(two)
    requires closer == Accumulator.EventsOfSeq(last)
    ensures [Accumulator.StartEvent(t)] + slots + closer + [Accumulator.DoneEvent(initial + od + bd + cd)]
         == Accumulator.EventsOfSeq([TreeNode(initial + (od + bd + cd), t, two + last)])
  {
    var ds := initial + (od + bd + cd);
    assert initial + od + bd + cd == ds;
    Accumulator.EventsOfSeqAppend(two, last);
    var calls := slots + closer;
    assert [Accumulator.StartEvent(t)] + slots + closer == [Accumulator.StartEvent(t)] + calls;
    WrapMatch(t, ds, two + last, calls);
  }

  /** A production's calls are the calls of the nodes it reports. */
  lemma ProductionCallsMatch(mode: Mode, st: ParserState, k: TokenKind)
    requires IsStarter(k)
    ensures ProductionCalls(mode, st, k) == Accumulator.EventsOfSeq(Production(mode, st, k).nodes)
  {
    match k
    case Text => ExpectLeafCallsMatch(st, false, [TokenKind.Text]);
    case ImportBlockOpen =>
      var initial := if IsImportBlockPermitted(mode) then [] else [OfMessage(PermissionMessage)];
      DelimitedCallsMatch(st, ImportBlockNode, initial, ImportBlockOpen, ImportBlockBody, ImportBlockClose);
    case BlockScriptletOpen =>
      DelimitedCallsMatch(st, BlockScriptletNode, [], BlockScriptletOpen, ScriptletBody, ScriptletClose);
    case ExpressionScriptletOpen =>
      DelimitedCallsMatch(st, ExpressionScriptletNode, [], ExpressionScriptletOpen, ScriptletBody, ScriptletClose);
    case DollarReferenceDollar =>
      var kinds := [DollarReferenceDollar, DollarReferenceBody];
      var node := Parser.DollarReference(st).nodes[0];
      assert Accumulator.EventsOfSeq([node]) == Accumulator.EventsOf(node);
      ExpectLeavesCallsMatch(st, kinds);
    case DollarScriptletOpen =>
      DelimitedCallsMatch(st, DollarScriptletNode, [], DollarScriptletOpen, DollarScriptletBody, DollarScriptletClose);
  }

  /** The loop's calls are the calls of the root's children, in order. */
  lemma {:induction false} BodyCallsMatch(mode: Mode, st: ParserState)
    ensures BodyCalls(mode, st) == Accumulator.EventsOfSeq(GStringBody(mode, st).children)
    decreases |st.cursor.tokens| - st.cursor.position
  {
    match Current(st.cursor)
    case None =>
    case Some(t) =>
      if IsStarter(t.kind) {
        var p := Production(mode, st, t.kind);
        ProductionCallsMatch(mode, st, t.kind);
        BodyCallsMatch(mode, p.state);
        Accumulator.EventsOfSeqAppend(p.nodes, GStringBody(mode, p.state).children);
      } else {
        BodyCallsMatch(mode, st.(cursor := Advance(st.cursor)));
      }
  }

  /** The calls `parse` makes are exactly the serialisation of the G_STRING
      root: `start`, each child's calls, `done` with the root's
      diagnostics. */
  lemma ParseEventsSerialiseTree(mode: Mode, tokens: seq<Token>)
    ensures ParseEvents(mode, tokens) == Accumulator.EventsOf(GString(mode, tokens))
  {
    BodyCallsMatch(mode, Initial(tokens));
  }
}
