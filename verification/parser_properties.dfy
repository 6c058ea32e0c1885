/** Properties of the parser over whole token lists: the leaves account for
    every token, the two parser classes agree up to the permission
    diagnostic, and the `gString` loop as written hangs exactly where the
    corrected loop reports a root diagnostic. */
module ParserProperties {
  import opened Wrappers
  import opened Tokens
  import opened Diagnostics
  import opened Ast
  import opened TokenCursor
  import opened Parser
  import Strings

  /** The tokens from the cursor position to the end of the list. */
  function Remaining(c: Cursor): seq<Token>
  {
    if c.position < |c.tokens| then c.tokens[c.position..] else []
  }

  /** Every token left in the list either becomes a leaf of the root's
      children or earns one root diagnostic; with no root diagnostic the
      leaves, left to right, are exactly the remaining tokens. */
  lemma {:induction false} BodyAccountsForTokens(mode: Mode, st: ParserState)
    requires st.stash == []
    ensures Accounts(GStringBody(mode, st), st.cursor)
    decreases |st.cursor.tokens| - st.cursor.position
  {
    var c := st.cursor;
    match Current(c)
    case None =>
    case Some(t) =>
      if IsStarter(t.kind) {
        var p := Production(mode, st, t.kind);
        BodyAccountsForTokens(mode, p.state);
        ProductionStep(st, p, GStringBody(mode, p.state));
      } else {
        var st' := st.(cursor := Advance(c));
        BodyAccountsForTokens(mode, st');
        SkipStep(c, GStringBody(mode, st'), NonStarterDiagnostic(t.kind));
      }
  }

  /** A skipped token with its root diagnostic in front of an
      accounted-for rest is accounted for too. */
  lemma SkipStep(c: Cursor, rest: Body, d: Diagnostic)
    requires Current(c).Some?
    requires Accounts(rest, Advance(c)) == true
    ensures Accounts(Body(rest.children, [d] + rest.diagnostics, rest.state), c)
  {
    assert Remaining(c) == [Current(c).value] + Remaining(Advance(c));
    assert Remaining(c)[1..] == Remaining(Advance(c));
  }

  /** How the root's leaves and diagnostics account for the tokens left. */
  predicate Accounts(r: Body, c: Cursor)
  {
    && |LeafTokensSeq(r.children)| + |r.diagnostics| == |Remaining(c)|
    && (r.diagnostics == [] ==> LeafTokensSeq(r.children) == Remaining(c))
    && Subsequence(LeafTokensSeq(r.children), Remaining(c))
  }

  /** `xs` is `ys` with some elements removed, the rest kept in order. */
  predicate Subsequence<T(==)>(xs: seq<T>, ys: seq<T>)
    decreases |ys|
  {
    || |xs| == 0
    || (&& |ys| > 0
        && ((xs[0] == ys[0] && Subsequence(xs[1..], ys[1..])) || Subsequence(xs, ys[1..])))
  }

  /** A common prefix keeps a subsequence a subsequence. */
  lemma {:induction false} SubsequencePrefix<T>(p: seq<T>, xs: seq<T>, ys: seq<T>)
    requires Subsequence(xs, ys)
    ensures Subsequence(p + xs, p + ys)
    decreases |p|
  {
    if |p| > 0 {
      SubsequencePrefix(p[1..], xs, ys);
      assert (p + xs)[1..] == p[1..] + xs;
      assert (p + ys)[1..] == p[1..] + ys;
    } else {
      assert p + xs == xs && p + ys == ys;
    }
  }

  /** Every element of a subsequence is an element of the whole. */
  lemma {:induction false} SubsequenceMembers<T>(xs: seq<T>, ys: seq<T>)
    requires Subsequence(xs, ys)
    ensures forall x :: x in xs ==> x in ys
    decreases |ys|
  {
    if |xs| > 0 {
      if xs[0] == ys[0] && Subsequence(xs[1..], ys[1..]) {
        SubsequenceMembers(xs[1..], ys[1..]);
        forall x | x in xs
          ensures x in ys
        {
          if x != xs[0] {
            assert x in xs[1..];
          }
        }
      } else {
        SubsequenceMembers(xs, ys[1..]);
      }
    }
  }

  /** A production in front of an accounted-for rest accounts for its own
      tokens too. */
  lemma ProductionStep(st: ParserState, p: Parsed, rest: Body)
    requires Produces(st, p)
    requires Current(st.cursor).Some?
    requires Accounts(rest, p.state.cursor) == true
    ensures Accounts(Body(p.nodes + rest.children, rest.diagnostics, rest.state), st.cursor)
  {
    var c := st.cursor;
    var q := p.state.cursor.position;
    LeafTokensSeqAppend(p.nodes, rest.children);
    if q < |c.tokens| {
      assert Remaining(c) == c.tokens[c.position..q] + Remaining(p.state.cursor);
    } else {
      assert Remaining(c) == c.tokens[c.position..] + [];
    }
    SubsequencePrefix(LeafTokensSeq(p.nodes), LeafTokensSeq(rest.children), Remaining(p.state.cursor));
  }

  /** Whole-list form: a parse without root diagnostics has exactly the
      input tokens as its leaves, and the leaves of any parse are the input
      tokens with some removed, in their input order. */
  lemma LeavesReproduceTokens(mode: Mode, tokens: seq<Token>)
    ensures var root := GString(mode, tokens);
      && |LeafTokens(root)| + |root.diagnostics| == |tokens|
      && (root.diagnostics == [] ==> LeafTokens(root) == tokens)
      && Subsequence(LeafTokens(root), tokens)
      && (forall x :: x in LeafTokens(root) ==> x in tokens)
  {
    BodyAccountsForTokens(mode, Initial(tokens));
    assert Remaining(Initial(tokens).cursor) == tokens;
    SubsequenceMembers(LeafTokens(GString(mode, tokens)), tokens);
  }

  /** The root's children are flat: leaves, or non-G_STRING nodes whose
      children are leaves. */
  lemma {:induction false} BodyIsFlat(mode: Mode, st: ParserState)
    ensures AllFlat(GStringBody(mode, st).children)
    decreases |st.cursor.tokens| - st.cursor.position
  {
    match Current(st.cursor)
    case None =>
    case Some(t) =>
      if IsStarter(t.kind) {
        var p := Production(mode, st, t.kind);
        BodyIsFlat(mode, p.state);
        AllFlatAppend(p.nodes, GStringBody(mode, p.state).children);
      } else {
        BodyIsFlat(mode, st.(cursor := Advance(st.cursor)));
      }
  }

  predicate AllFlat(ns: seq<AstNode>)
  {
    forall i :: 0 <= i < |ns| ==> Flat(ns[i])
  }

  lemma AllFlatAppend(a: seq<AstNode>, b: seq<AstNode>)
    requires AllFlat(a) && AllFlat(b)
    ensures AllFlat(a + b)
  {
    forall i | 0 <= i < |a + b|
      ensures Flat((a + b)[i])
    {
      if i < |a| {
        assert (a + b)[i] == a[i];
      } else {
        assert (a + b)[i] == b[i - |a|];
      }
    }
  }

  /** The permission diagnostic put in front of an import block node. */
  function MarkImport(n: AstNode): (m: AstNode)
    ensures m.TreeNode? <==> n.TreeNode?
    ensures m.TreeNode? ==> m.nodeType == n.nodeType && m.children == n.children
    ensures m.LeafNode? ==> m == n
    ensures m.TreeNode? && m.nodeType == ImportBlockNode ==>
      m.diagnostics == [OfMessage(PermissionMessage)] + n.diagnostics
    ensures m.TreeNode? && m.nodeType != ImportBlockNode ==> m == n
  {
    match n
    case TreeNode(ds, t, cs) =>
      if t == ImportBlockNode then TreeNode([OfMessage(PermissionMessage)] + ds, t, cs) else n
    case LeafNode(_, _, _, _) => n
  }

  function MarkImports(cs: seq<AstNode>): (r: seq<AstNode>)
    ensures |r| == |cs|
    ensures forall i :: 0 <= i < |cs| ==> r[i] == MarkImport(cs[i])
  {
    seq(|cs|, i requires 0 <= i < |cs| => MarkImport(cs[i]))
  }

  lemma MarkImportsAppend(a: seq<AstNode>, b: seq<AstNode>)
    ensures MarkImports(a + b) == MarkImports(a) + MarkImports(b)
  {
  }

  /** Each production of `StandardGstParser` is the `ExtendedGstParser` one
      with the import block marked. */
  lemma ProductionModes(st: ParserState, k: TokenKind)
    requires IsStarter(k)
    ensures var s := Production(Standard, st, k);
      var e := Production(Extended, st, k);
      s.state == e.state && s.nodes == MarkImports(e.nodes)
  {
    if k == ImportBlockOpen {
      ImportBlockModes(st);
    } else {
      OtherProductionModes(st, k);
      UnmarkedWithoutImports(Production(Extended, st, k).nodes);
    }
  }

  /** Productions other than the import block do not look at the mode, and
      add no import block node. */
  lemma OtherProductionModes(st: ParserState, k: TokenKind)
    requires IsStarter(k) && k != ImportBlockOpen
    ensures Production(Standard, st, k) == Production(Extended, st, k)
    ensures NoImportBlock(Production(Extended, st, k).nodes)
  {
    match k
    case Text =>
    case BlockScriptletOpen =>
    case ExpressionScriptletOpen =>
    case DollarScriptletOpen =>
    case DollarReferenceDollar =>
  }

  predicate NoImportBlock(ns: seq<AstNode>)
  {
    forall i :: 0 <= i < |ns| ==> ns[i].LeafNode? || ns[i].nodeType != ImportBlockNode
  }

  lemma UnmarkedWithoutImports(ns: seq<AstNode>)
    requires NoImportBlock(ns)
    ensures MarkImports(ns) == ns
  {
  }

  /** The import block production differs between the two classes only by
      the permission diagnostic. */
  lemma ImportBlockModes(st: ParserState)
    ensures ImportBlock(Standard, st).state == ImportBlock(Extended, st).state
    ensures ImportBlock(Standard, st).nodes == MarkImports(ImportBlock(Extended, st).nodes)
  {
    var e := ImportBlock(Extended, st);
    var d := DelimitedLeaves(st, ImportBlockOpen, ImportBlockBody, ImportBlockClose);
    assert [] + d.diagnostics == d.diagnostics;
    assert MarkImports(e.nodes) == [MarkImport(e.nodes[0])];
  }

  /** The two parser classes see the same tokens the same way: the same
      root diagnostics, the same state, and children that differ only by
      the permission diagnostic at the front of each import block. */
  lemma {:induction false} BodyModes(st: ParserState)
    ensures var s := GStringBody(Standard, st);
      var e := GStringBody(Extended, st);
      s.diagnostics == e.diagnostics && s.state == e.state && s.children == MarkImports(e.children)
    decreases |st.cursor.tokens| - st.cursor.position
  {
    match Current(st.cursor)
    case None =>
    case Some(t) =>
      if IsStarter(t.kind) {
        ProductionModes(st, t.kind);
        var e := Production(Extended, st, t.kind);
        BodyModes(e.state);
        MarkImportsAppend(e.nodes, GStringBody(Extended, e.state).children);
      } else {
        BodyModes(st.(cursor := Advance(st.cursor)));
      }
  }

  /** Whole-list form, on the roots. */
  lemma StandardIsMarkedExtended(tokens: seq<Token>)
    ensures var s := GString(Standard, tokens);
      var e := GString(Extended, tokens);
      s == TreeNode(e.diagnostics, GStringNode, MarkImports(e.children))
  {
    BodyModes(Initial(tokens));
  }

  /** Under `StandardGstParser` every import block child of the root
      carries the permission diagnostic first. */
  lemma StandardImportBlocksFlagged(tokens: seq<Token>)
    ensures var root := GString(Standard, tokens);
      forall i ::
        (0 <= i < |root.children| && root.children[i].TreeNode? && root.children[i].nodeType == ImportBlockNode)
        ==> |root.children[i].diagnostics| >= 1 && root.children[i].diagnostics[0] == OfMessage(PermissionMessage)
  {
    StandardIsMarkedExtended(tokens);
  }

  const RanOutPrefix: string := "Ran out of tokens"

  /** Every diagnostic of every interior node in `ns` is a "Ran out of
      tokens" one. */
  predicate OnlyRanOut(ns: seq<AstNode>)
  {
    forall i :: 0 <= i < |ns| && ns[i].TreeNode? ==> RanOutAll(ns[i].diagnostics)
  }

  predicate RanOutAll(ds: seq<Diagnostic>)
  {
    forall j :: 0 <= j < |ds| ==> Strings.IsPrefix(RanOutPrefix, ds[j].message)
  }

  /** Under `ExtendedGstParser` the diagnostics of the root's children are
      only the "Ran out of tokens" ones their `expectLeaf` calls returned;
      in particular no import block carries the permission message. */
  lemma {:induction false} ExtendedChildrenOnlyRanOut(st: ParserState)
    ensures OnlyRanOut(GStringBody(Extended, st).children)
    decreases |st.cursor.tokens| - st.cursor.position
  {
    match Current(st.cursor)
    case None =>
    case Some(t) =>
      if IsStarter(t.kind) {
        var p := Production(Extended, st, t.kind);
        ProductionRanOut(st, t.kind);
        ExtendedChildrenOnlyRanOut(p.state);
        OnlyRanOutAppend(p.nodes, GStringBody(Extended, p.state).children);
      } else {
        ExtendedChildrenOnlyRanOut(st.(cursor := Advance(st.cursor)));
      }
  }

  lemma OnlyRanOutAppend(a: seq<AstNode>, b: seq<AstNode>)
    requires OnlyRanOut(a) && OnlyRanOut(b)
    ensures OnlyRanOut(a + b)
  {
    forall i | 0 <= i < |a + b| && (a + b)[i].TreeNode?
      ensures RanOutAll((a + b)[i].diagnostics)
    {
      if i < |a| {
        assert (a + b)[i] == a[i];
      } else {
        assert (a + b)[i] == b[i - |a|];
      }
    }
  }

  lemma RanOutAppend(a: seq<Diagnostic>, b: seq<Diagnostic>)
    requires RanOutAll(a) && RanOutAll(b)
    ensures RanOutAll(a + b)
  {
    forall j | 0 <= j < |a + b|
      ensures Strings.IsPrefix(RanOutPrefix, (a + b)[j].message)
    {
      if j < |a| {
        assert (a + b)[j] == a[j];
      } else {
        assert (a + b)[j] == b[j - |a|];
      }
    }
  }

  /** Every diagnostic a single `expectLeaf` returns is a "Ran out of
      tokens" one. */
  lemma ExpectLeafRanOut(st: ParserState, stash: bool, anyOf: seq<TokenKind>)
    ensures RanOutAll(ExpectLeaf(st, stash, anyOf).diagnostics)
  {
    var e := ExpectLeaf(st, stash, anyOf);
    if e.leaf.None? {
      var m := NullTokenMessage(anyOf);
      assert m[..|RanOutPrefix|] == RanOutPrefix;
      assert e.diagnostics[0].message == m;
    }
  }

  lemma ProductionRanOut(st: ParserState, k: TokenKind)
    requires IsStarter(k)
    ensures OnlyRanOut(Production(Extended, st, k).nodes)
  {
    match k
    case Text =>
    case DollarReferenceDollar =>
      DollarReferenceRanOut(st);
    case ImportBlockOpen =>
      DelimitedNodeRanOut(st, ImportBlockNode, ImportBlockOpen, ImportBlockBody, ImportBlockClose);
    case BlockScriptletOpen =>
      DelimitedNodeRanOut(st, BlockScriptletNode, k, ScriptletBody, ScriptletClose);
    case ExpressionScriptletOpen =>
      DelimitedNodeRanOut(st, ExpressionScriptletNode, k, ScriptletBody, ScriptletClose);
    case DollarScriptletOpen =>
      DelimitedNodeRanOut(st, DollarScriptletNode, DollarScriptletOpen, DollarScriptletBody, DollarScriptletClose);
  }

  lemma DollarReferenceRanOut(st: ParserState)
    ensures OnlyRanOut(Parser.DollarReference(st).nodes)
  {
    var e1 := ExpectLeaf(st, false, [DollarReferenceDollar]);
    var e2 := ExpectLeaf(e1.state, false, [DollarReferenceBody]);
    ExpectLeafRanOut(st, false, [DollarReferenceDollar]);
    ExpectLeafRanOut(e1.state, false, [DollarReferenceBody]);
    assert [DollarReferenceDollar, DollarReferenceBody][1..] == [DollarReferenceBody];
    assert [DollarReferenceBody][1..] == [];
    RanOutAppend(e2.diagnostics, []);
    RanOutAppend(e1.diagnostics, e2.diagnostics + []);
  }

  lemma DelimitedNodeRanOut(st: ParserState, t: TreeNodeType, open: TokenKind, body: TokenKind, close: TokenKind)
    ensures OnlyRanOut(Delimited(st, t, [], open, body, close).nodes)
  {
    DelimitedRanOut(st, open, body, close);
    assert [] + DelimitedLeaves(st, open, body, close).diagnostics
        == DelimitedLeaves(st, open, body, close).diagnostics;
  }

  lemma DelimitedRanOut(st: ParserState, open: TokenKind, body: TokenKind, close: TokenKind)
    ensures RanOutAll(DelimitedLeaves(st, open, body, close).diagnostics)
  {
    var o := ExpectLeaf(st, false, [open]);
    var b := ExpectLeaf(o.state, true, [body, close]);
    var c := ExpectLeaf(b.state.(stash := []), false, [close]);
    ExpectLeafRanOut(st, false, [open]);
    ExpectLeafRanOut(o.state, true, [body, close]);
    ExpectLeafRanOut(b.state.(stash := []), false, [close]);
    RanOutAppend(o.diagnostics, b.diagnostics);
    RanOutAppend(o.diagnostics + b.diagnostics, c.diagnostics);
  }

  // ---------------------------------------------------------------------
  // The `gString` loop as written

  /** Once the current token is no production's starter, the loop as
      written never finishes, whatever the fuel. */
  lemma {:induction false} NonStarterNeverFinishes(mode: Mode, st: ParserState, fuel: nat)
    requires Current(st.cursor).Some? && !IsStarter(Current(st.cursor).value.kind)
    ensures GStringBodyAsWritten(mode, st, fuel).None?
    decreases fuel
  {
    if fuel > 0 {
      NonStarterNeverFinishes(mode, st, fuel - 1);
    }
  }

  /** When the loop as written does finish, it agrees with the corrected
      loop and has recorded no root diagnostic. */
  lemma {:induction false} AsWrittenAgrees(mode: Mode, st: ParserState, fuel: nat)
    ensures AgreesWhenFinished(mode, st, fuel)
    decreases fuel
  {
    match Current(st.cursor)
    case None =>
    case Some(t) =>
      if IsStarter(t.kind) && fuel > 0 {
        var p := Production(mode, st, t.kind);
        AsWrittenAgrees(mode, p.state, fuel - 1);
        AgreesStep(mode, st, fuel, p);
      } else if !IsStarter(t.kind) {
        NonStarterNeverFinishes(mode, st, fuel);
      }
  }

  /** The loop as written, when it finishes, gives the corrected loop's
      result, which then has no root diagnostic. */
  predicate AgreesWhenFinished(mode: Mode, st: ParserState, fuel: nat)
  {
    GStringBodyAsWritten(mode, st, fuel).Some? ==>
      GStringBodyAsWritten(mode, st, fuel).value == GStringBody(mode, st)
      && GStringBody(mode, st).diagnostics == []
  }

  lemma AgreesStep(mode: Mode, st: ParserState, fuel: nat, p: Parsed)
    requires fuel > 0
    requires Current(st.cursor).Some? && IsStarter(Current(st.cursor).value.kind)
    requires p == Production(mode, st, Current(st.cursor).value.kind)
    requires AgreesWhenFinished(mode, p.state, fuel - 1) == true
    ensures AgreesWhenFinished(mode, st, fuel)
  {
    AsWrittenStarterStep(mode, st, fuel, p);
  }

  lemma FinishesStep(mode: Mode, st: ParserState, fuel: nat, p: Parsed)
    requires fuel > 0
    requires Current(st.cursor).Some? && IsStarter(Current(st.cursor).value.kind)
    requires p == Production(mode, st, Current(st.cursor).value.kind)
    requires FinishesWhenClean(mode, p.state, fuel - 1) == true
    ensures FinishesWhenClean(mode, st, fuel)
  {
    AsWrittenStarterStep(mode, st, fuel, p);
    assert Produces(st, p);
    assert FuelFor(p.state.cursor) < FuelFor(st.cursor);
  }

  /** One starter iteration of both loops. */
  lemma AsWrittenStarterStep(mode: Mode, st: ParserState, fuel: nat, p: Parsed)
    requires fuel > 0
    requires Current(st.cursor).Some? && IsStarter(Current(st.cursor).value.kind)
    requires p == Production(mode, st, Current(st.cursor).value.kind)
    ensures var rest := GStringBody(mode, p.state);
      GStringBody(mode, st) == Body(p.nodes + rest.children, rest.diagnostics, rest.state)
    ensures GStringBodyAsWritten(mode, st, fuel) ==
      match GStringBodyAsWritten(mode, p.state, fuel - 1)
      case None => None
      case Some(rest) => Some(Body(p.nodes + rest.children, rest.diagnostics, rest.state))
  {
  }

  /** Iterations enough for the loop over the remaining tokens. */
  function FuelFor(c: Cursor): nat
  {
    if c.position < |c.tokens| then |c.tokens| - c.position + 1 else 1
  }

  /** When the corrected loop records no root diagnostic, the loop as
      written finishes too, given one iteration per remaining token. */
  lemma {:induction false} AsWrittenFinishes(mode: Mode, st: ParserState, fuel: nat)
    ensures FinishesWhenClean(mode, st, fuel)
    decreases fuel
  {
    match Current(st.cursor)
    case None =>
    case Some(t) =>
      if IsStarter(t.kind) && fuel > 0 {
        var p := Production(mode, st, t.kind);
        AsWrittenFinishes(mode, p.state, fuel - 1);
        FinishesStep(mode, st, fuel, p);
      } else if !IsStarter(t.kind) {
        NonStarterIsReported(mode, st);
      }
  }

  /** The corrected loop reports a non-starter at the front. */
  lemma NonStarterIsReported(mode: Mode, st: ParserState)
    requires Current(st.cursor).Some? && !IsStarter(Current(st.cursor).value.kind)
    ensures GStringBody(mode, st).diagnostics != []
  {
  }

  /** A corrected loop without root diagnostics means the loop as written
      finishes, given one iteration per remaining token. */
  predicate FinishesWhenClean(mode: Mode, st: ParserState, fuel: nat)
  {
    GStringBody(mode, st).diagnostics == [] && fuel >= FuelFor(st.cursor) ==>
      GStringBodyAsWritten(mode, st, fuel).Some?
  }

  /** `parse` as written: the root, if the loop finishes within `fuel`
      iterations. */
  function ParseAsWritten(mode: Mode, tokens: seq<Token>, fuel: nat): Option<AstNode>
  {
    match GStringBodyAsWritten(mode, Initial(tokens), fuel)
    case None => None
    case Some(b) => Some(TreeNode(b.diagnostics, GStringNode, b.children))
  }

  /** The as-written `parse` returns for some iteration bound exactly when
      the corrected one has no root diagnostic, and then both give the
      same tree. */
  lemma AsWrittenTerminatesIffClean(mode: Mode, tokens: seq<Token>, fuel: nat)
    ensures ParseAsWritten(mode, tokens, fuel).Some? ==>
      GString(mode, tokens).diagnostics == [] && ParseAsWritten(mode, tokens, fuel).value == GString(mode, tokens)
    ensures GString(mode, tokens).diagnostics == [] && fuel >= |tokens| + 1 ==>
      ParseAsWritten(mode, tokens, fuel) == Some(GString(mode, tokens))
  {
    if GStringBodyAsWritten(mode, Initial(tokens), fuel).Some? {
      AsWrittenAgrees(mode, Initial(tokens), fuel);
    }
    if GString(mode, tokens).diagnostics == [] && fuel >= |tokens| + 1 {
      AsWrittenFinishes(mode, Initial(tokens), fuel);
      AsWrittenAgrees(mode, Initial(tokens), fuel);
    }
  }
}
