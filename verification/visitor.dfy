/** The base visitor: which visit method `visitChildren` calls for each
    child, and the order of the `defaultBefore`/`defaultAfter` hooks that
    the default visit methods run. */
module Visitor {
  import opened Wrappers
  import opened Tokens
  import opened Ast
  import AstUtil

  /** The nineteen visit methods of the visitor interface: one per kind of
      tree node and one per token kind except DOLLAR_REFERENCE. */
  datatype VisitMethod =
    | VisitGString
    | VisitDollarReference
    | VisitBlockScriptlet
    | VisitExpressionScriptlet
    | VisitImportBlock
    | VisitDollarScriptlet
    | VisitText
    | VisitDollarReferenceDollar
    | VisitDollarReferenceBody
    | VisitBlockScriptletOpen
    | VisitExpressionScriptletOpen
    | VisitScriptletBody
    | VisitScriptletClose
    | VisitImportBlockOpen
    | VisitImportBlockBody
    | VisitImportBlockClose
    | VisitDollarScriptletOpen
    | VisitDollarScriptletBody
    | VisitDollarScriptletClose

  /** What distinguishes nodes for dispatch: a tree node's type or a leaf's
      token kind. */
  datatype NodeKind = Tree(nodeType: TreeNodeType) | Leaf(tokenKind: TokenKind)

  function KindOf(n: AstNode): NodeKind
  {
    match n
    case TreeNode(_, t, _) => Tree(t)
    case LeafNode(_, k, _, _) => Leaf(k)
  }

  /** The kind of node each visit method is declared for, as its name and
      parameter type say. */
  function Accepts(m: VisitMethod): NodeKind
  {
    match m
    case VisitGString => Tree(GStringNode)
    case VisitDollarReference => Tree(DollarReferenceNode)
    case VisitBlockScriptlet => Tree(BlockScriptletNode)
    case VisitExpressionScriptlet => Tree(ExpressionScriptletNode)
    case VisitImportBlock => Tree(ImportBlockNode)
    case VisitDollarScriptlet => Tree(DollarScriptletNode)
    case VisitText => Leaf(TokenKind.Text)
    case VisitDollarReferenceDollar => Leaf(DollarReferenceDollar)
    case VisitDollarReferenceBody => Leaf(DollarReferenceBody)
    case VisitBlockScriptletOpen => Leaf(BlockScriptletOpen)
    case VisitExpressionScriptletOpen => Leaf(ExpressionScriptletOpen)
    case VisitScriptletBody => Leaf(ScriptletBody)
    case VisitScriptletClose => Leaf(ScriptletClose)
    case VisitImportBlockOpen => Leaf(ImportBlockOpen)
    case VisitImportBlockBody => Leaf(ImportBlockBody)
    case VisitImportBlockClose => Leaf(ImportBlockClose)
    case VisitDollarScriptletOpen => Leaf(DollarScriptletOpen)
    case VisitDollarScriptletBody => Leaf(DollarScriptletBody)
    case VisitDollarScriptletClose => Leaf(DollarScriptletClose)
  }

  /** A leaf `visitChildren` has no case for: a DOLLAR_REFERENCE token. */
  predicate Skipped(n: AstNode)
  {
    n.LeafNode? && n.tokenKind == TokenKind.DollarReference
  }

  /** `visitChildren`'s two switches: the visit method called for a child,
      or none when the switch has no case for it. */
  function Dispatch(child: AstNode): (r: Option<VisitMethod>)
    ensures r.Some? ==> KindOf(child) == Accepts(r.value)
    ensures r.None? <==> Skipped(child)
  {
    match child
    case TreeNode(_, t, _) =>
      Some(match t
           case GStringNode => VisitGString
           case DollarReferenceNode => VisitDollarReference
           case BlockScriptletNode => VisitBlockScriptlet
           case ExpressionScriptletNode => VisitExpressionScriptlet
           case ImportBlockNode => VisitImportBlock
           case DollarScriptletNode => VisitDollarScriptlet)
    case LeafNode(_, k, _, _) =>
      match k
      case Text => Some(VisitText)
      case DollarReference => None
      case DollarReferenceDollar => Some(VisitDollarReferenceDollar)
      case DollarReferenceBody => Some(VisitDollarReferenceBody)
      case BlockScriptletOpen => Some(VisitBlockScriptletOpen)
      case ExpressionScriptletOpen => Some(VisitExpressionScriptletOpen)
      case ScriptletBody => Some(VisitScriptletBody)
      case ScriptletClose => Some(VisitScriptletClose)
      case ImportBlockOpen => Some(VisitImportBlockOpen)
      case ImportBlockBody => Some(VisitImportBlockBody)
      case ImportBlockClose => Some(VisitImportBlockClose)
      case DollarScriptletOpen => Some(VisitDollarScriptletOpen)
      case DollarScriptletBody => Some(VisitDollarScriptletBody)
      case DollarScriptletClose => Some(VisitDollarScriptletClose)
  }

  /** Dispatch calls a method exactly when the child is of the kind the
      method is declared for, and calls none exactly for a skipped leaf. */
  lemma DispatchMatchesDeclaration(child: AstNode, m: VisitMethod)
    ensures Dispatch(child) == Some(m) <==> KindOf(child) == Accepts(m)
    ensures Dispatch(child).None? <==> Skipped(child)
  {
    match m
    case VisitGString =>
    case VisitDollarReference =>
    case VisitBlockScriptlet =>
    case VisitExpressionScriptlet =>
    case VisitImportBlock =>
    case VisitDollarScriptlet =>
    case VisitText =>
    case VisitDollarReferenceDollar =>
    case VisitDollarReferenceBody =>
    case VisitBlockScriptletOpen =>
    case VisitExpressionScriptletOpen =>
    case VisitScriptletBody =>
    case VisitScriptletClose =>
    case VisitImportBlockOpen =>
    case VisitImportBlockBody =>
    case VisitImportBlockClose =>
    case VisitDollarScriptletOpen =>
    case VisitDollarScriptletBody =>
    case VisitDollarScriptletClose =>
  }

  /** A call of one of the hooks, with the node it was given. */
  datatype HookCall = Before(node: AstNode) | After(node: AstNode)

  /** The hook calls of a default visit method on `n`: `defaultBefore(n)`,
      then, for a tree node, `visitChildren(n)`, then `defaultAfter(n)`. */
  function Visit(n: AstNode): seq<HookCall>
    decreases n, 1
  {
    match n
    case LeafNode(_, _, _, _) => [Before(n), After(n)]
    case TreeNode(_, _, cs) => [Before(n)] + VisitChildren(cs) + [After(n)]
  }

  /** `visitChildren`: each child in order, skipping the ones `Dispatch`
      has no method for. */
  function VisitChildren(cs: seq<AstNode>): seq<HookCall>
    decreases cs, 0
  {
    if |cs| == 0 then []
    else (if Dispatch(cs[0]).Some? then Visit(cs[0]) else []) + VisitChildren(cs[1..])
  }

  /** The nodes given to `defaultBefore`, in call order. */
  function BeforeNodes(calls: seq<HookCall>): seq<AstNode>
  {
    if |calls| == 0 then []
    else (if calls[0].Before? then [calls[0].node] else []) + BeforeNodes(calls[1..])
  }

  /** The nodes of a list that a visit reaches: all but the skipped leaves. */
  function Reached(ns: seq<AstNode>): seq<AstNode>
  {
    if |ns| == 0 then [] else (if Skipped(ns[0]) then [] else [ns[0]]) + Reached(ns[1..])
  }

  lemma {:induction false} BeforeNodesAppend(a: seq<HookCall>, b: seq<HookCall>)
    ensures BeforeNodes(a + b) == BeforeNodes(a) + BeforeNodes(b)
    decreases |a|
  {
    if |a| == 0 {
      assert a + b == b;
    } else {
      assert (a + b)[0] == a[0];
      assert (a + b)[1..] == a[1..] + b;
      BeforeNodesAppend(a[1..], b);
    }
  }

  lemma {:induction false} ReachedAppend(a: seq<AstNode>, b: seq<AstNode>)
    ensures Reached(a + b) == Reached(a) + Reached(b)
    decreases |a|
  {
    if |a| == 0 {
      assert a + b == b;
    } else {
      assert (a + b)[0] == a[0];
      assert (a + b)[1..] == a[1..] + b;
      ReachedAppend(a[1..], b);
    }
  }

  /** A visit started on `n` calls `defaultBefore` on the nodes of the
      subtree in pre-order, leaving out only the skipped leaves. */
  lemma {:induction false} VisitIsPreorder(n: AstNode)
    requires !Skipped(n)
    ensures BeforeNodes(Visit(n)) == Reached(AstUtil.Subtrees(n))
    decreases n, 1
  {
    match n
    case LeafNode(_, _, _, _) =>
      assert BeforeNodes([After(n)]) == [];
    case TreeNode(_, _, cs) =>
      VisitChildrenIsPreorder(cs);
      BeforeNodesAppend([Before(n)] + VisitChildren(cs), [After(n)]);
      BeforeNodesAppend([Before(n)], VisitChildren(cs));
      assert BeforeNodes([After(n)]) == [];
      ReachedAppend([n], AstUtil.SubtreesSeq(cs));
  }

  lemma {:induction false} VisitChildrenIsPreorder(cs: seq<AstNode>)
    ensures BeforeNodes(VisitChildren(cs)) == Reached(AstUtil.SubtreesSeq(cs))
    decreases cs, 0
  {
    if |cs| > 0 {
      var head := if Dispatch(cs[0]).Some? then Visit(cs[0]) else [];
      BeforeNodesAppend(head, VisitChildren(cs[1..]));
      VisitChildrenIsPreorder(cs[1..]);
      ReachedAppend(AstUtil.Subtrees(cs[0]), AstUtil.SubtreesSeq(cs[1..]));
      DispatchMatchesDeclaration(cs[0], VisitGString);
      if Skipped(cs[0]) {
        assert AstUtil.Subtrees(cs[0]) == [cs[0]];
      } else {
        VisitIsPreorder(cs[0]);
      }
    }
  }

  /** Every node reached gets exactly two hook calls. */
  lemma {:induction false} VisitCallsEachHookOnce(n: AstNode)
    requires !Skipped(n)
    ensures |Visit(n)| == 2 * |Reached(AstUtil.Subtrees(n))|
    decreases n, 1
  {
    match n
    case LeafNode(_, _, _, _) =>
    case TreeNode(_, _, cs) =>
      VisitChildrenCallsEachHookOnce(cs);
      ReachedAppend([n], AstUtil.SubtreesSeq(cs));
  }

  lemma {:induction false} VisitChildrenCallsEachHookOnce(cs: seq<AstNode>)
    ensures |VisitChildren(cs)| == 2 * |Reached(AstUtil.SubtreesSeq(cs))|
    decreases cs, 0
  {
    if |cs| > 0 {
      VisitChildrenCallsEachHookOnce(cs[1..]);
      ReachedAppend(AstUtil.Subtrees(cs[0]), AstUtil.SubtreesSeq(cs[1..]));
      DispatchMatchesDeclaration(cs[0], VisitGString);
      if Skipped(cs[0]) {
        assert AstUtil.Subtrees(cs[0]) == [cs[0]];
      } else {
        VisitCallsEachHookOnce(cs[0]);
      }
    }
  }
}
