/** The static helpers over syntax trees: collecting diagnostics, finding
    import blocks below a node, and finding a node's first leaf of a kind. */
module AstUtil {
  import opened Wrappers
  import opened Tokens
  import opened Diagnostics
  import opened Ast

  /** Every node of a subtree in pre-order: the node itself, then the
      subtrees of its children from left to right. */
  function Subtrees(n: AstNode): (r: seq<AstNode>)
    ensures |r| >= 1 && r[0] == n
    decreases n
  {
    match n
    case LeafNode(_, _, _, _) => [n]
    case TreeNode(_, _, cs) => [n] + SubtreesSeq(cs)
  }

  function SubtreesSeq(cs: seq<AstNode>): seq<AstNode>
    decreases cs
  {
    if |cs| == 0 then [] else Subtrees(cs[0]) + SubtreesSeq(cs[1..])
  }

  /** The diagnostics of a list of nodes, each node's own in list order. */
  function DiagnosticsOf(ns: seq<AstNode>): seq<Diagnostic>
  {
    if |ns| == 0 then [] else ns[0].diagnostics + DiagnosticsOf(ns[1..])
  }

  lemma {:induction false} DiagnosticsOfAppend(a: seq<AstNode>, b: seq<AstNode>)
    ensures DiagnosticsOf(a + b) == DiagnosticsOf(a) + DiagnosticsOf(b)
    decreases |a|
  {
    if |a| == 0 {
      assert a + b == b;
    } else {
      assert (a + b)[0] == a[0];
      assert (a + b)[1..] == a[1..] + b;
      DiagnosticsOfAppend(a[1..], b);
    }
  }

  lemma {:induction false} SubtreesSeqAppend(a: seq<AstNode>, b: seq<AstNode>)
    ensures SubtreesSeq(a + b) == SubtreesSeq(a) + SubtreesSeq(b)
    decreases |a|
  {
    if |a| == 0 {
      assert a + b == b;
    } else {
      assert (a + b)[0] == a[0];
      assert (a + b)[1..] == a[1..] + b;
      SubtreesSeqAppend(a[1..], b);
    }
  }

  /** A list's diagnostics are empty exactly when every node's are. */
  lemma {:induction false} DiagnosticsOfEmpty(ns: seq<AstNode>)
    ensures DiagnosticsOf(ns) == [] <==> forall i :: 0 <= i < |ns| ==> ns[i].diagnostics == []
    decreases |ns|
  {
    if |ns| > 0 {
      DiagnosticsOfEmpty(ns[1..]);
      assert forall i :: 1 <= i < |ns| ==> ns[i] == ns[1..][i - 1];
    }
  }

  /** `getAllDiagnostics`: the node's own diagnostics, then, for a tree
      node, those of each child's subtree in turn; that is, the diagnostics
      of the whole subtree in pre-order. */
  method GetAllDiagnostics(n: AstNode) returns (ds: seq<Diagnostic>)
    ensures ds == DiagnosticsOf(Subtrees(n))
    decreases n
  {
    ds := n.diagnostics;
    if n.LeafNode? {
      assert Subtrees(n) == [n];
      return;
    }
    var cs := n.children;
    var i := 0;
    while i < |cs|
      invariant 0 <= i <= |cs|
      invariant ds == n.diagnostics + DiagnosticsOf(SubtreesSeq(cs[..i]))
    {
      var sub := GetAllDiagnostics(cs[i]);
      assert cs[..i + 1] == cs[..i] + [cs[i]];
      SubtreesSeqAppend(cs[..i], [cs[i]]);
      assert [cs[i]][1..] == [];
      assert SubtreesSeq([cs[i]]) == Subtrees(cs[i]);
      DiagnosticsOfAppend(SubtreesSeq(cs[..i]), Subtrees(cs[i]));
      ds := ds + sub;
      i := i + 1;
    }
    assert cs[..i] == cs;
    assert Subtrees(n) == [n] + SubtreesSeq(cs);
    DiagnosticsOfAppend([n], SubtreesSeq(cs));
  }

  /** `hasDiagnostics`: some node of the subtree carries a diagnostic. */
  method HasDiagnostics(n: AstNode) returns (b: bool)
    ensures b <==> exists i :: 0 <= i < |Subtrees(n)| && Subtrees(n)[i].diagnostics != []
  {
    var ds := GetAllDiagnostics(n);
    DiagnosticsOfEmpty(Subtrees(n));
    b := ds != [];
  }

  /** An IMPORT_BLOCK tree node. */
  predicate IsImportBlock(n: AstNode)
  {
    n.TreeNode? && n.nodeType == ImportBlockNode
  }

  /** `findDescendantImportBlocks`: over the children, an import block is
      taken as a whole and not searched, any other tree node is searched,
      and leaves are skipped. */
  function FindDescendantImportBlocks(node: AstNode): (r: seq<AstNode>)
    requires node.TreeNode?
    ensures forall x :: x in r ==> IsImportBlock(x) && x in SubtreesSeq(node.children)
  {
    FindInSeqSound(node.children);
    FindInSeq(node.children)
  }

  function FindIn(c: AstNode): seq<AstNode>
    decreases c
  {
    match c
    case LeafNode(_, _, _, _) => []
    case TreeNode(_, t, cs) => if t == ImportBlockNode then [c] else FindInSeq(cs)
  }

  function FindInSeq(cs: seq<AstNode>): seq<AstNode>
    decreases cs
  {
    if |cs| == 0 then [] else FindIn(cs[0]) + FindInSeq(cs[1..])
  }

  /** The import blocks of a list of nodes, in list order. */
  function ImportBlocksOf(ns: seq<AstNode>): (r: seq<AstNode>)
    ensures forall x :: x in r ==> IsImportBlock(x) && x in ns
    ensures forall x :: x in ns && IsImportBlock(x) ==> x in r
  {
    if |ns| == 0 then []
    else (if IsImportBlock(ns[0]) then [ns[0]] else []) + ImportBlocksOf(ns[1..])
  }

  lemma {:induction false} ImportBlocksOfAppend(a: seq<AstNode>, b: seq<AstNode>)
    ensures ImportBlocksOf(a + b) == ImportBlocksOf(a) + ImportBlocksOf(b)
    decreases |a|
  {
    if |a| == 0 {
      assert a + b == b;
    } else {
      assert (a + b)[0] == a[0];
      assert (a + b)[1..] == a[1..] + b;
      ImportBlocksOfAppend(a[1..], b);
    }
  }

  /** Every import block of the subtree has only leaves as children, as
      the parser builds them. */
  predicate ImportBlocksHoldLeaves(n: AstNode)
    decreases n
  {
    match n
    case LeafNode(_, _, _, _) => true
    case TreeNode(_, t, cs) =>
      (t == ImportBlockNode ==> forall i :: 0 <= i < |cs| ==> cs[i].LeafNode?)
      && forall i :: 0 <= i < |cs| ==> ImportBlocksHoldLeaves(cs[i])
  }

  /** Whatever the tree, every node found is an import block of the
      subtree below the given children. */
  lemma {:induction false} FindInSeqSound(cs: seq<AstNode>)
    ensures forall x :: x in FindInSeq(cs) ==> IsImportBlock(x) && x in SubtreesSeq(cs)
    decreases cs
  {
    if |cs| > 0 {
      FindInSound(cs[0]);
      FindInSeqSound(cs[1..]);
    }
  }

  lemma {:induction false} FindInSound(c: AstNode)
    ensures forall x :: x in FindIn(c) ==> IsImportBlock(x) && x in Subtrees(c)
    decreases c
  {
    match c
    case LeafNode(_, _, _, _) =>
    case TreeNode(_, t, cs) =>
      if t != ImportBlockNode {
        FindInSeqSound(cs);
      }
  }

  /** Below leaves there is no import block. */
  lemma {:induction false} LeavesHaveNoImportBlocks(cs: seq<AstNode>)
    requires forall i :: 0 <= i < |cs| ==> cs[i].LeafNode?
    ensures ImportBlocksOf(SubtreesSeq(cs)) == []
    decreases |cs|
  {
    if |cs| > 0 {
      assert Subtrees(cs[0]) == [cs[0]];
      LeavesHaveNoImportBlocks(cs[1..]);
      ImportBlocksOfAppend([cs[0]], SubtreesSeq(cs[1..]));
    }
  }

  /** When import blocks hold only leaves (so that none sits inside
      another), the search finds exactly the import blocks of the pre-order
      listing, in document order. */
  lemma {:induction false} FindInSeqIsPreorderFilter(cs: seq<AstNode>)
    requires forall i :: 0 <= i < |cs| ==> ImportBlocksHoldLeaves(cs[i])
    ensures FindInSeq(cs) == ImportBlocksOf(SubtreesSeq(cs))
    decreases cs
  {
    if |cs| > 0 {
      FindInIsPreorderFilter(cs[0]);
      FindInSeqIsPreorderFilter(cs[1..]);
      ImportBlocksOfAppend(Subtrees(cs[0]), SubtreesSeq(cs[1..]));
    }
  }

  lemma {:induction false} FindInIsPreorderFilter(c: AstNode)
    requires ImportBlocksHoldLeaves(c)
    ensures FindIn(c) == ImportBlocksOf(Subtrees(c))
    decreases c
  {
    match c
    case LeafNode(_, _, _, _) =>
    case TreeNode(_, t, cs) =>
      ImportBlocksOfAppend([c], SubtreesSeq(cs));
      if t == ImportBlockNode {
        LeavesHaveNoImportBlocks(cs);
      } else {
        FindInSeqIsPreorderFilter(cs);
      }
  }

  /** A leaf child of the given token kind. */
  predicate LeafOfKind(n: AstNode, k: TokenKind)
  {
    n.LeafNode? && n.tokenKind == k
  }

  /** `getFirstChildLeafWithType`: the leftmost child that is a leaf of
      kind `k`, or nothing when no child is. */
  function FirstChildLeafWithType(parent: AstNode, k: TokenKind): (r: Option<AstNode>)
    requires parent.TreeNode?
    ensures r.None? <==> forall i :: 0 <= i < |parent.children| ==> !LeafOfKind(parent.children[i], k)
    ensures r.Some? ==> exists i :: (0 <= i < |parent.children| && parent.children[i] == r.value
                                     && LeafOfKind(r.value, k)
                                     && forall j :: 0 <= j < i ==> !LeafOfKind(parent.children[j], k))
  {
    FirstFrom(parent.children, 0, k)
  }

  /** The search from index `i` on, knowing no earlier child matched. */
  function FirstFrom(cs: seq<AstNode>, i: nat, k: TokenKind): (r: Option<AstNode>)
    requires i <= |cs|
    requires forall j :: 0 <= j < i ==> !LeafOfKind(cs[j], k)
    ensures r.None? <==> forall j :: 0 <= j < |cs| ==> !LeafOfKind(cs[j], k)
    ensures r.Some? ==> exists m :: (i <= m < |cs| && cs[m] == r.value && LeafOfKind(r.value, k)
                                     && forall j :: 0 <= j < m ==> !LeafOfKind(cs[j], k))
    decreases |cs| - i
  {
    if i == |cs| then None
    else if LeafOfKind(cs[i], k) then Some(cs[i])
    else FirstFrom(cs, i + 1, k)
  }
}
