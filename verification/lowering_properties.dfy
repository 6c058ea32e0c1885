/** What the script transformers produce: a declarative rendering of the
    script for well-formed trees, success on every tree without a nested
    G_STRING and with in-range leaves, and agreement of the two variants
    everywhere but the wrapper lines. */
module ScriptProperties {
  import opened Wrappers
  import opened Tokens
  import opened Ast
  import opened ScriptTransformer
  import Visitor
  import AstUtil

  /** The token kinds whose leaves write output when visited. */
  predicate Emits(k: TokenKind)
  {
    k == TokenKind.Text || k == DollarReferenceBody
  }

  predicate IsScriptlet(t: TreeNodeType)
  {
    t == BlockScriptletNode || t == ExpressionScriptletNode || t == DollarScriptletNode
  }

  /** A subtree the transformer can lower below the root: no G_STRING node
      inside, and every leaf's offsets within the text. */
  predicate Lowerable(text: string, n: AstNode)
    decreases n
  {
    match n
    case LeafNode(_, _, s, e) => 0 <= s <= e <= |text|
    case TreeNode(_, t, cs) =>
      t != GStringNode && forall i :: 0 <= i < |cs| ==> Lowerable(text, cs[i])
  }

  /** The shape the parser gives import blocks and scriptlets: only leaves
      below them, and none below a scriptlet that would write output. */
  predicate Tidy(n: AstNode)
    decreases n
  {
    match n
    case LeafNode(_, _, _, _) => true
    case TreeNode(_, t, cs) =>
      && (t == ImportBlockNode ==> forall i :: 0 <= i < |cs| ==> cs[i].LeafNode?)
      && (IsScriptlet(t) ==> forall i :: 0 <= i < |cs| ==> cs[i].LeafNode? && !Emits(cs[i].tokenKind))
      && forall i :: 0 <= i < |cs| ==> Tidy(cs[i])
  }

  /** A leaf's source text, empty when its offsets are out of range. */
  function Piece(text: string, leaf: AstNode): string
    requires leaf.LeafNode?
  {
    match LeafSource(text, leaf)
    case Success(s) => s
    case Failure(_) => ""
  }

  /** The line of a node's first body leaf of the given kind, if any. */
  function BodyLine(text: string, n: AstNode, bodyKind: TokenKind): string
    requires n.TreeNode?
  {
    match AstUtil.FirstChildLeafWithType(n, bodyKind)
    case None => ""
    case Some(b) => Line(Piece(text, b))
  }

  /** The closure call around a node's first body leaf of the given kind,
      if any. */
  function BodyClosure(text: string, indent: nat, n: AstNode, bodyKind: TokenKind): string
    requires n.TreeNode?
  {
    match AstUtil.FirstChildLeafWithType(n, bodyKind)
    case None => ""
    case Some(b) => ClosureOutput(indent, Piece(text, b))
  }

  /** What one node contributes to the script body at an indentation
      level, decided by its own kind alone. */
  function Fragment(text: string, indent: nat, n: AstNode): string
  {
    match n
    case LeafNode(_, k, _, _) =>
      if k == TokenKind.Text then TextOutput(indent, Piece(text, n))
      else if k == DollarReferenceBody then ReferenceOutput(indent, Piece(text, n))
      else ""
    case TreeNode(_, t, _) =>
      match t
      case BlockScriptletNode => BodyLine(text, n, ScriptletBody)
      case ExpressionScriptletNode => BodyClosure(text, indent, n, ScriptletBody)
      case DollarScriptletNode => BodyClosure(text, indent, n, DollarScriptletBody)
      case _ => ""
  }

  /** The contributions of a list of nodes, in list order. */
  function Fragments(text: string, indent: nat, ns: seq<AstNode>): string
  {
    if |ns| == 0 then "" else Fragment(text, indent, ns[0]) + Fragments(text, indent, ns[1..])
  }

  /** The hoisted line of each import block in turn. */
  function HoistedText(text: string, blocks: seq<AstNode>): string
    requires forall b :: b in blocks ==> b.TreeNode?
  {
    if |blocks| == 0 then "" else BodyLine(text, blocks[0], ImportBlockBody) + HoistedText(text, blocks[1..])
  }

  /** The two wrapper lines, the only place the variants differ. */
  function Wrapper(v: Variant): string
  {
    Line(MethodLine(v)) + IndentedLine(ReturnLine(v), 1)
  }

  /** The script of a tree, stated declaratively: the package line, a
      blank line, the custom imports, the bodies of the import blocks in
      document order, the wrapper, each node's fragment in document order
      at two levels in, and the two closing braces. */
  function ScriptOf(cfg: Config, root: AstNode): string
    requires root.TreeNode?
  {
    var nodes := AstUtil.SubtreesSeq(root.children);
    Line(PackageLine) + Line("") + ImportLines(cfg.importStatements)
    + HoistedText(cfg.text, AstUtil.ImportBlocksOf(nodes))
    + Wrapper(cfg.variant)
    + Fragments(cfg.text, 2, nodes)
    + IndentedLine("}", 1) + Line("}")
  }

  /** The script assembled from given hoisted text and body. */
  lemma ScriptOfParts(cfg: Config, root: AstNode, hoisted: string, body: string)
    requires root.TreeNode?
    requires HoistedText(cfg.text, AstUtil.ImportBlocksOf(AstUtil.SubtreesSeq(root.children))) == hoisted
    requires Fragments(cfg.text, 2, AstUtil.SubtreesSeq(root.children)) == body
    ensures ScriptOf(cfg, root)
      == Line(PackageLine) + Line("") + ImportLines(cfg.importStatements) + hoisted
         + Wrapper(cfg.variant) + body + IndentedLine("}", 1) + Line("}")
  {
  }

  lemma {:induction false} FragmentsAppend(text: string, indent: nat, a: seq<AstNode>, b: seq<AstNode>)
    ensures Fragments(text, indent, a + b) == Fragments(text, indent, a) + Fragments(text, indent, b)
    decreases |a|
  {
    if |a| == 0 {
      assert a + b == b;
    } else {
      assert (a + b)[0] == a[0];
      assert (a + b)[1..] == a[1..] + b;
      FragmentsAppend(text, indent, a[1..], b);
    }
  }

  /** Leaves that write nothing contribute nothing. */
  lemma {:induction false} QuietLeaves(text: string, indent: nat, cs: seq<AstNode>)
    requires forall i :: 0 <= i < |cs| ==> cs[i].LeafNode? && !Emits(cs[i].tokenKind)
    ensures Fragments(text, indent, AstUtil.SubtreesSeq(cs)) == ""
    decreases |cs|
  {
    if |cs| > 0 {
      assert AstUtil.Subtrees(cs[0]) == [cs[0]];
      QuietLeaves(text, indent, cs[1..]);
      FragmentsAppend(text, indent, [cs[0]], AstUtil.SubtreesSeq(cs[1..]));
    }
  }

  /** A tidy subtree satisfies the condition of the import-block search's
      reference lemma. */
  lemma {:induction false} TidyHoldsLeaves(n: AstNode)
    requires Tidy(n)
    ensures AstUtil.ImportBlocksHoldLeaves(n)
    decreases n
  {
    match n
    case LeafNode(_, _, _, _) =>
    case TreeNode(_, _, cs) =>
      forall i | 0 <= i < |cs|
        ensures AstUtil.ImportBlocksHoldLeaves(cs[i])
      {
        TidyHoldsLeaves(cs[i]);
      }
  }

  /** Every node below lowerable children is lowerable. */
  lemma {:induction false} SubtreesLowerable(text: string, cs: seq<AstNode>)
    requires forall i :: 0 <= i < |cs| ==> Lowerable(text, cs[i])
    ensures forall x :: x in AstUtil.SubtreesSeq(cs) ==> Lowerable(text, x)
    decreases cs
  {
    if |cs| > 0 {
      SubtreeLowerable(text, cs[0]);
      SubtreesLowerable(text, cs[1..]);
    }
  }

  lemma {:induction false} SubtreeLowerable(text: string, n: AstNode)
    requires Lowerable(text, n)
    ensures forall x :: x in AstUtil.Subtrees(n) ==> Lowerable(text, x)
    decreases n
  {
    match n
    case LeafNode(_, _, _, _) =>
    case TreeNode(_, _, cs) =>
      SubtreesLowerable(text, cs);
  }

  /** A lowerable node's first body leaf is in range. */
  lemma BodyInRange(text: string, n: AstNode, bodyKind: TokenKind)
    requires n.TreeNode? && Lowerable(text, n)
    ensures match AstUtil.FirstChildLeafWithType(n, bodyKind)
            case None => true
            case Some(b) => LeafSource(text, b) == Success(Piece(text, b))
  {
    match AstUtil.FirstChildLeafWithType(n, bodyKind)
    case None =>
    case Some(b) =>
      var i :| 0 <= i < |n.children| && n.children[i] == b;
      assert Lowerable(text, n.children[i]);
  }

  /** Hoisting lowerable import blocks writes their body lines in order. */
  lemma {:induction false} HoistRenders(text: string, blocks: seq<AstNode>)
    requires forall b :: b in blocks ==> b.TreeNode? && Lowerable(text, b)
    ensures HoistBodies(text, blocks) == Success(HoistedText(text, blocks))
    decreases |blocks|
  {
    if |blocks| > 0 {
      BodyInRange(text, blocks[0], ImportBlockBody);
      HoistRenders(text, blocks[1..]);
    }
  }

  /** Visiting a lowerable, tidy child writes the fragments of its subtree
      in document order and leaves the indentation as it was. */
  lemma {:induction false} VisitChildRenders(cfg: Config, indent: nat, c: AstNode)
    requires Lowerable(cfg.text, c) && Tidy(c)
    ensures VisitChild(cfg, indent, c) == Success(Emitted(Fragments(cfg.text, indent, AstUtil.Subtrees(c)), indent))
    decreases c, 1
  {
    match c
    case LeafNode(_, _, _, _) =>
      LeafRenders(cfg, indent, c);
    case TreeNode(_, t, cs) =>
      if t == DollarReferenceNode || t == ImportBlockNode {
        VisitChildrenRenders(cfg, indent, cs);
        PassThroughRenders(cfg, indent, c);
      } else {
        ScriptletRenders(cfg, indent, c);
      }
  }

  /** A leaf writes its own fragment. */
  lemma LeafRenders(cfg: Config, indent: nat, c: AstNode)
    requires c.LeafNode? && Lowerable(cfg.text, c)
    ensures VisitChild(cfg, indent, c) == Success(Emitted(Fragments(cfg.text, indent, AstUtil.Subtrees(c)), indent))
  {
    assert AstUtil.Subtrees(c) == [c];
    assert Fragments(cfg.text, indent, [c]) == Fragment(cfg.text, indent, c);
  }

  /** A dollar reference or an import block writes what its children
      write, and contributes nothing of its own. */
  lemma PassThroughRenders(cfg: Config, indent: nat, c: AstNode)
    requires c.TreeNode? && (c.nodeType == DollarReferenceNode || c.nodeType == ImportBlockNode)
    requires VisitChildren(cfg, indent, c.children)
      == Success(Emitted(Fragments(cfg.text, indent, AstUtil.SubtreesSeq(c.children)), indent))
    ensures VisitChild(cfg, indent, c) == Success(Emitted(Fragments(cfg.text, indent, AstUtil.Subtrees(c)), indent))
  {
    var text := cfg.text;
    var cs := c.children;
    assert AstUtil.Subtrees(c) == [c] + AstUtil.SubtreesSeq(cs);
    assert Fragment(text, indent, c) == "";
    assert Fragments(text, indent, [c] + AstUtil.SubtreesSeq(cs)) == Fragments(text, indent, AstUtil.SubtreesSeq(cs));
    assert VisitChild(cfg, indent, c) == VisitChildren(cfg, indent, cs);
  }

  /** A scriptlet writes its own fragment; its leaves add nothing. */
  lemma ScriptletRenders(cfg: Config, indent: nat, c: AstNode)
    requires c.TreeNode? && IsScriptlet(c.nodeType) && Lowerable(cfg.text, c) && Tidy(c)
    ensures VisitChild(cfg, indent, c) == Success(Emitted(Fragments(cfg.text, indent, AstUtil.Subtrees(c)), indent))
  {
    var text := cfg.text;
    var cs := c.children;
    assert AstUtil.Subtrees(c) == [c] + AstUtil.SubtreesSeq(cs);
    QuietLeaves(text, indent, cs);
    FragmentsAppend(text, indent, [c], AstUtil.SubtreesSeq(cs));
    assert Fragments(text, indent, [c]) == Fragment(text, indent, c);
    var bodyKind := if c.nodeType == DollarScriptletNode then DollarScriptletBody else ScriptletBody;
    BodyInRange(text, c, bodyKind);
  }

  lemma {:induction false} VisitChildrenRenders(cfg: Config, indent: nat, cs: seq<AstNode>)
    requires forall i :: 0 <= i < |cs| ==> Lowerable(cfg.text, cs[i]) && Tidy(cs[i])
    ensures VisitChildren(cfg, indent, cs) == Success(Emitted(Fragments(cfg.text, indent, AstUtil.SubtreesSeq(cs)), indent))
    decreases cs, 0
  {
    if |cs| > 0 {
      VisitChildRenders(cfg, indent, cs[0]);
      VisitChildrenRenders(cfg, indent, cs[1..]);
      FragmentsAppend(cfg.text, indent, AstUtil.Subtrees(cs[0]), AstUtil.SubtreesSeq(cs[1..]));
    }
  }

  /** The transformer's output on a tree whose children are lowerable and
      tidy is the declarative script. */
  lemma TransformRendersScript(cfg: Config, root: AstNode)
    requires root.TreeNode?
    requires forall i :: 0 <= i < |root.children| ==> Lowerable(cfg.text, root.children[i]) && Tidy(root.children[i])
    ensures Transform(cfg, root) == Success(ScriptOf(cfg, root))
  {
    var cs := root.children;
    var nodes := AstUtil.SubtreesSeq(cs);
    forall i | 0 <= i < |cs|
      ensures AstUtil.ImportBlocksHoldLeaves(cs[i])
    {
      TidyHoldsLeaves(cs[i]);
    }
    AstUtil.FindInSeqIsPreorderFilter(cs);
    SubtreesLowerable(cfg.text, cs);
    HoistRenders(cfg.text, AstUtil.ImportBlocksOf(nodes));
    VisitChildrenRenders(cfg, 2, cs);
  }

  /** A lowerable child is visited without an exception. */
  lemma {:induction false} VisitChildSucceeds(cfg: Config, indent: nat, c: AstNode)
    requires Lowerable(cfg.text, c)
    ensures VisitChild(cfg, indent, c).Success?
    decreases c, 1
  {
    match c
    case LeafNode(_, _, _, _) =>
      LeafRenders(cfg, indent, c);
    case TreeNode(_, t, cs) =>
      if t == DollarReferenceNode || t == ImportBlockNode {
        VisitChildrenSucceed(cfg, indent, cs);
        PassThroughSucceeds(cfg, indent, c);
      } else {
        ScriptletSucceeds(cfg, indent, c);
      }
  }

  lemma {:induction false} VisitChildrenSucceed(cfg: Config, indent: nat, cs: seq<AstNode>)
    requires forall i :: 0 <= i < |cs| ==> Lowerable(cfg.text, cs[i])
    ensures VisitChildren(cfg, indent, cs).Success?
    decreases cs, 0
  {
    if |cs| > 0 {
      VisitChildSucceeds(cfg, indent, cs[0]);
      VisitChildrenSucceed(cfg, indent, cs[1..]);
    }
  }

  /** The default visit of a dollar reference or an import block is the
      visit of its children. */
  lemma PassThroughSucceeds(cfg: Config, indent: nat, c: AstNode)
    requires c.TreeNode? && (c.nodeType == DollarReferenceNode || c.nodeType == ImportBlockNode)
    requires VisitChildren(cfg, indent, c.children).Success?
    ensures VisitChild(cfg, indent, c).Success?
  {
    assert VisitChild(cfg, indent, c) == VisitChildren(cfg, indent, c.children);
  }

  lemma ScriptletSucceeds(cfg: Config, indent: nat, c: AstNode)
    requires c.TreeNode? && IsScriptlet(c.nodeType) && Lowerable(cfg.text, c)
    ensures VisitChild(cfg, indent, c).Success?
  {
    var bodyKind := if c.nodeType == DollarScriptletNode then DollarScriptletBody else ScriptletBody;
    BodyInRange(cfg.text, c, bodyKind);
  }

  /** The indentation is balanced and the import bodies are in range, so
      lowering a root whose children are lowerable never throws. */
  lemma TransformSucceeds(cfg: Config, root: AstNode)
    requires root.TreeNode?
    requires forall i :: 0 <= i < |root.children| ==> Lowerable(cfg.text, root.children[i])
    ensures Transform(cfg, root).Success?
  {
    var blocks := AstUtil.FindDescendantImportBlocks(root);
    SubtreesLowerable(cfg.text, root.children);
    HoistRenders(cfg.text, blocks);
    VisitChildrenSucceed(cfg, 2, root.children);
  }

  /** Two configurations that differ at most in the variant. */
  predicate SameInput(c1: Config, c2: Config)
  {
    c1.importStatements == c2.importStatements && c1.text == c2.text
  }

  /** Below the root the variant makes no difference: a nested G_STRING,
      the only visit that writes the wrapper lines, always fails there, and
      with the same exception in both variants. */
  lemma {:induction false} VariantsAgreeOnChild(c1: Config, c2: Config, indent: nat, c: AstNode)
    requires SameInput(c1, c2) && indent > 0
    ensures VisitChild(c1, indent, c) == VisitChild(c2, indent, c)
    decreases c, 2
  {
    match c
    case LeafNode(_, _, _, _) =>
    case TreeNode(_, t, cs) =>
      match t
      case GStringNode =>
        VariantsAgreeOnGString(c1, c2, indent, c);
      case DollarReferenceNode =>
        VariantsAgreeOnChildren(c1, c2, indent, cs);
      case ImportBlockNode =>
        VariantsAgreeOnChildren(c1, c2, indent, cs);
      case BlockScriptletNode =>
      case ExpressionScriptletNode =>
      case DollarScriptletNode =>
  }

  lemma {:induction false} VariantsAgreeOnChildren(c1: Config, c2: Config, indent: nat, cs: seq<AstNode>)
    requires SameInput(c1, c2) && indent > 0
    ensures VisitChildren(c1, indent, cs) == VisitChildren(c2, indent, cs)
    decreases cs, 0
  {
    if |cs| > 0 {
      VariantsAgreeOnChild(c1, c2, indent, cs[0]);
      VariantsAgreeOnChildren(c1, c2, indent, cs[1..]);
    }
  }

  lemma {:induction false} VariantsAgreeOnGString(c1: Config, c2: Config, indent: nat, n: AstNode)
    requires SameInput(c1, c2) && indent > 0 && n.TreeNode?
    ensures VisitGString(c1, indent, n) == VisitGString(c2, indent, n)
    ensures VisitGString(c1, indent, n).Failure?
    decreases n, 1
  {
    VariantsAgreeOnChildren(c1, c2, indent + 2, n.children);
  }

  /** The parts of a successful transformation: the header, the hoisted
      bodies, the wrapper, the children's output and the closing braces. */
  lemma TransformLayout(cfg: Config, root: AstNode)
    requires root.TreeNode? && Transform(cfg, root).Success?
    ensures HoistBodies(cfg.text, AstUtil.FindDescendantImportBlocks(root)).Success?
    ensures VisitChildren(cfg, 2, root.children).Success?
    ensures Transform(cfg, root).value
      == (Line(PackageLine) + Line("") + ImportLines(cfg.importStatements)
          + HoistBodies(cfg.text, AstUtil.FindDescendantImportBlocks(root)).value)
         + Wrapper(cfg.variant)
         + (VisitChildren(cfg, 2, root.children).value.text + IndentedLine("}", 1) + Line("}"))
  {
  }

  /** The two transformers fail together, with the same exception, and
      otherwise write the same script except for the wrapper lines. */
  lemma TransformVariants(cfg: Config, root: AstNode)
    requires root.TreeNode?
    ensures var closure := Transform(cfg.(variant := ClosureScript), root);
            var template := Transform(cfg.(variant := TemplateScript), root);
            && (closure.Failure? <==> template.Failure?)
            && (closure.Failure? ==> closure == template)
            && (closure.Success? ==> exists pre, post ::
                  && closure.value == pre + Wrapper(ClosureScript) + post
                  && template.value == pre + Wrapper(TemplateScript) + post)
  {
    var c1 := cfg.(variant := ClosureScript);
    var c2 := cfg.(variant := TemplateScript);
    VariantsAgreeOnChildren(c1, c2, 2, root.children);
    var closure := Transform(c1, root);
    var template := Transform(c2, root);
    if closure.Success? {
      TransformLayout(c1, root);
      assert template.Success?;
      TransformLayout(c2, root);
      var pre := Line(PackageLine) + Line("") + ImportLines(cfg.importStatements)
        + HoistBodies(cfg.text, AstUtil.FindDescendantImportBlocks(root)).value;
      var post := VisitChildren(c1, 2, root.children).value.text + IndentedLine("}", 1) + Line("}");
      assert closure.value == pre + Wrapper(ClosureScript) + post;
      assert template.value == pre + Wrapper(TemplateScript) + post;
    }
  }
}
