/** Concrete trees and the scripts, or exceptions, the transformers give. */
module ScriptExamples {
  import opened Wrappers
  import opened Tokens
  import opened Ast
  import opened ScriptTransformer
  import ScriptProperties
  import AstUtil

  /** A single TEXT leaf `Hello` becomes one `out << """…"""` line two
      levels into the closure. */
  lemma HelloScript()
    ensures var cfg := Config(ClosureScript, [], "Hello");
      Transform(cfg, TreeNode([], GStringNode, [LeafNode([], TokenKind.Text, 0, 5)]))
        == Success(Line(PackageLine) + Line("") + ScriptProperties.Wrapper(ClosureScript)
                   + TextOutput(2, "Hello") + IndentedLine("}", 1) + Line("}"))
  {
    var cfg := Config(ClosureScript, [], "Hello");
    var leaf := LeafNode([], TokenKind.Text, 0, 5);
    var root := TreeNode([], GStringNode, [leaf]);
    ScriptProperties.TransformRendersScript(cfg, root);
    assert [leaf][1..] == [];
    assert AstUtil.SubtreesSeq([leaf]) == [leaf];
    assert AstUtil.ImportBlocksOf([leaf]) == [];
    assert ScriptProperties.Piece("Hello", leaf) == "Hello";
    assert ScriptProperties.Fragments("Hello", 2, [leaf]) == TextOutput(2, "Hello");
    assert ScriptProperties.HoistedText("Hello", []) == "";
    ScriptProperties.ScriptOfParts(cfg, root, "", TextOutput(2, "Hello"));
    assert ImportLines([]) == "";
    var head := Line(PackageLine) + Line("");
    assert head + ImportLines([]) + "" == head;
    assert ScriptProperties.ScriptOf(cfg, root)
      == head + ScriptProperties.Wrapper(ClosureScript) + TextOutput(2, "Hello") + IndentedLine("}", 1) + Line("}");
  }

  /** The import block `<%@a%>` as the parser builds it. */
  function ImportBlockA(): AstNode
  {
    TreeNode([], ImportBlockNode, [LeafNode([], ImportBlockOpen, 0, 3),
                                   LeafNode([], ImportBlockBody, 3, 4),
                                   LeafNode([], ImportBlockClose, 4, 6)])
  }

  /** `<%@a%>`: the import body `a` is hoisted above the method, after the
      custom import, and nothing is written inside the closure. */
  lemma ImportIsHoisted(v: Variant)
    ensures Transform(Config(v, ["import b"], "<%@a%>"), TreeNode([], GStringNode, [ImportBlockA()]))
      == Success(Line(PackageLine) + Line("") + Line("import b") + Line("a")
                 + ScriptProperties.Wrapper(v) + IndentedLine("}", 1) + Line("}"))
  {
    var cfg := Config(v, ["import b"], "<%@a%>");
    var root := TreeNode([], GStringNode, [ImportBlockA()]);
    ImportBlockAIsWellFormed("<%@a%>");
    ScriptProperties.TransformRendersScript(cfg, root);
    ImportBlockAParts();
    ScriptProperties.ScriptOfParts(cfg, root, Line("a"), "");
    assert ImportLines(["import b"]) == Line("import b");
    var head := Line(PackageLine) + Line("") + Line("import b") + Line("a") + ScriptProperties.Wrapper(v);
    assert head + "" == head;
    assert ScriptProperties.ScriptOf(cfg, root) == head + IndentedLine("}", 1) + Line("}");
  }

  lemma ImportBlockAIsWellFormed(text: string)
    requires |text| >= 6
    ensures ScriptProperties.Lowerable(text, ImportBlockA()) && ScriptProperties.Tidy(ImportBlockA())
  {
    var cs := ImportBlockA().children;
    assert forall i :: 0 <= i < |cs| ==> ScriptProperties.Lowerable(text, cs[i]);
  }

  /** The pre-order listing, the import blocks, the hoisted text and the
      fragments of the example. */
  lemma ImportBlockAParts()
    ensures var nodes := AstUtil.SubtreesSeq([ImportBlockA()]);
      && AstUtil.ImportBlocksOf(nodes) == [ImportBlockA()]
      && ScriptProperties.HoistedText("<%@a%>", [ImportBlockA()]) == Line("a")
      && ScriptProperties.Fragments("<%@a%>", 2, nodes) == ""
  {
    ImportBlockAListing();
    ImportBlockAHoisted();
    ImportBlockAQuiet();
  }

  /** Nothing of the example is written inside the closure. */
  lemma ImportBlockAQuiet()
    ensures ScriptProperties.Fragments("<%@a%>", 2, [ImportBlockA()] + ImportBlockA().children) == ""
  {
    var block := ImportBlockA();
    var nodes := [block] + block.children;
    ScriptProperties.QuietLeaves("<%@a%>", 2, block.children);
    ImportBlockAListing();
    assert nodes[1..] == block.children;
    assert ScriptProperties.Fragment("<%@a%>", 2, block) == "";
  }

  /** The example's pre-order listing and its one import block. */
  lemma ImportBlockAListing()
    ensures AstUtil.SubtreesSeq([ImportBlockA()]) == [ImportBlockA()] + ImportBlockA().children
    ensures AstUtil.ImportBlocksOf([ImportBlockA()] + ImportBlockA().children) == [ImportBlockA()]
  {
    var block := ImportBlockA();
    var cs := block.children;
    assert cs[1..][1..][1..] == [];
    assert AstUtil.SubtreesSeq(cs[1..][1..]) == cs[1..][1..];
    assert AstUtil.SubtreesSeq(cs[1..]) == cs[1..];
    assert AstUtil.SubtreesSeq(cs) == cs;
    assert [block][1..] == [];
    assert AstUtil.SubtreesSeq([block]) == [block] + cs;
    assert AstUtil.ImportBlocksOf(cs[1..][1..]) == [];
    assert AstUtil.ImportBlocksOf(cs[1..]) == [];
    assert AstUtil.ImportBlocksOf(cs) == [];
    assert ([block] + cs)[1..] == cs;
  }

  /** The example's hoisted line. */
  lemma ImportBlockAHoisted()
    ensures ScriptProperties.HoistedText("<%@a%>", [ImportBlockA()]) == Line("a")
  {
    var block := ImportBlockA();
    var body := block.children[1];
    assert !AstUtil.LeafOfKind(block.children[0], ImportBlockBody);
    assert AstUtil.FirstChildLeafWithType(block, ImportBlockBody) == Some(body);
    assert "<%@a%>"[3..4] == "a";
    assert ScriptProperties.Piece("<%@a%>", body) == "a";
    assert [block][1..] == [];
  }

  /** A G_STRING below the root is visited two levels in, so its own check
      finds the indentation at two and throws. */
  lemma NestedGStringThrows(cfg: Config)
    ensures Transform(cfg, TreeNode([], GStringNode, [TreeNode([], GStringNode, [])]))
      == Failure(IllegalState("this.indentIndex is " + "2"))
  {
    var inner := TreeNode([], GStringNode, []);
    assert AstUtil.FindDescendantImportBlocks(inner) == [];
    assert VisitChildren(cfg, 4, []) == Success(Emitted("", 4));
    assert DecimalText(2) == "2";
    assert VisitGString(cfg, 2, inner) == Failure(IllegalState("this.indentIndex is " + "2"));
    assert VisitChild(cfg, 2, inner) == VisitGString(cfg, 2, inner);
  }

  /** A TEXT leaf that ends past the source text makes `subSequence`
      throw. */
  lemma LeafPastTheEndThrows(cfg: Config)
    requires |cfg.text| < 10
    ensures Transform(cfg, TreeNode([], GStringNode, [LeafNode([], TokenKind.Text, 0, 10)]))
      == Failure(IndexOutOfBounds)
  {
    var leaf := LeafNode([], TokenKind.Text, 0, 10);
    assert [leaf][1..] == [];
    assert AstUtil.FindInSeq([leaf]) == [];
    assert AstUtil.FindDescendantImportBlocks(TreeNode([], GStringNode, [leaf])) == [];
    assert VisitChild(cfg, 2, leaf) == Failure(IndexOutOfBounds);
  }
}
