/** The syntax tree: interior `TreeNode`s and `LeafNode`s, each with its
    own diagnostics. */
module Ast {
  import opened Tokens
  import opened Diagnostics
  import Strings

  /** The kinds of interior node. */
  datatype TreeNodeType =
    | GStringNode
    | DollarReferenceNode
    | BlockScriptletNode
    | ExpressionScriptletNode
    | ImportBlockNode
    | DollarScriptletNode

  /** The enum constant's name. */
  function TypeName(t: TreeNodeType): string
  {
    match t
    case GStringNode => "G_STRING"
    case DollarReferenceNode => "DOLLAR_REFERENCE"
    case BlockScriptletNode => "BLOCK_SCRIPTLET"
    case ExpressionScriptletNode => "EXPRESSION_SCRIPTLET"
    case ImportBlockNode => "IMPORT_BLOCK"
    case DollarScriptletNode => "DOLLAR_SCRIPTLET"
  }

  /** The sealed two-variant node type; `diagnostics` is `getDiagnostics`
      of either variant and the other fields are the getters. */
  datatype AstNode =
    | TreeNode(diagnostics: seq<Diagnostic>, nodeType: TreeNodeType, children: seq<AstNode>)
    | LeafNode(diagnostics: seq<Diagnostic>, tokenKind: TokenKind, tokenStart: int, tokenEnd: int)

  /** The rendering of each diagnostic of a list, in order. */
  function DiagnosticTexts(ds: seq<Diagnostic>): (r: seq<string>)
    ensures |r| == |ds|
    ensures forall i :: 0 <= i < |ds| ==> r[i] == DiagnosticText(ds[i])
  {
    if |ds| == 0 then [] else DiagnosticTexts(ds[..|ds| - 1]) + [DiagnosticText(ds[|ds| - 1])]
  }

  /** What `TreeNode.toString` puts between two diagnostics. */
  const Separator: string := ", "

  /** `TreeNode.toString`, stated declaratively: the type name, followed,
      only when there are diagnostics, by their renderings joined with
      `", "` inside `(diagnostics: …)`. */
  function TreeNodeText(t: TreeNodeType, ds: seq<Diagnostic>): string
  {
    if |ds| == 0 then TypeName(t)
    else TypeName(t) + "(diagnostics: " + Strings.Join(DiagnosticTexts(ds), Separator) + ")"
  }

  /** `TreeNode.toString` as written: a builder and an iterator loop that
      appends the separator after every diagnostic that has a successor. */
  method TreeNodeToString(n: AstNode) returns (s: string)
    requires n.TreeNode?
    ensures s == TreeNodeText(n.nodeType, n.diagnostics)
  {
    var ds := n.diagnostics;
    if |ds| == 0 {
      return TypeName(n.nodeType);
    }
    ghost var texts := DiagnosticTexts(ds);
    var body := "";
    var i := 0;
    while i < |ds|
      invariant 0 <= i <= |ds|
      invariant body == JoinedSoFar(texts, i)
    {
      JoinedSoFarStep(texts, i);
      body := body + DiagnosticText(ds[i]);
      if i + 1 < |ds| {
        body := body + Separator;
      }
      i := i + 1;
    }
    assert texts[..|ds|] == texts;
    s := TypeName(n.nodeType) + "(diagnostics: " + body + ")";
  }

  /** The builder after `i` diagnostics: their texts joined, with the
      separator already appended when another one follows. */
  function JoinedSoFar(texts: seq<string>, i: nat): string
    requires i <= |texts|
  {
    Strings.Join(texts[..i], Separator) + (if 0 < i < |texts| then Separator else "")
  }

  lemma JoinedSoFarStep(texts: seq<string>, i: nat)
    requires i < |texts|
    ensures JoinedSoFar(texts, i) + texts[i] + (if i + 1 < |texts| then Separator else "")
      == JoinedSoFar(texts, i + 1)
  {
    Strings.JoinStep(texts, i, Separator);
  }

  /** The tokens of a subtree's leaves, left to right. */
  function LeafTokens(n: AstNode): seq<Token>
    decreases n
  {
    match n
    case LeafNode(_, k, s, e) => [Token(k, s, e)]
    case TreeNode(_, _, cs) => LeafTokensSeq(cs)
  }

  function LeafTokensSeq(cs: seq<AstNode>): seq<Token>
    decreases cs
  {
    if |cs| == 0 then [] else LeafTokens(cs[0]) + LeafTokensSeq(cs[1..])
  }

  lemma {:induction false} LeafTokensSeqAppend(a: seq<AstNode>, b: seq<AstNode>)
    ensures LeafTokensSeq(a + b) == LeafTokensSeq(a) + LeafTokensSeq(b)
    decreases |a|
  {
    if |a| == 0 {
      assert a + b == b;
    } else {
      assert (a + b)[0] == a[0];
      assert (a + b)[1..] == a[1..] + b;
      LeafTokensSeqAppend(a[1..], b);
    }
  }
}
