/** The two script transformers: visitors that lower a G_STRING tree and
    its source text to a script defining a template method. The string
    builder is modelled by what each visit appends to it, together with
    `indentIndex` on leaving the visit. */
module ScriptTransformer {
  import opened Wrappers
  import opened Tokens
  import opened Ast
  import opened Visitor
  import Strings
  import AstUtil

  /** `groovy/GroovyAstToScriptTransformer` or the older
      `engine/groovy/AstToScriptTransformer`; they differ only in the two
      wrapper lines. */
  datatype Variant = ClosureScript | TemplateScript

  /** The constructor arguments: the custom import statements and the
      source text the leaves' offsets refer to. */
  datatype Config = Config(variant: Variant, importStatements: seq<string>, text: string)

  function MethodLine(v: Variant): string
  {
    match v
    case ClosureScript => "def getTemplateClosure() {"
    case TemplateScript => "def getTemplate() {"
  }

  function ReturnLine(v: Variant): string
  {
    match v
    case ClosureScript => "return { Writer out ->"
    case TemplateScript => "return { out ->"
  }

  const PackageLine: string := "package com.jessebrault.gst.tmp"

  /** One level of indentation. */
  const IndentUnit: string := "    "

  /** What a visit appended, and `indentIndex` when it returned. */
  datatype Emitted = Emitted(text: string, indent: nat)

  function Indentation(indent: nat): string
  {
    Strings.Repeat(IndentUnit, indent)
  }

  /** `writeLine(s)`: the text and a newline, not indented. */
  function Line(s: string): string
  {
    s + "\n"
  }

  /** `writeLine(s, true)`: the text indented to the current level. */
  function IndentedLine(s: string, indent: nat): string
  {
    Indentation(indent) + s + "\n"
  }

  /** `CharSequence.subSequence(start, end)`, which throws unless
      `0 <= start <= end <= length`. */
  function SubSequence(text: string, start: int, end: int): (r: Outcome<string>)
    ensures r.Success? <==> 0 <= start <= end <= |text|
    ensures r.Success? ==> (|r.value| == end - start
                            && forall i :: 0 <= i < |r.value| ==> r.value[i] == text[start + i])
    ensures r.Failure? ==> r.fault == IndexOutOfBounds
  {
    if 0 <= start <= end <= |text| then Success(text[start..end]) else Failure(IndexOutOfBounds)
  }

  /** `writeLeafNode`: the source text of the leaf's token. */
  function LeafSource(text: string, leaf: AstNode): Outcome<string>
    requires leaf.LeafNode?
  {
    SubSequence(text, leaf.tokenStart, leaf.tokenEnd)
  }

  /** What `visitText` writes around a leaf's source. */
  function TextOutput(indent: nat, source: string): string
  {
    Indentation(indent) + "out << \"\"\"" + source + Line("\"\"\"")
  }

  /** What `visitDollarReferenceBody` writes around a leaf's source. */
  function ReferenceOutput(indent: nat, source: string): string
  {
    Indentation(indent) + "out << " + source + "\n"
  }

  /** What the expression and dollar scriptlet visits write around a body:
      an immediately called closure whose body is not indented. */
  function ClosureOutput(indent: nat, body: string): string
  {
    IndentedLine("out << {", indent) + body + "\n" + IndentedLine("}()", indent)
  }

  /** The custom import statements, one per line. */
  function ImportLines(statements: seq<string>): string
  {
    if |statements| == 0 then "" else Line(statements[0]) + ImportLines(statements[1..])
  }

  /** The hoisting loop of `visitGString`: the body line of each import
      block that has an IMPORT_BLOCK_BODY child, in list order. */
  function HoistBodies(text: string, blocks: seq<AstNode>): Outcome<string>
    requires forall b :: b in blocks ==> b.TreeNode?
  {
    if |blocks| == 0 then Success("")
    else
      var here: Outcome<string> :=
        match AstUtil.FirstChildLeafWithType(blocks[0], ImportBlockBody)
        case None => Success("")
        case Some(body) =>
          match LeafSource(text, body)
          case Failure(f) => Failure(f)
          case Success(s) => Success(Line(s));
      match here
      case Failure(f) => Failure(f)
      case Success(h) =>
        match HoistBodies(text, blocks[1..])
        case Failure(f) => Failure(f)
        case Success(rest) => Success(h + rest)
  }

  /** The decimal spelling of a number, as string concatenation renders an
      `int`. */
  function DecimalText(n: nat): (r: string)
    ensures |r| >= 1
  {
    if n < 10 then ["0123456789"[n]] else DecimalText(n / 10) + ["0123456789"[n % 10]]
  }

  /** The overridden `visitGString`: the package line, a blank line, the
      custom imports and the hoisted import bodies; then the method and the
      closure opened one and two levels in; the children; the closure and
      the method closed; and the check that the indentation is back at
      zero. A failure while hoisting or while visiting the children is
      thrown before that check; otherwise the visit succeeds exactly when
      it started at level zero and throws the `IllegalStateException`
      naming the level it started at when not. */
  function VisitGString(cfg: Config, indent: nat, n: AstNode): (r: Outcome<Emitted>)
    requires n.TreeNode?
    ensures r.Success? ==> r.value.indent == indent == 0
    ensures var hoist := HoistBodies(cfg.text, AstUtil.FindDescendantImportBlocks(n));
      var children := VisitChildren(cfg, indent + 2, n.children);
      && (hoist.Failure? ==> r == Failure(hoist.fault))
      && (hoist.Success? && children.Failure? ==> r == Failure(children.fault))
      && (hoist.Success? && children.Success? ==>
            if indent == 0 then r.Success?
            else r == Failure(IllegalState("this.indentIndex is " + DecimalText(indent))))
    decreases n, 1
  {
    var header := Line(PackageLine) + Line("") + ImportLines(cfg.importStatements);
    match HoistBodies(cfg.text, AstUtil.FindDescendantImportBlocks(n))
    case Failure(f) => Failure(f)
    case Success(hoisted) =>
      var methodLevel := indent + 1;
      var closureLevel := methodLevel + 1;
      var opening := Line(MethodLine(cfg.variant)) + IndentedLine(ReturnLine(cfg.variant), methodLevel);
      match VisitChildren(cfg, closureLevel, n.children)
      case Failure(f) => Failure(f)
      case Success(body) =>
        var closureClosed := body.indent - 1;
        var closing := IndentedLine("}", closureClosed);
        var methodClosed := closureClosed - 1;
        if methodClosed != 0 then Failure(IllegalState("this.indentIndex is " + DecimalText(methodClosed)))
        else Success(Emitted(header + hoisted + opening + body.text + closing + Line("}"), methodClosed))
  }

  /** `visitChildren` of the transformer: the children in order, each
      starting at the level the previous one left. */
  function VisitChildren(cfg: Config, indent: nat, cs: seq<AstNode>): (r: Outcome<Emitted>)
    ensures r.Success? ==> r.value.indent == indent
    decreases cs, 0
  {
    if |cs| == 0 then Success(Emitted("", indent))
    else
      match VisitChild(cfg, indent, cs[0])
      case Failure(f) => Failure(f)
      case Success(first) =>
        match VisitChildren(cfg, first.indent, cs[1..])
        case Failure(f) => Failure(f)
        case Success(rest) => Success(Emitted(first.text + rest.text, rest.indent))
  }

  /** The visit method `Dispatch` picks for a child, with the overrides of
      the transformer; every method it does not override keeps the default
      (the hooks do nothing, and tree nodes have their children visited). */
  function VisitChild(cfg: Config, indent: nat, c: AstNode): (r: Outcome<Emitted>)
    ensures r.Success? ==> r.value.indent == indent
    decreases c, 2
  {
    match Dispatch(c)
    case None => Success(Emitted("", indent))
    case Some(m) =>
      match m
      case VisitGString => VisitGString(cfg, indent, c)
      case VisitDollarReference => VisitChildren(cfg, indent, c.children)
      case VisitImportBlock => VisitChildren(cfg, indent, c.children)
      case VisitBlockScriptlet => BlockScriptlet(cfg.text, indent, c)
      case VisitExpressionScriptlet => ClosureScriptlet(cfg.text, indent, c, ScriptletBody)
      case VisitDollarScriptlet => ClosureScriptlet(cfg.text, indent, c, DollarScriptletBody)
      case VisitText =>
        (match LeafSource(cfg.text, c)
         case Failure(f) => Failure(f)
         case Success(s) => Success(Emitted(TextOutput(indent, s), indent)))
      case VisitDollarReferenceBody =>
        (match LeafSource(cfg.text, c)
         case Failure(f) => Failure(f)
         case Success(s) => Success(Emitted(ReferenceOutput(indent, s), indent)))
      case _ => Success(Emitted("", indent))
  }

  /** `visitBlockScriptlet`: the body's source on a line of its own, not
      indented; nothing without a body. */
  function BlockScriptlet(text: string, indent: nat, node: AstNode): (r: Outcome<Emitted>)
    requires node.TreeNode?
    ensures r.Success? ==> r.value.indent == indent
  {
    match AstUtil.FirstChildLeafWithType(node, ScriptletBody)
    case None => Success(Emitted("", indent))
    case Some(body) =>
      match LeafSource(text, body)
      case Failure(f) => Failure(f)
      case Success(s) => Success(Emitted(Line(s), indent))
  }

  /** `visitExpressionScriptlet` and `visitDollarScriptlet`: the body in
      an immediately called closure; nothing without a body. */
  function ClosureScriptlet(text: string, indent: nat, node: AstNode, bodyKind: TokenKind): (r: Outcome<Emitted>)
    requires node.TreeNode?
    ensures r.Success? ==> r.value.indent == indent
  {
    match AstUtil.FirstChildLeafWithType(node, bodyKind)
    case None => Success(Emitted("", indent))
    case Some(body) =>
      var inside := indent + 1;
      match LeafSource(text, body)
      case Failure(f) => Failure(f)
      case Success(s) =>
        var outside := inside - 1;
        Success(Emitted(IndentedLine("out << {", indent) + s + "\n" + IndentedLine("}()", outside), outside))
  }

  /** `visitGString` on a fresh transformer followed by `getResult`. */
  function Transform(cfg: Config, root: AstNode): (r: Outcome<string>)
    requires root.TreeNode?
  {
    match VisitGString(cfg, 0, root)
    case Failure(f) => Failure(f)
    case Success(e) => Success(e.text)
  }
}
