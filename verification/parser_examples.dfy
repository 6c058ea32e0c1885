/** Concrete token lists and the trees the two parser classes build from
    them. */
module ParserExamples {
  import opened Wrappers
  import opened Tokens
  import opened Diagnostics
  import opened Ast
  import opened TokenCursor
  import opened Parser
  import ParserProperties
  import Tokenizer
  import TokenizerExamples
  import Strings

  /** The state after `n` tokens have been taken, with an empty stash. */
  function At(tokens: seq<Token>, n: nat): ParserState
  {
    ParserState(Cursor(tokens, n), [])
  }

  /** `Hello, World!`: the root has the one TEXT leaf and no diagnostics. */
  lemma HelloWorld(mode: Mode)
    ensures GString(mode, Tokenizer.Tokenize("Hello, World!"))
      == TreeNode([], GStringNode, [LeafNode([], TokenKind.Text, 0, 13)])
  {
    TokenizerExamples.HelloWorld();
    var ts := [Token(TokenKind.Text, 0, 13)];
    assert Parser.Text(At(ts, 0)) == Parsed([LeafNode([], TokenKind.Text, 0, 13)], At(ts, 1));
    assert GStringBody(mode, At(ts, 1)) == Body([], [], At(ts, 1));
  }

  /** `<%@%>` under `ExtendedGstParser`: one import block with the open and
      close leaves and no diagnostics anywhere. */
  lemma EmptyImportBlockExtended()
    ensures var ts := [Token(ImportBlockOpen, 0, 3), Token(ImportBlockClose, 3, 5)];
      GString(Extended, ts) == TreeNode([], GStringNode, [
        TreeNode([], ImportBlockNode, [LeafNode([], ImportBlockOpen, 0, 3), LeafNode([], ImportBlockClose, 3, 5)])])
  {
    var ts := [Token(ImportBlockOpen, 0, 3), Token(ImportBlockClose, 3, 5)];
    var open := LeafNode([], ImportBlockOpen, 0, 3);
    var close := LeafNode([], ImportBlockClose, 3, 5);
    var o := ExpectLeaf(At(ts, 0), false, [ImportBlockOpen]);
    assert o == Expected(Some(open), [], At(ts, 1));
    var b := ExpectLeaf(o.state, true, [ImportBlockBody, ImportBlockClose]);
    assert b == Expected(Some(close), [], ParserState(Cursor(ts, 2), [ImportBlockClose]));
    assert IsStashed(b.state.stash, [ImportBlockClose]);
    var d := DelimitedLeaves(At(ts, 0), ImportBlockOpen, ImportBlockBody, ImportBlockClose);
    assert d == ExpectedAll([open, close], [], At(ts, 2));
    var node := TreeNode([], ImportBlockNode, [open, close]);
    assert Production(Extended, At(ts, 0), ImportBlockOpen) == Parsed([node], At(ts, 2));
    assert GStringBody(Extended, At(ts, 2)) == Body([], [], At(ts, 2));
    assert GStringBody(Extended, At(ts, 0)) == Body([node], [], At(ts, 2));
  }

  /** `<%@%>` under `StandardGstParser`: the same tree, except that the
      import block carries exactly one diagnostic, the permission one. */
  lemma EmptyImportBlockStandard()
    ensures var ts := [Token(ImportBlockOpen, 0, 3), Token(ImportBlockClose, 3, 5)];
      GString(Standard, ts) == TreeNode([], GStringNode, [
        TreeNode([OfMessage(PermissionMessage)], ImportBlockNode,
                 [LeafNode([], ImportBlockOpen, 0, 3), LeafNode([], ImportBlockClose, 3, 5)])])
  {
    var ts := [Token(ImportBlockOpen, 0, 3), Token(ImportBlockClose, 3, 5)];
    var node := TreeNode([], ImportBlockNode, [LeafNode([], ImportBlockOpen, 0, 3), LeafNode([], ImportBlockClose, 3, 5)]);
    EmptyImportBlockExtended();
    ParserProperties.StandardIsMarkedExtended(ts);
    assert ParserProperties.MarkImports([node]) == [ParserProperties.MarkImport(node)];
    assert ParserProperties.MarkImport(node) == TreeNode([OfMessage(PermissionMessage)], ImportBlockNode, node.children);
  }

  /** `<% ` tokenizes to a lone opener; the block scriptlet node keeps the
      opener leaf and records that the tokens ran out twice: once for the
      body-or-close slot, once for the closer. */
  lemma UnclosedBlockScriptlet(mode: Mode)
    ensures GString(mode, Tokenizer.Tokenize("<% ")) == TreeNode([], GStringNode, [
      TreeNode([OfMessage(NullTokenMessage([ScriptletBody, ScriptletClose])),
                OfMessage(NullTokenMessage([ScriptletClose]))],
               BlockScriptletNode, [LeafNode([], BlockScriptletOpen, 0, 2)])])
  {
    TokenizerExamples.UnclosedBlockScriptlet();
    var ts := [Token(BlockScriptletOpen, 0, 2)];
    var open := LeafNode([], BlockScriptletOpen, 0, 2);
    var d1 := OfMessage(NullTokenMessage([ScriptletBody, ScriptletClose]));
    var d2 := OfMessage(NullTokenMessage([ScriptletClose]));
    var o := ExpectLeaf(At(ts, 0), false, [BlockScriptletOpen]);
    assert o == Expected(Some(open), [], At(ts, 1));
    var b := ExpectLeaf(o.state, true, [ScriptletBody, ScriptletClose]);
    assert b == Expected(None, [d1], At(ts, 2));
    assert !IsStashed(b.state.stash, [ScriptletClose]);
    var c := ExpectLeaf(At(ts, 2), false, [ScriptletClose]);
    assert c == Expected(None, [d2], At(ts, 3));
    var d := DelimitedLeaves(At(ts, 0), BlockScriptletOpen, ScriptletBody, ScriptletClose);
    assert d == ExpectedAll([open], [d1, d2], At(ts, 3));
    var node := TreeNode([d1, d2], BlockScriptletNode, [open]);
    assert [] + d.diagnostics == [d1, d2];
    assert BlockScriptlet(At(ts, 0)) == Parsed([node], At(ts, 3));
    assert Production(mode, At(ts, 0), BlockScriptletOpen) == Parsed([node], At(ts, 3));
    assert GStringBody(mode, At(ts, 3)) == Body([], [], At(ts, 3));
    assert GStringBody(mode, At(ts, 0)) == Body([node], [], At(ts, 3));
  }

  /** The two messages: the kinds by their enum names, a list of two
      joined with a comma, a single one without "any of". */
  lemma UnclosedBlockScriptletMessages()
    ensures NullTokenMessage([ScriptletBody, ScriptletClose])
      == "Ran out of tokens" + "; expected any of " + "SCRIPTLET_BODY" + ", " + "SCRIPTLET_CLOSE" + "."
    ensures NullTokenMessage([ScriptletClose]) == "Ran out of tokens" + "; expected " + "SCRIPTLET_CLOSE" + "."
  {
    var names := KindNames([ScriptletBody, ScriptletClose]);
    assert names == ["SCRIPTLET_BODY", "SCRIPTLET_CLOSE"];
    assert names[..1] == ["SCRIPTLET_BODY"];
  }

  /** A dollar sign and a body token make one DOLLAR_REFERENCE node with
      both leaves and no diagnostics. */
  lemma DollarReferenceNode(mode: Mode)
    ensures var ts := [Token(DollarReferenceDollar, 0, 1), Token(DollarReferenceBody, 1, 5)];
      GString(mode, ts) == TreeNode([], GStringNode, [
        TreeNode([], Ast.DollarReferenceNode,
                 [LeafNode([], DollarReferenceDollar, 0, 1), LeafNode([], DollarReferenceBody, 1, 5)])])
  {
    var ts := [Token(DollarReferenceDollar, 0, 1), Token(DollarReferenceBody, 1, 5)];
    var dollar := LeafNode([], DollarReferenceDollar, 0, 1);
    var body := LeafNode([], DollarReferenceBody, 1, 5);
    var e1 := ExpectLeaf(At(ts, 0), false, [DollarReferenceDollar]);
    assert e1 == Expected(Some(dollar), [], At(ts, 1));
    var e2 := ExpectLeaf(At(ts, 1), false, [DollarReferenceBody]);
    assert e2 == Expected(Some(body), [], At(ts, 2));
    assert [DollarReferenceDollar, DollarReferenceBody][1..] == [DollarReferenceBody];
    assert ExpectLeaves(At(ts, 2), []) == ExpectedAll([], [], At(ts, 2));
    assert ExpectLeaves(At(ts, 1), [DollarReferenceBody]) == ExpectedAll([body], [], At(ts, 2));
    assert ExpectLeaves(At(ts, 0), [DollarReferenceDollar, DollarReferenceBody])
      == ExpectedAll([dollar, body], [], At(ts, 2));
    var node := TreeNode([], Ast.DollarReferenceNode, [dollar, body]);
    assert Production(mode, At(ts, 0), DollarReferenceDollar) == Parsed([node], At(ts, 2));
    assert GStringBody(mode, At(ts, 2)) == Body([], [], At(ts, 2));
    assert GStringBody(mode, At(ts, 0)) == Body([node], [], At(ts, 2));
  }

  /** `$a.b.c` tokenizes to one DOLLAR_REFERENCE token, which no production
      starts with: `parse` as written never returns, whatever the bound,
      while the corrected loop reports the token at the root. */
  lemma DottedPathHangsAsWritten(mode: Mode, fuel: nat)
    ensures ParserProperties.ParseAsWritten(mode, Tokenizer.Tokenize("$a.b.c"), fuel).None?
    ensures GString(mode, Tokenizer.Tokenize("$a.b.c"))
      == TreeNode([NonStarterDiagnostic(TokenKind.DollarReference)], GStringNode, [])
  {
    TokenizerExamples.DottedDollarReference();
    var ts := [Token(TokenKind.DollarReference, 0, 6)];
    assert Current(At(ts, 0).cursor) == Some(ts[0]);
    assert !IsStarter(TokenKind.DollarReference);
    ParserProperties.NonStarterNeverFinishes(mode, Initial(ts), fuel);
    assert GStringBody(mode, At(ts, 1)) == Body([], [], At(ts, 1));
  }
}
