/** Concrete inputs and the token lists `tokenize` gives for them. */
module TokenizerExamples {
  import opened Wrappers
  import opened Tokens
  import opened Tokenizer
  import TokenizerProperties

  /** Empty input: the tokenizer is exhausted at once. */
  lemma EmptyInput()
    ensures Tokenize("") == []
  {
    assert Start("").current.None?;
  }

  /** `${` matches no row of the text state, so nothing is produced. */
  lemma DollarBraceExhausts()
    ensures Tokenize("${") == []
  {
    assert StepText("${").None?;
    assert Start("${").current.None?;
  }

  /** A lone `$` is text. */
  lemma LoneDollarIsText()
    ensures Tokenize("$") == [Token(Text, 0, 1)]
  {
    TokenizerProperties.PlainTextIsOneToken("$");
  }

  /** `Hello, World!` is one TEXT token. */
  lemma HelloWorld()
    ensures Tokenize("Hello, World!") == [Token(Text, 0, 13)]
  {
    var s := "Hello, World!";
    assert forall k :: 0 <= k < |s| ==> s[k] != '$' && s[k] != '<';
    TokenizerProperties.PlainTextIsOneToken(s);
  }

  /** A `<` not followed by `%` is text too. */
  lemma HtmlTagIsText()
    ensures Tokenize("<html lang=\"en\">") == [Token(Text, 0, 16)]
  {
    var s := "<html lang=\"en\">";
    assert forall k :: 0 <= k < |s| ==> s[k] != '$' && (s[k] == '<' ==> k == 0);
    assert s[1] == 'h';
    TokenizerProperties.PlainTextIsOneToken(s);
  }

  /** `<%%>`: an open and a close, no body. */
  lemma EmptyBlockScriptlet()
    ensures Tokenize("<%%>") == [Token(BlockScriptletOpen, 0, 2), Token(ScriptletClose, 2, 4)]
  {
    var s := "<%%>";
    assert s[..2] == "<%" && s[2] != '=';
    assert StepText(s) == Some(Lexeme(BlockScriptletOpen, 2, ScriptletBodyState));
    assert s[0..] == s;
    var l0 := Start(s);
    assert l0.current == Some(Token(BlockScriptletOpen, 0, 2));
    var l1 := Advance(l0).value;
    assert s[2..] == "%>";
    assert !BodyEndsAt("%>", 1);
    assert forall m :: !BodyEndsAt("%>", m);
    assert l1.current == Some(Token(ScriptletClose, 2, 4));
    var l2 := Advance(l1).value;
    assert s[4..] == [];
    assert l2.current.None?;
    assert Drain(l1) == [Token(ScriptletClose, 2, 4)] + Drain(l2);
    assert Drain(l0) == [Token(BlockScriptletOpen, 0, 2)] + Drain(l1);
  }

  /** `<% ` has no `%>` to end a body, so only the open is produced. */
  lemma UnclosedBlockScriptlet()
    ensures Tokenize("<% ") == [Token(BlockScriptletOpen, 0, 2)]
  {
    var s := "<% ";
    assert s[..2] == "<%" && s[2] != '=';
    assert StepText(s) == Some(Lexeme(BlockScriptletOpen, 2, ScriptletBodyState));
    assert s[0..] == s;
    var l0 := Start(s);
    assert l0.current == Some(Token(BlockScriptletOpen, 0, 2));
    var l1 := Advance(l0).value;
    assert s[2..] == " ";
    assert forall m :: !BodyEndsAt(" ", m);
    assert l1.current.None?;
    assert Drain(l0) == [Token(BlockScriptletOpen, 0, 2)] + Drain(l1);
  }

  /** `$a.b.c` is one dollar-reference token covering the whole path. */
  lemma DottedDollarReference()
    ensures Tokenize("$a.b.c") == [Token(DollarReference, 0, 6)]
  {
    var s := "$a.b.c";
    var l0 := Start(s);
    assert !TextUnitAt(s, 0);
    var x := StepText(s).value;
    assert IsDottedPath(s[1..x.length]);
    assert IsDottedPath(s[1..6]);
    assert x.length == 6;
    assert l0.current == Some(Token(DollarReference, 0, 6));
    var l1 := Advance(l0).value;
    assert s[6..] == [];
    assert l1.current.None?;
    assert Drain(l0) == [Token(DollarReference, 0, 6)] + Drain(l1);
  }
}
