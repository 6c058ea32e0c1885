/** The three stages together: tokenize the source, parse the tokens with
    either parser, and lower the tree with either transformer. */
module Pipeline {
  import opened Wrappers
  import opened Tokens
  import opened Ast
  import Tokenizer
  import TokenizerProperties
  import Parser
  import ParserProperties
  import ScriptTransformer
  import ScriptProperties

  /** The leaves of one child are among the leaves of the list. */
  lemma {:induction false} ChildLeavesWithin(cs: seq<AstNode>, i: nat)
    requires i < |cs|
    ensures forall x :: x in LeafTokens(cs[i]) ==> x in LeafTokensSeq(cs)
    decreases i
  {
    if i > 0 {
      ChildLeavesWithin(cs[1..], i - 1);
      assert cs[1..][i - 1] == cs[i];
    }
  }

  /** A flat child whose leaves are tokens within the text is lowerable. */
  lemma FlatChildLowerable(text: string, c: AstNode, tokens: seq<Token>)
    requires Parser.Flat(c)
    requires forall t :: t in tokens ==> 0 <= t.start <= t.end <= |text|
    requires forall x :: x in LeafTokens(c) ==> x in tokens
    ensures ScriptProperties.Lowerable(text, c)
  {
    match c
    case LeafNode(_, k, s, e) =>
      assert Token(k, s, e) in LeafTokens(c);
    case TreeNode(_, _, cs) =>
      forall i | 0 <= i < |cs|
        ensures ScriptProperties.Lowerable(text, cs[i])
      {
        ChildLeavesWithin(cs, i);
        var leaf := cs[i];
        assert Token(leaf.tokenKind, leaf.tokenStart, leaf.tokenEnd) in LeafTokens(leaf);
      }
  }

  /** Every token the tokenizer returns lies within the input. */
  lemma TokensInRange(input: string)
    ensures forall t :: t in Tokenizer.Tokenize(input) ==> 0 <= t.start <= t.end <= |input|
  {
    var ts := Tokenizer.Tokenize(input);
    TokenizerProperties.TokenizeCoversPrefix(input);
    forall t | t in ts
      ensures 0 <= t.start <= t.end <= |input|
    {
      var i :| 0 <= i < |ts| && ts[i] == t;
    }
  }

  /** Lowering the tree either parser builds from the tokens of a text,
      with that text as the source, never throws: the tree has no nested
      G_STRING and every leaf is a token within the text. */
  lemma LoweringNeverThrows(mode: Parser.Mode, cfg: ScriptTransformer.Config)
    ensures var root := Parser.GString(mode, Tokenizer.Tokenize(cfg.text));
      ScriptTransformer.Transform(cfg, root).Success?
  {
    var tokens := Tokenizer.Tokenize(cfg.text);
    var root := Parser.GString(mode, tokens);
    var cs := root.children;
    ParserProperties.BodyIsFlat(mode, Parser.Initial(tokens));
    ParserProperties.LeavesReproduceTokens(mode, tokens);
    TokensInRange(cfg.text);
    forall i | 0 <= i < |cs|
      ensures ScriptProperties.Lowerable(cfg.text, cs[i])
    {
      ChildLeavesWithin(cs, i);
      FlatChildLowerable(cfg.text, cs[i], tokens);
    }
    ScriptProperties.TransformSucceeds(cfg, root);
  }
}
