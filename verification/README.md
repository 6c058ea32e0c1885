# gst front end in Dafny

A model of the front end of the gst template compiler, with proofs about it.
Source text holds template markers such as `<% … %>`, `<%= … %>` and
`$name.path`. The pipeline turns it into a tree annotated with diagnostics and
lowers that tree to script text that defines a template method.

The stages, each in its own module:

- **Tokens** (`tokens.dfy`): the token kinds and the `(kind, start, end)` token.
- **Tokenizer** (`tokenizer.dfy`): the state machine of `FsmBasedTokenizer`.
  - Each regular expression is written as a prefix matcher over `seq<char>`.
  - The tokenizer itself is written as pure `Pull`, `Start` and `Advance` steps.
  - `tokenize` is written as `Drain`, plus the loop `TokenizeLoop`.
- **TokenCursor** (`token_cursor.dfy`): `ListBasedTokenProvider`, the cursor the parser reads through.
- **Parser** (`parser.dfy`): the recursive-descent `StandardGstParser` and `ExtendedGstParser`.
  - The `Mode` parameter selects between them.
  - The diagnostic messages, the one-slot stash and `expectLeaf`/`expectLeaves` are included.
  - Every production and the `gString` loop are included.
  - Each production reports the nodes it adds to the enclosing frame.
- **ParserEvents** (`parser_events.dfy`): the `start`, `leaf` and `done` calls the parser makes on its accumulator.
  - They are written call by call, following each production's control flow.
  - They are proved to rebuild exactly the tree the productions report.
- **Accumulator** (`accumulator.dfy`): the frame stack of `SimpleAccumulator`.
- **Ast** (`ast.dfy`): tree and leaf nodes and the `TreeNode.toString` rendering.
- **AstUtil** (`ast_util.dfy`): the four tree utilities.
- **Visitor** (`visitor.dfy`): `AbstractAstVisitor`. It covers the `visitChildren` dispatch, and the default visits as a trace of `defaultBefore`/`defaultAfter` calls.
- **ScriptTransformer** (`lowering.dfy`): the two transformers.
  - `GroovyAstToScriptTransformer` is the `ClosureScript` variant.
  - `engine/groovy/AstToScriptTransformer` is the `TemplateScript` variant.
  - Each visit returns the text it appends to the builder and the value of `indentIndex` when it returns.
- **Results** and **Diagnostics** (`results.dfy`, `diagnostics.dfy`): `Result` and `SimpleDiagnostic`.
- **Properties and examples**: `*_properties.dfy`, `*_examples.dfy` and `pipeline.dfy`.
  - The properties connect the stages to independent definitions.
  - Examples: concrete inputs with their exact outputs.
  - `pipeline.dfy` proves that tokenizing a text, parsing it with the corrected `gString` loop and lowering the tree never throws.

Java exceptions are modelled as the `Failure` case of `Outcome`:
- `IllegalStateException` is `IllegalState(message)`.
- `NoSuchElementException` from an empty deque is `NoSuchElement`.
- `IndexOutOfBoundsException` from `subSequence` is `IndexOutOfBounds`.
- The `NullPointerException` of `Objects.requireNonNull` is `NullPointer`.

`null` results are modelled as `Option.None`.

## Model

| member | source | states |
|---|---|---|
| Tokenizer.MatchText | lib/src/main/java/com/jessebrault/gst/tokenizer/FsmBasedTokenizer.java:56-59 | the text pattern matches iff position 0 is a text unit: any character but `$`/`<`, a `$` not before `{`, a letter or `_`, or a `<` not before `%`. The match is the longest non-empty run of such units |
| Tokenizer.MatchDollarReference | lib/src/main/java/com/jessebrault/gst/tokenizer/FsmBasedTokenizer.java:60-63 | matches iff `$` is followed by a letter or `_`. The match covers a dotted identifier path, and no longer prefix is one |
| Tokenizer.DottedRunIsPath | lib/src/main/java/com/jessebrault/gst/tokenizer/FsmBasedTokenizer.java:60-63 | a maximal run of identifier characters and dots after `$` spells a dotted path |
| Tokenizer.DottedRunIsLongest | lib/src/main/java/com/jessebrault/gst/tokenizer/FsmBasedTokenizer.java:60-63 | no prefix longer than the maximal run spells a dotted path, so the greedy match is the longest |
| Tokenizer.MatchBlockScriptletOpen | lib/src/main/java/com/jessebrault/gst/tokenizer/FsmBasedTokenizer.java:64-67 | matches exactly `<%` not followed by `=`, with length 2 |
| Tokenizer.MatchExpressionScriptletOpen | lib/src/main/java/com/jessebrault/gst/tokenizer/FsmBasedTokenizer.java:68-71 | matches exactly `<%=`, with length 3 |
| Tokenizer.ScanBody | lib/src/main/java/com/jessebrault/gst/tokenizer/FsmBasedTokenizer.java:73-76 | the reluctant scan finds the least end at which a non-empty, line-terminator-free body is followed by `%>`, or reports that there is none |
| Tokenizer.MatchScriptletBody | lib/src/main/java/com/jessebrault/gst/tokenizer/FsmBasedTokenizer.java:73-76 | the body is the shortest non-empty prefix without line terminators that is followed by `%>`; no match iff no such prefix exists |
| Tokenizer.MatchScriptletClose | lib/src/main/java/com/jessebrault/gst/tokenizer/FsmBasedTokenizer.java:78-81 | matches exactly a leading `%>`, with length 2 |
| Tokenizer.StepText | lib/src/main/java/com/jessebrault/gst/tokenizer/FsmBasedTokenizer.java:131-141 | in TEXT, the first matching pattern wins: the text run, the dollar reference, `<%`, `<%=`. Exhausted iff the input is empty or starts with `${`. Only the scriptlet opens shift to SCRIPTLET_BODY |
| Tokenizer.StepScriptletBody | lib/src/main/java/com/jessebrault/gst/tokenizer/FsmBasedTokenizer.java:143-151 | in SCRIPTLET_BODY, a body token (shifting to SCRIPTLET_CLOSE) iff some body is followed by `%>`. Failing that, a leading `%>` closes back to TEXT; otherwise exhausted |
| Tokenizer.Step | lib/src/main/java/com/jessebrault/gst/tokenizer/FsmBasedTokenizer.java:131-164 | every token is non-empty and lies within the input. A body is always followed, in SCRIPTLET_CLOSE, by a `%>` that yields SCRIPTLET_CLOSE and returns to TEXT |
| Tokenizer.Pull | lib/src/main/java/com/jessebrault/gst/tokenizer/FsmBasedTokenizer.java:162-178 | the current token is `[index, index + length)` of the matched lexeme with the lexeme's kind, or absent when nothing matches; the state moves with it |
| Tokenizer.Start | lib/src/main/java/com/jessebrault/gst/tokenizer/FsmBasedTokenizer.java:93-100 | starting puts the tokenizer at index 0 in TEXT and pulls the first token |
| Tokenizer.Advance | lib/src/main/java/com/jessebrault/gst/tokenizer/FsmBasedTokenizer.java:117-124 | throws IllegalStateException iff there is no current token; otherwise moves the index to the token's end, which is past the old index |
| Tokenizer.TokenizeLoop | lib/src/main/java/com/jessebrault/gst/tokenizer/Tokenizer.java:22-35 | the loop returns the drained token list, calling `advance` exactly once per returned token |
| TokenizerProperties.DrainCoversInput | lib/src/main/java/com/jessebrault/gst/tokenizer/FsmBasedTokenizer.java:117-124 | the tokens drained from any position are contiguous from that position and stay within the input |
| TokenizerProperties.TokenizeCoversPrefix | lib/src/main/java/com/jessebrault/gst/tokenizer/FsmBasedTokenizer.java:162-164 | the tokens of any input are contiguous from 0, and their slices concatenate to the consumed prefix of the input |
| TokenizerProperties.TokenizeRoundTrip | lib/src/main/java/com/jessebrault/gst/tokenizer/Tokenizer.java:22-35 | when the tokens reach the end of the input, concatenating their slices gives back the input |
| TokenizerProperties.TokenizeShape | lib/src/main/java/com/jessebrault/gst/tokenizer/FsmBasedTokenizer.java:131-157 | only TEXT, DOLLAR_REFERENCE, the two opens, SCRIPTLET_BODY and SCRIPTLET_CLOSE occur, and every SCRIPTLET_BODY is followed by a SCRIPTLET_CLOSE |
| TokenizerProperties.PlainTextIsOneToken | lib/src/main/java/com/jessebrault/gst/tokenizer/FsmBasedTokenizer.java:56-59 | an input made only of text units is one TEXT token, or no token when empty |
| TokenizerExamples.EmptyInput | lib/src/main/java/com/jessebrault/gst/tokenizer/FsmBasedTokenizer.java:166-168 | the empty input has no tokens |
| TokenizerExamples.DollarBraceExhausts | lib/src/main/java/com/jessebrault/gst/tokenizer/FsmBasedTokenizer.java:131-141 | `${` matches no TEXT pattern, so the tokenizer is exhausted at once |
| TokenizerExamples.LoneDollarIsText | lib/src/main/java/com/jessebrault/gst/tokenizer/FsmBasedTokenizer.java:56-59 | a lone `$` is one TEXT token |
| TokenizerExamples.HtmlTagIsText | lib/src/main/java/com/jessebrault/gst/tokenizer/FsmBasedTokenizer.java:56-59 | `<html lang="en">` is one TEXT token |
| TokenizerExamples.HelloWorld | lib/src/main/java/com/jessebrault/gst/tokenizer/FsmBasedTokenizer.java:56-59 | `Hello, World!` is one TEXT token covering it |
| TokenizerExamples.EmptyBlockScriptlet | lib/src/main/java/com/jessebrault/gst/tokenizer/FsmBasedTokenizer.java:131-151 | `<%%>` gives BLOCK_SCRIPTLET_OPEN then SCRIPTLET_CLOSE |
| TokenizerExamples.UnclosedBlockScriptlet | lib/src/main/java/com/jessebrault/gst/tokenizer/FsmBasedTokenizer.java:143-151 | `<% ` gives only BLOCK_SCRIPTLET_OPEN: no body is followed by `%>` |
| TokenizerExamples.DottedDollarReference | lib/src/main/java/com/jessebrault/gst/tokenizer/FsmBasedTokenizer.java:60-63 | `$a.b.c` is one DOLLAR_REFERENCE token covering the whole path |
| TokenCursor.NewCursor | lib/src/main/java/com/jessebrault/gst/tokenizer/ListBasedTokenProvider.java:10-14 | a new cursor is at position 0 over the given list, so its current token is the first one when there is one |
| TokenCursor.Current | lib/src/main/java/com/jessebrault/gst/tokenizer/ListBasedTokenProvider.java:17-23 | null iff the position is at or past the end; otherwise the token at the position |
| TokenCursor.Advance | lib/src/main/java/com/jessebrault/gst/tokenizer/ListBasedTokenProvider.java:26-28 | the position goes up by one unconditionally and the list is unchanged |
| TokenCursor.ExhaustedStaysExhausted | lib/src/main/java/com/jessebrault/gst/tokenizer/ListBasedTokenProvider.java:17-28 | an exhausted cursor stays exhausted under any number of advances, and its list never changes |
| Parser.KindNames | lib/src/main/java/com/jessebrault/gst/parser/StandardGstParser.java:42-49 | the expected kinds are named in the order given |
| Parser.BuildDiagnosticMessage | lib/src/main/java/com/jessebrault/gst/parser/StandardGstParser.java:34-52 | the builder loop gives the prefix followed by `.`, `; expected K.` or `; expected any of K1, …, Kn.` |
| Parser.IsStashedLoop | lib/src/main/java/com/jessebrault/gst/parser/StandardGstParser.java:65-77 | the loop answers whether the expected kinds are a prefix of the stash |
| Parser.ExpectLeaf | lib/src/main/java/com/jessebrault/gst/parser/StandardGstParser.java:83-103 | always advances exactly once. A matching token gives a plain leaf with its kind and span (stashed on request). A wrong token gives such a leaf with one "Unexpected token" diagnostic. No token gives no leaf and one "Ran out of tokens" diagnostic for the caller |
| Parser.ExpectLeafConsumes | lib/src/main/java/com/jessebrault/gst/parser/StandardGstParser.java:83-103 | the leaf produced, if any, is exactly the one token consumed |
| Parser.ExpectLeaves | lib/src/main/java/com/jessebrault/gst/parser/StandardGstParser.java:109-115 | one `expectLeaf` per expected kind: as many tokens are consumed as kinds are given, each accounted for by a leaf or a diagnostic |
| Parser.Text | lib/src/main/java/com/jessebrault/gst/parser/StandardGstParser.java:145-147 | consumes one token and yields a leaf iff there was a token |
| Parser.DelimitedLeaves | lib/src/main/java/com/jessebrault/gst/parser/StandardGstParser.java:163-180 | an import block or scriptlet consumes two tokens when the slot after the open held CLOSE, three otherwise. Its leaves are those tokens, and the stash is empty at the end |
| Parser.DelimitedAdvance | lib/src/main/java/com/jessebrault/gst/parser/StandardGstParser.java:166-180 | CLOSE is requested separately exactly when the body-or-close slot did not hold CLOSE |
| Parser.SlotClosed | lib/src/main/java/com/jessebrault/gst/parser/StandardGstParser.java:65-77 | after the body-or-close slot, `isStashed(CLOSE)` holds iff that slot's token was CLOSE |
| Parser.Delimited | lib/src/main/java/com/jessebrault/gst/parser/StandardGstParser.java:153-253 | each delimited production makes one tree node of its type whose children are the leaves taken and whose diagnostics are the initial ones followed by those returned |
| Parser.DollarReference | lib/src/main/java/com/jessebrault/gst/parser/StandardGstParser.java:227-230 | consumes exactly two tokens into one DOLLAR_REFERENCE node whose leaves are those tokens; leaves plus diagnostics number two |
| Parser.Production | lib/src/main/java/com/jessebrault/gst/parser/StandardGstParser.java:122-128 | every starter production consumes at least one token and accounts for each token it consumes |
| Parser.GStringBody | lib/src/main/java/com/jessebrault/gst/parser/StandardGstParser.java:117-143 | the corrected loop runs until the cursor is exhausted over the same token list |
| Parser.GString | lib/src/main/java/com/jessebrault/gst/parser/StandardGstParser.java:117-143 | parsing yields a G_STRING tree node |
| ParserEvents.ExpectLeafCalls | lib/src/main/java/com/jessebrault/gst/parser/StandardGstParser.java:83-103 | `expectLeaf` makes one `leaf` call iff a token is current, with that token's kind, start and end; the call carries no diagnostic iff the kind is accepted |
| ParserEvents.DelimitedCalls | lib/src/main/java/com/jessebrault/gst/parser/StandardGstParser.java:153-181 | an import block or scriptlet opens with `start` of its node type and ends with a `done`; the calls in between are stated by `ParserEvents.DelimitedCallsMatch` |
| ParserEvents.DollarReferenceCalls | lib/src/main/java/com/jessebrault/gst/parser/StandardGstParser.java:227-230 | `dollarReference` opens with `start(DOLLAR_REFERENCE)` and ends with a `done`; the calls in between are stated by `ParserEvents.ProductionCallsMatch` |
| ParserEvents.ParseEvents | lib/src/main/java/com/jessebrault/gst/parser/StandardGstParser.java:117-143 | `start(G_STRING)` is the first accumulator call and the `done` with the root's diagnostics the last |
| ParserEvents.ParseTree | lib/src/main/java/com/jessebrault/gst/parser/SimpleAccumulator.java:27-55 | a fresh accumulator fed the parser's calls, then `getResult`, always returns the G_STRING root the productions report |
| ParserEvents.ExpectLeafCallsMatch | lib/src/main/java/com/jessebrault/gst/parser/StandardGstParser.java:83-103 | the calls of one `expectLeaf` are exactly the serialisation of the leaf it reports |
| ParserEvents.ExpectLeavesCallsMatch | lib/src/main/java/com/jessebrault/gst/parser/StandardGstParser.java:109-115 | the calls of `expectLeaves` are exactly the serialisation of its leaves, in order |
| ParserEvents.DelimitedCallsMatch | lib/src/main/java/com/jessebrault/gst/parser/StandardGstParser.java:153-181 | an import block's or scriptlet's calls are exactly the serialisation of its node: `start`, its leaves, `done` with the initial and returned diagnostics |
| ParserEvents.ProductionCallsMatch | lib/src/main/java/com/jessebrault/gst/parser/StandardGstParser.java:145-254 | each production's calls are exactly the serialisation of the nodes it adds |
| ParserEvents.BodyCallsMatch | lib/src/main/java/com/jessebrault/gst/parser/StandardGstParser.java:120-140 | the `gString` loop's calls are exactly the serialisation of the root's children, in order; skipped tokens make no call |
| ParserEvents.ParseEventsSerialiseTree | lib/src/main/java/com/jessebrault/gst/parser/StandardGstParser.java:117-143 | the calls `parse` makes are exactly `start(G_STRING)`, the children's calls and `done` with the root's diagnostics, i.e. the serialisation of the root |
| ParserProperties.BodyAccountsForTokens | lib/src/main/java/com/jessebrault/gst/parser/StandardGstParser.java:117-143 | the leaves of the body are the remaining tokens with some removed, the rest kept in input order; leaves plus diagnostics number the tokens, and with no diagnostics the leaves are exactly the tokens |
| ParserProperties.LeavesReproduceTokens | lib/src/main/java/com/jessebrault/gst/parser/StandardGstParser.java:86-100 | the leaves plus the diagnostics number the tokens. With no diagnostics the leaves reproduce the tokens exactly; always, they are an ordered subsequence of the tokens, so every leaf is an input token |
| ParserProperties.BodyIsFlat | lib/src/main/java/com/jessebrault/gst/parser/StandardGstParser.java:145-253 | every top-level child is a leaf or a non-G_STRING node whose children are all leaves |
| ParserProperties.MarkImport | lib/src/main/java/com/jessebrault/gst/parser/StandardGstParser.java:157-161 | marking adds the permission message in front of an import block's diagnostics and changes nothing else |
| ParserProperties.MarkImports | lib/src/main/java/com/jessebrault/gst/parser/StandardGstParser.java:157-161 | marking a list marks each element in place |
| ParserProperties.ProductionModes | lib/src/main/java/com/jessebrault/gst/parser/ExtendedGstParser.java:6-11 | for each starter, the strict production leaves the same state as the permissive one. Its nodes are the permissive nodes with import blocks marked |
| ParserProperties.OtherProductionModes | lib/src/main/java/com/jessebrault/gst/parser/ExtendedGstParser.java:6 | every production but the import block is the same in both parsers and makes no import block |
| ParserProperties.ImportBlockModes | lib/src/main/java/com/jessebrault/gst/parser/StandardGstParser.java:149-161 | the two import-block productions differ only by the permission diagnostic |
| ParserProperties.BodyModes | lib/src/main/java/com/jessebrault/gst/parser/ExtendedGstParser.java:6-11 | the two gString loops have the same diagnostics and final state; the strict children are the permissive ones marked |
| ParserProperties.StandardIsMarkedExtended | lib/src/main/java/com/jessebrault/gst/parser/ExtendedGstParser.java:6-11 | for the same tokens the strict tree is the permissive tree with every import block marked |
| ParserProperties.StandardImportBlocksFlagged | lib/src/main/java/com/jessebrault/gst/parser/StandardGstParser.java:149-161 | in the strict parser every import block's first diagnostic is the permission message |
| ParserProperties.ExtendedChildrenOnlyRanOut | lib/src/main/java/com/jessebrault/gst/parser/ExtendedGstParser.java:8-11 | in the permissive parser a node's own diagnostics are only "Ran out of tokens" ones: no permission diagnostic appears |
| ParserProperties.ExpectLeafRanOut | lib/src/main/java/com/jessebrault/gst/parser/StandardGstParser.java:96-100 | the diagnostics `expectLeaf` returns are all "Ran out of tokens" ones |
| ParserProperties.NonStarterNeverFinishes | lib/src/main/java/com/jessebrault/gst/parser/StandardGstParser.java:121-141 | as written, a non-starter token at a production boundary keeps the loop going forever: no fuel suffices |
| ParserProperties.AsWrittenAgrees | lib/src/main/java/com/jessebrault/gst/parser/StandardGstParser.java:117-143 | whenever the loop as written finishes, it gives the corrected loop's result with no diagnostics |
| ParserProperties.AsWrittenFinishes | lib/src/main/java/com/jessebrault/gst/parser/StandardGstParser.java:117-143 | when the corrected loop reports nothing, the loop as written finishes, given one round per remaining token plus one |
| ParserProperties.NonStarterIsReported | lib/src/main/java/com/jessebrault/gst/parser/StandardGstParser.java:129-139 | a non-starter at a production boundary is reported on the root |
| ParserProperties.AsWrittenTerminatesIffClean | lib/src/main/java/com/jessebrault/gst/parser/StandardGstParser.java:117-143 | the parser as written finishes exactly on token lists the corrected parser reports nothing on, and then both give the same tree |
| ParserExamples.HelloWorld | lib/src/main/java/com/jessebrault/gst/parser/StandardGstParser.java:117-147 | `Hello, World!` parses to a G_STRING with one TEXT leaf |
| ParserExamples.EmptyImportBlockExtended | lib/src/main/java/com/jessebrault/gst/parser/ExtendedGstParser.java:8-11 | the permissive parser gives `<%@%>` an import block without diagnostics |
| ParserExamples.EmptyImportBlockStandard | lib/src/test/kotlin/com/jessebrault/gst/parser/StandardGstParserTests.kt:13-19 | the strict parser gives `<%@%>` an import block with exactly the permission diagnostic |
| ParserExamples.UnclosedBlockScriptlet | lib/src/main/java/com/jessebrault/gst/parser/StandardGstParser.java:183-203 | `<% ` gives a block scriptlet with its open leaf and two "Ran out of tokens" diagnostics |
| ParserExamples.UnclosedBlockScriptletMessages | lib/src/main/java/com/jessebrault/gst/parser/StandardGstParser.java:34-59 | the spelling of those two messages, with one and with two expected kinds |
| ParserExamples.DollarReferenceNode | lib/src/main/java/com/jessebrault/gst/parser/StandardGstParser.java:227-230 | a dollar and a body token make one DOLLAR_REFERENCE node with two leaves |
| ParserExamples.DottedPathHangsAsWritten | lib/src/main/java/com/jessebrault/gst/parser/StandardGstParser.java:129-139 | the tokens of `$a.b.c` never finish parsing as written; the corrected parser reports the token on the root |
| Accumulator.Start | lib/src/main/java/com/jessebrault/gst/parser/SimpleAccumulator.java:27-31 | pushes a frame of the given type with an empty child list, leaving the rest alone |
| Accumulator.AddChild | lib/src/main/java/com/jessebrault/gst/parser/SimpleAccumulator.java:33-48 | appends to the top frame's children and leaves everything else alone |
| Accumulator.Leaf | lib/src/main/java/com/jessebrault/gst/parser/SimpleAccumulator.java:19-36 | with no open frame throws IllegalStateException("currentChildren is null"); otherwise appends the leaf with its diagnostics to the top frame |
| Accumulator.Done | lib/src/main/java/com/jessebrault/gst/parser/SimpleAccumulator.java:38-48 | throws NoSuchElementException exactly on an empty stack. With one frame open, no frame remains and the result is a tree node of that frame's type and children with exactly the given diagnostics. With more, one frame fewer, the frames below the new top unchanged, the new top's children gain that node, and the result unchanged |
| Accumulator.GetResult | lib/src/main/java/com/jessebrault/gst/parser/SimpleAccumulator.java:50-55 | throws IllegalStateException("not done accumulating AST yet") iff there is no result; otherwise returns it |
| Accumulator.RunAppend | lib/src/main/java/com/jessebrault/gst/parser/SimpleAccumulator.java:27-48 | events run in sequence: running two lists is running the first, then the second from where it ended, unless the first failed |
| Accumulator.RunEventsOf | lib/src/main/java/com/jessebrault/gst/parser/SimpleAccumulator.java:27-48 | the events of a tree, run inside an open frame, append exactly that tree to the frame |
| Accumulator.RebuildsTree | lib/src/main/java/com/jessebrault/gst/parser/SimpleAccumulator.java:27-55 | running the events of a tree on a fresh accumulator rebuilds exactly that tree, which `getResult` returns |
| Accumulator.NoResultBeforeOutermostDone | lib/src/main/java/com/jessebrault/gst/parser/SimpleAccumulator.java:50-55 | before the outermost `done`, `getResult` fails |
| Accumulator.UnopenedCallsFail | lib/src/main/java/com/jessebrault/gst/parser/SimpleAccumulator.java:19-40 | `leaf` and `done` on a fresh accumulator fail with the two exceptions |
| Ast.DiagnosticTexts | lib/src/main/java/com/jessebrault/gst/ast/TreeNode.java:38-44 | each diagnostic is rendered by its own `toString`, in iteration order |
| Ast.TreeNodeToString | lib/src/main/java/com/jessebrault/gst/ast/TreeNode.java:33-48 | the builder loop gives the type name alone without diagnostics, and otherwise `type(diagnostics: d1, …, dn)` |
| Ast.JoinedSoFarStep | lib/src/main/java/com/jessebrault/gst/ast/TreeNode.java:39-44 | each round of the loop appends the next diagnostic, then `, ` unless it was the last |
| Diagnostics.OfMessage | lib/src/main/java/com/jessebrault/gst/util/SimpleDiagnostic.java:13-25 | the one-argument constructor keeps the message and leaves the exception absent |
| Diagnostics.OfMessageAndException | lib/src/main/java/com/jessebrault/gst/util/SimpleDiagnostic.java:17-30 | the getters return the constructor's message and exception |
| Diagnostics.DiagnosticTextLayout | lib/src/main/java/com/jessebrault/gst/util/SimpleDiagnostic.java:33-35 | `toString` is `SimpleDiagnostic(message: ` + message + `, exception: ` + exception + `)`, piece by piece |
| Diagnostics.DiagnosticTextInjectiveOnMessage | lib/src/main/java/com/jessebrault/gst/util/SimpleDiagnostic.java:33-35 | without exceptions, two diagnostics with the same rendering are the same diagnostic |
| Results.Of | lib/src/main/java/com/jessebrault/gst/util/Result.java:9-35 | `of(t)` has no diagnostics and `get()` returns `t` |
| Results.Empty | lib/src/main/java/com/jessebrault/gst/util/Result.java:13-35 | `empty()` has no diagnostics and `get()` throws |
| Results.OfDiagnostics | lib/src/main/java/com/jessebrault/gst/util/Result.java:17-39 | `hasDiagnostics` holds iff the collection is non-empty, `get()` throws, and `getDiagnostics` returns the collection supplied |
| AstUtil.Subtrees | lib/src/main/java/com/jessebrault/gst/ast/AstUtil.java:35-43 | the pre-order listing of a node starts with the node itself |
| AstUtil.GetAllDiagnostics | lib/src/main/java/com/jessebrault/gst/ast/AstUtil.java:35-43 | the recursive loop collects the diagnostics of the nodes of the subtree in pre-order, so a leaf gives exactly its own |
| AstUtil.HasDiagnostics | lib/src/main/java/com/jessebrault/gst/ast/AstUtil.java:45-47 | holds iff some node of the subtree carries a diagnostic |
| AstUtil.DiagnosticsOfEmpty | lib/src/main/java/com/jessebrault/gst/ast/AstUtil.java:45-47 | the collected diagnostics are empty iff every node's own diagnostics are |
| AstUtil.FindDescendantImportBlocks | lib/src/main/java/com/jessebrault/gst/ast/AstUtil.java:12-24 | returns only import blocks, all of them strict descendants of the node |
| AstUtil.ImportBlocksOf | lib/src/main/java/com/jessebrault/gst/ast/AstUtil.java:12-24 | the reference definition: the import blocks of a listing, in order. It keeps exactly the import blocks |
| AstUtil.FindInIsPreorderFilter | lib/src/main/java/com/jessebrault/gst/ast/AstUtil.java:12-24 | when import blocks hold only leaves, the search from a child is the import blocks of its subtree in document order |
| AstUtil.FindInSeqIsPreorderFilter | lib/src/main/java/com/jessebrault/gst/ast/AstUtil.java:12-24 | the same for a list of children, so the search is the document-order filter of the descendants |
| AstUtil.FindInSeqSound | lib/src/main/java/com/jessebrault/gst/ast/AstUtil.java:12-24 | every node the search returns is an import block within the children's subtrees |
| AstUtil.FirstChildLeafWithType | lib/src/main/java/com/jessebrault/gst/ast/AstUtil.java:26-33 | null iff no direct child is a leaf of the kind. Otherwise the result is such a child with no earlier one before it; grandchildren are never looked at |
| Visitor.Dispatch | lib/src/main/java/com/jessebrault/gst/ast/AbstractAstVisitor.java:5-34 | a child goes to the visit method declared for its tree type or token kind; only a DOLLAR_REFERENCE leaf has no case |
| Visitor.DispatchMatchesDeclaration | lib/src/main/java/com/jessebrault/gst/ast/AbstractAstVisitor.java:7-31 | dispatch calls a method iff the child is of the kind the method is declared for |
| Visitor.VisitIsPreorder | lib/src/main/java/com/jessebrault/gst/ast/AbstractAstVisitor.java:36-160 | the default visit of a node calls `defaultBefore` on the nodes of its subtree in pre-order, leaving out only the skipped leaves |
| Visitor.VisitChildrenIsPreorder | lib/src/main/java/com/jessebrault/gst/ast/AbstractAstVisitor.java:5-34 | `visitChildren` reaches each child's subtree once, in list order |
| Visitor.VisitCallsEachHookOnce | lib/src/main/java/com/jessebrault/gst/ast/AbstractAstVisitor.java:42-160 | each reached node gets exactly one `defaultBefore` and one `defaultAfter` call |
| Visitor.VisitChildrenCallsEachHookOnce | lib/src/main/java/com/jessebrault/gst/ast/AbstractAstVisitor.java:5-34 | the same for the children of a node |
| ScriptTransformer.SubSequence | lib/src/main/java/com/jessebrault/gst/groovy/GroovyAstToScriptTransformer.java:48-54 | `subSequence` succeeds iff `0 <= start <= end <= length` and then gives those characters; otherwise it throws IndexOutOfBoundsException |
| ScriptTransformer.VisitGString | lib/src/main/java/com/jessebrault/gst/groovy/GroovyAstToScriptTransformer.java:56-80 | a failure while hoisting import bodies or visiting the children is thrown as is, before the level check. Once both succeed, the visit succeeds iff it started at indentation 0, leaving it at 0, and otherwise throws IllegalStateException("this.indentIndex is " + the starting level) |
| ScriptTransformer.VisitChildren | lib/src/main/java/com/jessebrault/gst/ast/AbstractAstVisitor.java:5-34 | the children's visits leave the indentation where they found it |
| ScriptTransformer.VisitChild | lib/src/main/java/com/jessebrault/gst/groovy/GroovyAstToScriptTransformer.java:82-128 | every overridden and default visit leaves the indentation where it found it |
| ScriptTransformer.BlockScriptlet | lib/src/main/java/com/jessebrault/gst/groovy/GroovyAstToScriptTransformer.java:82-88 | a block scriptlet does not change the indentation |
| ScriptTransformer.ClosureScriptlet | lib/src/main/java/com/jessebrault/gst/groovy/GroovyAstToScriptTransformer.java:90-114 | the increment around the body is matched by a decrement |
| ScriptProperties.HoistRenders | lib/src/main/java/com/jessebrault/gst/groovy/GroovyAstToScriptTransformer.java:61-67 | for import blocks within the text, hoisting writes each block's body line in order, and nothing for a bodiless block |
| ScriptProperties.VisitChildRenders | lib/src/main/java/com/jessebrault/gst/groovy/GroovyAstToScriptTransformer.java:82-128 | a child's visit writes the fragments of its subtree in pre-order: TEXT as `out << """…"""`, a reference body as `out << …`, block bodies on their own line, other bodies as `out << {…}()`, import blocks nothing |
| ScriptProperties.VisitChildrenRenders | lib/src/main/java/com/jessebrault/gst/ast/AbstractAstVisitor.java:5-34 | the children's visits write the concatenated fragments of their subtrees |
| ScriptProperties.TransformRendersScript | lib/src/main/java/com/jessebrault/gst/groovy/GroovyAstToScriptTransformer.java:56-80 | for a tree within the text, the script is the package line, a blank line, the imports, the hoisted bodies, the wrapper, the body fragments at indentation 2, `    }` and `}` |
| ScriptProperties.TransformSucceeds | lib/src/main/java/com/jessebrault/gst/groovy/GroovyAstToScriptTransformer.java:69-79 | lowering never throws when the leaves lie within the text and no G_STRING is nested below the root |
| ScriptProperties.VariantsAgreeOnChild | lib/src/main/java/com/jessebrault/gst/engine/groovy/AstToScriptTransformer.java:106-152 | below the root, the two transformers visit any node identically |
| ScriptProperties.VariantsAgreeOnGString | lib/src/main/java/com/jessebrault/gst/engine/groovy/AstToScriptTransformer.java:80-104 | a G_STRING visited below the root throws in both transformers, identically |
| ScriptProperties.TransformLayout | lib/src/main/java/com/jessebrault/gst/engine/groovy/AstToScriptTransformer.java:80-104 | a successful lowering is the header and hoisted bodies, the wrapper of its variant, then the body and the closing lines |
| ScriptProperties.TransformVariants | lib/src/main/java/com/jessebrault/gst/engine/groovy/AstToScriptTransformer.java:92-94 | the two transformers fail together with the same exception; otherwise their scripts differ only in the wrapper lines |
| ScriptExamples.HelloScript | lib/src/main/java/com/jessebrault/gst/groovy/GroovyAstToScriptTransformer.java:56-121 | one TEXT leaf lowers to the header, the wrapper, one `out << """Hello"""` line and the closing lines |
| ScriptExamples.ImportIsHoisted | lib/src/main/java/com/jessebrault/gst/groovy/GroovyAstToScriptTransformer.java:58-67 | the body of `<%@a%>` is hoisted after the custom import, and nothing is written in the closure |
| ScriptExamples.NestedGStringThrows | lib/src/main/java/com/jessebrault/gst/groovy/GroovyAstToScriptTransformer.java:76-78 | a G_STRING nested below the root throws IllegalStateException("this.indentIndex is 2") |
| ScriptExamples.LeafPastTheEndThrows | lib/src/main/java/com/jessebrault/gst/groovy/GroovyAstToScriptTransformer.java:48-50 | a TEXT leaf ending past the text makes `subSequence` throw |
| Pipeline.LoweringNeverThrows | lib/src/main/java/com/jessebrault/gst/groovy/GroovyAstToScriptTransformer.java:69-79 | lowering the tree either parser builds, with the corrected `gString` loop, from the tokens of a text, with that text as source, never throws in either transformer |

## Left out

- The template creators, `GroovyTemplateEngineAdapter` and `GroovyTemplate` are left out: they do file I/O, class loading, closure rehydration, logging and use a counter.
- `AstToScriptTransformer.main` is left out: it is a harness that prints to standard output.
- `StandardGStringParser.java` is left out: it is an unfinished draft superseded by `StandardGstParser`.
- `TokenizerBasedTokenProvider` is left out: the parser is modelled only over the list cursor fed by `tokenize`.
- `TokenProvider.peekCurrent`, `peekSecond` and `peekInfinite` are left out: they have no implementation.
- `AstPrettyPrinterVisitor` is left out: its leaf lines use an identity hash.
- The `com.jessebrault.fsm` library and `java.util.regex` are replaced by hand-written prefix matchers:
  - first match wins, in registration order;
  - matches are anchored at the current index;
  - `.` excludes the Java line terminators.
- Tokenizer.Step: what the SCRIPTLET_CLOSE state does when `%>` does not follow is unknown (no `onNoMatch` is registered). The model requires a reachable state, and that case is unreachable from TEXT.
- Tokenizer.Start: only `startIndex = 0`, `endIndex = |input|` and initial state TEXT are modelled, which is what `tokenize(input)` uses. For `startIndex > 0` the source takes offsets from 0.
- The later tokenizer test fixtures describe a tokenizer with `${…}`, import blocks and split dollar references. The model follows `FsmBasedTokenizer`, which has none of these: `$a` is one DOLLAR_REFERENCE token, and `<% ` gives no body token.
- The tokenizer never produces the DOLLAR_REFERENCE_* or IMPORT_BLOCK_* kinds the parser expects. The parser is therefore also stated over arbitrary token lists.
- The parser writes to a mutable accumulator as it goes. The model splits this in two: the productions report nodes (`Parser`), and the calls are a parallel function over the same steps (`ParserEvents`). The two are proved to agree.
- The `done` calls in `ParserEvents` carry the diagnostics the productions return. They are taken from the `Parser` functions, not recomputed.
- Tokenizer.Pull: token offsets count Unicode code points (a Dafny `char`), while Java counts UTF-16 code units.
  - For text outside the Basic Multilingual Plane the start and end indices differ from Java's.
  - Unpaired surrogates cannot be represented.
  - Slicing uses the same offsets, so the lowered script text is unaffected.
- The `gString` loop as written does not terminate on a non-starter token (see Findings). The rest of the model uses the corrected loop.
- ExtendedGstParser: `toString` returning `"ExtendedGstParser()"` is not modelled; it is a constant.
- TreeNode getters are the datatype's fields. The reference semantics of the stored child list (no copy) has no counterpart in immutable values.
- Java `int` overflow of positions, `indentIndex` and token offsets is not modelled; offsets are unbounded integers.
- The visitor's hooks are modelled as a trace of calls. What overriding visitors do in them is not modelled.
- The transformers' `StringBuilder` is modelled by the text each visit appends.
- ScriptProperties.TransformRendersScript: the exact-script statement needs two conditions.
  - Import blocks and scriptlets must hold only leaves, and scriptlet leaves must be non-emitting kinds (`Tidy`).
  - Parser trees are flat (`ParserProperties.BodyIsFlat`), but flatness alone does not give `Tidy`: a malformed scriptlet can hold a TEXT leaf.
  - For such trees only success is proved (`Pipeline.LoweringNeverThrows`), not the exact text.
- AstUtil.FindInIsPreorderFilter: the equation with the document-order filter is proved for trees whose import blocks hold only leaves, since the search does not descend into import blocks.
- ScriptProperties.TransformSucceeds: "never throws" holds only without a G_STRING nested below the root. With one, the nested visit finds `indentIndex` at 2 and throws (`ScriptExamples.NestedGStringThrows`). Parser trees never nest one.
- Logging (slf4j) and the `debug`/`printScript` flags are left out.

## Findings

| source | as written | input that shows it | evidently intended | confidence | as-written member | corrected member |
|---|---|---|---|---|---|---|
| lib/src/main/java/com/jessebrault/gst/parser/StandardGstParser.java:129-139 | on a token that starts no production, `gString` records a diagnostic but does not advance, so the `while` loop sees the same token forever | the tokens of `$a.b.c` (one DOLLAR_REFERENCE token), or any list with SCRIPTLET_CLOSE at a production boundary | record the diagnostic and move past the token, so every token list is parsed to completion | not executed | ParserProperties.NonStarterNeverFinishes, ParserExamples.DottedPathHangsAsWritten | Parser.GStringBody, ParserProperties.AsWrittenTerminatesIffClean |
