/** Token kinds, lexer states and the token descriptor. */
module Tokens {

  /** Every token kind the tokenizer, parser and visitors mention: the
      tokenizer's own `DollarReference` together with the split
      dollar-reference kinds and the import-block kinds that the parser and
      the visitor dispatch on. */
  datatype TokenKind =
    | Text
    | DollarReference
    | DollarReferenceDollar
    | DollarReferenceBody
    | BlockScriptletOpen
    | ExpressionScriptletOpen
    | ScriptletBody
    | ScriptletClose
    | ImportBlockOpen
    | ImportBlockBody
    | ImportBlockClose
    | DollarScriptletOpen
    | DollarScriptletBody
    | DollarScriptletClose

  /** The enum constant's name, which is what Java prints for it. */
  function KindName(k: TokenKind): string
  {
    match k
    case Text => "TEXT"
    case DollarReference => "DOLLAR_REFERENCE"
    case DollarReferenceDollar => "DOLLAR_REFERENCE_DOLLAR"
    case DollarReferenceBody => "DOLLAR_REFERENCE_BODY"
    case BlockScriptletOpen => "BLOCK_SCRIPTLET_OPEN"
    case ExpressionScriptletOpen => "EXPRESSION_SCRIPTLET_OPEN"
    case ScriptletBody => "SCRIPTLET_BODY"
    case ScriptletClose => "SCRIPTLET_CLOSE"
    case ImportBlockOpen => "IMPORT_BLOCK_OPEN"
    case ImportBlockBody => "IMPORT_BLOCK_BODY"
    case ImportBlockClose => "IMPORT_BLOCK_CLOSE"
    case DollarScriptletOpen => "DOLLAR_SCRIPTLET_OPEN"
    case DollarScriptletBody => "DOLLAR_SCRIPTLET_BODY"
    case DollarScriptletClose => "DOLLAR_SCRIPTLET_CLOSE"
  }

  /** The lexer states of the tokenizer's state machine. */
  datatype LexState =
    | TextState
    | DollarReferenceBodyState
    | ScriptletBodyState
    | ScriptletCloseState
    | ImportBlockBodyState
    | ImportBlockCloseState
    | DollarScriptletBodyState
    | DollarScriptletCloseState

  /** A token: its kind and the half-open span `[start, end)` it covers in
      the source buffer. */
  datatype Token = Token(kind: TokenKind, start: int, end: int)
}
