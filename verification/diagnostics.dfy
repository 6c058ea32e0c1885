/** `SimpleDiagnostic`: a message with an optional causing exception. */
module Diagnostics {
  import opened Wrappers

  /** A Java exception, known here only by what its `toString` prints. */
  datatype Exception = Exception(rendering: string)

  /** A diagnostic record: `getMessage` and `getException` are the fields. */
  datatype Diagnostic = Diagnostic(message: string, exception: Option<Exception>)

  /** The one-argument constructor: no exception. */
  function OfMessage(message: string): (d: Diagnostic)
    ensures d.message == message && d.exception.None?
  {
    Diagnostic(message, None)
  }

  /** The two-argument constructor. */
  function OfMessageAndException(message: string, exception: Option<Exception>): (d: Diagnostic)
    ensures d.message == message && d.exception == exception
  {
    Diagnostic(message, exception)
  }

  /** How string concatenation prints a nullable exception. */
  function ExceptionText(e: Option<Exception>): string
  {
    match e
    case None => "null"
    case Some(x) => x.rendering
  }

  const DiagnosticTextPrefix: string := "SimpleDiagnostic(message: "
  const DiagnosticTextMiddle: string := ", exception: "

  /** `SimpleDiagnostic.toString`. */
  function DiagnosticText(d: Diagnostic): string
  {
    DiagnosticTextPrefix + d.message + DiagnosticTextMiddle + ExceptionText(d.exception) + ")"
  }

  /** The rendering keeps the message and the exception text readable at
      fixed positions: the message right after the prefix, the exception
      text between the middle separator and the closing parenthesis. */
  lemma DiagnosticTextLayout(d: Diagnostic)
    ensures var s := DiagnosticText(d);
      && var m := |DiagnosticTextPrefix|;
      && var x := m + |d.message| + |DiagnosticTextMiddle|;
      && |s| == x + |ExceptionText(d.exception)| + 1
      && s[..m] == "SimpleDiagnostic(message: "
      && s[m..m + |d.message|] == d.message
      && s[m + |d.message|..x] == ", exception: "
      && s[x..|s| - 1] == ExceptionText(d.exception)
      && s[|s| - 1] == ')'
  {
  }

  /** Two diagnostics without an exception render alike only when their
      messages are equal. */
  lemma DiagnosticTextInjectiveOnMessage(d1: Diagnostic, d2: Diagnostic)
    requires d1.exception.None? && d2.exception.None?
    requires DiagnosticText(d1) == DiagnosticText(d2)
    ensures d1 == d2
  {
    var s := DiagnosticText(d1);
    var m := |DiagnosticTextPrefix|;
    assert |d1.message| == |d2.message|;
    assert d1.message == s[m..m + |d1.message|];
    assert d2.message == s[m..m + |d2.message|];
  }
}
