/** `Result`: a value, or nothing, together with a collection of
    diagnostics. */
module Results {
  import opened Wrappers
  import opened Diagnostics

  /** A nullable value and the diagnostics supplied with it. */
  datatype Result<T> = Result(value: Option<T>, diagnostics: seq<Diagnostic>)

  /** `Result.of(t)` */
  function Of<T>(t: T): (r: Result<T>)
    ensures !HasDiagnostics(r) && Get(r) == Success(t)
  {
    Result(Some(t), [])
  }

  /** `Result.empty()` */
  function Empty<T>(): (r: Result<T>)
    ensures !HasDiagnostics(r) && Get(r) == Failure(NullPointer)
  {
    Result(None, [])
  }

  /** `Result.ofDiagnostics(ds)` */
  function OfDiagnostics<T>(ds: seq<Diagnostic>): (r: Result<T>)
    ensures HasDiagnostics(r) <==> |ds| > 0
    ensures Get(r) == Failure(NullPointer)
    ensures GetDiagnostics(r) == ds
  {
    Result(None, ds)
  }

  predicate HasDiagnostics<T>(r: Result<T>)
  {
    |r.diagnostics| > 0
  }

  /** `get()`: the value, or the `NullPointerException` of
      `Objects.requireNonNull`. */
  function Get<T>(r: Result<T>): Outcome<T>
  {
    match r.value
    case Some(t) => Success(t)
    case None => Failure(NullPointer)
  }

  function GetDiagnostics<T>(r: Result<T>): seq<Diagnostic>
  {
    r.diagnostics
  }
}
