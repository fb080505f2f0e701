/** Shared vocabulary: optional values, Go-style (value, error) results, time, and the
    first-match search that every configuration lookup of the agent is built on. */
module Common {

  /** A Go pointer or comma-ok lookup: absent (nil) or present. */
  datatype Option<+T> = None | Some(value: T)

  /** A Go `(T, error)` pair where the error is nil exactly when `Ok`. */
  datatype Result<+T> = Ok(value: T) | Err(error: string)

  /** A Go `error` return on its own: nil (`Pass`) or an error message. */
  datatype Outcome = Pass | Fail(error: string)

  /** Instants are nanoseconds since an arbitrary epoch, as `time.Time` differences are. */
  type Time = int

  const NanosPerSecond: int := 1_000_000_000

  /** The regexp package seen from outside: `compileError(p)` is `None` exactly when
      `regexp.Compile(p)` succeeds, and `matches(p, s)` is `MatchString` of the compiled `p`. */
  datatype RegexEngine = RegexEngine(compileError: string -> Option<string>, matches: (string, string) -> bool)

  /** Index of the first element satisfying `p`, scanning in sequence order. */
  function FirstWhere<T>(s: seq<T>, p: T -> bool): (r: Option<nat>)
    ensures r.Some? ==> r.value < |s| && p(s[r.value])
    ensures r.Some? ==> forall j :: 0 <= j < r.value ==> !p(s[j])
    ensures r.None? <==> forall j :: 0 <= j < |s| ==> !p(s[j])
  {
    if s == [] then None
    else if p(s[0]) then Some(0)
    else match FirstWhere(s[1..], p)
      case None => None
      case Some(i) => Some(i + 1)
  }
}
