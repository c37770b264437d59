/** The argument guards the command handlers run before anything else
    (`Guard.Against.Null`, `NullOrEmpty`, `NegativeOrZero`). */
module Guards {
  import opened Wrappers
  import opened Primitives
  import opened Errors

  /** `Guard.Against.Null`: the value, or `ArgumentNullException`. */
  function NotNull<T>(x: Option<T>, parameter: string): (r: Result<T, Error>)
    ensures r.Ok? <==> x.Some?
    ensures r.Ok? ==> r.value == x.value
    ensures r.Err? ==> r.error == ArgumentNull(parameter)
  {
    match x
    case None => Err(ArgumentNull(parameter))
    case Some(v) => Ok(v)
  }

  /** `Guard.Against.NullOrEmpty` on a string: the string, or for null an
      `ArgumentNullException` and for "" an `ArgumentException`; whitespace
      passes. */
  function NotNullOrEmpty(s: NString, parameter: string): (r: Result<string, Error>)
    ensures r.Ok? <==> !IsNullOrEmpty(s)
    ensures r.Ok? ==> s == Some(r.value) && |r.value| > 0
    ensures s.None? ==> r == Err(ArgumentNull(parameter))
    ensures s == Some("") ==> r == Err(ArgumentEmpty(parameter))
  {
    match s
    case None => Err(ArgumentNull(parameter))
    case Some(v) => if |v| == 0 then Err(ArgumentEmpty(parameter)) else Ok(v)
  }

  /** `Guard.Against.NegativeOrZero`. */
  function Positive(n: int, parameter: string): (r: Outcome<Error>)
    ensures r.Pass? <==> n > 0
    ensures r.Fail? ==> r.error == NotPositive(parameter)
  {
    if n <= 0 then Fail(NotPositive(parameter)) else Pass
  }
}
