/** Small failure-carrying datatypes shared by every module of the model. */
module Wrappers {

  /** A possibly-absent value: C#'s `null` for reference types. */
  datatype Option<+T> = None | Some(value: T)

  /** The outcome of reading one item at a byte position of a stream:
      the value and the position just after it, or a failure (a read past
      the end of the data or a malformed item, which .NET reports by
      throwing an exception). */
  datatype Parse<+T> = Ok(value: T, next: nat) | Fail {

    predicate IsFailure() {
      Fail?
    }

    function PropagateFailure<U>(): Parse<U>
      requires Fail?
    {
      Fail
    }

    function Extract(): Parse<T>
      requires Ok?
    {
      this
    }
  }

  /** What a C# method that may throw produces: a returned value or an
      exception that escaped it. */
  datatype Outcome<+T> = Returned(value: T) | Threw {

    predicate IsFailure() {
      Threw?
    }

    function PropagateFailure<U>(): Outcome<U>
      requires Threw?
    {
      Threw
    }

    function Extract(): T
      requires Returned?
    {
      value
    }
  }

  /** The outcome of a read that a caller does not guard: its value, or the
      exception. */
  function Unguarded<T>(p: Parse<T>): (r: Outcome<T>)
    ensures r.Returned? <==> p.Ok?
    ensures r.Returned? ==> r.value == p.value
  {
    if p.Ok? then Returned(p.value) else Threw
  }
}
