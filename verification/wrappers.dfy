/** Failure-carrying datatypes shared by every module of the model. */
module Wrappers {

  /** An optional value: the model's stand-in for `T | null` and `T | undefined`. */
  datatype Option<+T> = None | Some(value: T) {

    /** The value, or `default` when there is none (JavaScript's `x || default` on a present value). */
    function GetOr(default: T): T {
      match this
      case Some(v) => v
      case None => default
    }
  }

  /** The outcome of a call to an external service: a value or an error. */
  datatype Result<+R, +E> = Ok(value: R) | Err(error: E)

  /** Success value of an operation that returns nothing useful (`Observable<void>`). */
  datatype Unit = Unit

  /** The first present element of a stream of optional emissions (`filter(x => x !== null), take(1)`). */
  function FirstSome<T>(s: seq<Option<T>>): (r: Option<T>)
    ensures r.Some? <==> exists i :: 0 <= i < |s| && s[i].Some?
    ensures r.Some? ==> exists i :: 0 <= i < |s| && s[i] == r && forall j :: 0 <= j < i ==> s[j].None?
  {
    if |s| == 0 then None
    else if s[0].Some? then s[0]
    else
      var r := FirstSome(s[1..]);
      assert forall i :: 1 <= i < |s| ==> s[i] == s[1..][i - 1];
      r
  }
}
