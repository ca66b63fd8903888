/** Stand-ins for Java's nullable references and checked failures. */
module Wrappers {

  /** A nullable Java reference: `None` is `null`. */
  datatype Option<+T> = None | Some(value: T) {

    /** The value, or `default` when the reference is null. */
    function GetOr(default: T): T {
      match this
      case Some(v) => v
      case None => default
    }
  }

  /** The outcome of an operation that can throw: `Failure` carries the exception's kind. */
  datatype Result<+T> = Success(value: T) | Failure(error: string)

  /**
   * The outcome of a loop that performs one throwing step per element: every value in
   * order when no step throws, otherwise the first exception.
   */
  function Collect<T>(rs: seq<Result<T>>): (r: Result<seq<T>>)
    ensures r.Failure? <==> exists i :: 0 <= i < |rs| && rs[i].Failure?
    ensures r.Failure? ==> exists i :: 0 <= i < |rs| && rs[i] == Failure(r.error) &&
                                       forall j :: 0 <= j < i ==> rs[j].Success?
    ensures r.Success? ==> |r.value| == |rs| && forall i :: 0 <= i < |rs| ==> rs[i] == Success(r.value[i])
  {
    if rs == [] then Success([])
    else if rs[0].Failure? then Failure(rs[0].error)
    else
      var rest := Collect(rs[1..]);
      if rest.Failure? then Failure(rest.error) else Success([rs[0].value] + rest.value)
  }
}
