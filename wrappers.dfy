/** Option and Result, the shapes used for Java's nullable references,
    Optional<T> and the exceptions a service throws. */
module Wrappers {

  /** A nullable value: None stands for Java's null / Optional.empty(). */
  datatype Option<+T> = None | Some(value: T) {
    function GetOr(default: T): T {
      match this
      case Some(v) => v
      case None => default
    }
  }

  /** The value of a service call, or the error it reports or throws. */
  datatype Result<+T, +E> = Success(value: T) | Failure(error: E)

  /** Partial-update merge of one field: a non-null incoming value replaces
      the stored one, a null incoming value keeps it. */
  function Overlay<T>(incoming: Option<T>, stored: Option<T>): (r: Option<T>)
    ensures incoming.Some? ==> r == incoming
    ensures incoming.None? ==> r == stored
  {
    if incoming.Some? then incoming else stored
  }

  /** Java's null-safe `Optional.ofNullable(a).map(Arrays::asList).orElseGet(emptyList)`. */
  function OrEmpty<T>(a: Option<seq<T>>): (r: seq<T>)
    ensures a.Some? ==> r == a.value
    ensures a.None? ==> r == []
  {
    if a.Some? then a.value else []
  }
}
