/** Vocabulary shared by every model: optional values, operation results, identifiers and time. */
module Common {

  /** A database id, a subject or a key of which the program only ever tests equality. */
  type Id = nat

  /** Seconds since an arbitrary epoch, in UTC. */
  type Time = int

  datatype Option<+T> = None | Some(value: T)

  datatype Result<+R, +E> = Success(value: R) | Failure(error: E)

  function Min(a: int, b: int): int {
    if a <= b then a else b
  }

  function Max(a: int, b: int): int {
    if a >= b then a else b
  }

  predicate Distinct<T(==)>(s: seq<T>) {
    forall i, j :: 0 <= i < j < |s| ==> s[i] != s[j]
  }
}
