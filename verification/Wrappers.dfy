/**
 Shared result types for the source's `Option`, `Result` and error returns, lookup in a list of pairs, and the size of
 a subset.
 */
module Wrappers {

  datatype Option<+T> = None | Some(value: T)

  datatype Result<+T, +E> = Ok(value: T) | Err(error: E)

  /** `AppError`: the HTTP status family and the message. */
  datatype AppError =
    | InvalidRequest(message: string)
    | Unauthorized(message: string)
    | NotFound(message: string)
    | Internal(message: string)

  /** The value of the first pair with the key. */
  function Get<T>(pairs: seq<(string, T)>, key: string): (r: Option<T>)
    ensures r.Some? <==> exists i | 0 <= i < |pairs| :: pairs[i].0 == key
    ensures r.Some? ==> exists i | 0 <= i < |pairs| :: pairs[i] == (key, r.value)
  {
    if pairs == [] then None
    else if pairs[0].0 == key then Some(pairs[0].1)
    else Get(pairs[1..], key)
  }

  /** A pair is found by its key when no earlier pair has the same. */
  lemma {:induction false} GetAt<T>(pairs: seq<(string, T)>, i: nat)
    requires i < |pairs| && forall j | 0 <= j < i :: pairs[j].0 != pairs[i].0
    ensures Get(pairs, pairs[i].0) == Some(pairs[i].1)
  {
    if i > 0 {
      assert pairs[0].0 != pairs[i].0;
      GetAt(pairs[1..], i - 1);
    }
  }

  lemma SubsetSize<T>(a: set<T>, b: set<T>)
    requires a <= b
    ensures |a| <= |b|
    ensures a < b ==> |a| < |b|
  {
    assert b == a + (b - a);
  }
}
