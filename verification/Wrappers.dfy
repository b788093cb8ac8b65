/** Optional values, and results that carry an error. */
module Wrappers {

  datatype Option<+T> = None | Some(value: T)

  datatype Result<+T, +E> = Ok(value: T) | Err(error: E)

  /** What a loop has collected, before what is still to come, unless that fails. */
  function Then<T, E>(front: seq<T>, r: Result<seq<T>, E>): (r': Result<seq<T>, E>)
  {
    if r.Ok? then Ok(front + r.value) else r
  }

  lemma ThenNothing<T, E>(r: Result<seq<T>, E>)
    ensures Then([], r) == r
  {
    if r.Ok? {
      assert [] + r.value == r.value;
    }
  }

  lemma ThenThen<T, E>(a: seq<T>, b: seq<T>, r: Result<seq<T>, E>)
    ensures Then(a, Then(b, r)) == Then(a + b, r)
  {
    if r.Ok? {
      assert a + (b + r.value) == (a + b) + r.value;
    }
  }
}
