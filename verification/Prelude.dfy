/** What several modules use. */
module Prelude {
  datatype Option<+T> = None | Some(value: T)

  /** A clock that does not run backwards. */
  predicate Ordered(times: seq<nat>) {
    forall i, j | 0 <= i < j < |times| :: times[i] <= times[j]
  }

  lemma Associate<T>(a: seq<T>, b: seq<T>, c: seq<T>)
    ensures (a + b) + c == a + (b + c)
  {
  }
}
