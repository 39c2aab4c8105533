/** Small general notions that the other modules share. */
module Wrappers {
  /** The conventional optional value, used where the source has a pointer that may be NULL. */
  datatype Option<+T> = None | Some(value: T)

  lemma Associative<T>(a: seq<T>, b: seq<T>, c: seq<T>)
    ensures (a + b) + c == a + (b + c)
  {
  }
}
