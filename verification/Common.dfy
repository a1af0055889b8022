/** What several modules share. */
module Common {
  datatype Option<+T> = None | Some(value: T)

  /** A digest or another identifier. */
  type Id = string

  lemma {:induction false} Assoc<T>(a: seq<T>, b: seq<T>, c: seq<T>)
    ensures a + b + c == a + (b + c)
  {
  }
}
