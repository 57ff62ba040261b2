/** Option and Result values shared by every module of the model, and one fact about sets. */
module Wrappers {
  datatype Option<T> = None | Some(value: T)

  /** The outcome of an operation that can fail; `Err` carries the kind of failure. */
  datatype Result<T, E> = Ok(value: T) | Err(error: E)

  /** A non-empty set has a member, so `x :| x in s` can pick one. */
  lemma NonEmptyHasMember(s: set<int>)
    requires s != {}
    ensures exists x :: x in s
  {
    if forall x :: x !in s {
      assert false;
    }
  }
}
