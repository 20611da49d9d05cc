/** What several modules share. */
module Common {
  /** A value that may be missing. */
  datatype Option<T> = None | Some(value: T)

  /** A pooled connection, by the order of its creation. */
  type Id = nat

  function Min(a: nat, b: nat): nat {
    if a < b then a else b
  }
}
