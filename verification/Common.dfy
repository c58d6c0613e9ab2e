/** Small value types shared by every component model. */
module Common {

  datatype Option<+T> = None | Some(value: T)

  /** A file that is written under a pending name and then renamed. A crash may leave
      it missing, torn (any proper prefix of its canonical bytes) or whole.
      CanonicalJson proves that a torn file is never read as a document. */
  datatype Slot<+T> = Absent | Torn | Whole(doc: T)

  /** A service log has seven phases; the first four take the services down: prepared,
      proxy_unregistered, authority_unregistered, decommissioned. */
  const PHASES := 7
  const TEARDOWN := 4

  function Last<T>(s: seq<T>): T
    requires s != []
  {
    s[|s| - 1]
  }
}
