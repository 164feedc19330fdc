/** Results that may be missing, and picking from a set. */
module Options {

  datatype Option<+T> = None | Some(value: T)

  /** The next key of a range over a map: any key that is left. */
  method Any<T>(keys: set<T>) returns (k: T)
    requires keys != {}
    ensures k in keys
  {
    k :| k in keys;
  }
}
