module Options {
  datatype Option<+T> = None | Some(value: T)

  /** An arbitrary choice: whatever holds of the caller holds for every choice. */
  method AnyOf<T(==)>(s: set<T>) returns (x: T)
    requires s != {}
    ensures x in s
  {
    x :| x in s;
  }
}
