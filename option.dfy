/** The optional value used wherever a Java lookup returns null or throws for a missing entry. */
module Optional {
  datatype Option<T> = None | Some(value: T)
}
