/** An optional value: the model's stand-in for a reference that may be null
    and for a result that may be missing. */
module Optional {
  datatype Option<+T> = None | Some(value: T)
}
