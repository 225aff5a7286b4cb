/** The optional value used wherever the source returns `None`. */
module Optional {
  datatype Option<+T> = None | Some(value: T)
}
