/** The optional value used for the error paths of the model (a parse that throws,
    a lookup that finds nothing). */
module Options {
  datatype Option<+T> = None | Some(value: T)
}
