/** The optional values this project uses for nullable columns, missing rows and error returns. */
module Options {
  datatype Option<+T> = None | Some(value: T)
}
