/** Presence or absence of a row, a nullable column, a looked-up wallet. */
module Options {
  datatype Option<+T> = None | Some(value: T)
}
