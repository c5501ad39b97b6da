/** The stock optional value, used where the program has `None`. */
module Options {
  datatype Option<+T> = None | Some(value: T)
}
