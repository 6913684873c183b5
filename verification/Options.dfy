/** The value-or-nothing type used where the program keeps `None`. */
module Options {
  datatype Option<+T> = None | Some(value: T)
}
