/** The optional value shared by every model in this project: a nil pointer,
    a missing map entry or an absent error in the program. */
module Options {
  datatype Option<+T> = None | Some(value: T)
}
