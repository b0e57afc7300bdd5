/** The value that is there or not, shared by every model in this project. */
module Options {

  datatype Option<+T> = None | Some(value: T)
}
