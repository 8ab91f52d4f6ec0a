/** The nullable reference of the source, as a value: `None` stands for `null`. */
module Options {

  datatype Option<+T> = None | Some(value: T)
}
