/** The conventional Some/None datatype, for values a step may or may not produce. */
module Options {

  datatype Option<+T> = None | Some(value: T)
}
