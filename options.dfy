/** The optional value the source writes as `null` or `-1`. */
module Options {

  datatype Option<+T> = None | Some(value: T)
}
