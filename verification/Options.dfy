/** The optional results of the modelled functions. */
module Options {

  datatype Option<+T> = None | Some(value: T)
}
