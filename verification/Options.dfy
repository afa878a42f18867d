/**
 A value or nothing: what the modelled code writes as None.
 */
module Options {

  datatype Option<+T> = None | Some(value: T)
}
