/** The usual optional value, used for absent files, unset fields and steps that are not enabled. */
module Options {
  datatype Option<+T> = None | Some(value: T)
}
