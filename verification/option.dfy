/** An optional value, for the fields the source types as `Optional[...]`. */
module Optional {

  datatype Option<+T> = None | Some(value: T)
}
