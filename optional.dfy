/** The `Option` values that the game's lookups and state fields use. */
module Optional {
  datatype Option<+T> = None | Some(value: T)
}
