/** The optional value used throughout the model: a missing request key, a
    row not found, an unset date or facility. */
module Options {
  datatype Option<+T> = None | Some(value: T)
}
