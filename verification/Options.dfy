/** A value that may be absent: the source's nil, missing entries and errors whose wording is not modelled. */
module Options {
  datatype Option<+T> = None | Some(value: T)
}
