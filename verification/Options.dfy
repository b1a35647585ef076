/** The optional values the integration writes as `X | None`. */
module Options {
  datatype Option<+T> = None | Some(value: T)
}
