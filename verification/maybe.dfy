/** An optional value: the decoders of a rendered report answer `None` for text they cannot read. */
module Maybe {

  datatype Option<+T> = None | Some(value: T)
}
