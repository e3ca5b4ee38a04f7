/** Outcome of decoding a "mappings" string: a value, or the reason the
    decoder would have left its defined behaviour. */
module Results {

  /** The situations in which the decoder would read or write outside its
      buffers. */
  datatype DecodeError =
    | TooManyFields       // a sixth field in one segment
    | SourceOutOfRange    // the running source index is not a position of the source list
    | NameOutOfRange      // the running name index is not a position of the name list

  datatype Result<+T> = Ok(value: T) | Err(error: DecodeError)
}
