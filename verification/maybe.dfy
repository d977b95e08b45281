/** The optional value used for decoders that can fail and for event sequences
    the Writer does not accept. */
module Maybe {

  datatype Option<+T> = None | Some(value: T)
}
