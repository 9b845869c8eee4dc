/** The optional value used for absent store entries and for partial parsers. */
module Options {

  datatype Option<+T> = None | Some(value: T)

}
