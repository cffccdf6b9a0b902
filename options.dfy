/** The optional value used for "no stroke this sample" and "no modifier supplied". */
module Options {

  datatype Option<+T> = None | Some(value: T)
}
