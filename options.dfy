/** The optional value used wherever the program returns None or an absent file. */
module Options {

  datatype Option<+T> = None | Some(value: T)
}
