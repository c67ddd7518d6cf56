/** The usual optional value, used for PHP's "value or false" returns. */
module Options {

  datatype Option<+T> = None | Some(value: T)

}
