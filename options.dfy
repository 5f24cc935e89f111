/** The optional value used for "no matching deposit" and "no entity with this key". */
module Options {

  datatype Option<T> = None | Some(value: T)
}
