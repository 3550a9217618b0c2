/** An optional value: a token taken from an empty queue, or a number that
    does not parse. */
module Optional {
  datatype Option<T> = None | Some(value: T)
}
