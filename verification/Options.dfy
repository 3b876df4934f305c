/** An absent or a present value: null pointers, optional operands, unknown messages. */
module Options {
  datatype Option<+T> = None | Some(value: T)
}
