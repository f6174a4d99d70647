/** An optional value: JavaScript's `undefined` argument or `null` reference
    on one side, a present value on the other. */
module Options {

  datatype Option<+T> = None | Some(value: T)
}
