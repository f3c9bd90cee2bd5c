/** Small value types shared by every module of the model. */
module Common {

  /** JavaScript's `null` / `undefined` on one side, a value on the other. */
  datatype Option<T> = None | Some(value: T)
}
