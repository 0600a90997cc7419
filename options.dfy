/** An optional value: the model of a TypeScript property declared with `?`. */
module Options {

  datatype Option<+T> = None | Some(value: T)
}
