/** An optional value: the model's counterpart of a JavaScript field that may hold `null`. */
module Options {

  datatype Option<+T> = None | Some(value: T)
}
