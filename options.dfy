/** An optional value: stands for a JavaScript variable that may hold `null`. */
module Options {

  datatype Option<+T> = None | Some(value: T)
}
