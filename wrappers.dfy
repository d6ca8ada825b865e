/** An optional value: the model of `null` where the parser returns it
    to mean "nothing here" rather than to signal an error. */
module Wrappers {

  datatype Option<+T> = None | Some(value: T)
}
