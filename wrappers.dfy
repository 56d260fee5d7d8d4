/** The conventional Option datatype, used where the application returns "nothing". */
module Wrappers {

  datatype Option<+T> = None | Some(value: T)
}
