/** The optional value the tool uses wherever Python returns `None`. */
module Wrappers {

  datatype Option<+T> = None | Some(value: T)
}
