/** The optional value the editor returns where the program returns an image or nothing. */
module Wrappers {
  datatype Option<+T> = None | Some(value: T)
}
