/** A value that may be absent: the model's reading of a JavaScript value that
    is either a number or the placeholder string 'N/A'. */
module Wrappers {

  datatype Option<+T> = None | Some(value: T)
}
