/** The absent-or-present value used wherever the JavaScript code gets `undefined`
    back from a lookup. */
module Wrappers {

  datatype Option<+T> = None | Some(value: T)
}
