/** The absent-or-present value used for `Array.prototype.find`, which yields
    `undefined` when nothing matches. */
module Wrappers {

  datatype Option<+T> = None | Some(value: T)
}
