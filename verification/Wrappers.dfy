/** The optional value used throughout the model, in place of null and undefined, and a smaller number. */
module Wrappers {

  datatype Option<+T> = None | Some(value: T)

  function Min(a: nat, b: nat): nat { if a < b then a else b }
}
