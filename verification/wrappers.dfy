/** The optional value used wherever the app has `T | null`, `T | undefined`
    or an absent storage key. */
module Wrappers {

  datatype Option<+T> = None | Some(value: T)

}
