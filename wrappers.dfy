/** The "no match" result of the lookups: the source returns `null` where the
    model returns `None`. */
module Wrappers {

  datatype Option<+T> = None | Some(value: T)
}
