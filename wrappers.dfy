/** Values that may be absent: a direction a key may stand for, the id of
    a timer that may be armed. */
module Wrappers {

  datatype Option<T> = None | Some(value: T)
}
