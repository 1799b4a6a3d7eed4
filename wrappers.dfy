/** A value that may be absent: stands for the Java `null` returned by `Map.get` and by getters. */
module Wrappers {

  datatype Option<+T> = None | Some(value: T)
}
