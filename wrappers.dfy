/** The optional value used for the active shard and for optional payload fields. */
module Wrappers {

  datatype Option<+T> = None | Some(value: T)
}
