/** An optional value, used where the plugin treats an absent configuration
    or an unreadable one as a separate case. */
module Wrappers {

  datatype Option<+T> = None | Some(value: T)
}
