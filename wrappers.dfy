/** The optional value used for absent command-line flags and for a NULL `skb`. */
module Wrappers {

  datatype Option<+T> = None | Some(value: T)
}
