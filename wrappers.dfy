/** An optional value: `null` in the component's refs and a possibly missing section element. */
module Wrappers {
  datatype Option<+T> = None | Some(value: T)
}
