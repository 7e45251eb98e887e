/** Optional values. In the ticket store `None` stands for a JSON key that is
    missing (JavaScript `undefined`). */
module Wrappers {

  datatype Option<+T> = None | Some(value: T)
}
