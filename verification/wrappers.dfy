/** The optional-value type used for results that may be absent: a URL that
    does not parse, a descriptor fetch that fails, a device not resolved. */
module Wrappers {

  datatype Option<+T> = None | Some(value: T)
}
