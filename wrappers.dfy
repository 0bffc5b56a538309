/** The optional value that stands for Python's `Optional[...]` results: `None`
    is the "not found" answer of a lookup, `Some` carries the record found. */
module Wrappers {

  datatype Option<+T> = None | Some(value: T)
}
