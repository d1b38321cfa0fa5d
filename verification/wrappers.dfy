/** The optional value used for Python's `None` returns: a lookup that failed,
    a search response without a film id, a missing `num_vote` attribute. */
module Wrappers {
  datatype Option<+T> = None | Some(value: T)
}
