/** SQL NULL as a value: every DataFrame column of the batch is nullable. */
module Nullable {

  /** A cell that is either NULL (`None`) or holds a value. */
  datatype Option<+T> = None | Some(value: T)
}
