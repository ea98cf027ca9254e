/** Optional values and recoverable schedule errors. */
module Wrappers {

  datatype Option<+T> = None | Some(value: T)

  /** The schedule-construction mistakes a caller is expected to catch. */
  datatype Error =
    | ConstructionError   // a size value that is not an integer scalar node
    | IndexError          // an axis index out of range after negative-index wrapping
    | IncompatibleAxes    // a merge of axes that differ in reduction flag or parallel type
    | InvalidPermutation  // a reorder map that is not a bijection on the axis positions
    | IllegalComputeAt    // a compute-at binding rejected by the compute-at checks

  datatype Result<+T> = Ok(value: T) | Err(error: Error)
}
