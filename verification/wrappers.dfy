/** Option and Result, the two failure-compatible wrappers the model uses:
    Option for "not found" (Array.prototype.find returning undefined) and
    Result for an import that throws part-way through the workbook. */
module Wrappers {

  datatype Option<+T> = None | Some(value: T)

  datatype Result<+R, +E> = Success(value: R) | Failure(error: E)
}
