/** Failure-carrying results for the operations of the identifier source. */
module Results {

  datatype Option<T> = None | Some(value: T)

  /** The exceptions the identifier source can raise. */
  datatype Failure =
      /** IllegalStateException: the partition code is not handled by the generator. */
    | UnknownPartition(partitionId: string)
      /** NumberFormatException from Integer.parseInt on the text of a stored identifier. */
    | NumberFormat(text: string)

  datatype Result<T> = Ok(value: T) | Err(failure: Failure)
}
