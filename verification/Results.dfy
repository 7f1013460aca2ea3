/** Optional values and failure values shared by every component. */
module Results {

  datatype Option<+T> = None | Some(value: T)

  /** The store's error classes (`eventic/errors.py`); messages are not modelled. */
  datatype Error =
    | UsageError
    | RevisionConflict
    | EncodingError
    | StoreError
    | NotFound
    | UndecodableRevision
    | IncompleteUpcasterChain
    | DeliveryError
    | InlineDispatchError

  datatype Result<+T> = Ok(value: T) | Err(error: Error) {

    predicate IsFailure() {
      Err?
    }

    function PropagateFailure<U>(): Result<U>
      requires Err?
    {
      Err(error)
    }

    function Extract(): T
      requires Ok?
    {
      value
    }
  }
}
