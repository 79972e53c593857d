/** Outcomes of the workshop operations: the exceptions and early returns of the
    handlers and of the registration workflow, as values. */
module Errors {

  /** Why an operation did not change the store. */
  datatype Error =
    | UnknownModel(name: string)   // the factory was asked for a class it does not know (ValueError)
    | NotFound                     // the requested row does not exist
    | MissingId                    // no usable part id was supplied to the delete handler
    | YearRejected                 // the year field failed its check
    | PlateRejected                // the licence-plate field failed its check
    | DescriptionTooLong           // the description field is over 400 characters
    | CostRejected                 // the cost field failed its (unmodelled) numeric check
    | DuplicatePlate               // the unique licence-plate constraint was violated at commit
    | DuplicateLink                // two links with the same (service, part) key were flushed
    | StorageFailure               // the storage engine could not persist the transaction

  datatype Result<T> = Success(value: T) | Failure(error: Error)

  datatype Option<T> = None | Some(value: T)
}
