/** Optional values, raised Python exceptions and results shared by every module. */
module Base {

  datatype Option<T> = None | Some(value: T)

  /** The Python exception a step raises; only the kind matters to callers. */
  datatype Failure =
    | KeyError(key: string)
    | DeviationKeyError(deviation: real)  // KeyError raised on a missing float deviation key
    | ValueError(what: string)
    | TypeError(what: string)
    | AttributeError(what: string)
    | IndexError
    | ZeroDivisionError
    | StatisticsError
    | SendingMessageError
    | NetworkCreationError(what: string)

  datatype Result<T> = Ok(value: T) | Err(error: Failure)

  /**
   * The outcome of a statement sequence that returns nothing: it finished, it
   * raised, or it would still be retrying a send when the modelled transport
   * has no attempts left.
   */
  datatype Status = Done | Raised(error: Failure) | Stalled
}
