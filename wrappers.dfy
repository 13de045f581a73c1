/** Option and Result types, and the exceptions the library raises. */
module Wrappers {

  datatype Option<T> = None | Some(value: T)
  {
    predicate IsSome() { this.Some? }

    function GetOr(default: T): (r: T)
      ensures this.Some? ==> r == this.value
      ensures this.None? ==> r == default
    {
      match this
      case Some(v) => v
      case None => default
    }
  }

  /** The exceptions raised by the modelled code, by their Python class names. */
  datatype Error =
    | ValueError
    | NotImplementedError
    | KeyError
    | IndexError
    | AttributeError
    | TypeError
    | SWObjectExists
    | SWObjectExistsError
    | SWObjectPropertyError
    | SWObjectDoesNotExist
    | SWObjectNotFound
    | SWObjectNotFoundError
    | SWIDNotFound
    | SWNonUniqueResultError
    | SWObjectCreationError
    | SWObjectManageError
    | SWDiscoveryError
    | SWAlertSuppressionError
    | RecursionError
    | UnboundLocalError
    | NameError
    | SWError

  datatype Result<T> = Ok(value: T) | Err(error: Error)
  {
    predicate IsFailure() { this.Err? }
  }
}
