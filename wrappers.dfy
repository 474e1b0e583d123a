/** Option and Result values, and the kinds of failure the modelled code raises. */
module Wrappers {

  datatype Option<+T> = None | Some(value: T)

  /** The Python exceptions the modelled code lets escape to its callers. */
  datatype Error =
    | KeyError           // a dictionary lookup of a missing key
    | ValueError         // list.index of a value that is not in the list
    | IndexError         // a string split without its separator, or [0] of an empty list
    | NoResultFound      // a query's .one() that matched no row
    | ZeroDivisionError  // a percentage against a zero baseline

  datatype Result<+T> = Ok(value: T) | Err(error: Error)
}
