/** Failure-carrying results used throughout the model. Python exceptions that
    the source raises (and does not catch) become `Err` values carrying the
    exception's class. */
module Outcomes {

  datatype Option<T> = None | Some(value: T)

  /** The Python exception classes the modelled code can raise. */
  datatype Failure = ValueError | TypeError | AttributeError | IndexError | OverflowError

  datatype Result<T> = Ok(value: T) | Err(error: Failure)

  /** Python truthiness of an optional string field: `None` and `""` are falsy. */
  predicate Truthy(o: Option<string>)
  {
    o.Some? && o.value != ""
  }

  /** `x if x else None` for an optional string argument. */
  function KeepIfTruthy(o: Option<string>): (r: Option<string>)
    ensures r.Some? <==> Truthy(o)
    ensures r.Some? ==> r == o
  {
    if Truthy(o) then o else None
  }
}
