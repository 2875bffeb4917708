/** Optional values and the outcome of an endpoint: an answer, or an HTTP exception. */
module Wrappers {

  datatype Option<+T> = None | Some(value: T)

  /** What a handler returns: a response body, or the status code and detail of the
      HTTPException it raises. */
  datatype Result<+T> = Ok(value: T) | Err(status: nat, detail: string) {

    /** Re-raises this failure from a handler with a different response type. */
    function Raise<U>(): (r: Result<U>)
      requires Err?
      ensures r.Err? && r.status == status && r.detail == detail
    {
      Err(status, detail)
    }
  }
}
