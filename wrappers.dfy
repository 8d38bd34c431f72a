/** Option and Result types shared by the model, and the error kinds the views raise. */
module Wrappers {

  datatype Option<+T> = None | Some(value: T) {
    /** The value, or `default` when absent. */
    function GetOr(default: T): T {
      match this
      case Some(v) => v
      case None => default
    }
  }

  /**
   * The failures a request can end with:
   * PermissionDenied (HTTP 403 raised by a view), NotFound (HTTP 404 from
   * `get_object` / `get_object_or_404`), Invalid (HTTP 400 from serializer
   * validation) and Conflict (a uniqueness constraint refused by the database).
   */
  datatype Error = PermissionDenied | NotFound | Invalid | Conflict

  datatype Result<+T> = Ok(value: T) | Err(error: Error)
}
