/** Small value wrappers shared by every page of the console. */
module Wrappers {

  datatype Option<+T> = None | Some(value: T) {
    /** The wrapped value, or `default` for None (JavaScript's `x || default` on a missing field). */
    function GetOr(default: T): T {
      match this
      case Some(v) => v
      case None => default
    }
  }

  /**
   * What a remote call hands back to a page: `Failed` when the request throws
   * (transport error or non-2xx status), `Ok(body)` otherwise, where `body` is
   * None when the JSON envelope lacks the expected list field.
   */
  datatype Response<+T> = Failed | Ok(body: Option<T>)
}
