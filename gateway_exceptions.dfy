/** The failures that reach the global exception handler: the gateway's own
    authentication exception, carrying an error code and a message, and every
    other unchecked exception, of which only the message matters. */
module GatewayExceptions {
  import opened Wrappers
  import opened GlobalErrorCodes

  /** GatewayAuthenticationException: the constructor's code and message are kept in
      final fields and read back unchanged by getErrorCode() and getMessage(). */
  datatype GatewayAuthenticationException =
    GatewayAuthenticationException(errorCode: GlobalErrorCode, message: Option<string>)

  /** A thrown RuntimeException: either the gateway's own or any other. */
  datatype Throwable =
    | Authentication(exception: GatewayAuthenticationException)
    | Runtime(message: Option<string>)

  /** Throwable.getMessage(). */
  function GetMessage(t: Throwable): (m: Option<string>)
    ensures t.Authentication? ==> m == t.exception.message
    ensures t.Runtime? ==> m == t.message
  {
    match t
    case Authentication(e) => e.message
    case Runtime(m) => m
  }
}
