/** The JSON error envelope {code, message, detail} and its two factories. */
module ErrorResponses {
  import opened Wrappers
  import opened GlobalErrorCodes

  /** The immutable record; a null detail is None. */
  datatype ErrorResponse = ErrorResponse(code: string, message: string, detail: Option<string>)

  /** ErrorResponse.from(errorCode): no detail. */
  function From(e: GlobalErrorCode): (r: ErrorResponse)
    ensures FromCode(r.code) == Some(e)
    ensures r.message == Message(e)
    ensures r.detail.None?
  {
    ErrorResponse(Code(e), Message(e), None)
  }

  /** ErrorResponse.from(errorCode, detail): the detail verbatim, null included. */
  function FromDetail(e: GlobalErrorCode, detail: Option<string>): (r: ErrorResponse)
    ensures FromCode(r.code) == Some(e)
    ensures r.message == Message(e)
    ensures r.detail == detail
  {
    ErrorResponse(Code(e), Message(e), detail)
  }

  /** The two factories agree on code and message, and differ only in the detail;
      the message never depends on the detail. */
  lemma FactoriesAgree(e: GlobalErrorCode, detail: Option<string>)
    ensures FromDetail(e, detail).(detail := None) == From(e)
    ensures FromDetail(e, None) == From(e)
  {
  }
}
