/** The gateway's fixed error table: four error kinds, each with an HTTP status,
    a stable wire code and a fixed human-readable message. */
module GlobalErrorCodes {
  import opened Wrappers
  import opened JavaStrings

  datatype GlobalErrorCode = Unauthorized | Forbidden | InvalidToken | InternalServerError

  /** getHttpStatus(), as the numeric status. */
  function HttpStatus(e: GlobalErrorCode): (status: int)
    ensures 400 <= status < 600
    ensures status == 500 <==> e == InternalServerError
    ensures status == 401 <==> e in {Unauthorized, InvalidToken}
  {
    match e
    case Unauthorized => 401
    case Forbidden => 403
    case InvalidToken => 401
    case InternalServerError => 500
  }

  /** getCode(). */
  function Code(e: GlobalErrorCode): (code: string)
    ensures StartsWith(code, "GATEWAY-" + StatusDigits(HttpStatus(e)))
  {
    match e
    case Unauthorized => "GATEWAY-401"
    case Forbidden => "GATEWAY-403"
    case InvalidToken => "GATEWAY-401-01"
    case InternalServerError => "GATEWAY-500"
  }

  /** getMessage(): a fixed, non-empty sentence per constant. */
  function Message(e: GlobalErrorCode): (m: string)
    ensures m != [] && m[|m| - 1] == '.'
  {
    match e
    case Unauthorized => "인증 정보가 유효하지 않습니다."
    case Forbidden => "해당 리소스에 접근 권한이 없습니다."
    case InvalidToken => "토큰이 유효하지 않습니다."
    case InternalServerError => "예상치 못한 서버 오류가 발생했습니다."
  }

  /** The three decimal digits of an HTTP status. */
  function StatusDigits(status: int): (digits: string)
    requires 100 <= status < 1000
    ensures |digits| == 3
  {
    [Digit(status / 100), Digit(status / 10 % 10), Digit(status % 10)]
  }

  function Digit(d: int): char
    requires 0 <= d < 10
  {
    ('0' as int + d) as char
  }

  /** The constant a wire code names, if any: the inverse of Code. */
  function FromCode(code: string): (r: Option<GlobalErrorCode>)
    ensures r.Some? ==> Code(r.value) == code
    ensures r.None? ==> forall e :: Code(e) != code
  {
    if code == "GATEWAY-401" then Some(Unauthorized)
    else if code == "GATEWAY-403" then Some(Forbidden)
    else if code == "GATEWAY-401-01" then Some(InvalidToken)
    else if code == "GATEWAY-500" then Some(InternalServerError)
    else None
  }

  /** Distinct constants carry distinct messages. */
  lemma MessagesDistinct(a: GlobalErrorCode, b: GlobalErrorCode)
    requires a != b
    ensures Message(a) != Message(b)
  {
    assert Message(a)[0] != Message(b)[0];
  }

  /** The four codes are pairwise distinct, so a code determines its constant. */
  lemma CodeDeterminesConstant(e: GlobalErrorCode)
    ensures FromCode(Code(e)) == Some(e)
  {
  }
}
