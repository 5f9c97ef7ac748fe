/** GatewayGlobalExceptionHandler, the gateway's error WebExceptionHandler: every
    failure that reaches it becomes a JSON ErrorResponse written on the response
    with the error code's status, unless the response is already committed, in
    which case the failure is passed on untouched. */
module GatewayGlobalExceptionHandler {
  import opened Wrappers
  import opened JavaStrings
  import opened GlobalErrorCodes
  import opened GatewayExceptions
  import opened ErrorResponses

  /** One octet of a response body. */
  newtype Byte = b: int | 0 <= b < 256

  const UnexpectedServerError := "Unexpected server error"
  const ApplicationJson := "application/json"

  /** The text block written when serialisation fails, with its closing newline;
      given in three pieces only so that its characters can be reasoned about. */
  const FallbackJson: string := FallbackHead + FallbackMiddle + FallbackTail
  const FallbackHead: string := "{\"code\":\"GATEWAY-500\","
  const FallbackMiddle: string := "\"message\":\"Failed to serialize"
  const FallbackTail: string := " error response\"}\n"

  // ---------------------------------------------------------------------------
  // Bytes

  predicate IsAscii(s: string) {
    forall i :: 0 <= i < |s| ==> s[i] as int < 128
  }

  /** getBytes(UTF_8) of an ASCII string: one byte per character. */
  function AsciiBytes(s: string): (r: seq<Byte>)
    requires IsAscii(s)
    ensures |r| == |s|
    ensures forall i :: 0 <= i < |r| ==> r[i] < 128
  {
    seq(|s|, i requires 0 <= i < |s| => s[i] as int as Byte)
  }

  /** Reads ASCII bytes back as text. */
  function AsciiText(bytes: seq<Byte>): (r: string)
    ensures |r| == |bytes|
  {
    seq(|bytes|, i requires 0 <= i < |bytes| => bytes[i] as int as char)
  }

  /** ASCII text survives encoding: decoding the bytes gives the text back. */
  lemma AsciiRoundTrip(s: string)
    requires IsAscii(s)
    ensures AsciiText(AsciiBytes(s)) == s
  {
    var r := AsciiText(AsciiBytes(s));
    assert forall i :: 0 <= i < |s| ==> r[i] == s[i];
  }

  /** The fallback body is plain ASCII, so its bytes read back as the same text. */
  lemma FallbackIsAscii()
    ensures IsAscii(FallbackJson)
    ensures AsciiText(AsciiBytes(FallbackJson)) == FallbackJson
  {
    HeadIsAscii();
    MiddleIsAscii();
    TailIsAscii();
    AsciiConcat(FallbackHead, FallbackMiddle);
    AsciiConcat(FallbackHead + FallbackMiddle, FallbackTail);
    AsciiRoundTrip(FallbackJson);
  }

  lemma AsciiConcat(a: string, b: string)
    requires IsAscii(a) && IsAscii(b)
    ensures IsAscii(a + b)
  {
    assert forall i :: |a| <= i < |a + b| ==> (a + b)[i] == b[i - |a|];
  }

  lemma HeadIsAscii() ensures IsAscii(FallbackHead) {}
  lemma MiddleIsAscii() ensures IsAscii(FallbackMiddle) {}
  lemma TailIsAscii() ensures IsAscii(FallbackTail) {}

  /** The fallback body's "code" member is the internal-server-error code. */
  lemma FallbackNamesInternalError()
    ensures FallbackJson[..9] == "{\"code\":\""
    ensures FallbackJson[9..20] == Code(InternalServerError)
  {
    assert FallbackJson[..|FallbackHead|] == FallbackHead;
  }

  // ---------------------------------------------------------------------------
  // handle

  /** The error code and detail message chosen for a failure: an authentication
      exception brings its own code and message; anything else is an internal
      server error whose detail is the exception's message, or a fixed text when
      that message is null or blank. */
  function Classify(ex: Throwable): (r: (GlobalErrorCode, Option<string>))
    ensures ex.Authentication? ==> r == (ex.exception.errorCode, ex.exception.message)
    ensures ex.Runtime? ==> r.0 == InternalServerError && r.1.Some? && !IsBlank(r.1.value)
    ensures ex.Runtime? && ex.message.Some? && !IsBlank(ex.message.value) ==> r.1 == ex.message
    ensures ex.Runtime? && (ex.message.None? || IsBlank(ex.message.value)) ==> r.1 == Some(UnexpectedServerError)
  {
    match ex
    case Authentication(e) => (e.errorCode, e.message)
    case Runtime(m) =>
      assert !IsJavaWhitespace(UnexpectedServerError[0]);
      (InternalServerError, if m.Some? && !IsBlank(m.value) then m else Some(UnexpectedServerError))
  }

  /** The body handle builds: ErrorResponse.from(code, message). */
  function ErrorBody(ex: Throwable): (r: ErrorResponse)
    ensures ex.Authentication? ==>
              r == ErrorResponse(Code(ex.exception.errorCode), Message(ex.exception.errorCode), ex.exception.message)
    ensures ex.Runtime? ==>
              r.code == "GATEWAY-500" && r.message == Message(InternalServerError) &&
              r.detail.Some? && !IsBlank(r.detail.value)
  {
    FromDetail(Classify(ex).0, Classify(ex).1)
  }

  /** toJsonBytes: `serialize` stands for ObjectMapper.writeValueAsBytes, None when it
      throws a JsonProcessingException; the fallback text is then written instead. */
  function ToJsonBytes(body: ErrorResponse, serialize: ErrorResponse -> Option<seq<Byte>>): (r: seq<Byte>)
    ensures serialize(body).Some? ==> r == serialize(body).value
    ensures serialize(body).None? ==> AsciiText(r) == FallbackJson
  {
    FallbackIsAscii();
    match serialize(body)
    case Some(bytes) => bytes
    case None => AsciiBytes(FallbackJson)
  }

  /** The HTTP response under construction. */
  class ServerResponse {
    var committed: bool
    var status: Option<int>
    var contentType: Option<string>
    /** The data buffers written, in order. */
    var written: seq<seq<Byte>>

    constructor (committed: bool)
      ensures this.committed == committed
      ensures status.None? && contentType.None? && written == []
    {
      this.committed := committed;
      status := None;
      contentType := None;
      written := [];
    }
  }

  /** What handle returns: Mono.error(ex), or the completion of writeWith. */
  datatype HandleOutcome = Propagated(error: Throwable) | Written

  /** handle: a committed response is left alone and the failure propagated;
      otherwise the status and the JSON content type are set and one buffer
      holding the serialised body is written, which commits the response. */
  method Handle(response: ServerResponse, ex: Throwable, serialize: ErrorResponse -> Option<seq<Byte>>)
    returns (outcome: HandleOutcome)
    modifies response
    ensures old(response.committed) ==> outcome == Propagated(ex) && unchanged(response)
    ensures !old(response.committed) ==>
              && outcome == Written
              && response.committed
              && response.status == Some(HttpStatus(Classify(ex).0))
              && response.contentType == Some(ApplicationJson)
              && response.written == old(response.written) + [ToJsonBytes(ErrorBody(ex), serialize)]
  {
    if response.committed {
      return Propagated(ex);
    }
    var (errorCode, message) := Classify(ex);
    response.status := Some(HttpStatus(errorCode));
    response.contentType := Some(ApplicationJson);
    var body := FromDetail(errorCode, message);
    var bytes := ToJsonBytes(body, serialize);
    response.written := response.written + [bytes];
    response.committed := true;
    return Written;
  }

  /** A failure handled on a fresh response, then handled again: the first call
      writes exactly one body with the code's status, the second finds the response
      committed and hands the failure on unchanged. */
  method HandleTwice(ex: Throwable, serialize: ErrorResponse -> Option<seq<Byte>>)
    returns (first: HandleOutcome, second: HandleOutcome, status: int, bodies: seq<seq<Byte>>)
    ensures first == Written && second == Propagated(ex)
    ensures status == HttpStatus(Classify(ex).0)
    ensures bodies == [ToJsonBytes(ErrorBody(ex), serialize)]
  {
    var response := new ServerResponse(false);
    first := Handle(response, ex, serialize);
    second := Handle(response, ex, serialize);
    status := response.status.value;
    bodies := response.written;
  }

  /** The status line and the body agree: the body's code names the very constant
      whose status is sent, and its message is that constant's message. */
  lemma StatusMatchesBodyCode(ex: Throwable)
    ensures FromCode(ErrorBody(ex).code).Some?
    ensures HttpStatus(FromCode(ErrorBody(ex).code).value) == HttpStatus(Classify(ex).0)
    ensures ErrorBody(ex).message == Message(FromCode(ErrorBody(ex).code).value)
  {
  }

  /** The exception's own text reaches the client only as the detail: two failures
      with the same code give bodies that differ at most in the detail. */
  lemma ExceptionTextOnlyInDetail(a: Throwable, b: Throwable)
    requires Classify(a).0 == Classify(b).0
    ensures ErrorBody(a).code == ErrorBody(b).code
    ensures ErrorBody(a).message == ErrorBody(b).message
    ensures ErrorBody(a).detail == GetMessage(a) || a.Runtime?
  {
  }

  /** Any exception other than the gateway's own is a 500 GATEWAY-500 whose detail is
      never blank. */
  lemma OtherFailuresAreInternalErrors(message: Option<string>)
    ensures HttpStatus(Classify(Runtime(message)).0) == 500
    ensures ErrorBody(Runtime(message)).code == "GATEWAY-500"
    ensures ErrorBody(Runtime(message)).detail.Some?
    ensures !IsBlank(ErrorBody(Runtime(message)).detail.value)
  {
  }

  /** An authentication exception is answered with its own code's status, code and
      message, and its message as the detail. */
  lemma AuthenticationFailureKeepsItsCode(e: GatewayAuthenticationException)
    ensures HttpStatus(Classify(Authentication(e)).0) == HttpStatus(e.errorCode)
    ensures ErrorBody(Authentication(e)) == ErrorResponse(Code(e.errorCode), Message(e.errorCode), e.message)
  {
  }
}
