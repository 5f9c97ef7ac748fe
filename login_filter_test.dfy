/** The filter's documented behaviour on the tokens its tests build, and what the
    exception handler makes of a rejection. */
module LoginFilterTest {
  import opened Wrappers
  import opened JavaStrings
  import opened Claims
  import opened GlobalErrorCodes
  import opened GatewayExceptions
  import opened ErrorResponses
  import opened LoginFilter
  import opened GatewayGlobalExceptionHandler

  /** The test token's claims, with or without a slack_id. */
  function TestToken(includeSlackId: bool): (jwt: Jwt)
    ensures |jwt.claims| == if includeSlackId then 6 else 5
  {
    var claims := [Field("sub", Str("user-1234")),
                   Field("preferred_username", Str("johndoe")),
                   Field("given_name", Str("길동")),
                   Field("family_name", Str("홍")),
                   Field("roles", Arr([Str("ROLE_MASTER_MANAGER"), Str("ROLE_HUB_MANAGER")]))];
    Jwt(if includeSlackId then claims + [Field("slack_id", Str("U123456"))] else claims)
  }

  /** The test request: GET /v1/hubs with a bearer token. */
  const TestRequest := Request("/v1/hubs", map["authorization" := ["Bearer dummy-token"]])

  function Context(jwt: Jwt): Option<SecurityContext> {
    Some(SecurityContext(Some(JwtAuthentication(jwt))))
  }

  /** The "roles" claim is read verbatim. */
  lemma TestRoles(includeSlackId: bool)
    ensures ExtractedRoles(TestToken(includeSlackId)) == Success(["ROLE_MASTER_MANAGER", "ROLE_HUB_MANAGER"])
  {
    TestRolesClaim(includeSlackId);
    RolesPair(TestToken(includeSlackId), "ROLE_MASTER_MANAGER", "ROLE_HUB_MANAGER");
  }

  lemma TestRolesClaim(includeSlackId: bool)
    ensures Lookup(TestToken(includeSlackId).claims, "roles") ==
              Some(Arr([Str("ROLE_MASTER_MANAGER"), Str("ROLE_HUB_MANAGER")]))
  {
    LookupFirst(TestToken(includeSlackId).claims, 4);
  }

  /** A "roles" collection of two strings yields exactly those two. */
  lemma RolesPair(jwt: Jwt, a: string, b: string)
    requires Lookup(jwt.claims, "roles") == Some(Arr([Str(a), Str(b)]))
    ensures ExtractedRoles(jwt) == Success([a, b])
  {
    RolesClaimVerbatim(jwt, [Str(a), Str(b)]);
    var roles := ExtractedRoles(jwt).value;
    assert roles == [roles[0], roles[1]];
  }

  /** Two prefixed roles are both kept, joined by a comma. */
  lemma TwoPrefixedRoles(a: string, b: string)
    requires StartsWith(a, RolePrefix) && StartsWith(b, RolePrefix)
    ensures RolesHeader([a, b]) == a + "," + b
  {
    assert [a, b][1..] == [b];
    assert PrefixedRoles([a, b]) == [a, b];
  }

  /** Both test roles carry the prefix. */
  lemma TestRolesHeader()
    ensures RolesHeader(["ROLE_MASTER_MANAGER", "ROLE_HUB_MANAGER"]) == "ROLE_MASTER_MANAGER" + "," + "ROLE_HUB_MANAGER"
  {
    TwoPrefixedRoles("ROLE_MASTER_MANAGER", "ROLE_HUB_MANAGER");
  }

  /** slack_id is present and has text in the first token, and neither slack_id nor
      slackId exists in the second. */
  lemma TestSlackId()
    ensures ResolveSlackId(TestToken(true)) == Some("U123456")
  {
    assert !IsJavaWhitespace("U123456"[0]);
    LookupFirst(TestToken(true).claims, 5);
  }

  lemma NoTestSlackId()
    ensures ResolveSlackId(TestToken(false)) == None
  {
  }

  /** The identity claims read as strings. */
  lemma TestClaimStrings()
    ensures Subject(TestToken(true)) == Some("user-1234")
    ensures ClaimAsString(TestToken(true), "preferred_username") == Some("johndoe")
    ensures ClaimAsString(TestToken(true), "given_name") == Some("길동")
    ensures ClaimAsString(TestToken(true), "family_name") == Some("홍")
  {
    TestUserClaims();
    TestNameClaims();
  }

  lemma TestUserClaims()
    ensures Subject(TestToken(true)) == Some("user-1234")
    ensures ClaimAsString(TestToken(true), "preferred_username") == Some("johndoe")
  {
    var claims := TestToken(true).claims;
    LookupFirst(claims, 0);
    LookupFirst(claims, 1);
  }

  lemma TestNameClaims()
    ensures ClaimAsString(TestToken(true), "given_name") == Some("길동")
    ensures ClaimAsString(TestToken(true), "family_name") == Some("홍")
  {
    var claims := TestToken(true).claims;
    LookupFirst(claims, 2);
    LookupFirst(claims, 3);
  }

  /** With a Slack id, the chain gets the request with the X-User-* headers. */
  lemma AddUserHeadersWhenSlackIdPresent(urlEncode: string -> string)
    ensures Filter(Context(TestToken(true)), TestRequest, urlEncode).Forward?
    ensures Filter(Context(TestToken(true)), TestRequest, urlEncode).request.path == "/v1/hubs"
    ensures HeaderValues(Filter(Context(TestToken(true)), TestRequest, urlEncode).request, HeaderUserId)
              == ["user-1234"]
    ensures HeaderValues(Filter(Context(TestToken(true)), TestRequest, urlEncode).request, HeaderUsername)
              == ["johndoe"]
    ensures HeaderValues(Filter(Context(TestToken(true)), TestRequest, urlEncode).request, HeaderRoles)
              == ["ROLE_MASTER_MANAGER" + "," + "ROLE_HUB_MANAGER"]
    ensures HeaderValues(Filter(Context(TestToken(true)), TestRequest, urlEncode).request, HeaderSlackId)
              == ["U123456"]
    ensures HeaderValues(Filter(Context(TestToken(true)), TestRequest, urlEncode).request, HeaderUserName)
              == [urlEncode("길동" + "홍")]
  {
    var jwt := TestToken(true);
    TestRoles(true);
    TestRolesHeader();
    TestSlackId();
    TestClaimStrings();
    var name := urlEncode("길동" + "홍");
    assert Filter(Context(jwt), TestRequest, urlEncode) ==
      Forward(IdentityRequest(TestRequest, "user-1234", "johndoe",
                              "ROLE_MASTER_MANAGER" + "," + "ROLE_HUB_MANAGER", name, "U123456"));
    IdentityHeaders(TestRequest, "user-1234", "johndoe",
                    "ROLE_MASTER_MANAGER" + "," + "ROLE_HUB_MANAGER", name, "U123456");
  }

  /** Without a Slack id, the filter fails with UNAUTHORIZED and the fixed message. */
  lemma ThrowExceptionWhenSlackIdMissing(urlEncode: string -> string)
    ensures Filter(Context(TestToken(false)), TestRequest, urlEncode) ==
              Reject(GatewayAuthenticationException(Unauthorized, Some(SlackIdMissing)))
  {
    TestRoles(false);
    NoTestSlackId();
  }

  /** That failure reaches the client as a 401 GATEWAY-401 body whose detail is the
      filter's message. */
  lemma MissingSlackIdAnswered(urlEncode: string -> string)
    ensures var outcome := Filter(Context(TestToken(false)), TestRequest, urlEncode);
      && outcome.Reject?
      && HttpStatus(Classify(Authentication(outcome.exception)).0) == 401
      && ErrorBody(Authentication(outcome.exception)) ==
           ErrorResponse("GATEWAY-401", Message(Unauthorized), Some(SlackIdMissing))
  {
    ThrowExceptionWhenSlackIdMissing(urlEncode);
  }
}
