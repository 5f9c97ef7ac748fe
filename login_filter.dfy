/** LoginFilter, the gateway's global filter. For a request authenticated by a JWT it
    extracts the raw role strings, resolves the mandatory Slack id and forwards a
    copy of the request carrying the identity headers; without a Slack id it fails
    with an UNAUTHORIZED GatewayAuthenticationException. Any other request is
    forwarded unchanged. The reactive plumbing is replaced by the outcome value the
    filter hands to the chain. */
module LoginFilter {
  import opened Wrappers
  import opened JavaStrings
  import opened Claims
  import opened GlobalErrorCodes
  import opened GatewayExceptions

  const HeaderUserId := "X-User-Id"
  const HeaderUsername := "X-Username"
  const HeaderUserName := "X-User-Name"
  const HeaderSlackId := "X-Slack-Id"
  const HeaderRoles := "X-User-Roles"
  const RolePrefix := "ROLE_"
  const SlackIdMissing := "Slack ID가 JWT에 존재하지 않습니다."

  /** An unchecked exception the JVM raises while the claims are read:
      NullPointerException (toString() on a null role, a method call on a null
      claim) or ClassCastException (a non-map claim assigned to a Map variable). */
  datatype Fault = NullPointer | ClassCast

  /** The current principal: a JWT-backed token or any other kind. */
  datatype Authentication = JwtAuthentication(token: Jwt) | OtherAuthentication

  /** The security context; its authentication may be null. */
  datatype SecurityContext = SecurityContext(authentication: Option<Authentication>)

  /** An inbound request. Header names are case-insensitive, so the map is keyed by
      the lower-cased name. */
  datatype Request = Request(path: string, headers: map<string, seq<string>>)

  /** What the filter does with the exchange. */
  datatype FilterOutcome =
    | Forward(request: Request)                         // chain.filter on this request
    | Reject(exception: GatewayAuthenticationException) // Mono.error
    | Crash(fault: Fault)                               // an exception thrown in the lambda

  // ---------------------------------------------------------------------------
  // extractRoles

  /** forEach(r -> result.add(r.toString())) over a collection: the toString() of
      every element, or a NullPointerException at the first null element. */
  function RenderAll(items: seq<Value>): (r: Result<seq<string>, Fault>)
    ensures r.Failure? <==> exists i :: 0 <= i < |items| && items[i].Null?
    ensures r.Failure? ==> r.error == NullPointer
    ensures r.Success? ==>
              |r.value| == |items| && (forall i :: 0 <= i < |items| ==> r.value[i] == Render(items[i]))
  {
    if exists i :: 0 <= i < |items| && items[i].Null? then Failure(NullPointer)
    else Success(seq(|items|, i requires 0 <= i < |items| => Render(items[i])))
  }

  lemma RenderAllAppend(a: seq<Value>, b: seq<Value>)
    ensures RenderAll(a + b).Success? <==> RenderAll(a).Success? && RenderAll(b).Success?
    ensures RenderAll(a + b).Success? ==> RenderAll(a + b).value == RenderAll(a).value + RenderAll(b).value
  {
    if RenderAll(a).Failure? {
      var i :| 0 <= i < |a| && a[i].Null?;
      assert (a + b)[i].Null?;
    }
    if RenderAll(b).Failure? {
      var i :| 0 <= i < |b| && b[i].Null?;
      assert (a + b)[|a| + i].Null?;
    }
  }

  /** The result of appending the rendered `items` to `prefix`. */
  function Appended(prefix: seq<string>, items: seq<Value>): Result<seq<string>, Fault> {
    match RenderAll(items)
    case Success(rendered) => Success(prefix + rendered)
    case Failure(f) => Failure(f)
  }

  lemma AppendedToNothing(items: seq<Value>)
    ensures Appended([], items) == RenderAll(items)
  {
    if RenderAll(items).Success? {
      assert [] + RenderAll(items).value == RenderAll(items).value;
    }
  }

  /** extractRoles as a function of the claim map. Exactly one branch runs, chosen by
      the presence of the claims "roles", "realm_access", "resource_access" in that
      order; nothing is normalised. */
  function ExtractedRoles(jwt: Jwt): (r: Result<seq<string>, Fault>)
    ensures !HasClaim(jwt, "roles") && !HasClaim(jwt, "realm_access") && !HasClaim(jwt, "resource_access") ==>
              r == Success([])
    ensures r == Failure(ClassCast) ==> !HasClaim(jwt, "roles")
    ensures HasClaim(jwt, "roles") && !GetClaim(jwt, "roles").Arr? ==> r == Success([])
  {
    if HasClaim(jwt, "roles") then
      match GetClaim(jwt, "roles")
      case Arr(items) => RenderAll(items)
      case _ => Success([])
    else if HasClaim(jwt, "realm_access") then
      match GetClaim(jwt, "realm_access")
      case Null => Failure(NullPointer)
      case Obj(fields) =>
        (match Get(fields, "roles") case Arr(items) => RenderAll(items) case _ => Success([]))
      case _ => Failure(ClassCast)
    else if HasClaim(jwt, "resource_access") then
      match GetClaim(jwt, "resource_access")
      case Null => Failure(NullPointer)
      case Obj(fields) => RenderAll(ClientRoleItems(Values(fields)))
      case _ => Failure(ClassCast)
    else Success([])
  }

  /** The forEach loop that adds the toString() of every element of a collection to
      the result list. */
  method AddAll(result: seq<string>, items: seq<Value>) returns (r: Result<seq<string>, Fault>)
    ensures r == Appended(result, items)
  {
    var acc := result;
    var i := 0;
    while i < |items|
      invariant 0 <= i <= |items|
      invariant forall k :: 0 <= k < i ==> !items[k].Null?
      invariant acc == result + seq(i, k requires 0 <= k < i => Render(items[k]))
    {
      if items[i].Null? {
        return Failure(NullPointer);
      }
      acc := acc + [Render(items[i])];
      i := i + 1;
    }
    return Success(acc);
  }

  /** extractRoles, step by step as the source builds its ArrayList. */
  method ExtractRoles(jwt: Jwt) returns (r: Result<seq<string>, Fault>)
    ensures r == ExtractedRoles(jwt)
  {
    var result: seq<string> := [];
    if HasClaim(jwt, "roles") {
      var v := GetClaim(jwt, "roles");
      if v.Arr? {
        r := AddAll(result, v.items);
        AppendedToNothing(v.items);
        return;
      }
    } else if HasClaim(jwt, "realm_access") {
      var realmAccess := GetClaim(jwt, "realm_access");
      if realmAccess.Null? {
        return Failure(NullPointer);
      } else if !realmAccess.Obj? {
        return Failure(ClassCast);
      }
      var roles := Get(realmAccess.fields, "roles");
      if roles.Arr? {
        r := AddAll(result, roles.items);
        AppendedToNothing(roles.items);
        return;
      }
    } else if HasClaim(jwt, "resource_access") {
      var resourceAccess := GetClaim(jwt, "resource_access");
      if resourceAccess.Null? {
        return Failure(NullPointer);
      } else if !resourceAccess.Obj? {
        return Failure(ClassCast);
      }
      r := CollectClientRoles(Values(resourceAccess.fields));
      return;
    }
    return Success(result);
  }

  /** The loop over resource_access.values(): each client entry that is a map with a
      "roles" collection adds its elements, stopping at the first null element. */
  method CollectClientRoles(clients: seq<Value>) returns (r: Result<seq<string>, Fault>)
    ensures r == RenderAll(ClientRoleItems(clients))
  {
    var result: seq<string> := [];
    var j := 0;
    while j < |clients|
      invariant 0 <= j <= |clients|
      invariant RenderAll(ClientRoleItems(clients[..j])) == Success(result)
    {
      var client := clients[j];
      var items := if client.Obj? && Get(client.fields, "roles").Arr? then Get(client.fields, "roles").items else [];
      assert items == RolesOf(client);
      var next := AddAll(result, items);
      ClientStep(clients, j, result);
      if next.Failure? {
        FailureStops(clients, j + 1);
        return next;
      }
      result := next.value;
      j := j + 1;
    }
    assert clients[..j] == clients;
    return Success(result);
  }

  /** Rendering one more client entry appends its rendered roles. */
  lemma ClientStep(clients: seq<Value>, j: nat, result: seq<string>)
    requires j < |clients|
    requires RenderAll(ClientRoleItems(clients[..j])) == Success(result)
    ensures RenderAll(ClientRoleItems(clients[..j + 1])) == Appended(result, RolesOf(clients[j]))
  {
    assert clients[..j + 1] == clients[..j] + [clients[j]];
    ClientRoleItemsSnoc(clients[..j], clients[j]);
    RenderAllAppend(ClientRoleItems(clients[..j]), RolesOf(clients[j]));
  }

  /** A null among the first client entries makes the whole collection fail. */
  lemma FailureStops(clients: seq<Value>, j: nat)
    requires j <= |clients|
    requires RenderAll(ClientRoleItems(clients[..j])).Failure?
    ensures RenderAll(ClientRoleItems(clients)) == RenderAll(ClientRoleItems(clients[..j]))
  {
    ClientRoleItemsSplit(clients, j);
    FailureAbsorbs(ClientRoleItems(clients[..j]), ClientRoleItems(clients[j..]));
  }

  /** Once a prefix fails, anything appended fails the same way. */
  lemma FailureAbsorbs(head: seq<Value>, tail: seq<Value>)
    requires RenderAll(head).Failure?
    ensures RenderAll(head + tail) == RenderAll(head)
  {
    var i :| 0 <= i < |head| && head[i].Null?;
    assert (head + tail)[i].Null?;
  }

  /** A "roles" claim decides the outcome alone, whatever its value: realm_access and
      resource_access are not consulted. */
  lemma RolesClaimShortCircuits(a: Jwt, b: Jwt)
    requires HasClaim(a, "roles")
    requires Lookup(a.claims, "roles") == Lookup(b.claims, "roles")
    ensures ExtractedRoles(a) == ExtractedRoles(b)
  {
  }

  /** A "roles" claim that is not a collection yields no roles, without falling
      through to the Keycloak claims. */
  lemma NonCollectionRolesClaimYieldsNothing(jwt: Jwt)
    requires HasClaim(jwt, "roles") && !GetClaim(jwt, "roles").Arr?
    ensures ExtractedRoles(jwt) == Success([])
  {
  }

  /** A "roles" collection without nulls yields its elements' toString() verbatim and
      in order. */
  lemma RolesClaimVerbatim(jwt: Jwt, items: seq<Value>)
    requires Lookup(jwt.claims, "roles") == Some(Arr(items))
    requires forall i :: 0 <= i < |items| ==> !items[i].Null?
    ensures ExtractedRoles(jwt).Success?
    ensures |ExtractedRoles(jwt).value| == |items|
    ensures forall i :: 0 <= i < |items| ==> ExtractedRoles(jwt).value[i] == Render(items[i])
  {
  }

  /** realm_access.roles is used only when "roles" is absent, and then resource_access
      is ignored. */
  lemma RealmAccessIgnoresResourceAccess(a: Jwt, b: Jwt)
    requires !HasClaim(a, "roles") && HasClaim(a, "realm_access")
    requires Lookup(a.claims, "roles") == Lookup(b.claims, "roles")
    requires Lookup(a.claims, "realm_access") == Lookup(b.claims, "realm_access")
    ensures ExtractedRoles(a) == ExtractedRoles(b)
  {
  }

  /** Under resource_access (and neither "roles" nor "realm_access"), a string is among
      the extracted roles exactly when some client entry that is a map lists, under a
      "roles" collection, an element whose toString() it is. */
  lemma ResourceAccessMembership(jwt: Jwt, clients: seq<Field>, role: string)
    requires !HasClaim(jwt, "roles") && !HasClaim(jwt, "realm_access")
    requires Lookup(jwt.claims, "resource_access") == Some(Obj(clients))
    requires ExtractedRoles(jwt).Success?
    ensures role in ExtractedRoles(jwt).value <==>
              exists j :: 0 <= j < |clients| && Lists(clients[j].value, role)
  {
    var items := ClientRoleItems(Values(clients));
    assert ExtractedRoles(jwt) == RenderAll(items);
    if role in RenderAll(items).value {
      ListedRoleHasClient(clients, role);
    }
    if exists j :: 0 <= j < |clients| && Lists(clients[j].value, role) {
      var j :| 0 <= j < |clients| && Lists(clients[j].value, role);
      ClientRoleIsListed(clients, j, role);
    }
  }

  lemma ListedRoleHasClient(clients: seq<Field>, role: string)
    requires RenderAll(ClientRoleItems(Values(clients))).Success?
    requires role in RenderAll(ClientRoleItems(Values(clients))).value
    ensures exists j :: 0 <= j < |clients| && Lists(clients[j].value, role)
  {
    var values := Values(clients);
    var items := ClientRoleItems(values);
    var roles := RenderAll(items).value;
    var i :| 0 <= i < |roles| && roles[i] == role;
    assert items[i] in items;
    ClientRoleItemsMembership(values, items[i]);
    var j :| 0 <= j < |values| && items[i] in RolesOf(values[j]);
    assert Lists(clients[j].value, role);
  }

  lemma ClientRoleIsListed(clients: seq<Field>, j: int, role: string)
    requires 0 <= j < |clients| && Lists(clients[j].value, role)
    requires RenderAll(ClientRoleItems(Values(clients))).Success?
    ensures role in RenderAll(ClientRoleItems(Values(clients))).value
  {
    var values := Values(clients);
    var items := ClientRoleItems(values);
    var e :| e in RolesOf(clients[j].value) && Render(e) == role;
    assert values[j] == clients[j].value;
    ClientRoleItemsMembership(values, e);
    var i :| 0 <= i < |items| && items[i] == e;
    assert RenderAll(items).value[i] == role;
  }

  /** A client entry listing an element whose toString() is `role`. */
  ghost predicate Lists(client: Value, role: string) {
    exists e :: e in RolesOf(client) && Render(e) == role
  }

  /** With none of the three claims, there are no roles. */
  lemma NoRoleClaimsNoRoles(jwt: Jwt)
    requires !HasClaim(jwt, "roles") && !HasClaim(jwt, "realm_access") && !HasClaim(jwt, "resource_access")
    ensures ExtractedRoles(jwt) == Success([])
  {
  }

  // ---------------------------------------------------------------------------
  // The header values

  /** filter(s -> s.startsWith("ROLE_")): the prefixed roles, in order. */
  function PrefixedRoles(roles: seq<string>): (r: seq<string>)
    ensures |r| <= |roles|
    ensures forall i :: 0 <= i < |r| ==> StartsWith(r[i], RolePrefix)
    ensures forall x :: x in r <==> x in roles && StartsWith(x, RolePrefix)
  {
    if |roles| == 0 then []
    else (if StartsWith(roles[0], RolePrefix) then [roles[0]] else []) + PrefixedRoles(roles[1..])
  }

  /** The filter works role by role: filtering a concatenation concatenates the
      filtered parts, so the kept roles stay in their original order. */
  lemma {:induction false} PrefixedRolesAppend(a: seq<string>, b: seq<string>)
    ensures PrefixedRoles(a + b) == PrefixedRoles(a) + PrefixedRoles(b)
  {
    if |a| == 0 {
      assert a + b == b;
    } else {
      assert (a + b)[0] == a[0] && (a + b)[1..] == a[1..] + b;
      PrefixedRolesAppend(a[1..], b);
    }
  }

  /** One role is kept exactly when it starts with ROLE_. */
  lemma PrefixedRolesSingle(role: string)
    ensures PrefixedRoles([role]) == if StartsWith(role, RolePrefix) then [role] else []
  {
    assert [role][1..] == [];
  }

  /** The X-User-Roles value: the ROLE_-prefixed roles joined by ",". */
  function RolesHeader(roles: seq<string>): (r: string)
    ensures StartsWith(r, RolePrefix) <==> exists i :: 0 <= i < |roles| && StartsWith(roles[i], RolePrefix)
  {
    var kept := PrefixedRoles(roles);
    var r := Join(kept, ",");
    if exists i :: 0 <= i < |roles| && StartsWith(roles[i], RolePrefix) then
      var i :| 0 <= i < |roles| && StartsWith(roles[i], RolePrefix);
      assert roles[i] in kept;
      assert StartsWith(kept[0], RolePrefix);
      assert |kept| > 1 ==> r[..|kept[0]|] == kept[0];
      r
    else
      r
  }

  /** X-User-Roles is empty exactly when no role carries the ROLE_ prefix. */
  lemma RolesHeaderEmptyIff(roles: seq<string>)
    ensures RolesHeader(roles) == "" <==> forall i :: 0 <= i < |roles| ==> !StartsWith(roles[i], RolePrefix)
  {
    var kept := PrefixedRoles(roles);
    JoinEmptyIff(kept, ",");
    if exists i :: 0 <= i < |roles| && StartsWith(roles[i], RolePrefix) {
      var i :| 0 <= i < |roles| && StartsWith(roles[i], RolePrefix);
      assert roles[i] in kept;
    }
  }

  /** The Slack id: slack_id when it has text, else slackId when that has text, else
      none at all. */
  function ResolveSlackId(jwt: Jwt): (r: Option<string>)
    ensures r.Some? ==> HasText(r.value)
    ensures OptHasText(ClaimAsString(jwt, "slack_id")) ==> r == ClaimAsString(jwt, "slack_id")
    ensures !OptHasText(ClaimAsString(jwt, "slack_id")) ==>
              r == (if OptHasText(ClaimAsString(jwt, "slackId")) then ClaimAsString(jwt, "slackId") else None)
    ensures r.None? <==> !OptHasText(ClaimAsString(jwt, "slack_id")) && !OptHasText(ClaimAsString(jwt, "slackId"))
  {
    var slackId := ClaimAsString(jwt, "slack_id");
    var slackId := if OptHasText(slackId) then slackId else ClaimAsString(jwt, "slackId");
    if OptHasText(slackId) then slackId else None
  }

  /** StringUtils.hasText on a possibly null string. */
  predicate OptHasText(s: Option<string>) {
    s.Some? && HasText(s.value)
  }

  /** ServerHttpRequest.Builder.header(name, value): sets the header, replacing every
      value the request carried under that name in any letter case. */
  function SetHeader(request: Request, name: string, value: string): (r: Request)
    ensures r.path == request.path
    ensures HeaderValues(r, name) == [value]
    ensures forall other :: LowerAscii(other) != LowerAscii(name) ==>
              HeaderValues(r, other) == HeaderValues(request, other)
  {
    request.(headers := request.headers[LowerAscii(name) := [value]])
  }

  /** HttpHeaders.get(name), with [] for an absent header. */
  function HeaderValues(request: Request, name: string): seq<string> {
    var key := LowerAscii(name);
    if key in request.headers then request.headers[key] else []
  }

  /** The mutated copy of the request: the five identity headers set in the source's
      order. */
  function IdentityRequest(request: Request, userId: string, username: string, roles: string,
                           name: string, slackId: string): (r: Request)
    ensures r.path == request.path
    ensures forall other :: LowerAscii(other) !in IdentityKeys ==>
              HeaderValues(r, other) == HeaderValues(request, other)
  {
    HeaderKeys();
    var r := SetHeader(request, HeaderUserId, userId);
    var r := SetHeader(r, HeaderUsername, username);
    var r := SetHeader(r, HeaderRoles, roles);
    var r := SetHeader(r, HeaderUserName, name);
    SetHeader(r, HeaderSlackId, slackId)
  }

  /** The five identity header names, lower-cased as the header map keys them. */
  const IdentityKeys: set<string> := {"x-user-id", "x-username", "x-user-roles", "x-user-name", "x-slack-id"}

  // ---------------------------------------------------------------------------
  // filter

  /** The decision for a JWT-authenticated request. `urlEncode` stands for
      URLEncoder.encode(_, UTF_8). */
  function Authenticated(jwt: Jwt, request: Request, urlEncode: string -> string): (r: FilterOutcome)
    ensures r.Crash? <==> ExtractedRoles(jwt).Failure?
    ensures r.Crash? ==> r.fault == ExtractedRoles(jwt).error
    ensures r.Reject? ==> r.exception == GatewayAuthenticationException(Unauthorized, Some(SlackIdMissing))
    ensures r.Forward? ==> r.request.path == request.path
  {
    match ExtractedRoles(jwt)
    case Failure(f) => Crash(f)
    case Success(roles) =>
      var name := urlEncode(OrEmpty(ClaimAsString(jwt, "given_name")) + OrEmpty(ClaimAsString(jwt, "family_name")));
      match ResolveSlackId(jwt)
      case None => Reject(GatewayAuthenticationException(Unauthorized, Some(SlackIdMissing)))
      case Some(slackId) =>
        Forward(IdentityRequest(request, OrEmpty(Subject(jwt)),
                                OrEmpty(ClaimAsString(jwt, "preferred_username")),
                                RolesHeader(roles), name, slackId))
  }

  /** filter: `context` is None when the reactive security context is empty. A
      context whose authentication is null passes the request through, as the
      source's comments intend (see FilterAsWritten). */
  function Filter(context: Option<SecurityContext>, request: Request, urlEncode: string -> string): (r: FilterOutcome)
    ensures !IsJwtContext(context) ==> r == Forward(request)
    ensures r.Reject? ==> IsJwtContext(context) && r.exception.errorCode == Unauthorized
    ensures r.Crash? ==> IsJwtContext(context)
    ensures r.Forward? ==> r.request.path == request.path
  {
    match context
    case None => Forward(request)
    case Some(SecurityContext(auth)) =>
      match auth
      case Some(JwtAuthentication(jwt)) => Authenticated(jwt, request, urlEncode)
      case _ => Forward(request)
  }

  /** Whether the principal is JWT-backed. */
  predicate IsJwtContext(context: Option<SecurityContext>) {
    context.Some? && context.value.authentication.Some? && context.value.authentication.value.JwtAuthentication?
  }

  /** Without a JWT principal the request goes on unchanged and nothing is raised. */
  lemma UnauthenticatedPassesThrough(context: Option<SecurityContext>, request: Request, urlEncode: string -> string)
    requires !IsJwtContext(context)
    ensures Filter(context, request, urlEncode) == Forward(request)
  {
  }

  /** A JWT-authenticated request whose roles could be read is rejected exactly when
      neither slack_id nor slackId has text, and then with UNAUTHORIZED and the fixed
      message, forwarding nothing. */
  lemma MissingSlackIdRejects(jwt: Jwt, request: Request, urlEncode: string -> string)
    requires ExtractedRoles(jwt).Success?
    ensures Authenticated(jwt, request, urlEncode).Reject? <==>
              !OptHasText(ClaimAsString(jwt, "slack_id")) && !OptHasText(ClaimAsString(jwt, "slackId"))
    ensures Authenticated(jwt, request, urlEncode).Reject? ==>
              Authenticated(jwt, request, urlEncode).exception ==
                GatewayAuthenticationException(Unauthorized, Some(SlackIdMissing))
    ensures !Authenticated(jwt, request, urlEncode).Crash?
  {
  }

  /** A forwarded authenticated request carries the five identity headers, whatever
      the caller sent under those names, and keeps its path. */
  lemma ForwardedHeaders(jwt: Jwt, request: Request, urlEncode: string -> string)
    requires Authenticated(jwt, request, urlEncode).Forward?
    ensures ExtractedRoles(jwt).Success? && ResolveSlackId(jwt).Some?
    ensures var r := Authenticated(jwt, request, urlEncode).request;
      && r.path == request.path
      && HeaderValues(r, HeaderUserId) == [OrEmpty(Subject(jwt))]
      && HeaderValues(r, HeaderUsername) == [OrEmpty(ClaimAsString(jwt, "preferred_username"))]
      && HeaderValues(r, HeaderRoles) == [RolesHeader(ExtractedRoles(jwt).value)]
      && HeaderValues(r, HeaderUserName) ==
           [urlEncode(OrEmpty(ClaimAsString(jwt, "given_name")) + OrEmpty(ClaimAsString(jwt, "family_name")))]
      && HeaderValues(r, HeaderSlackId) == [ResolveSlackId(jwt).value]
  {
    IdentityHeaders(request, OrEmpty(Subject(jwt)), OrEmpty(ClaimAsString(jwt, "preferred_username")),
                    RolesHeader(ExtractedRoles(jwt).value),
                    urlEncode(OrEmpty(ClaimAsString(jwt, "given_name")) + OrEmpty(ClaimAsString(jwt, "family_name"))),
                    ResolveSlackId(jwt).value);
  }

  /** Each of the five headers holds exactly the value set for it: the later
      settings do not overwrite the earlier ones. */
  lemma IdentityHeaders(request: Request, userId: string, username: string, roles: string,
                        name: string, slackId: string)
    ensures var r := IdentityRequest(request, userId, username, roles, name, slackId);
      && r.path == request.path
      && HeaderValues(r, HeaderUserId) == [userId]
      && HeaderValues(r, HeaderUsername) == [username]
      && HeaderValues(r, HeaderRoles) == [roles]
      && HeaderValues(r, HeaderUserName) == [name]
      && HeaderValues(r, HeaderSlackId) == [slackId]
  {
    HeaderKeys();
    var r1 := SetHeader(request, HeaderUserId, userId);
    var r2 := SetHeader(r1, HeaderUsername, username);
    var r3 := SetHeader(r2, HeaderRoles, roles);
    var r4 := SetHeader(r3, HeaderUserName, name);
    var r5 := SetHeader(r4, HeaderSlackId, slackId);
    assert HeaderValues(r5, HeaderUserId) == HeaderValues(r4, HeaderUserId) == HeaderValues(r3, HeaderUserId)
        == HeaderValues(r2, HeaderUserId) == HeaderValues(r1, HeaderUserId);
    assert HeaderValues(r5, HeaderUsername) == HeaderValues(r4, HeaderUsername) == HeaderValues(r3, HeaderUsername)
        == HeaderValues(r2, HeaderUsername);
    assert HeaderValues(r5, HeaderRoles) == HeaderValues(r4, HeaderRoles) == HeaderValues(r3, HeaderRoles);
    assert HeaderValues(r5, HeaderUserName) == HeaderValues(r4, HeaderUserName);
  }

  /** The five header names as the case-insensitive header map keys them. */
  lemma HeaderKeys()
    ensures LowerAscii(HeaderUserId) == "x-user-id"
    ensures LowerAscii(HeaderUsername) == "x-username"
    ensures LowerAscii(HeaderRoles) == "x-user-roles"
    ensures LowerAscii(HeaderUserName) == "x-user-name"
    ensures LowerAscii(HeaderSlackId) == "x-slack-id"
  {
    UserHeaderKeys();
    OtherHeaderKeys();
  }

  lemma UserHeaderKeys()
    ensures LowerAscii(HeaderUserId) == "x-user-id"
    ensures LowerAscii(HeaderUsername) == "x-username"
    ensures LowerAscii(HeaderUserName) == "x-user-name"
  {
  }

  lemma OtherHeaderKeys()
    ensures LowerAscii(HeaderRoles) == "x-user-roles"
    ensures LowerAscii(HeaderSlackId) == "x-slack-id"
  {
  }

  // ---------------------------------------------------------------------------
  // The filter as written, in its reactive setting

  /** filter exactly as the source wires it: `map` turns a context with a null
      authentication into a null, which Reactor rejects with a NullPointerException,
      so such a request fails instead of passing through. */
  function FilterAsWritten(context: Option<SecurityContext>, request: Request, urlEncode: string -> string): (r: FilterOutcome)
    ensures r != Filter(context, request, urlEncode) <==> context == Some(SecurityContext(None))
    ensures r != Filter(context, request, urlEncode) ==> r.Crash?
  {
    if context == Some(SecurityContext(None)) then Crash(NullPointer)
    else Filter(context, request, urlEncode)
  }

  /** A context with a null authentication: the source's comment promises a
      pass-through, the source raises. */
  lemma NullAuthenticationCrashes(request: Request, urlEncode: string -> string)
    ensures FilterAsWritten(Some(SecurityContext(None)), request, urlEncode) == Crash(NullPointer)
    ensures Filter(Some(SecurityContext(None)), request, urlEncode) == Forward(request)
  {
  }

  /** The requests the downstream chain runs on, as the source wires it, in the
      order the runs happen with a chain that defers its work until subscription
      (Spring Cloud Gateway's filter chain does, through Mono.defer). The chain's
      Mono<Void> always completes empty, so after the flatMap branch has run the
      chain, switchIfEmpty runs it again on the original request; an error skips
      the fallback. A chain that does its work when called rather than when
      subscribed runs on the original request first, at assembly, and on the
      forwarded request second. */
  function ChainRunsAsWritten(context: Option<SecurityContext>, request: Request, urlEncode: string -> string): (r: seq<Request>)
    ensures |r| <= 2
    ensures r != [] ==> r[|r| - 1] == request
    ensures |r| == 2 <==> context.Some? && FilterAsWritten(context, request, urlEncode).Forward?
    ensures |r| == 2 ==> r[0] == FilterAsWritten(context, request, urlEncode).request
    ensures r == [] <==> !FilterAsWritten(context, request, urlEncode).Forward?
  {
    if context.None? then [request]
    else
      match FilterAsWritten(context, request, urlEncode)
      case Forward(r) => [r, request]
      case _ => []
  }

  /** The requests the downstream chain runs on when the outcome is handed to it
      once: the forwarded request, or nothing on an error. */
  function ChainRuns(outcome: FilterOutcome): (r: seq<Request>)
    ensures |r| <= 1
    ensures r != [] <==> outcome.Forward?
    ensures r != [] ==> r[0] == outcome.request
  {
    if outcome.Forward? then [outcome.request] else []
  }

  /** As written, a forwarded authenticated request reaches the chain twice, the
      second time without the identity headers the filter added. */
  lemma AuthenticatedRequestRunsChainTwice(jwt: Jwt, request: Request, urlEncode: string -> string)
    requires Authenticated(jwt, request, urlEncode).Forward?
    ensures var runs := ChainRunsAsWritten(Some(SecurityContext(Some(JwtAuthentication(jwt)))), request, urlEncode);
      && |runs| == 2
      && runs[0] == Authenticated(jwt, request, urlEncode).request
      && runs[1] == request
  {
    var context := Some(SecurityContext(Some(JwtAuthentication(jwt))));
    assert FilterAsWritten(context, request, urlEncode) == Authenticated(jwt, request, urlEncode);
  }

  /** Handed once, the chain sees each request at most once, and every run of an
      authenticated request carries the resolved Slack id. */
  lemma ChainRunsOnceWithIdentity(context: Option<SecurityContext>, request: Request, urlEncode: string -> string)
    ensures |ChainRuns(Filter(context, request, urlEncode))| <= 1
    ensures IsJwtContext(context) ==>
              forall r :: r in ChainRuns(Filter(context, request, urlEncode)) ==>
                |HeaderValues(r, HeaderSlackId)| == 1 && HasText(HeaderValues(r, HeaderSlackId)[0])
  {
    var outcome := Filter(context, request, urlEncode);
    assert ChainRuns(outcome) == if outcome.Forward? then [outcome.request] else [];
    if IsJwtContext(context) && outcome.Forward? {
      var jwt := context.value.authentication.value.token;
      assert outcome == Authenticated(jwt, request, urlEncode);
      ForwardedSlackId(jwt, request, urlEncode);
    }
  }

  /** A forwarded authenticated request carries one Slack id, and it has text. */
  lemma ForwardedSlackId(jwt: Jwt, request: Request, urlEncode: string -> string)
    requires Authenticated(jwt, request, urlEncode).Forward?
    ensures var r := Authenticated(jwt, request, urlEncode).request;
      |HeaderValues(r, HeaderSlackId)| == 1 && HasText(HeaderValues(r, HeaderSlackId)[0])
  {
    ForwardedHeaders(jwt, request, urlEncode);
  }
}
