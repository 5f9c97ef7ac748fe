# athenhub gateway-server: identity propagation and error mapping, in Dafny

This project models the security core of the athenhub API gateway, a Spring Cloud Gateway
service that sits in front of the hub services:

- **KeycloakClientRoleConverter** turns the role claims of a Keycloak JWT into Spring
  authorities. `realm_access.roles` wins when it is a collection; otherwise the roles of every
  `resource_access` client are gathered. Every role is trimmed and given the `ROLE_` prefix
  exactly once (`keycloak_role_converter.dfy`). The code filters out null elements, but the
  Reactor pipeline fails on them before that filter is reached. `Convert` is the converter as
  intended, dropping nulls. `KeycloakConverterPipeline.ConvertAsWritten` is the pipeline as it
  runs: it emits authorities up to the first null realm role, client value or client role, then
  fails with a NullPointerException (`keycloak_converter_pipeline.dfy`).
- **LoginFilter** is the global filter; both copies (`security/` and `config/`) are modelled by
  the one module `LoginFilter` (`login_filter.dfy`). For a JWT-authenticated request it:
  - extracts the raw role strings (`roles`, else `realm_access.roles`, else every
    `resource_access` client);
  - resolves the mandatory Slack id (`slack_id`, else `slackId`);
  - forwards a copy of the request carrying `X-User-Id`, `X-Username`, `X-User-Roles`,
    `X-User-Name` and `X-Slack-Id`.

  Without a Slack id it fails with an UNAUTHORIZED `GatewayAuthenticationException`. Any other
  request goes on unchanged. The role extraction is kept imperative: `ExtractRoles`,
  `CollectClientRoles` and `AddAll` are loops proved equal to the function `ExtractedRoles`.
- **GatewayGlobalExceptionHandler** turns every failure into a JSON `ErrorResponse` with the error
  code's status, unless the response is already committed (`exception_handler.dfy`). The response
  is a class whose fields `Handle` updates.
- **GlobalErrorCode**, **ErrorResponse** and **GatewayAuthenticationException** are the error
  vocabulary (`global_error_code.dfy`, `error_response.dfy`, `gateway_exceptions.dfy`).

The JWT is a claim map whose values are JSON-typed (`Claims.Value`). A map is given by its entries
in iteration order, which Java leaves unspecified for a `HashMap`. The Java library behaviour the
code relies on is written out in `java_strings.dfy` and `claims.dfy`:
- `String.trim`, `isBlank`, `StringUtils.hasText` and `Collectors.joining`;
- `Object.toString` of lists and maps;
- `Jwt.hasClaim`, `Jwt.getClaim` and `Jwt.getClaimAsString`;
- case-insensitive header names.

The JVM failures that the filter's claim reading can raise are modelled as `LoginFilter.Fault`:
- a `NullPointerException` on a null role element or a null `realm_access`/`resource_access`;
- a `ClassCastException` when one of those claims is present but is not a map.

The two test classes are restated as lemmas over the test tokens (`*_test.dfy`).

Where the repository's own description and its code disagree, the model follows the code:
- LoginFilter's `extractRoles` does not normalise roles. Only the converter adds `ROLE_`; the
  filter keeps just the roles that already carry it.
- A `roles` claim that is not a collection yields no roles. It does not fall through to
  `realm_access`.
- A null role element never becomes `""`. LoginFilter throws on it. The converter's pipeline
  fails on it too, because `Flux.fromIterable` rejects nulls before `filter(Objects::nonNull)`
  runs (see Findings). The intended converter `Convert` drops it.
- `config/LoginFilter.java` takes `GlobalErrorCode` from an external `commoncore` package. That
  package is not part of this model; its `UNAUTHORIZED` is taken to be the gateway's own.

## Model

| member | source | states |
|---|---|---|
| JavaStrings.TrimStripsEnds | src/main/java/com/athenhub/gatewayserver/security/KeycloakClientRoleConverter.java:170 | trim() removes only characters up to U+0020, some from the front and the rest from the back, and keeps the middle as it is |
| JavaStrings.Trim | src/main/java/com/athenhub/gatewayserver/security/KeycloakClientRoleConverter.java:170 | the result has no character up to U+0020 at either end, is no longer than the input, and a string already trimmed is returned unchanged (what is removed: TrimStripsEnds) |
| JavaStrings.JoinEmptyIff | src/main/java/com/athenhub/gatewayserver/security/LoginFilter.java:146-148 | joining non-empty strings gives "" exactly when there is nothing to join |
| Wrappers.OrEmpty | src/main/java/com/athenhub/gatewayserver/security/LoginFilter.java:120 | Objects.toString(x, ""): the string itself, or "" for null |
| Claims.Lookup | src/main/java/com/athenhub/gatewayserver/security/LoginFilter.java:69 | a claim is absent exactly when no entry has its name; a found value is an entry's value |
| Claims.LookupFirst | src/main/java/com/athenhub/gatewayserver/security/LoginFilter.java:70 | the first entry under a name is the one getClaim returns |
| Claims.Render | src/main/java/com/athenhub/gatewayserver/security/LoginFilter.java:72 | Object.toString of a claim value: a string is itself, null is "null", a list prints in brackets and a map in braces, and a one-element list prints its element in brackets |
| Claims.ClaimAsString | src/main/java/com/athenhub/gatewayserver/security/LoginFilter.java:116-117 | null exactly for an absent or null claim; a string claim is returned as it is |
| Claims.ClientRoleItemsAppend | src/main/java/com/athenhub/gatewayserver/security/LoginFilter.java:84-94 | the role elements of two client lists are those of the first followed by those of the second |
| Claims.ClientRoleItemsMembership | src/main/java/com/athenhub/gatewayserver/security/LoginFilter.java:88-91 | an element is among the client role elements exactly when some client map lists it under a "roles" collection |
| KeycloakClientRoleConverter.NormalizeRole | src/main/java/com/athenhub/gatewayserver/security/KeycloakClientRoleConverter.java:163-172 | null gives ""; otherwise the trimmed role, with ROLE_ prepended unless it already starts with ROLE_, so every non-null result starts with ROLE_ |
| KeycloakClientRoleConverter.NormalizeRoleIdempotent | src/main/java/com/athenhub/gatewayserver/security/KeycloakClientRoleConverter.java:166-172 | normalising a normalised role changes nothing |
| KeycloakClientRoleConverter.NormalizeBareRole | src/main/java/com/athenhub/gatewayserver/security/KeycloakClientRoleConverter.java:155 | "admin" becomes "ROLE_admin" |
| KeycloakClientRoleConverter.NormalizePaddedRole | src/main/java/com/athenhub/gatewayserver/security/KeycloakClientRoleConverter.java:156 | " ROLE_USER " becomes "ROLE_USER" |
| KeycloakClientRoleConverter.NormalizePrefixedRole | src/main/java/com/athenhub/gatewayserver/security/KeycloakClientRoleConverter.java:157 | "ROLE_MANAGER" stays "ROLE_MANAGER" |
| KeycloakClientRoleConverter.NonNull | src/main/java/com/athenhub/gatewayserver/security/KeycloakClientRoleConverter.java:95 | an element survives the null filter exactly when it was there and is not null |
| KeycloakClientRoleConverter.Authorities | src/main/java/com/athenhub/gatewayserver/security/KeycloakClientRoleConverter.java:93-101 | every authority built from a role collection starts with ROLE_ |
| KeycloakClientRoleConverter.AuthoritiesMembership | src/main/java/com/athenhub/gatewayserver/security/KeycloakClientRoleConverter.java:93-101 | a string is an authority exactly when some non-null element of the collection normalises to it |
| KeycloakClientRoleConverter.Convert | src/main/java/com/athenhub/gatewayserver/security/KeycloakClientRoleConverter.java:80-139 | every granted authority starts with ROLE_ |
| KeycloakClientRoleConverter.RealmRolesTakePriority | src/main/java/com/athenhub/gatewayserver/security/KeycloakClientRoleConverter.java:85-103 | with a realm_access.roles collection, the result depends on realm_access alone |
| KeycloakClientRoleConverter.RealmRoles | src/main/java/com/athenhub/gatewayserver/security/KeycloakClientRoleConverter.java:85-91 | without realm_access there is no realm roles collection; there is one exactly when realm_access is a map whose "roles" is a collection, and it is that collection |
| KeycloakClientRoleConverter.RealmRolesInOrder | src/main/java/com/athenhub/gatewayserver/security/KeycloakClientRoleConverter.java:93-101 | a null-free realm_access.roles gives one authority per role, its normalised toString, in order |
| KeycloakClientRoleConverter.RealmWithoutRolesFallsThrough | src/main/java/com/athenhub/gatewayserver/security/KeycloakClientRoleConverter.java:85-108 | a realm_access that is not a map or holds no roles collection is as good as absent |
| KeycloakClientRoleConverter.ResourceRolesMembership | src/main/java/com/athenhub/gatewayserver/security/KeycloakClientRoleConverter.java:106-136 | under resource_access, a role is granted exactly when some client map lists a non-null element normalising to it |
| KeycloakClientRoleConverter.ClientOrderIrrelevant | src/main/java/com/athenhub/gatewayserver/security/KeycloakClientRoleConverter.java:113-135 | any reordering of the resource_access clients grants the same multiset of authorities |
| KeycloakClientRoleConverter.NoSourcesNoRoles | src/main/java/com/athenhub/gatewayserver/security/KeycloakClientRoleConverter.java:137-138 | with neither claim, or an empty realm_access.roles, nothing is granted |
| KeycloakConverterPipeline.UpToNull | src/main/java/com/athenhub/gatewayserver/security/KeycloakClientRoleConverter.java:93 | the elements Flux.fromIterable hands on before its first null: an initial segment, null-free, followed by a null whenever it stops early |
| KeycloakConverterPipeline.UpToNullAppend | src/main/java/com/athenhub/gatewayserver/security/KeycloakClientRoleConverter.java:113-127 | a null in the first collection stops the stream there; otherwise the stream continues into the second |
| KeycloakConverterPipeline.RolesAsWritten | src/main/java/com/athenhub/gatewayserver/security/KeycloakClientRoleConverter.java:93-101 | the realm pipeline completes exactly when no role is null, and emits the authorities of the roles before the first null |
| KeycloakConverterPipeline.ClientsAsWritten | src/main/java/com/athenhub/gatewayserver/security/KeycloakClientRoleConverter.java:113-135 | the resource_access pipeline completes exactly when no client value and no client role is null, and emits the authorities of the role elements before the first null value or role |
| KeycloakConverterPipeline.RolesAsWrittenPrefix | src/main/java/com/athenhub/gatewayserver/security/KeycloakClientRoleConverter.java:93-101 | over one roles collection, what the pipeline emits is an initial segment of the intended authorities, and all of them when it completes |
| KeycloakConverterPipeline.ClientsAsWrittenPrefix | src/main/java/com/athenhub/gatewayserver/security/KeycloakClientRoleConverter.java:113-135 | the same for the resource_access clients |
| KeycloakConverterPipeline.ConvertAsWritten | src/main/java/com/athenhub/gatewayserver/security/KeycloakClientRoleConverter.java:85-138 | convert as its Flux runs; a token with neither realm_access nor resource_access never fails |
| KeycloakConverterPipeline.AsWrittenEmitsPrefix | src/main/java/com/athenhub/gatewayserver/security/KeycloakClientRoleConverter.java:85-138 | what convert emits is an initial segment of Convert, and equal to it whenever the Flux completes |
| KeycloakConverterPipeline.AsWrittenFailsOnNull | src/main/java/com/athenhub/gatewayserver/security/KeycloakClientRoleConverter.java:93-129 | convert fails exactly when the collection it reads holds a null: a realm role, a client value or a client role |
| KeycloakConverterPipeline.NullRealmRoleDiverges | src/main/java/com/athenhub/gatewayserver/security/KeycloakClientRoleConverter.java:93-95 | realm_access.roles ["admin", null] emits ROLE_admin and then fails, where the intended converter grants ROLE_admin |
| KeycloakConverterPipeline.RoleThenNull | src/main/java/com/athenhub/gatewayserver/security/KeycloakClientRoleConverter.java:93-101 | any non-null realm role followed by a null: its authority, then the failure, against that authority alone |
| KeycloakConverterPipeline.NullClientDiverges | src/main/java/com/athenhub/gatewayserver/security/KeycloakClientRoleConverter.java:113-115 | a resource_access client whose value is null fails the Flux, where the intended converter grants nothing |
| KeycloakClientRoleConverterTest.RealmAccessRoles | src/test/java/com/athenhub/gatewayserver/config/KeycloakClientRoleConverterTest.java:33-48 | ["master_admin", "HUB_MANAGER"] under realm_access become ROLE_master_admin and ROLE_HUB_MANAGER |
| KeycloakClientRoleConverterTest.ResourceAccessRoles | src/test/java/com/athenhub/gatewayserver/config/KeycloakClientRoleConverterTest.java:50-70 | the two clients' roles become ROLE_VENDOR_AGENT, ROLE_SHIPPING_AGENT, ROLE_MASTER_MANAGER |
| KeycloakClientRoleConverterTest.ResourceAccessOrderIrrelevant | src/test/java/com/athenhub/gatewayserver/config/KeycloakClientRoleConverterTest.java:66-69 | with the clients in the other order the same three authorities are granted, as "in any order" expects |
| KeycloakClientRoleConverterTest.RealmAccessHasPriority | src/test/java/com/athenhub/gatewayserver/config/KeycloakClientRoleConverterTest.java:72-91 | with both claims only ROLE_realm_role is granted, never ROLE_client_role |
| KeycloakClientRoleConverterTest.AlreadyPrefixedRole | src/test/java/com/athenhub/gatewayserver/config/KeycloakClientRoleConverterTest.java:93-111 | ROLE_MASTER_MANAGER is kept and SHIPPING_AGENT becomes ROLE_SHIPPING_AGENT |
| KeycloakClientRoleConverterTest.NoRoles | src/test/java/com/athenhub/gatewayserver/config/KeycloakClientRoleConverterTest.java:113-125 | an empty realm_access.roles grants nothing |
| LoginFilter.ExtractedRoles | src/main/java/com/athenhub/gatewayserver/security/LoginFilter.java:65-97 | no role claim gives an empty list; a ClassCastException only ever comes from realm_access or resource_access, never from "roles"; a "roles" claim that is not a collection gives an empty list |
| LoginFilter.RenderAll | src/main/java/com/athenhub/gatewayserver/security/LoginFilter.java:72 | adding every element's toString fails with a NullPointerException exactly when an element is null; otherwise one string per element, in order |
| LoginFilter.AddAll | src/main/java/com/athenhub/gatewayserver/security/LoginFilter.java:79 | the loop appends the elements' toString to the list built so far, or fails at a null element |
| LoginFilter.CollectClientRoles | src/main/java/com/athenhub/gatewayserver/security/LoginFilter.java:83-94 | the loop over resource_access.values() yields the toString of every role element of every client map, in order, or fails at a null element |
| LoginFilter.ExtractRoles | src/main/java/com/athenhub/gatewayserver/security/LoginFilter.java:65-97 | the ArrayList built step by step equals ExtractedRoles, including its NullPointerException and ClassCastException outcomes |
| LoginFilter.RolesClaimShortCircuits | src/main/java/com/athenhub/gatewayserver/security/LoginFilter.java:69-73 | a present "roles" claim decides the result alone |
| LoginFilter.NonCollectionRolesClaimYieldsNothing | src/main/java/com/athenhub/gatewayserver/security/LoginFilter.java:69-73 | a "roles" claim that is not a collection yields no roles |
| LoginFilter.RolesClaimVerbatim | src/main/java/com/athenhub/gatewayserver/security/LoginFilter.java:71-72 | a null-free "roles" collection yields its elements' toString, unnormalised and in order |
| LoginFilter.RealmAccessIgnoresResourceAccess | src/main/java/com/athenhub/gatewayserver/security/LoginFilter.java:75-80 | without "roles", a present realm_access decides the result and resource_access is not read |
| LoginFilter.ResourceAccessMembership | src/main/java/com/athenhub/gatewayserver/security/LoginFilter.java:82-94 | under resource_access, a string is extracted exactly when some client map lists an element whose toString it is |
| LoginFilter.NoRoleClaimsNoRoles | src/main/java/com/athenhub/gatewayserver/security/LoginFilter.java:65-96 | with none of the three claims the list is empty |
| LoginFilter.PrefixedRoles | src/main/java/com/athenhub/gatewayserver/security/LoginFilter.java:146-147 | a role is kept exactly when it is one of the roles and starts with ROLE_, so every kept role carries the prefix (their order: PrefixedRolesAppend) |
| LoginFilter.PrefixedRolesAppend | src/main/java/com/athenhub/gatewayserver/security/LoginFilter.java:146-147 | the filter works role by role: filtering a concatenation concatenates the filtered parts, so kept roles stay in order |
| LoginFilter.PrefixedRolesSingle | src/main/java/com/athenhub/gatewayserver/security/LoginFilter.java:147 | one role is kept exactly when it starts with ROLE_ |
| LoginFilter.RolesHeader | src/main/java/com/athenhub/gatewayserver/security/LoginFilter.java:144-148 | X-User-Roles starts with ROLE_ exactly when some role does |
| LoginFilter.RolesHeaderEmptyIff | src/main/java/com/athenhub/gatewayserver/security/LoginFilter.java:144-148 | X-User-Roles is empty exactly when no role starts with ROLE_ |
| LoginFilter.ResolveSlackId | src/main/java/com/athenhub/gatewayserver/security/LoginFilter.java:124-128 | slack_id when it has text, else slackId when it has text, else none; a resolved id always has text |
| LoginFilter.SetHeader | src/main/java/com/athenhub/gatewayserver/security/LoginFilter.java:140-150 | the header holds exactly the new value, whatever letter case it arrived in, and every other header is unchanged |
| LoginFilter.IdentityRequest | src/main/java/com/athenhub/gatewayserver/security/LoginFilter.java:136-151 | the mutated request keeps its path, and every header other than the five identity headers is unchanged |
| LoginFilter.IdentityHeaders | src/main/java/com/athenhub/gatewayserver/security/LoginFilter.java:136-151 | after the five settings each identity header holds exactly its own value and the path is kept |
| LoginFilter.ForwardedHeaders | src/main/java/com/athenhub/gatewayserver/security/LoginFilter.java:111-153 | a forwarded request carries subject, preferred_username, the ROLE_ roles joined by ",", the encoded name and the Slack id |
| LoginFilter.Authenticated | src/main/java/com/athenhub/gatewayserver/security/LoginFilter.java:111-153 | a crash exactly when the roles cannot be read, with that fault; a rejection is always UNAUTHORIZED with the fixed message; a forwarded request keeps its path |
| LoginFilter.Filter | src/main/java/com/athenhub/gatewayserver/security/LoginFilter.java:100-157 | without a JWT principal the request is forwarded unchanged; rejections and crashes come only from JWT principals, and a rejection is UNAUTHORIZED; a forwarded request keeps its path |
| LoginFilter.UnauthenticatedPassesThrough | src/main/java/com/athenhub/gatewayserver/security/LoginFilter.java:107-110 | without a JWT principal the request is forwarded unchanged |
| LoginFilter.MissingSlackIdRejects | src/main/java/com/athenhub/gatewayserver/security/LoginFilter.java:129-133 | once the roles are read, the request is rejected exactly when neither Slack claim has text, with UNAUTHORIZED and the fixed message |
| LoginFilter.FilterAsWritten | src/main/java/com/athenhub/gatewayserver/security/LoginFilter.java:103-110 | differs from the corrected filter exactly for a context whose authentication is null, and there it crashes |
| LoginFilter.NullAuthenticationCrashes | src/main/java/com/athenhub/gatewayserver/security/LoginFilter.java:103-110 | as written, a context with a null authentication raises a NullPointerException; the corrected filter forwards it |
| LoginFilter.ChainRunsAsWritten | src/main/java/com/athenhub/gatewayserver/security/LoginFilter.java:153-156 | with a deferred chain: at most two runs, the last one always on the original request; two runs exactly when a security context is present and the request is forwarded, the first on the forwarded request; none when the filter fails |
| LoginFilter.ChainRuns | src/main/java/com/athenhub/gatewayserver/security/LoginFilter.java:153 | handed the outcome once, the chain runs at most once, exactly when the request is forwarded, and on the forwarded request |
| LoginFilter.AuthenticatedRequestRunsChainTwice | src/main/java/com/athenhub/gatewayserver/security/LoginFilter.java:153-156 | as written, a forwarded request reaches the chain twice, the second time without the identity headers |
| LoginFilter.ChainRunsOnceWithIdentity | src/main/java/com/athenhub/gatewayserver/config/LoginFilter.java:136-139 | handed over once, the chain runs at most once, and an authenticated run always carries exactly one non-blank Slack id |
| LoginFilterTest.AddUserHeadersWhenSlackIdPresent | src/test/java/com/athenhub/gatewayserver/config/LoginFilterTest.java:66-105 | the test token is forwarded with X-User-Id user-1234, X-Username johndoe, X-User-Roles "ROLE_MASTER_MANAGER,ROLE_HUB_MANAGER", X-Slack-Id U123456 and the encoded name, on /v1/hubs |
| LoginFilterTest.ThrowExceptionWhenSlackIdMissing | src/test/java/com/athenhub/gatewayserver/config/LoginFilterTest.java:107-134 | without a Slack id the filter fails with UNAUTHORIZED and the fixed message |
| LoginFilterTest.MissingSlackIdAnswered | src/main/java/com/athenhub/gatewayserver/config/LoginFilter.java:118-123 | that failure reaches the client as status 401 with code GATEWAY-401 and the filter's message as the detail |
| GlobalErrorCodes.HttpStatus | src/main/java/com/athenhub/gatewayserver/error/GlobalErrorCode.java:6-9 | status 500 exactly for INTERNAL_SERVER_ERROR, 401 exactly for UNAUTHORIZED and INVALID_TOKEN |
| GlobalErrorCodes.Code | src/main/java/com/athenhub/gatewayserver/error/GlobalErrorCode.java:6-9 | each code starts with "GATEWAY-" followed by its status |
| GlobalErrorCodes.Message | src/main/java/com/athenhub/gatewayserver/error/GlobalErrorCode.java:6-9 | every constant's message is a non-empty sentence ending in "." |
| GlobalErrorCodes.MessagesDistinct | src/main/java/com/athenhub/gatewayserver/error/GlobalErrorCode.java:6-9 | distinct constants carry distinct messages |
| GlobalErrorCodes.FromCode | src/main/java/com/athenhub/gatewayserver/error/GlobalErrorCode.java:6-9 | a wire code names the constant whose code it is, and no constant when none has it |
| GlobalErrorCodes.CodeDeterminesConstant | src/main/java/com/athenhub/gatewayserver/error/GlobalErrorCode.java:25-27 | the four codes are distinct, so a code identifies its constant |
| GatewayExceptions.GetMessage | src/main/java/com/athenhub/gatewayserver/error/GatewayAuthenticationException.java:18-21 | an authentication exception reports the message it was built with |
| ErrorResponses.From | src/main/java/com/athenhub/gatewayserver/error/ErrorResponse.java:4-6 | the code names the given constant, the message is its message, there is no detail |
| ErrorResponses.FromDetail | src/main/java/com/athenhub/gatewayserver/error/ErrorResponse.java:8-10 | as From, with the detail carried verbatim, null included |
| ErrorResponses.FactoriesAgree | src/main/java/com/athenhub/gatewayserver/error/ErrorResponse.java:4-10 | the two factories differ only in the detail |
| GatewayGlobalExceptionHandler.Classify | src/main/java/com/athenhub/gatewayserver/error/GatewayGlobalExceptionHandler.java:46-57 | an authentication exception keeps its code and message; anything else is INTERNAL_SERVER_ERROR with its message, or "Unexpected server error" when that is null or blank |
| GatewayGlobalExceptionHandler.ErrorBody | src/main/java/com/athenhub/gatewayserver/error/GatewayGlobalExceptionHandler.java:43-64 | an authentication exception gives its code's code and message with its own message as the detail; any other failure gives GATEWAY-500, the internal-error message and a non-blank detail |
| GatewayGlobalExceptionHandler.ToJsonBytes | src/main/java/com/athenhub/gatewayserver/error/GatewayGlobalExceptionHandler.java:77-87 | the serialiser's bytes, or on failure bytes reading back as the fallback JSON |
| GatewayGlobalExceptionHandler.AsciiRoundTrip | src/main/java/com/athenhub/gatewayserver/error/GatewayGlobalExceptionHandler.java:85 | UTF-8 bytes of ASCII text read back as the same text |
| GatewayGlobalExceptionHandler.FallbackIsAscii | src/main/java/com/athenhub/gatewayserver/error/GatewayGlobalExceptionHandler.java:81-85 | the fallback JSON is ASCII, so its UTF-8 bytes read back as the same text |
| GatewayGlobalExceptionHandler.FallbackNamesInternalError | src/main/java/com/athenhub/gatewayserver/error/GatewayGlobalExceptionHandler.java:83 | the fallback's "code" member is INTERNAL_SERVER_ERROR's code |
| GatewayGlobalExceptionHandler.Handle | src/main/java/com/athenhub/gatewayserver/error/GatewayGlobalExceptionHandler.java:37-69 | a committed response is left untouched and the failure propagated; otherwise the code's status, the JSON content type and one serialised body are written and the response is committed |
| GatewayGlobalExceptionHandler.HandleTwice | src/main/java/com/athenhub/gatewayserver/error/GatewayGlobalExceptionHandler.java:39-68 | on a fresh response the first failure is written once with its status, and a second finds it committed and is propagated unchanged |
| GatewayGlobalExceptionHandler.StatusMatchesBodyCode | src/main/java/com/athenhub/gatewayserver/error/GatewayGlobalExceptionHandler.java:60-64 | the body's code names the constant whose status is sent, and its message is that constant's |
| GatewayGlobalExceptionHandler.ExceptionTextOnlyInDetail | src/main/java/com/athenhub/gatewayserver/error/GatewayGlobalExceptionHandler.java:63-64 | failures with the same code give the same code and message; the exception's text is only ever the detail |
| GatewayGlobalExceptionHandler.OtherFailuresAreInternalErrors | src/main/java/com/athenhub/gatewayserver/error/GatewayGlobalExceptionHandler.java:50-57 | any other exception is answered 500 GATEWAY-500 with a non-blank detail |
| GatewayGlobalExceptionHandler.AuthenticationFailureKeepsItsCode | src/main/java/com/athenhub/gatewayserver/error/GatewayGlobalExceptionHandler.java:47-49 | an authentication exception is answered with its code's status, code and message, and its own message as the detail |

## Left out

- Reactive plumbing. `Mono`, `Flux` and the security-context lookup are replaced by values:
  the filter's outcome, the converter's list of authorities, and the handler's outcome.
  Subscription timing, cancellation and back-pressure are not modelled.
- `URLEncoder.encode` is the parameter `urlEncode`. The test's "X-User-Name is not blank" therefore
  depends on that encoder and is stated only as the encoded value.
- `ObjectMapper.writeValueAsBytes` is the parameter `serialize`. The JSON layout Jackson produces is
  not modelled.
- Handle: the response is committed when the body is written, not when the written `Mono` is
  subscribed.
- ResourceRolesMembership, RealmRolesInOrder, ClientOrderIrrelevant and RealmRolesTakePriority
  state the intended converter `Convert`. As written, the converter fails on a null client value or
  client role instead of skipping it, so for such a token these are not promises about what it
  emits. `KeycloakConverterPipeline.AsWrittenEmitsPrefix` and `AsWrittenFailsOnNull` state what it
  does emit.
- KeycloakConverterPipeline: the emitted authorities assume a subscriber with unbounded demand,
  as Spring Security's authentication manager is. With bounded demand, `flatMap` may drop queued
  authorities when the error arrives.
- A `GatewayAuthenticationException` built with a null error code is not modelled. The handler
  would fail on it with a NullPointerException.
- `getOrder` (the filter's precedence) and `@Order(-2)` (the handler's precedence) are not
  modelled: ordering among filters and handlers is outside the model.
- SecurityConfig, SwaggerConfig and BeanConfig are not part of this model. They only wire the
  components.
- Header-name case folding covers ASCII letters only, which is all the five header names use.
- Claims.Render: numbers and booleans carry their `toString()` text as given. The `toString()` of
  nested lists and maps follows `AbstractCollection` and `AbstractMap`; other map or list classes
  may print differently.
- `Jwt.getClaimAsString` is modelled as the value's `toString()`. The conversion service's other
  converters are not modelled.

## Findings

| source | as written | input that shows it | evidently intended | confidence | as-written member | corrected member |
|---|---|---|---|---|---|---|
| src/main/java/com/athenhub/gatewayserver/security/LoginFilter.java:104 | `map` turns a security context without authentication into a null, which Reactor rejects with a NullPointerException | a security context whose authentication is null | the comment at line 108: a request without authentication goes on unchanged | not executed; follows from Reactor's rule that a `map` function may not return null | LoginFilter.FilterAsWritten, LoginFilter.NullAuthenticationCrashes | LoginFilter.Filter, LoginFilter.UnauthenticatedPassesThrough |
| src/main/java/com/athenhub/gatewayserver/security/KeycloakClientRoleConverter.java:93-129 | `Flux.fromIterable` rejects a null element with a NullPointerException, so the `filter(Objects::nonNull)` after it never sees one and the Flux fails | `realm_access.roles` = ["admin", null]; or a `resource_access` client whose value is null | the comments at lines 94 and 128: null roles are removed and the rest granted | not executed; follows from Reactor's rule that `fromIterable` may not yield null | KeycloakConverterPipeline.ConvertAsWritten, KeycloakConverterPipeline.NullRealmRoleDiverges, KeycloakConverterPipeline.NullClientDiverges | KeycloakClientRoleConverter.Convert, KeycloakClientRoleConverter.ResourceRolesMembership |
| src/main/java/com/athenhub/gatewayserver/security/LoginFilter.java:153-156 | `chain.filter` completes empty, so `switchIfEmpty` runs the chain a second time on the original, unmodified exchange | any request with a security context, passed to Spring Cloud Gateway's filter chain, which defers its work until subscription | the comment at line 155: the fallback only when there is no security context | not executed; follows from `Mono<Void>` never emitting a value | LoginFilter.ChainRunsAsWritten, LoginFilter.AuthenticatedRequestRunsChainTwice | LoginFilter.ChainRuns, LoginFilter.ChainRunsOnceWithIdentity |
