# Disaster gateway platform: security, access logging and route timing in Dafny

This project models three pieces of the disaster gateway platform and proves properties of them.

- **The JWT authorities converter** in the gateway's `SecurityConfig` (`claims.dfy`, module
  `ClaimMapping`). It turns the claims of a verified Keycloak token into the list of authority
  strings that Spring Security checks. The list starts with `SCOPE_<token>` for each scope token.
  Then come `ROLE_<role>` for each non-null role in `realm_access.roles`. Last come the same for each
  role in `resource_access.<client-id>.roles`. Each role group passes through `Collectors.toSet()`
  before it is appended. So a group holds no duplicate, and its order is a set's iteration order,
  which nothing specifies. The model picks that order with `:|`, so every proof covers every order.
  Nothing is deduplicated across groups.
- **The request authorization rules** in the same class (`policy.dfy`, module `PathPolicy`).
  Five rules are checked in order, and the first whose pattern matches decides. `/actuator/health`,
  `/api/public/**` and `/api/api-doc` are open to everyone. `/api/admin/**` needs
  `ROLE_<adminRole>`. Any other path needs a valid token. A failed check is a 401 without a
  token and a 403 with one.
- **The access logger** of the API module (`access_logger.dfy`, module `AccessLog`). It picks the
  client IP from `X-Real-IP`, then the first entry of `X-Forwarded-For`, then the attached servlet
  request, then `CamelHttpRemoteAddress`. It reads the method, URI and headers, preferring the
  servlet request, and renders the `[ACCESS] …` line.
- **The route timing interceptors** every gateway route inherits from `AbstractRouteBuilder`
  (`route_timing.dfy`, module `RouteTiming`). The exchange is a class whose property bag is stamped
  with `startTime` once. Completion reports the elapsed milliseconds, or -1 when nothing was stamped.

Two shared modules support them. `wrappers.dfy` holds `Option` and `Result`. `text.dfy` holds the
Java string operations the code uses: `trim()`, the first field of `split(",")` and `Long.toString`.

Three behaviours of the code deserve a word, because a reader might expect otherwise:

- The converter's result is a list, not a set. The code appends three lists and deduplicates only
  within a role group. A role granted both at realm level and for the client therefore appears
  twice (`ClaimMapping.RealmAndClientRoleListedTwice`).
- A malformed nested role claim is skipped. The `instanceof` guards at SecurityConfig.java:97 and
  :109-111 show this: a client entry that is not a map, or a `roles` value that is not a
  collection, adds nothing. The two top-level claims are different. The code casts `realm_access`
  and `resource_access` to `Map` as it reads them, and the cast throws for any other non-null value.
  `ClaimMapping.GroupsAsWritten` models the code as written, throw included. `ClaimMapping.Convert`
  and the members it calls model the corrected converter, which skips a malformed top-level claim
  the way the guards skip nested ones (see Findings).
- `split(",")` on an `X-Forwarded-For` value made only of commas returns an empty array, and
  indexing `[0]` throws. The model returns `Err(ArrayIndexOutOfBounds)` for that case.

## Model

| member | source | states |
|---|---|---|
| Text.Trim | api/src/main/java/com/disaster/api/logging/AccessLogger.java:42 | `trim()` removes exactly the maximal runs of characters at or below U+0020 at both ends; the result neither starts nor ends with one |
| Text.TrimIdempotent | api/src/main/java/com/disaster/api/logging/AccessLogger.java:42 | trimming twice is trimming once |
| Text.FirstSplitField | api/src/main/java/com/disaster/api/logging/AccessLogger.java:42 | `split(sep)[0]`, for a separator that is not a regex metacharacter such as `,`, fails exactly when the string is non-empty and made only of separators; otherwise it is the prefix before the first separator |
| Text.LongTextRoundTrip | app/src/main/java/com/disaster/gateway/routes/AbstractRouteBuilder.java:54 | the decimal rendering of a `long` in a log line parses back to the same number |
| ClaimMapping.Claim | app/src/main/java/com/disaster/gateway/config/SecurityConfig.java:96 | `getClaim` yields the claim's value, or null when the token lacks it |
| ClaimMapping.FieldIgnoresOtherNames | app/src/main/java/com/disaster/gateway/config/SecurityConfig.java:108 | a member with another name, inserted anywhere in an object, never changes the lookup |
| ClaimMapping.LaterDuplicateWins | app/src/main/java/com/disaster/gateway/config/SecurityConfig.java:108 | when a name repeats in a decoded object, `get` returns the value of the last member with that name |
| ClaimMapping.ToTextRendering | app/src/main/java/com/disaster/gateway/config/SecurityConfig.java:100 | `toString()` of a role: a string is itself, a number its decimal digits (which parse back to it), a boolean `true`/`false`, null `null`, a list inside `[]` and an object inside `{}` |
| ClaimMapping.StringRolesGrantDistinctAuthorities | app/src/main/java/com/disaster/gateway/config/SecurityConfig.java:100-101 | two string roles grant the same authority only when they are the same string |
| ClaimMapping.RoleAuthorities | app/src/main/java/com/disaster/gateway/config/SecurityConfig.java:98-102 | the role set holds exactly `ROLE_` + the text of each non-null role in the list |
| ClaimMapping.NullRoleIgnored | app/src/main/java/com/disaster/gateway/config/SecurityConfig.java:99 | a null entry in a role list contributes nothing |
| ClaimMapping.ScopeAuthorities | app/src/main/java/com/disaster/gateway/config/SecurityConfig.java:87-89 | one `SCOPE_` authority per scope token, in token order |
| ClaimMapping.AppendAll | app/src/main/java/com/disaster/gateway/config/SecurityConfig.java:98-102 | `addAll` of a set keeps the list as its prefix and appends every member of the set exactly once, in some order |
| ClaimMapping.AddRealmRoles | app/src/main/java/com/disaster/gateway/config/SecurityConfig.java:95-103 | the list is extended by exactly the realm role set, in the corrected converter: a non-object `realm_access` adds nothing here, where the code as written throws |
| ClaimMapping.AddClientRoles | app/src/main/java/com/disaster/gateway/config/SecurityConfig.java:105-119 | the list is extended by exactly the role set of the configured client, in the corrected converter: a non-object `resource_access` adds nothing here, where the code as written throws |
| ClaimMapping.RealizesSteps | app/src/main/java/com/disaster/gateway/config/SecurityConfig.java:93-121 | appending the realm group and then the client group to the scope list yields the three groups laid out in order |
| ClaimMapping.Convert | app/src/main/java/com/disaster/gateway/config/SecurityConfig.java:92-122 | the corrected converter: the result is the scope authorities, then an enumeration of the realm roles, then an enumeration of the client roles, each enumeration without repeats; the code as written throws instead for a non-object top-level role claim |
| ClaimMapping.RealizesMembership | app/src/main/java/com/disaster/gateway/config/SecurityConfig.java:121 | an authority is in the result exactly when it is in one of the three groups |
| ClaimMapping.RealmRoleGranted | app/src/main/java/com/disaster/gateway/config/SecurityConfig.java:95-103 | every non-null role listed in `realm_access.roles` yields `ROLE_<role>` in the result |
| ClaimMapping.ClientRoleGranted | app/src/main/java/com/disaster/gateway/config/SecurityConfig.java:105-119 | every non-null role listed in `resource_access.<client>.roles` yields `ROLE_<role>` in the result |
| ClaimMapping.MalformedRealmAccessContributesNothing | app/src/main/java/com/disaster/gateway/config/SecurityConfig.java:97 | in the corrected converter, a realm claim that is not an object, or whose `roles` is not a list, adds no role; as written, a non-object claim throws at :96 and only a non-list `roles` is skipped |
| ClaimMapping.MalformedClientEntryContributesNothing | app/src/main/java/com/disaster/gateway/config/SecurityConfig.java:109-111 | a client entry that is not an object, or whose `roles` is not a list, adds no role |
| ClaimMapping.OtherClientIgnored | app/src/main/java/com/disaster/gateway/config/SecurityConfig.java:108 | an entry for another client, wherever it stands in `resource_access`, never changes the roles added |
| ClaimMapping.ScopeAndRoleAuthoritiesDisjoint | app/src/main/java/com/disaster/gateway/config/SecurityConfig.java:87-101 | a scope authority can never be mistaken for a role authority |
| ClaimMapping.DistinctOccursOnce | app/src/main/java/com/disaster/gateway/config/SecurityConfig.java:102 | an element of a list without repeats occurs in it once |
| ClaimMapping.InBothRoleGroupsOccursTwice | app/src/main/java/com/disaster/gateway/config/SecurityConfig.java:98-116 | an authority in both role groups and not a scope occurs exactly twice in the laid-out result |
| ClaimMapping.RealmAndClientRoleListedTwice | app/src/main/java/com/disaster/gateway/config/SecurityConfig.java:98-116 | a role granted both at realm level and for the client is listed exactly twice: there is no deduplication across groups |
| ClaimMapping.ClaimAsMap | app/src/main/java/com/disaster/gateway/config/SecurityConfig.java:96-106 | the cast to `Map` throws exactly when the claim is present, non-null and not an object |
| ClaimMapping.GroupsAsWritten | app/src/main/java/com/disaster/gateway/config/SecurityConfig.java:92-122 | the lambda as written: it throws `ClassCastException` naming `realm_access` when that claim is malformed, since it is cast first, and otherwise naming `resource_access` |
| ClaimMapping.AsWrittenAgreesWhenCastSucceeds | app/src/main/java/com/disaster/gateway/config/SecurityConfig.java:96-119 | when both claims are null or objects, the code as written and the corrected converter compute the same groups |
| ClaimMapping.StringRealmAccessThrows | app/src/main/java/com/disaster/gateway/config/SecurityConfig.java:96 | a string-valued `realm_access` makes the code as written throw, where the corrected converter adds no realm role |
| PathPolicy.GatewayRules | app/src/main/java/com/disaster/gateway/config/SecurityConfig.java:60-63 | the table has five rules and ends with the authenticated catch-all |
| PathPolicy.FirstMatch | app/src/main/java/com/disaster/gateway/config/SecurityConfig.java:60-63 | the rule chosen matches the path and no earlier rule does; none is chosen only when no rule matches |
| PathPolicy.FirstMatchIsFirst | app/src/main/java/com/disaster/gateway/config/SecurityConfig.java:60-63 | a matching rule with no matching rule before it is the one chosen |
| PathPolicy.Evaluate | app/src/main/java/com/disaster/gateway/config/SecurityConfig.java:61-63 | `permitAll` always permits; a refusal is 401 only without a token and 403 only with one |
| PathPolicy.Decide | app/src/main/java/com/disaster/gateway/config/SecurityConfig.java:60-63 | the decision for a request is 401 only without a token and 403 only with one |
| PathPolicy.PublicPathPermitted | app/src/main/java/com/disaster/gateway/config/SecurityConfig.java:61 | health, public and API-doc paths are permitted with or without a token |
| PathPolicy.AdminPathNotPublic | app/src/main/java/com/disaster/gateway/config/SecurityConfig.java:61-62 | no admin path is also a public path, so the admin rule is never shadowed |
| PathPolicy.AdminPathNeedsAdminRole | app/src/main/java/com/disaster/gateway/config/SecurityConfig.java:43-62 | an admin path is permitted exactly when `ROLE_<adminRole>` is held; otherwise 403 with a token and 401 without |
| PathPolicy.OtherPathNeedsAuthentication | app/src/main/java/com/disaster/gateway/config/SecurityConfig.java:63 | every other path is permitted exactly when a token is present, and is 401 otherwise |
| PathPolicy.AnonymousAdminRequestUnauthorized | app/src/main/java/com/disaster/gateway/config/SecurityConfig.java:43-62 | with the default `ADMIN` role, an anonymous request to `/api/admin/hello` is 401 |
| PathPolicy.RealmAdminRoleOpensAdminPaths | app/src/main/java/com/disaster/gateway/config/SecurityConfig.java:62-103 | a token whose realm roles include the admin role is admitted to every admin path |
| AccessLog.Header | api/src/main/java/com/disaster/api/logging/AccessLogger.java:110 | a header reads as its value, or as null when it is missing |
| AccessLog.ExtractIp | api/src/main/java/com/disaster/api/logging/AccessLogger.java:32-56 | IP extraction throws exactly when `X-Real-IP` is missing or empty and `X-Forwarded-For` is present and non-empty but made only of commas |
| AccessLog.RealIpTakesPrecedence | api/src/main/java/com/disaster/api/logging/AccessLogger.java:33-37 | a non-empty `X-Real-IP` is the IP, whatever else the exchange carries |
| AccessLog.ForwardedForFirstEntry | api/src/main/java/com/disaster/api/logging/AccessLogger.java:39-43 | otherwise a non-empty `X-Forwarded-For` gives its first comma-separated entry, trimmed |
| AccessLog.ServletRemoteAddressNext | api/src/main/java/com/disaster/api/logging/AccessLogger.java:45-52 | otherwise the remote address of the platform servlet request, or else of the Camel servlet request |
| AccessLog.RemoteAddressHeaderLast | api/src/main/java/com/disaster/api/logging/AccessLogger.java:54-55 | otherwise `CamelHttpRemoteAddress`, or `unknown` |
| AccessLog.EmptyProxyHeaderIsMissing | api/src/main/java/com/disaster/api/logging/AccessLogger.java:33-43 | an empty proxy header is treated exactly as an absent one |
| AccessLog.ForwardedForExample | api/src/main/java/com/disaster/api/logging/AccessLogger.java:42 | `X-Forwarded-For: 2.2.2.2, 3.3.3.3` yields `2.2.2.2` |
| AccessLog.CommasOnlyForwardedForThrows | api/src/main/java/com/disaster/api/logging/AccessLogger.java:42 | `X-Forwarded-For: ,,` makes IP extraction throw |
| AccessLog.GetHeader | api/src/main/java/com/disaster/api/logging/AccessLogger.java:104-112 | with a platform servlet request attached, only its headers are consulted; otherwise the exchange's; a missing header is `unknown` |
| AccessLog.ExtractMethod | api/src/main/java/com/disaster/api/logging/AccessLogger.java:68-74 | the servlet request's method, or else the `CamelHttpMethod` header, possibly null |
| AccessLog.ExtractUri | api/src/main/java/com/disaster/api/logging/AccessLogger.java:79-85 | the servlet request's URI, or else the `CamelHttpUri` header, possibly null |
| AccessLog.BuildLogMessage | api/src/main/java/com/disaster/api/logging/AccessLogger.java:121-131 | building the line fails exactly when IP extraction does |
| AccessLog.UpToPastFreePrefix | api/src/main/java/com/disaster/api/logging/AccessLogger.java:129-130 | cutting at a character skips over a prefix that does not contain it |
| AccessLog.SeparateInterleave | api/src/main/java/com/disaster/api/logging/AccessLogger.java:129-130 | fields joined by separators, none of which holds its separator's marker, are split back into the same fields |
| AccessLog.AccessLineRoundTrip | api/src/main/java/com/disaster/api/logging/AccessLogger.java:129-130 | the access line reads back into tag, method, URI, IP, agent, referer and language when the fields hold no delimiter that precedes them |
| AccessLog.BuildLogMessageReadsBack | api/src/main/java/com/disaster/api/logging/AccessLogger.java:121-131 | the line built from an exchange reads back into the values extracted from it |
| RouteTiming.WrapLong | app/src/main/java/com/disaster/gateway/routes/AbstractRouteBuilder.java:53 | `long` subtraction wraps into the 64-bit range, differs from the true difference by a multiple of 2^64 (two's complement), and is exact when the true difference fits |
| RouteTiming.RouteExchange.Stamp | app/src/main/java/com/disaster/gateway/routes/AbstractRouteBuilder.java:34-39 | the exchange's property bag becomes the stamped bag and stays well typed |
| RouteTiming.RouteExchange.Enter | app/src/main/java/com/disaster/gateway/routes/AbstractRouteBuilder.java:42-46 | the entry line names the route the exchange came from, `null` when it has none |
| RouteTiming.StartRouteReadsBack | app/src/main/java/com/disaster/gateway/routes/AbstractRouteBuilder.java:44-45 | the route id, or `null`, can be read back from between `Route '` and `' invoked` in the entry line |
| RouteTiming.StartMessageNamesRoute | app/src/main/java/com/disaster/gateway/routes/AbstractRouteBuilder.java:44-45 | two entry lines are equal only when they name the same route |
| RouteTiming.RouteExchange.Complete | app/src/main/java/com/disaster/gateway/routes/AbstractRouteBuilder.java:49-55 | the reported duration is the time since the recorded start, or -1, and the completion line carries it |
| RouteTiming.StampWriteOnce | app/src/main/java/com/disaster/gateway/routes/AbstractRouteBuilder.java:36 | stamping again never moves the start time |
| RouteTiming.StampRecordsStart | app/src/main/java/com/disaster/gateway/routes/AbstractRouteBuilder.java:36-37 | after stamping, the start is the earlier one if there was one, else the stamping time |
| RouteTiming.StampTouchesOnlyStartTime | app/src/main/java/com/disaster/gateway/routes/AbstractRouteBuilder.java:37 | stamping leaves every other property as it was |
| RouteTiming.MissingStartGivesMinusOne | app/src/main/java/com/disaster/gateway/routes/AbstractRouteBuilder.java:53 | with no recorded start the duration is -1 |
| RouteTiming.DurationSinceStamp | app/src/main/java/com/disaster/gateway/routes/AbstractRouteBuilder.java:34-53 | stamping at `start` and completing at `now >= start >= 0` reports `now - start`, which is not negative |
| RouteTiming.CompletionDurationReadsBack | app/src/main/java/com/disaster/gateway/routes/AbstractRouteBuilder.java:54 | the duration can be read back from the completion line |
| RouteTiming.RunRoute | app/src/main/java/com/disaster/gateway/routes/AbstractRouteBuilder.java:32-56 | over a whole run, the duration is measured from the first processor step, or is -1 when the route ran no step |

## Left out

- Spring Security plumbing is not modelled. That covers CSRF being disabled, the OAuth2 resource server setup and JWT signature and expiry checks. The model starts from verified claims and an `authenticated` flag.
- The internals of Spring's `JwtGrantedAuthoritiesConverter` are not modelled. The scope tokens it yields are an input.
- Path patterns are modelled only in the three shapes the rules use: an exact path, `x/**` and any request. General Ant/PathPattern matching and path normalisation are left out.
- An unauthenticated request's authorities (Spring's `ROLE_ANONYMOUS`) are passed in by the caller.
- Claim values have no floating-point numbers. `Object.toString` of a nested object lists its members in document order, repeated names included. The Java map may order them differently and prints a repeated name once. The lookup itself, `ClaimMapping.Field`, lets the last repeated member win, as the map does.
- Header lookup uses exact names. Camel's case-insensitive header map is not modelled.
- The logging sinks and level guards are left out, because they only decide whether the line is emitted. That covers `info`, `debug`, `error` at AccessLogger.java:136-158 and the debug calls inside `extractIp`.
- `System.currentTimeMillis()` is a parameter. Camel's decisions about when `intercept`, `interceptFrom` and `onCompletion` fire are given as a sequence of step times. Threads are not modelled, and neither are exceptions thrown by a route's own processors or how they propagate around `onCompletion`.
- RouteTiming.RouteExchange: a `startTime` property holding a non-`Long` value is excluded by `Valid`. Camel's type conversion of such a value is not modelled.
- Both `ApiRoutes` files are not part of this model. They only call the logger and define routes.
- AccessLog.ExtractUserAgent, AccessLog.ExtractReferer, AccessLog.ExtractAcceptLanguage have no contract of their own. Each is `GetHeader` with a fixed name, and `GetHeader` carries the contract.

## Findings

| source | as written | input that shows it | evidently intended | confidence | as-written member | corrected member |
|---|---|---|---|---|---|---|
| app/src/main/java/com/disaster/gateway/config/SecurityConfig.java:96-106 | `Map<String, Object> realmAccess = jwt.getClaim("realm_access")` assigns through a generic method, so the compiler inserts a cast to `Map`. A non-null claim that is not a JSON object throws `ClassCastException` before the `instanceof` checks run. The same holds for `resource_access`. | a token whose claims are `{"realm_access": "admin"}` | a claim of the wrong shape contributes no role, as the later `instanceof` guards do for nested values | high, not executed | ClaimMapping.StringRealmAccessThrows | ClaimMapping.Convert |
