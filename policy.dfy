/**
 * The gateway's request authorization rules (SecurityConfig.filterChain): a table of path
 * patterns, each with an access requirement, consulted in order; the first pattern that matches
 * the request path decides. A failed check becomes a 401 when the request carries no valid token
 * (Spring asks the client to authenticate) and a 403 when it does (access denied).
 */
module PathPolicy {
  import opened Wrappers
  import ClaimMapping

  // `Exact(x)` is the pattern "x", which matches that path only; `Subtree(x)` is "x/**", which
  // matches x itself and every path below it; `AnyRequest` is `anyRequest()`, which matches all.
  datatype Pattern = Exact(path: string) | Subtree(base: string) | AnyRequest

  datatype Access = PermitAll | HasRole(role: string) | Authenticated

  datatype Rule = Rule(pattern: Pattern, access: Access)

  /** The outcome the transport turns into a response: go on, 401 Unauthorized, or 403 Forbidden. */
  datatype Decision = Permit | Deny401 | Deny403

  predicate Matches(p: Pattern, path: string) {
    match p
    case Exact(s) => path == s
    case Subtree(base) => path == base || base + "/" <= path
    case AnyRequest => true
  }

  /** `hasRole(r)` refuses, when the rules are built, a role name that already carries the `ROLE_` prefix. */
  predicate IsRoleName(role: string) {
    !("ROLE_" <= role)
  }

  /** The rule table, in the order it is declared, for the configured admin role (`ADMIN` by default). */
  function GatewayRules(adminRole: string): (rules: seq<Rule>)
    ensures |rules| == 5 && rules[4] == Rule(AnyRequest, Authenticated)
  {
    [ Rule(Exact("/actuator/health"), PermitAll),
      Rule(Subtree("/api/public"), PermitAll),
      Rule(Exact("/api/api-doc"), PermitAll),
      Rule(Subtree("/api/admin"), HasRole(adminRole)),
      Rule(AnyRequest, Authenticated) ]
  }

  /** The position of the first rule whose pattern matches `path`, if any. */
  function FirstMatch(rules: seq<Rule>, path: string): (r: Option<nat>)
    ensures r.Some? ==> r.value < |rules| && Matches(rules[r.value].pattern, path)
    ensures r.Some? ==> forall j :: 0 <= j < r.value ==> !Matches(rules[j].pattern, path)
    ensures r.None? ==> forall j :: 0 <= j < |rules| ==> !Matches(rules[j].pattern, path)
  {
    if rules == [] then None
    else if Matches(rules[0].pattern, path) then Some(0)
    else
      match FirstMatch(rules[1..], path)
      case None => None
      case Some(k) => Some(k + 1)
  }

  /** A matching rule with no matching rule before it is the one `FirstMatch` finds. */
  lemma FirstMatchIsFirst(rules: seq<Rule>, path: string, i: nat)
    requires i < |rules| && Matches(rules[i].pattern, path)
    requires forall j :: 0 <= j < i ==> !Matches(rules[j].pattern, path)
    ensures FirstMatch(rules, path) == Some(i)
  {
  }

  /** One requirement checked against the principal; a failure is 401 without a valid token, 403 with one. */
  function Evaluate(access: Access, authenticated: bool, authorities: seq<string>): (d: Decision)
    ensures d == Deny401 ==> !authenticated
    ensures d == Deny403 ==> authenticated
    ensures access == PermitAll ==> d == Permit
  {
    match access
    case PermitAll => Permit
    case HasRole(role) =>
      if "ROLE_" + role in authorities then Permit
      else if authenticated then Deny403 else Deny401
    case Authenticated => if authenticated then Permit else Deny401
  }

  /**
   * The decision for a request to `path`. `authenticated` says whether the request carried a
   * valid token; `authorities` are the principal's authorities (for a request without a token,
   * those of Spring's anonymous principal).
   */
  function Decide(path: string, authenticated: bool, authorities: seq<string>, adminRole: string): (d: Decision)
    requires IsRoleName(adminRole)
    ensures d == Deny401 ==> !authenticated
    ensures d == Deny403 ==> authenticated
  {
    var rules := GatewayRules(adminRole);
    match FirstMatch(rules, path)
    case Some(i) => Evaluate(rules[i].access, authenticated, authorities)
    case None => assert false; Deny401
  }

  /** The paths the first three rules open to everyone. */
  predicate IsPublicPath(path: string) {
    path == "/actuator/health" || path == "/api/public" || "/api/public/" <= path || path == "/api/api-doc"
  }

  /** The paths the admin pattern matches: `/api/admin` itself and every path below it. */
  predicate IsAdminPath(path: string) {
    path == "/api/admin" || "/api/admin/" <= path
  }

  /** Public paths are permitted whatever the token and the authorities. */
  lemma PublicPathPermitted(path: string, authenticated: bool, authorities: seq<string>, adminRole: string)
    requires IsRoleName(adminRole)
    requires IsPublicPath(path)
    ensures Decide(path, authenticated, authorities, adminRole) == Permit
  {
    var rules := GatewayRules(adminRole);
    var m := if path == "/actuator/health" then 0 else if path == "/api/api-doc" then 2 else 1;
    assert Matches(rules[m].pattern, path);
    var i :| FirstMatch(rules, path) == Some(i);
    assert i <= m;
    assert rules[i].access == PermitAll;
  }

  /** No admin path is public, so the admin rule is the first to match an admin path. */
  lemma AdminPathNotPublic(path: string)
    requires IsAdminPath(path)
    ensures !IsPublicPath(path)
  {
    assert path[5] == 'a';
    assert "/api/public"[5] == 'p';
    assert "/api/api-doc"[5] == 'a' && "/api/api-doc"[6] == 'p';
    assert path[6] == 'd';
  }

  /** An admin path is permitted exactly when the principal holds `ROLE_<adminRole>`; otherwise 401 or 403. */
  lemma AdminPathNeedsAdminRole(path: string, authenticated: bool, authorities: seq<string>, adminRole: string)
    requires IsRoleName(adminRole)
    requires IsAdminPath(path)
    ensures Decide(path, authenticated, authorities, adminRole)
            == if "ROLE_" + adminRole in authorities then Permit
               else if authenticated then Deny403 else Deny401
  {
    AdminPathNotPublic(path);
    var rules := GatewayRules(adminRole);
    assert !Matches(rules[0].pattern, path);
    assert !Matches(rules[1].pattern, path);
    assert !Matches(rules[2].pattern, path);
    assert Matches(rules[3].pattern, path);
    FirstMatchIsFirst(rules, path, 3);
  }

  /** Every other path is permitted exactly when the request carries a valid token, and is 401 otherwise. */
  lemma OtherPathNeedsAuthentication(path: string, authenticated: bool, authorities: seq<string>, adminRole: string)
    requires IsRoleName(adminRole)
    requires !IsPublicPath(path) && !IsAdminPath(path)
    ensures Decide(path, authenticated, authorities, adminRole) == if authenticated then Permit else Deny401
  {
    var rules := GatewayRules(adminRole);
    assert forall j :: 0 <= j < 4 ==> !Matches(rules[j].pattern, path);
    FirstMatchIsFirst(rules, path, 4);
  }

  /** `GET /api/admin/hello` without a token is refused as unauthenticated (the anonymous principal holds `ROLE_ANONYMOUS`). */
  lemma AnonymousAdminRequestUnauthorized()
    ensures IsRoleName("ADMIN")
    ensures Decide("/api/admin/hello", false, ["ROLE_ANONYMOUS"], "ADMIN") == Deny401
  {
    assert "ADMIN"[0] != "ROLE_"[0];
    assert "/api/admin/" <= "/api/admin/hello";
    AdminPathNeedsAdminRole("/api/admin/hello", false, ["ROLE_ANONYMOUS"], "ADMIN");
  }

  /**
   * A token whose `realm_access.roles` lists the admin role opens the admin paths: the converter's
   * output, whatever order its sets were listed in, holds `ROLE_<adminRole>`.
   */
  lemma RealmAdminRoleOpensAdminPaths(claims: ClaimMapping.Claims, clientId: string, scopes: seq<string>,
                                      authorities: seq<string>, access: seq<ClaimMapping.Member>,
                                      roles: seq<ClaimMapping.ClaimValue>, adminRole: string, path: string)
    requires ClaimMapping.Realizes(authorities, ClaimMapping.Groups(claims, clientId, scopes))
    requires ClaimMapping.Claim(claims, "realm_access") == ClaimMapping.Obj(access)
    requires ClaimMapping.Field(access, "roles") == ClaimMapping.Arr(roles)
    requires ClaimMapping.Str(adminRole) in roles
    requires IsRoleName(adminRole) && IsAdminPath(path)
    ensures Decide(path, true, authorities, adminRole) == Permit
  {
    var i :| 0 <= i < |roles| && roles[i] == ClaimMapping.Str(adminRole);
    ClaimMapping.RealmRoleGranted(claims, clientId, scopes, authorities, access, roles, i);
    AdminPathNeedsAdminRole(path, true, authorities, adminRole);
  }
}
