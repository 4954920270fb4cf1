/**
 * The gateway's JWT authorities converter (SecurityConfig.keycloakJwtConverter): it turns the
 * claims of a verified Keycloak token into the list of authority strings Spring Security checks.
 *
 * The list starts with the scope authorities (`SCOPE_<token>`), then every non-null realm role
 * (`ROLE_<role>`), then every non-null role of the configured client. Each role group goes through
 * `Collectors.toSet()` before it is appended, so a group has no repeated entry and its order is
 * the set's iteration order, which nothing specifies; across groups nothing is deduplicated.
 */
module ClaimMapping {
  import opened Wrappers
  import Text

  /** A claim value as the JSON decoder hands it over. An object keeps its members in document order. */
  datatype ClaimValue =
    | Null
    | Str(s: string)
    | Num(n: int)
    | Bool(b: bool)
    | Arr(items: seq<ClaimValue>)
    | Obj(members: seq<Member>)

  datatype Member = Member(name: string, value: ClaimValue)

  /** The token's claim set (`Jwt.getClaims()`). */
  type Claims = map<string, ClaimValue>

  /** `jwt.getClaim(name)` before any cast: a missing claim reads as null. */
  function Claim(claims: Claims, name: string): (v: ClaimValue)
    ensures name !in claims ==> v == Null
    ensures name in claims ==> v == claims[name]
  {
    if name in claims then claims[name] else Null
  }

  /**
   * `Map.get(name)` on a decoded JSON object. The decoder fills a map member by member, so when a
   * name repeats the last member with that name wins; a missing name reads as null.
   */
  function Field(members: seq<Member>, name: string): ClaimValue {
    if members == [] then Null
    else if members[|members| - 1].name == name then members[|members| - 1].value
    else Field(members[..|members| - 1], name)
  }

  /** A member with another name, inserted anywhere in the object, never changes what `Field` finds. */
  lemma {:induction false} FieldIgnoresOtherNames(before: seq<Member>, other: Member, after: seq<Member>, name: string)
    requires other.name != name
    ensures Field(before + [other] + after, name) == Field(before + after, name)
  {
    var all := before + [other] + after;
    if after == [] {
      assert all[..|all| - 1] == before;
      assert before + after == before;
    } else {
      var shorter := after[..|after| - 1];
      assert all[|all| - 1] == after[|after| - 1] == (before + after)[|before + after| - 1];
      assert all[..|all| - 1] == before + [other] + shorter;
      assert (before + after)[..|before + after| - 1] == before + shorter;
      FieldIgnoresOtherNames(before, other, shorter, name);
    }
  }

  /** Of two members with the same name, the later one is the one `Field` finds. */
  lemma {:induction false} LaterDuplicateWins(before: seq<Member>, name: string, v: ClaimValue, after: seq<Member>)
    requires forall i :: 0 <= i < |after| ==> after[i].name != name
    ensures Field(before + [Member(name, v)] + after, name) == v
  {
    if after == [] {
      assert before + [Member(name, v)] + after == before + [Member(name, v)];
    } else {
      var all := before + [Member(name, v)] + after;
      var shorter := after[..|after| - 1];
      assert all[|all| - 1] == after[|after| - 1];
      assert all[..|all| - 1] == before + [Member(name, v)] + shorter;
      LaterDuplicateWins(before, name, v, shorter);
    }
  }

  /**
   * `Object.toString()` of a claim value: a string is itself, a number its decimal text, a list
   * `[a, b]` and an object `{k=v, ...}` as Java's collections print them, null as `null`.
   */
  function ToText(v: ClaimValue): string
    decreases v, 1
  {
    match v
    case Null => "null"
    case Str(s) => s
    case Num(n) => Text.LongText(n)
    case Bool(b) => if b then "true" else "false"
    case Arr(items) => "[" + ItemsText(v, 0) + "]"
    case Obj(members) => "{" + MembersText(v, 0) + "}"
  }

  /** The elements of the list `v` from index `k` on, separated by `, `. */
  function ItemsText(v: ClaimValue, k: nat): string
    requires v.Arr? && k <= |v.items|
    decreases v, 0, |v.items| - k
  {
    if k == |v.items| then ""
    else (if k == 0 then "" else ", ") + ToText(v.items[k]) + ItemsText(v, k + 1)
  }

  /** The members of the object `v` from index `k` on, as `name=value` separated by `, `. */
  function MembersText(v: ClaimValue, k: nat): string
    requires v.Obj? && k <= |v.members|
    decreases v, 0, |v.members| - k
  {
    if k == |v.members| then ""
    else
      var m := v.members[k];
      assert m.value < m;
      (if k == 0 then "" else ", ") + m.name + "=" + ToText(m.value) + MembersText(v, k + 1)
  }

  /**
   * What `toString()` yields for each kind of claim value: a string role is granted under its own
   * text, a number under its decimal digits, and a list or object prints inside its brackets.
   */
  lemma ToTextRendering(v: ClaimValue)
    ensures v.Null? ==> ToText(v) == "null"
    ensures v.Str? ==> ToText(v) == v.s
    ensures v.Num? ==> ToText(v) == Text.LongText(v.n) && Text.ParseLong(ToText(v)) == Some(v.n)
    ensures v.Bool? ==> ToText(v) == (if v.b then "true" else "false")
    ensures v.Arr? ==> 2 <= |ToText(v)| && ToText(v)[0] == '[' && ToText(v)[|ToText(v)| - 1] == ']'
    ensures v.Obj? ==> 2 <= |ToText(v)| && ToText(v)[0] == '{' && ToText(v)[|ToText(v)| - 1] == '}'
  {
    if v.Num? {
      Text.LongTextRoundTrip(v.n);
    }
  }

  /** Two string roles grant the same authority only when they are the same string. */
  lemma StringRolesGrantDistinctAuthorities(a: string, b: string)
    ensures RoleAuthority(Str(a)) == RoleAuthority(Str(b)) ==> a == b
  {
    ToTextRendering(Str(a));
    ToTextRendering(Str(b));
    assert RoleAuthority(Str(a))[5..] == a;
    assert RoleAuthority(Str(b))[5..] == b;
  }

  /** The authority a role grants. */
  function RoleAuthority(role: ClaimValue): string {
    "ROLE_" + ToText(role)
  }

  /**
   * The stream pipeline applied to one role collection: drop nulls, take `toString()`, prefix
   * `ROLE_`, collect into a set.
   */
  function RoleAuthorities(roles: seq<ClaimValue>): (r: set<string>)
    ensures forall a :: a in r <==> exists i :: 0 <= i < |roles| && !roles[i].Null? && a == RoleAuthority(roles[i])
  {
    if roles == [] then {}
    else
      var rest := RoleAuthorities(roles[1..]);
      assert forall i :: 1 <= i < |roles| ==> roles[i] == roles[1..][i - 1];
      (if roles[0].Null? then {} else {RoleAuthority(roles[0])}) + rest
  }

  /** A null element contributes nothing, wherever it stands in the collection. */
  lemma {:induction false} NullRoleIgnored(before: seq<ClaimValue>, after: seq<ClaimValue>)
    ensures RoleAuthorities(before + [Null] + after) == RoleAuthorities(before + after)
  {
    if before == [] {
      assert (before + [Null] + after)[1..] == after;
      assert before + after == after;
    } else {
      assert (before + [Null] + after)[1..] == before[1..] + [Null] + after;
      assert (before + after)[1..] == before[1..] + after;
      assert (before + [Null] + after)[0] == (before + after)[0] == before[0];
      NullRoleIgnored(before[1..], after);
    }
  }

  /** `roles` of a role container, when it is a collection (`instanceof Collection`). */
  function RolesOf(container: seq<Member>): Option<seq<ClaimValue>> {
    match Field(container, "roles")
    case Arr(items) => Some(items)
    case _ => None
  }

  /** What the converter emits, group by group. */
  datatype AuthorityGroups = AuthorityGroups(scope: seq<string>, realm: set<string>, client: set<string>)

  /** The scope converter's output: one `SCOPE_<token>` per scope token, in order. */
  function ScopeAuthorities(scopes: seq<string>): (r: seq<string>)
    ensures |r| == |scopes|
    ensures forall i :: 0 <= i < |r| ==> r[i] == "SCOPE_" + scopes[i]
  {
    seq(|scopes|, i requires 0 <= i < |scopes| => "SCOPE_" + scopes[i])
  }

  /** The members of `v` when it is a JSON object (`instanceof Map`). */
  function ObjectMembers(v: ClaimValue): Option<seq<Member>> {
    if v.Obj? then Some(v.members) else None
  }

  /** The authorities of a role container (`realm_access`, or one client's entry): its `roles` collection, if any. */
  function ContainerRoles(container: Option<seq<Member>>): set<string> {
    match container
    case None => {}
    case Some(access) =>
      match RolesOf(access)
      case Some(roles) => RoleAuthorities(roles)
      case None => {}
  }

  /** The client group read from a `resource_access` object: only the entry named `clientId` is consulted. */
  function ClientContainerRoles(resourceAccess: Option<seq<Member>>, clientId: string): set<string> {
    match resourceAccess
    case None => {}
    case Some(clients) => ContainerRoles(ObjectMembers(Field(clients, clientId)))
  }

  /** The realm group: the roles of `realm_access.roles`; nothing when either level is missing or of another shape. */
  function RealmRoles(claims: Claims): set<string> {
    ContainerRoles(ObjectMembers(Claim(claims, "realm_access")))
  }

  /** The client group: the roles of `resource_access.<clientId>.roles`, and of no other client. */
  function ClientRoles(claims: Claims, clientId: string): set<string> {
    ClientContainerRoles(ObjectMembers(Claim(claims, "resource_access")), clientId)
  }

  /** The three groups the converter emits for a token, with malformed parts contributing nothing. */
  function Groups(claims: Claims, clientId: string, scopes: seq<string>): AuthorityGroups {
    AuthorityGroups(ScopeAuthorities(scopes), RealmRoles(claims), ClientRoles(claims, clientId))
  }

  /** `s` lists the members of `t`, each exactly once, in some order. */
  ghost predicate Enumerates(s: seq<string>, t: set<string>) {
    (forall i, j :: 0 <= i < j < |s| ==> s[i] != s[j])
    && (forall x :: x in s <==> x in t)
  }

  /** `r` is what the converter's `ArrayList` holds: the scope list, then the realm set, then the client set. */
  ghost predicate Realizes(r: seq<string>, g: AuthorityGroups) {
    var a, b := |g.scope|, |g.realm|;
    |r| == a + b + |g.client|
    && r[..a] == g.scope
    && Enumerates(r[a..a + b], g.realm)
    && Enumerates(r[a + b..], g.client)
  }

  /**
   * `ArrayList.addAll` of a set: appends every member of `group` once, in an order the set's
   * iterator chooses (modelled by an arbitrary choice at each step).
   */
  method AppendAll(list: seq<string>, group: set<string>) returns (r: seq<string>)
    ensures |r| == |list| + |group|
    ensures r[..|list|] == list
    ensures Enumerates(r[|list|..], group)
  {
    r := list;
    ghost var added: seq<string> := [];
    var rest := group;
    while rest != {}
      invariant rest <= group
      invariant r == list + added
      invariant |added| + |rest| == |group|
      invariant forall i, j :: 0 <= i < j < |added| ==> added[i] != added[j]
      invariant forall x :: x in added <==> x in group && x !in rest
      decreases rest
    {
      var x :| x in rest;
      r := r + [x];
      added := added + [x];
      rest := rest - {x};
    }
    assert r[|list|..] == added;
  }

  /** `list` followed by an enumeration of `group`. */
  ghost predicate Extends(r: seq<string>, list: seq<string>, group: set<string>) {
    |r| == |list| + |group| && r[..|list|] == list && Enumerates(r[|list|..], group)
  }

  /** The "realm roles" step: appends the realm group when `realm_access.roles` is a collection. */
  method AddRealmRoles(authorities: seq<string>, claims: Claims) returns (r: seq<string>)
    ensures Extends(r, authorities, RealmRoles(claims))
  {
    r := authorities;
    var realmAccess := Claim(claims, "realm_access");
    if realmAccess.Obj? && Field(realmAccess.members, "roles").Arr? {
      r := AppendAll(r, RoleAuthorities(Field(realmAccess.members, "roles").items));
    }
  }

  /** The "client roles" step: appends the roles under `resource_access.<clientId>.roles` when every level has the right shape. */
  method AddClientRoles(authorities: seq<string>, claims: Claims, clientId: string) returns (r: seq<string>)
    ensures Extends(r, authorities, ClientRoles(claims, clientId))
  {
    r := authorities;
    var resourceAccess := Claim(claims, "resource_access");
    if resourceAccess.Obj? {
      var apiAccess := Field(resourceAccess.members, clientId);
      if apiAccess.Obj? {
        var clientRoles := Field(apiAccess.members, "roles");
        if clientRoles.Arr? {
          r := AppendAll(r, RoleAuthorities(clientRoles.items));
        }
      }
    }
  }

  /** Three parts laid end to end realize the groups they enumerate. */
  lemma RealizesSteps(afterRealm: seq<string>, afterClient: seq<string>, g: AuthorityGroups)
    requires Extends(afterRealm, g.scope, g.realm)
    requires Extends(afterClient, afterRealm, g.client)
    ensures Realizes(afterClient, g)
  {
    var a, b := |g.scope|, |g.realm|;
    assert afterClient[..a] == afterRealm[..a];
    assert afterClient[a..a + b] == afterRealm[a..];
  }

  /**
   * The converter lambda: start from the scope authorities, append the realm roles, then the
   * roles of the configured client. Shapes that are not maps or collections are skipped.
   */
  method Convert(claims: Claims, clientId: string, scopes: seq<string>) returns (authorities: seq<string>)
    ensures Realizes(authorities, Groups(claims, clientId, scopes))
  {
    authorities := ScopeAuthorities(scopes);
    var afterRealm := AddRealmRoles(authorities, claims);
    authorities := AddClientRoles(afterRealm, claims, clientId);
    RealizesSteps(afterRealm, authorities, Groups(claims, clientId, scopes));
  }

  /** An authority is in the list exactly when some group holds it. */
  lemma RealizesMembership(r: seq<string>, g: AuthorityGroups, x: string)
    requires Realizes(r, g)
    ensures x in r <==> x in g.scope || x in g.realm || x in g.client
  {
    var a, b := |g.scope|, |g.realm|;
    assert r == r[..a] + r[a..a + b] + r[a + b..];
  }

  /** The one way the lambda as written can fail. */
  datatype ConversionError = ClassCastException(claim: string)

  /**
   * `Map<String, Object> x = jwt.getClaim(name)` as written: the assignment casts the claim to a
   * map, so a claim that is present but not an object throws instead of contributing nothing.
   */
  function ClaimAsMap(claims: Claims, name: string): (r: Result<Option<seq<Member>>, ConversionError>)
    ensures r.Err? <==> !Claim(claims, name).Null? && !Claim(claims, name).Obj?
    ensures r.Ok? ==> r.value == ObjectMembers(Claim(claims, name))
  {
    match Claim(claims, name)
    case Null => Ok(None)
    case Obj(members) => Ok(Some(members))
    case _ => Err(ClassCastException(name))
  }

  /** The groups the lambda as written produces, or the exception it throws (`realm_access` is cast first). */
  function GroupsAsWritten(claims: Claims, clientId: string, scopes: seq<string>): (r: Result<AuthorityGroups, ConversionError>)
    ensures r.Err? ==> r.error.claim == if CastSucceeds(claims, "realm_access") then "resource_access" else "realm_access"
  {
    match ClaimAsMap(claims, "realm_access")
    case Err(e) => Err(e)
    case Ok(realmAccess) =>
      match ClaimAsMap(claims, "resource_access")
      case Err(e) => Err(e)
      case Ok(resourceAccess) =>
        Ok(AuthorityGroups(ScopeAuthorities(scopes), ContainerRoles(realmAccess),
                           ClientContainerRoles(resourceAccess, clientId)))
  }

  /** A top-level role claim is absent, null or an object: the shapes the cast accepts. */
  predicate CastSucceeds(claims: Claims, name: string) {
    Claim(claims, name).Null? || Claim(claims, name).Obj?
  }

  /**
   * The lambda as written agrees with the converter modelled here exactly when both top-level
   * role claims have a shape the cast accepts, and throws otherwise.
   */
  lemma AsWrittenAgreesWhenCastSucceeds(claims: Claims, clientId: string, scopes: seq<string>)
    ensures GroupsAsWritten(claims, clientId, scopes).Ok?
        <==> CastSucceeds(claims, "realm_access") && CastSucceeds(claims, "resource_access")
    ensures GroupsAsWritten(claims, clientId, scopes).Ok? ==>
              GroupsAsWritten(claims, clientId, scopes).value == Groups(claims, clientId, scopes)
  {
  }

  /**
   * A token whose `realm_access` is a string: as written the converter throws, although the
   * malformed claim is meant to contribute nothing; the converter modelled here keeps the scopes.
   */
  lemma StringRealmAccessThrows(scopes: seq<string>)
    ensures GroupsAsWritten(map["realm_access" := Str("admin")], "gateway", scopes)
            == Err(ClassCastException("realm_access"))
    ensures Groups(map["realm_access" := Str("admin")], "gateway", scopes)
            == AuthorityGroups(ScopeAuthorities(scopes), {}, {})
  {
    var claims := map["realm_access" := Str("admin")];
    assert Claim(claims, "realm_access") == Str("admin");
    assert Claim(claims, "resource_access") == Null;
  }

  /** Every non-null element of a `realm_access.roles` collection grants `ROLE_<element>`. */
  lemma RealmRoleGranted(claims: Claims, clientId: string, scopes: seq<string>, r: seq<string>,
                         access: seq<Member>, roles: seq<ClaimValue>, i: int)
    requires Realizes(r, Groups(claims, clientId, scopes))
    requires Claim(claims, "realm_access") == Obj(access) && Field(access, "roles") == Arr(roles)
    requires 0 <= i < |roles| && !roles[i].Null?
    ensures RoleAuthority(roles[i]) in r
  {
    RealizesMembership(r, Groups(claims, clientId, scopes), RoleAuthority(roles[i]));
  }

  /** Every non-null element of `resource_access.<clientId>.roles` grants `ROLE_<element>`. */
  lemma ClientRoleGranted(claims: Claims, clientId: string, scopes: seq<string>, r: seq<string>,
                          clients: seq<Member>, access: seq<Member>, roles: seq<ClaimValue>, i: int)
    requires Realizes(r, Groups(claims, clientId, scopes))
    requires Claim(claims, "resource_access") == Obj(clients) && Field(clients, clientId) == Obj(access)
    requires Field(access, "roles") == Arr(roles)
    requires 0 <= i < |roles| && !roles[i].Null?
    ensures RoleAuthority(roles[i]) in r
  {
    RealizesMembership(r, Groups(claims, clientId, scopes), RoleAuthority(roles[i]));
  }

  /** A missing or malformed `realm_access` (or `roles` of another shape) adds no authority. */
  lemma MalformedRealmAccessContributesNothing(claims: Claims)
    requires !Claim(claims, "realm_access").Obj? || !Field(Claim(claims, "realm_access").members, "roles").Arr?
    ensures RealmRoles(claims) == {}
  {
  }

  /** A client entry that is not an object, or whose `roles` is not a collection, adds no authority. */
  lemma MalformedClientEntryContributesNothing(claims: Claims, clientId: string, clients: seq<Member>)
    requires Claim(claims, "resource_access") == Obj(clients)
    requires !Field(clients, clientId).Obj? || !Field(Field(clients, clientId).members, "roles").Arr?
    ensures ClientRoles(claims, clientId) == {}
  {
  }

  /** Roles filed under another client id are never added: adding such an entry changes nothing. */
  lemma OtherClientIgnored(claims: Claims, clientId: string, before: seq<Member>, other: Member, after: seq<Member>)
    requires Claim(claims, "resource_access") == Obj(before + after)
    requires other.name != clientId
    ensures ClientRoles(claims["resource_access" := Obj(before + [other] + after)], clientId) == ClientRoles(claims, clientId)
  {
    FieldIgnoresOtherNames(before, other, after, clientId);
    assert Claim(claims["resource_access" := Obj(before + [other] + after)], "resource_access") == Obj(before + [other] + after);
  }

  /** Scope authorities start with `SCOPE_`, role authorities with `ROLE_`: no authority is in both. */
  lemma ScopeAndRoleAuthoritiesDisjoint(claims: Claims, clientId: string, scopes: seq<string>, x: string)
    requires x in ScopeAuthorities(scopes)
    ensures x !in RealmRoles(claims) && x !in ClientRoles(claims, clientId)
  {
    assert x[0] == 'S';
    forall v: ClaimValue ensures x != RoleAuthority(v) {
      assert RoleAuthority(v)[0] == 'R';
    }
  }

  /** In a list without repetitions, a member occurs once. */
  lemma {:induction false} DistinctOccursOnce(s: seq<string>, x: string)
    requires forall i, j :: 0 <= i < j < |s| ==> s[i] != s[j]
    requires x in s
    ensures multiset(s)[x] == 1
  {
    if s[0] == x {
      assert x !in s[1..];
    } else {
      DistinctOccursOnce(s[1..], x);
    }
    assert s == [s[0]] + s[1..];
  }

  /** A member of both role groups, and not a scope authority, occurs twice in a realized list. */
  lemma InBothRoleGroupsOccursTwice(r: seq<string>, g: AuthorityGroups, x: string)
    requires Realizes(r, g)
    requires x !in g.scope && x in g.realm && x in g.client
    ensures multiset(r)[x] == 2
  {
    var a, b := |g.scope|, |g.realm|;
    assert r == r[..a] + r[a..a + b] + r[a + b..];
    DistinctOccursOnce(r[a..a + b], x);
    DistinctOccursOnce(r[a + b..], x);
  }

  /**
   * The result is a list, not a set: a role that is both a realm role and a client role is
   * listed twice.
   */
  lemma RealmAndClientRoleListedTwice(claims: Claims, clientId: string, scopes: seq<string>, r: seq<string>, x: string)
    requires Realizes(r, Groups(claims, clientId, scopes))
    requires x in RealmRoles(claims) && x in ClientRoles(claims, clientId)
    ensures multiset(r)[x] == 2
  {
    if x in ScopeAuthorities(scopes) {
      ScopeAndRoleAuthoritiesDisjoint(claims, clientId, scopes, x);
    }
    InBothRoleGroupsOccursTwice(r, Groups(claims, clientId, scopes), x);
  }
}
