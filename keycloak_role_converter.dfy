/** KeycloakClientRoleConverter: turns the Keycloak role claims of a token into
    Spring authorities. realm_access.roles wins when it is a collection; otherwise
    the roles of every resource_access client are collected. Every role is
    normalised to carry the ROLE_ prefix exactly once. `Convert` is the converter
    as intended, dropping null elements; the module KeycloakConverterPipeline
    gives the converter as its Reactor pipeline behaves, failing at the first
    null element. */
module KeycloakClientRoleConverter {
  import opened Wrappers
  import opened JavaStrings
  import opened Claims

  const RolePrefix := "ROLE_"

  /** normalizeRole: "" for null; otherwise trimmed, with ROLE_ prepended unless the
      trimmed text already starts with it. */
  function NormalizeRole(role: Option<string>): (r: string)
    ensures role.None? ==> r == ""
    ensures role.Some? ==> StartsWith(r, RolePrefix)
    ensures role.Some? ==> r == Trim(role.value) || r == RolePrefix + Trim(role.value)
    ensures role.Some? && StartsWith(Trim(role.value), RolePrefix) ==> r == Trim(role.value)
  {
    match role
    case None => ""
    case Some(s) =>
      var trimmed := Trim(s);
      if StartsWith(trimmed, RolePrefix) then trimmed else RolePrefix + trimmed
  }

  /** Normalising a normalised role changes nothing. */
  lemma NormalizeRoleIdempotent(role: string)
    ensures NormalizeRole(Some(NormalizeRole(Some(role)))) == NormalizeRole(Some(role))
  {
    var t := Trim(role);
    var r := NormalizeRole(Some(role));
    if r != t {
      assert r == RolePrefix + t;
      assert r[0] == 'R';
      assert t != [] ==> r[|r| - 1] == t[|t| - 1];
      assert IsTrimmed(r);
    }
    assert Trim(r) == r;
  }

  /** The documented examples: a bare role gets the prefix, ... */
  lemma NormalizeBareRole()
    ensures NormalizeRole(Some("admin")) == "ROLE_admin"
  {
    assert IsTrimmed("admin");
  }

  /** ... a padded, prefixed role is only trimmed, ... */
  lemma NormalizePaddedRole()
    ensures NormalizeRole(Some(" " + "ROLE_USER" + " ")) == "ROLE_USER"
  {
    PaddedRole("ROLE_USER");
  }

  /** One space on either side of a trimmed role is removed, nothing more. */
  lemma PaddedRole(t: string)
    requires t != [] && IsTrimmed(t)
    ensures Trim(" " + t + " ") == t
  {
    var s := " " + t + " ";
    assert s[1..] == t + " ";
    assert TrimStart(s) == TrimStart(t + " ") == t + " ";
    assert (t + " ")[..|t|] == t;
    assert TrimEnd(t + " ") == TrimEnd(t) == t;
  }

  /** ... and a prefixed role is kept. */
  lemma NormalizePrefixedRole()
    ensures NormalizeRole(Some("ROLE_MANAGER")) == "ROLE_MANAGER"
  {
    assert IsTrimmed("ROLE_MANAGER");
  }

  /** filter(Objects::nonNull). */
  function NonNull(items: seq<Value>): (r: seq<Value>)
    ensures forall e :: e in r <==> e in items && !e.Null?
    ensures |r| <= |items|
  {
    if |items| == 0 then []
    else (if items[0].Null? then [] else [items[0]]) + NonNull(items[1..])
  }

  lemma {:induction false} NonNullAppend(a: seq<Value>, b: seq<Value>)
    ensures NonNull(a + b) == NonNull(a) + NonNull(b)
  {
    if |a| == 0 {
      assert a + b == b;
    } else {
      assert (a + b)[1..] == a[1..] + b;
      NonNullAppend(a[1..], b);
    }
  }

  lemma {:induction false} NonNullKeepsNullFree(items: seq<Value>)
    requires forall i :: 0 <= i < |items| ==> !items[i].Null?
    ensures NonNull(items) == items
  {
    if |items| > 0 {
      NonNullKeepsNullFree(items[1..]);
    }
  }

  /** map(Object::toString).map(this::normalizeRole) over the non-null elements. */
  function Authorities(items: seq<Value>): (r: seq<string>)
    ensures forall i :: 0 <= i < |r| ==> StartsWith(r[i], RolePrefix)
  {
    var present := NonNull(items);
    seq(|present|, i requires 0 <= i < |present| => Authority(present[i]))
  }

  /** The authority one non-null role element becomes. */
  function Authority(e: Value): (r: string)
    ensures StartsWith(r, RolePrefix)
  {
    NormalizeRole(Some(Render(e)))
  }

  lemma AuthoritiesAppend(a: seq<Value>, b: seq<Value>)
    ensures Authorities(a + b) == Authorities(a) + Authorities(b)
  {
    NonNullAppend(a, b);
    var pa, pb := NonNull(a), NonNull(b);
    var joined, parts := Authorities(a + b), Authorities(a) + Authorities(b);
    assert |joined| == |pa| + |pb| == |parts|;
    forall i | 0 <= i < |joined|
      ensures joined[i] == parts[i]
    {
      if i < |pa| {
        assert (pa + pb)[i] == pa[i];
      } else {
        assert (pa + pb)[i] == pb[i - |pa|];
      }
    }
  }

  /** A role occurs among the authorities exactly when some non-null element
      normalises to it. */
  lemma AuthoritiesMembership(items: seq<Value>, role: string)
    ensures role in Authorities(items) <==> exists e :: e in items && !e.Null? && Authority(e) == role
  {
    if role in Authorities(items) {
      AuthorityHasSource(items, role);
    }
    if exists e :: e in items && !e.Null? && Authority(e) == role {
      var e :| e in items && !e.Null? && Authority(e) == role;
      SourceHasAuthority(items, e);
    }
  }

  lemma AuthorityHasSource(items: seq<Value>, role: string)
    requires role in Authorities(items)
    ensures exists e :: e in items && !e.Null? && Authority(e) == role
  {
    var present := NonNull(items);
    var auth := Authorities(items);
    var i :| 0 <= i < |auth| && auth[i] == role;
    assert present[i] in present;
    assert Authority(present[i]) == role;
  }

  lemma SourceHasAuthority(items: seq<Value>, e: Value)
    requires e in items && !e.Null?
    ensures Authority(e) in Authorities(items)
  {
    var present := NonNull(items);
    assert e in present;
    var i :| 0 <= i < |present| && present[i] == e;
    assert Authorities(items)[i] == Authority(e);
  }

  /** The realm_access.roles collection, when realm_access is a map holding one. */
  function RealmRoles(jwt: Jwt): (r: Option<seq<Value>>)
    ensures !HasClaim(jwt, "realm_access") ==> r.None?
    ensures r.Some? <==> GetClaim(jwt, "realm_access").Obj? && Get(GetClaim(jwt, "realm_access").fields, "roles").Arr?
    ensures r.Some? ==> Arr(r.value) == Get(GetClaim(jwt, "realm_access").fields, "roles")
  {
    match Get(jwt.claims, "realm_access")
    case Obj(fields) => (match Get(fields, "roles") case Arr(items) => Some(items) case _ => None)
    case _ => None
  }

  /** The authorities of every resource_access client, in iteration order. */
  function ClientAuthorities(clients: seq<Value>): seq<string> {
    Authorities(ClientRoleItems(clients))
  }

  /** convert: realm_access.roles if it is a collection, else the roles of every
      resource_access client if resource_access is a map, else nothing. */
  function Convert(jwt: Jwt): (r: seq<string>)
    ensures forall i :: 0 <= i < |r| ==> StartsWith(r[i], RolePrefix)
  {
    match RealmRoles(jwt)
    case Some(items) => Authorities(items)
    case None =>
      match Get(jwt.claims, "resource_access")
      case Obj(clients) => ClientAuthorities(Values(clients))
      case _ => []
  }

  /** A realm_access.roles collection decides the result alone: resource_access
      (and every other claim) is never read. */
  lemma RealmRolesTakePriority(a: Jwt, b: Jwt)
    requires RealmRoles(a).Some?
    requires Lookup(a.claims, "realm_access") == Lookup(b.claims, "realm_access")
    ensures Convert(a) == Convert(b)
  {
  }

  /** With a null-free realm_access.roles collection, the result is exactly those
      roles normalised, in order. */
  lemma RealmRolesInOrder(jwt: Jwt)
    requires RealmRoles(jwt).Some?
    requires forall i :: 0 <= i < |RealmRoles(jwt).value| ==> !RealmRoles(jwt).value[i].Null?
    ensures |Convert(jwt)| == |RealmRoles(jwt).value|
    ensures forall i :: 0 <= i < |Convert(jwt)| ==>
              Convert(jwt)[i] == NormalizeRole(Some(Render(RealmRoles(jwt).value[i])))
  {
    NonNullKeepsNullFree(RealmRoles(jwt).value);
  }

  /** When realm_access is absent, not a map, or has no roles collection, the result
      is the one the token would give without any realm_access claim at all. */
  lemma RealmWithoutRolesFallsThrough(jwt: Jwt)
    requires RealmRoles(jwt).None?
    ensures Convert(jwt) == Convert(Jwt(Remove(jwt.claims, "realm_access")))
  {
    LookupAfterRemove(jwt.claims, "realm_access", "resource_access");
  }

  /** Under resource_access, a role is granted exactly when some client entry that
      is a map lists, under a "roles" collection, a non-null element normalising
      to it. */
  lemma ResourceRolesMembership(jwt: Jwt, clients: seq<Field>, role: string)
    requires RealmRoles(jwt).None?
    requires Get(jwt.claims, "resource_access") == Obj(clients)
    ensures role in Convert(jwt) <==>
              exists j :: 0 <= j < |clients| && Grants(clients[j].value, role)
  {
    var values := Values(clients);
    AuthoritiesMembership(ClientRoleItems(values), role);
    if role in Convert(jwt) {
      var e :| e in ClientRoleItems(values) && !e.Null? && Authority(e) == role;
      ClientRoleItemsMembership(values, e);
      var j :| 0 <= j < |values| && e in RolesOf(values[j]);
      assert Grants(clients[j].value, role);
    }
    if exists j :: 0 <= j < |clients| && Grants(clients[j].value, role) {
      var j :| 0 <= j < |clients| && Grants(clients[j].value, role);
      var e :| e in RolesOf(clients[j].value) && !e.Null? && Authority(e) == role;
      ClientRoleItemsMembership(values, e);
    }
  }

  /** A client entry that grants `role`. */
  ghost predicate Grants(client: Value, role: string) {
    exists e :: e in RolesOf(client) && !e.Null? && Authority(e) == role
  }

  /** The collected authorities do not depend on the order in which the
      resource_access map yields its clients: any reordering gives the same
      multiset of roles. */
  lemma {:induction false} ClientOrderIrrelevant(s: seq<Value>, t: seq<Value>)
    requires multiset(s) == multiset(t)
    ensures multiset(ClientAuthorities(s)) == multiset(ClientAuthorities(t))
    decreases |s|
  {
    if |s| == 0 {
      assert |t| == |multiset(t)| == 0;
    } else {
      var x, tail := s[0], s[1..];
      var p := Match(s, t);
      var before, after := t[..p], t[p + 1..];
      var rest := before + after;
      ClientOrderIrrelevant(tail, rest);
      var cx := ClientAuthorities([x]);
      assert ClientAuthorities(s) == cx + ClientAuthorities(tail) by {
        assert s == [x] + tail;
        ClientAuthoritiesAppend([x], tail);
      }
      assert ClientAuthorities(t) == ClientAuthorities(before) + cx + ClientAuthorities(after) by {
        ClientAuthoritiesAppend(before, [x]);
        ClientAuthoritiesAppend(before + [x], after);
      }
      assert ClientAuthorities(rest) == ClientAuthorities(before) + ClientAuthorities(after) by {
        ClientAuthoritiesAppend(before, after);
      }
    }
  }

  /** Where the first element of `s` sits in a permutation `t`: removing it from both
      leaves permutations of each other. */
  lemma Match<T>(s: seq<T>, t: seq<T>) returns (p: int)
    requires |s| > 0 && multiset(s) == multiset(t)
    ensures 0 <= p < |t| && t[p] == s[0]
    ensures t == t[..p] + [t[p]] + t[p + 1..]
    ensures multiset(s[1..]) == multiset(t[..p] + t[p + 1..])
  {
    assert s[0] in multiset(t) by {
      assert s[0] in s;
    }
    p :| 0 <= p < |t| && t[p] == s[0];
    assert t == t[..p] + [t[p]] + t[p + 1..];
    assert s == [s[0]] + s[1..];
    assert multiset(t) == multiset(t[..p]) + multiset{s[0]} + multiset(t[p + 1..]);
    assert multiset(s) == multiset{s[0]} + multiset(s[1..]);
    assert multiset(s[1..]) == multiset(s) - multiset{s[0]};
    assert multiset(t) - multiset{s[0]} == multiset(t[..p]) + multiset(t[p + 1..]);
    assert multiset(t[..p] + t[p + 1..]) == multiset(t[..p]) + multiset(t[p + 1..]);
  }

  lemma ClientAuthoritiesAppend(a: seq<Value>, b: seq<Value>)
    ensures ClientAuthorities(a + b) == ClientAuthorities(a) + ClientAuthorities(b)
  {
    ClientRoleItemsAppend(a, b);
    AuthoritiesAppend(ClientRoleItems(a), ClientRoleItems(b));
  }

  /** With neither realm_access nor resource_access, or with an empty
      realm_access.roles, there are no authorities. */
  lemma NoSourcesNoRoles(jwt: Jwt)
    requires (!HasClaim(jwt, "realm_access") && !HasClaim(jwt, "resource_access")) ||
             RealmRoles(jwt) == Some([])
    ensures Convert(jwt) == []
  {
  }
}
