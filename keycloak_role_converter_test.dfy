/** The documented conversions, on the tokens the converter's tests build. Each
    test is an instance of a lemma about tokens of the same shape. */
module KeycloakClientRoleConverterTest {
  import opened Wrappers
  import opened JavaStrings
  import opened Claims
  import opened KeycloakClientRoleConverter

  /** A token whose realm_access.roles lists `roles`. */
  function RealmToken(roles: seq<string>): Jwt {
    Jwt([Field("realm_access", Obj([Field("roles", Arr(Strings(roles)))]))])
  }

  /** A token whose resource_access holds the given client entries. */
  function ResourceToken(clients: seq<Field>): Jwt {
    Jwt([Field("resource_access", Obj(clients))])
  }

  /** A client entry of resource_access listing `roles`. */
  function Client(roles: seq<string>): Value {
    Obj([Field("roles", Arr(Strings(roles)))])
  }

  /** Role strings as claim values. */
  function Strings(xs: seq<string>): (r: seq<Value>)
    ensures |r| == |xs|
    ensures forall i :: 0 <= i < |xs| ==> r[i] == Str(xs[i]) && !r[i].Null?
  {
    seq(|xs|, i requires 0 <= i < |xs| => Str(xs[i]))
  }

  /** A role that normalisation only prefixes: trimmed, and not starting with 'R'. */
  predicate Bare(role: string) {
    IsTrimmed(role) && role != [] && role[0] != 'R'
  }

  lemma BareRole(role: string)
    requires Bare(role)
    ensures NormalizeRole(Some(role)) == RolePrefix + role
  {
  }

  lemma PrefixedRole(role: string)
    requires IsTrimmed(role) && StartsWith(role, RolePrefix)
    ensures NormalizeRole(Some(role)) == role
  {
  }

  /** Role strings, none of them null, become their normalised forms in order. */
  lemma StringAuthorities(roles: seq<string>)
    ensures |Authorities(Strings(roles))| == |roles|
    ensures forall i :: 0 <= i < |roles| ==> Authorities(Strings(roles))[i] == NormalizeRole(Some(roles[i]))
  {
    NonNullKeepsNullFree(Strings(roles));
  }

  /** A realm token converts to its roles normalised one by one. */
  lemma RealmTokenConverts(roles: seq<string>)
    ensures Convert(RealmToken(roles)) == Authorities(Strings(roles))
  {
    assert RealmRoles(RealmToken(roles)) == Some(Strings(roles));
  }

  /** A realm token with two roles converts to the two normalised roles. */
  lemma RealmPair(a: string, b: string)
    ensures Convert(RealmToken([a, b])) == [NormalizeRole(Some(a)), NormalizeRole(Some(b))]
  {
    RealmTokenConverts([a, b]);
    PairAuthorities(a, b);
  }

  lemma PairAuthorities(a: string, b: string)
    ensures Authorities(Strings([a, b])) == [NormalizeRole(Some(a)), NormalizeRole(Some(b))]
  {
    assert Strings([a, b]) == Strings([a]) + Strings([b]);
    AuthoritiesAppend(Strings([a]), Strings([b]));
    SingleAuthority(a);
    SingleAuthority(b);
  }

  lemma RealmBarePair(a: string, b: string)
    requires Bare(a) && Bare(b)
    ensures Convert(RealmToken([a, b])) == [RolePrefix + a, RolePrefix + b]
  {
    RealmPair(a, b);
    BareRole(a);
    BareRole(b);
  }

  lemma RealmPrefixedThenBare(a: string, b: string)
    requires IsTrimmed(a) && StartsWith(a, RolePrefix) && Bare(b)
    ensures Convert(RealmToken([a, b])) == [a, RolePrefix + b]
  {
    RealmPair(a, b);
    PrefixedRole(a);
    BareRole(b);
  }

  /** One client entry contributes its own roles. */
  lemma ClientConverts(roles: seq<string>)
    ensures ClientAuthorities([Client(roles)]) == Authorities(Strings(roles))
  {
    ClientRoleItemsSnoc([], Client(roles));
    assert [] + [Client(roles)] == [Client(roles)];
    assert [] + Strings(roles) == Strings(roles);
  }

  lemma ClientBarePair(a: string, b: string)
    requires Bare(a) && Bare(b)
    ensures ClientAuthorities([Client([a, b])]) == [RolePrefix + a, RolePrefix + b]
  {
    BareRole(a);
    BareRole(b);
    ClientConverts([a, b]);
    StringAuthorities([a, b]);
  }

  lemma ClientBare(c: string)
    requires Bare(c)
    ensures ClientAuthorities([Client([c])]) == [RolePrefix + c]
  {
    BareRole(c);
    ClientConverts([c]);
    StringAuthorities([c]);
  }

  /** A token with only resource_access converts to the roles of its clients. */
  lemma ResourceTokenConverts(n1: string, x: Value, n2: string, y: Value)
    ensures Convert(ResourceToken([Field(n1, x), Field(n2, y)])) == ClientAuthorities([x, y])
  {
    assert Values([Field(n1, x), Field(n2, y)]) == [x, y];
  }

  /** Two clients, listing two and one bare roles, grant all three in order. */
  lemma ResourceBareRoles(n1: string, a: string, b: string, n2: string, c: string)
    requires Bare(a) && Bare(b) && Bare(c)
    ensures Convert(ResourceToken([Field(n1, Client([a, b])), Field(n2, Client([c]))]))
              == [RolePrefix + a, RolePrefix + b, RolePrefix + c]
  {
    var x, y := Client([a, b]), Client([c]);
    assert Convert(ResourceToken([Field(n1, x), Field(n2, y)])) == ClientAuthorities([x, y]) by {
      ResourceTokenConverts(n1, x, n2, y);
    }
    assert ClientAuthorities([x, y]) == ClientAuthorities([x]) + ClientAuthorities([y]) by {
      assert [x] + [y] == [x, y];
      ClientAuthoritiesAppend([x], [y]);
    }
    assert ClientAuthorities([x]) == [RolePrefix + a, RolePrefix + b] by {
      ClientBarePair(a, b);
    }
    assert ClientAuthorities([y]) == [RolePrefix + c] by {
      ClientBare(c);
    }
  }

  /** Listing two clients the other way round grants the same roles. */
  lemma ResourceSwap(n1: string, x: Value, n2: string, y: Value)
    ensures multiset(Convert(ResourceToken([Field(n2, y), Field(n1, x)])))
              == multiset(Convert(ResourceToken([Field(n1, x), Field(n2, y)])))
  {
    ResourceTokenConverts(n1, x, n2, y);
    ResourceTokenConverts(n2, y, n1, x);
    assert multiset([y, x]) == multiset([x, y]);
    ClientOrderIrrelevant([y, x], [x, y]);
  }

  /** With realm_access.roles listing one bare role, resource_access is ignored. */
  lemma RealmOverResource(a: string, resource: Value)
    requires Bare(a)
    ensures Convert(Jwt([Field("realm_access", Obj([Field("roles", Arr(Strings([a])))])),
                         Field("resource_access", resource)])) == [RolePrefix + a]
  {
    var jwt := Jwt([Field("realm_access", Obj([Field("roles", Arr(Strings([a])))])),
                    Field("resource_access", resource)]);
    RealmRolesTakePriority(jwt, RealmToken([a]));
    RealmTokenConverts([a]);
    SingleAuthority(a);
    BareRole(a);
  }

  lemma SingleAuthority(a: string)
    ensures Authorities(Strings([a])) == [NormalizeRole(Some(a))]
  {
    var auth := Authorities(Strings([a]));
    StringAuthorities([a]);
    assert auth == [auth[0]];
  }

  // ---------------------------------------------------------------------------
  // The tests

  /** Roles without the prefix get it. */
  lemma RealmAccessRoles()
    ensures Convert(RealmToken(["master_admin", "HUB_MANAGER"])) ==
              [RolePrefix + "master_admin", RolePrefix + "HUB_MANAGER"]
  {
    RealmBarePair("master_admin", "HUB_MANAGER");
  }

  /** Without realm_access, the roles of every client are collected. */
  lemma ResourceAccessRoles()
    ensures Convert(ResourceToken([Field("client-a", Client(["VENDOR_AGENT", "SHIPPING_AGENT"])),
                                   Field("client-b", Client(["MASTER_MANAGER"]))]))
              == [RolePrefix + "VENDOR_AGENT", RolePrefix + "SHIPPING_AGENT", RolePrefix + "MASTER_MANAGER"]
  {
    ResourceBareRoles("client-a", "VENDOR_AGENT", "SHIPPING_AGENT", "client-b", "MASTER_MANAGER");
  }

  /** The map's iteration order does not change which roles are granted. */
  lemma ResourceAccessOrderIrrelevant()
    ensures multiset(Convert(ResourceToken([Field("client-b", Client(["MASTER_MANAGER"])),
                                            Field("client-a", Client(["VENDOR_AGENT", "SHIPPING_AGENT"]))])))
              == multiset{RolePrefix + "VENDOR_AGENT", RolePrefix + "SHIPPING_AGENT", RolePrefix + "MASTER_MANAGER"}
  {
    ResourceSwap("client-a", Client(["VENDOR_AGENT", "SHIPPING_AGENT"]), "client-b", Client(["MASTER_MANAGER"]));
    ResourceAccessRoles();
  }

  /** With both claims, only realm_access counts. */
  lemma RealmAccessHasPriority()
    ensures var jwt := Jwt([Field("realm_access", Obj([Field("roles", Arr(Strings(["realm_role"])))])),
                            Field("resource_access", Obj([Field("client", Client(["client_role"]))]))]);
            && Convert(jwt) == [RolePrefix + "realm_role"]
            && RolePrefix + "client_role" !in Convert(jwt)
  {
    RealmOverResource("realm_role", Obj([Field("client", Client(["client_role"]))]));
    assert (RolePrefix + "client_role")[5] != (RolePrefix + "realm_role")[5];
  }

  /** An already prefixed role is kept as it is; the others get the prefix. */
  lemma AlreadyPrefixedRole()
    ensures Convert(RealmToken(["ROLE_MASTER_MANAGER", "SHIPPING_AGENT"])) ==
              ["ROLE_MASTER_MANAGER", RolePrefix + "SHIPPING_AGENT"]
  {
    RealmPrefixedThenBare("ROLE_MASTER_MANAGER", "SHIPPING_AGENT");
  }

  /** An empty realm_access.roles grants nothing. */
  lemma NoRoles()
    ensures Convert(RealmToken([])) == []
  {
    NoSourcesNoRoles(RealmToken([]));
  }
}
