/** The verified JWT as the gateway sees it: a loosely typed claim map, the Java
    toString() of its values, and the Keycloak layout of role claims
    (realm_access.roles and resource_access.<client>.roles). */
module Claims {
  import opened Wrappers
  import opened JavaStrings

  /** A JSON-typed claim value. A map is given by its entries in the map's own
      iteration order, which Java leaves unspecified for a HashMap. */
  datatype Value =
    | Str(s: string)
    | Other(text: string)    // a number or a boolean, carried as its toString() text
    | Null
    | Arr(items: seq<Value>)
    | Obj(fields: seq<Field>)

  datatype Field = Field(name: string, value: Value)

  /** The token: its claim map. */
  datatype Jwt = Jwt(claims: seq<Field>)

  /** Map.containsKey / Map.get, as an option: None when the key is absent,
      Some(Null) when it maps to null. */
  function Lookup(fields: seq<Field>, name: string): (r: Option<Value>)
    ensures r.None? <==> forall i :: 0 <= i < |fields| ==> fields[i].name != name
    ensures r.Some? ==> exists i :: 0 <= i < |fields| && fields[i] == Field(name, r.value)
  {
    if |fields| == 0 then None
    else if fields[0].name == name then Some(fields[0].value)
    else Lookup(fields[1..], name)
  }

  /** The first entry under a name is the one found. */
  lemma {:induction false} LookupFirst(fields: seq<Field>, i: int)
    requires 0 <= i < |fields|
    requires forall j :: 0 <= j < i ==> fields[j].name != fields[i].name
    ensures Lookup(fields, fields[i].name) == Some(fields[i].value)
  {
    if i > 0 {
      LookupFirst(fields[1..], i - 1);
    }
  }

  /** Map.get: null both for an absent key and for a key mapped to null. */
  function Get(fields: seq<Field>, name: string): Value {
    match Lookup(fields, name)
    case Some(v) => v
    case None => Null
  }

  /** Map.values(), in iteration order. */
  function Values(fields: seq<Field>): (r: seq<Value>)
    ensures |r| == |fields|
    ensures forall i :: 0 <= i < |fields| ==> r[i] == fields[i].value
  {
    seq(|fields|, i requires 0 <= i < |fields| => fields[i].value)
  }

  /** The map without its entries for `name`. */
  function Remove(fields: seq<Field>, name: string): (r: seq<Field>)
    ensures Lookup(r, name).None?
  {
    if |fields| == 0 then []
    else if fields[0].name == name then Remove(fields[1..], name)
    else [fields[0]] + Remove(fields[1..], name)
  }

  /** Removing one key leaves every other key's lookup as it was. */
  lemma {:induction false} LookupAfterRemove(fields: seq<Field>, name: string, other: string)
    requires other != name
    ensures Lookup(Remove(fields, name), other) == Lookup(fields, other)
  {
    if |fields| > 0 {
      LookupAfterRemove(fields[1..], name, other);
    }
  }

  /** Object.toString() of a claim value: a string is itself, null is "null", a list
      is "[a, b]" and a map is "{k=v, k2=v2}" (AbstractCollection / AbstractMap). */
  function Render(v: Value): (r: string)
    ensures v.Str? ==> r == v.s
    ensures v.Null? ==> r == "null"
    ensures v.Arr? ==> |r| >= 2 && r[0] == '[' && r[|r| - 1] == ']'
    ensures v.Obj? ==> |r| >= 2 && r[0] == '{' && r[|r| - 1] == '}'
    ensures v.Arr? && |v.items| == 1 ==> r == "[" + Render(v.items[0]) + "]"
    decreases v
  {
    match v
    case Str(s) => s
    case Other(t) => t
    case Null => "null"
    case Arr(items) =>
      "[" + Join(seq(|items|, i requires 0 <= i < |items| => Render(items[i])), ", ") + "]"
    case Obj(fields) =>
      "{" + Join(seq(|fields|, i requires 0 <= i < |fields| =>
                       fields[i].name + "=" + Render(fields[i].value)), ", ") + "}"
  }

  /** Jwt.hasClaim. */
  predicate HasClaim(jwt: Jwt, name: string) {
    Lookup(jwt.claims, name).Some?
  }

  /** Jwt.getClaim: the raw value, null when absent. */
  function GetClaim(jwt: Jwt, name: string): Value {
    Get(jwt.claims, name)
  }

  /** Jwt.getClaimAsString: null for an absent or null claim, else the value's toString(). */
  function ClaimAsString(jwt: Jwt, name: string): (r: Option<string>)
    ensures r.None? <==> Lookup(jwt.claims, name) in {None, Some(Null)}
    ensures Lookup(jwt.claims, name).Some? && Lookup(jwt.claims, name).value.Str? ==>
              r == Some(Lookup(jwt.claims, name).value.s)
  {
    match Lookup(jwt.claims, name)
    case Some(v) => if v.Null? then None else Some(Render(v))
    case None => None
  }

  /** Jwt.getSubject: the "sub" claim as a string. */
  function Subject(jwt: Jwt): Option<string> {
    ClaimAsString(jwt, "sub")
  }

  /** What one resource_access client entry contributes: its "roles" collection when
      the entry is a map holding one, and nothing otherwise. */
  function RolesOf(client: Value): seq<Value> {
    match client
    case Obj(fields) => (match Get(fields, "roles") case Arr(items) => items case _ => [])
    case _ => []
  }

  /** The role elements of every client entry, concatenated in iteration order. */
  function ClientRoleItems(clients: seq<Value>): seq<Value> {
    if |clients| == 0 then [] else RolesOf(clients[0]) + ClientRoleItems(clients[1..])
  }

  /** Concatenating the client lists concatenates their role elements. */
  lemma {:induction false} ClientRoleItemsAppend(a: seq<Value>, b: seq<Value>)
    ensures ClientRoleItems(a + b) == ClientRoleItems(a) + ClientRoleItems(b)
  {
    if |a| == 0 {
      assert a + b == b;
    } else {
      calc {
        ClientRoleItems(a + b);
        RolesOf((a + b)[0]) + ClientRoleItems((a + b)[1..]);
        { assert (a + b)[0] == a[0]; assert (a + b)[1..] == a[1..] + b; }
        RolesOf(a[0]) + ClientRoleItems(a[1..] + b);
        { ClientRoleItemsAppend(a[1..], b); }
        RolesOf(a[0]) + (ClientRoleItems(a[1..]) + ClientRoleItems(b));
        (RolesOf(a[0]) + ClientRoleItems(a[1..])) + ClientRoleItems(b);
        ClientRoleItems(a) + ClientRoleItems(b);
      }
    }
  }

  /** One more client entry appends its roles. */
  lemma ClientRoleItemsSnoc(clients: seq<Value>, last: Value)
    ensures ClientRoleItems(clients + [last]) == ClientRoleItems(clients) + RolesOf(last)
  {
    ClientRoleItemsAppend(clients, [last]);
    assert [last][1..] == [];
  }

  /** Cutting the client list anywhere cuts its role elements at the same place. */
  lemma ClientRoleItemsSplit(clients: seq<Value>, j: nat)
    requires j <= |clients|
    ensures ClientRoleItems(clients) == ClientRoleItems(clients[..j]) + ClientRoleItems(clients[j..])
  {
    SplitAt(clients, j);
    ClientRoleItemsAppend(clients[..j], clients[j..]);
  }

  lemma SplitAt<T>(s: seq<T>, j: nat)
    requires j <= |s|
    ensures s[..j] + s[j..] == s
  {
  }

  /** An element occurs among the client role elements exactly when some client entry
      lists it under "roles". */
  lemma {:induction false} ClientRoleItemsMembership(clients: seq<Value>, e: Value)
    ensures e in ClientRoleItems(clients) <==> exists j :: 0 <= j < |clients| && e in RolesOf(clients[j])
  {
    if |clients| > 0 {
      var rest := clients[1..];
      ClientRoleItemsMembership(rest, e);
      if e in ClientRoleItems(clients) && e !in RolesOf(clients[0]) {
        var j :| 0 <= j < |rest| && e in RolesOf(rest[j]);
        assert clients[j + 1] == rest[j];
      }
      if exists j :: 0 <= j < |clients| && e in RolesOf(clients[j]) {
        var j :| 0 <= j < |clients| && e in RolesOf(clients[j]);
        if j > 0 {
          assert rest[j - 1] == clients[j];
        }
      }
    }
  }
}
