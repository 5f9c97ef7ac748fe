/** KeycloakClientRoleConverter.convert as its Reactor pipeline runs. Flux.fromIterable
    rejects a null element with a NullPointerException before the
    filter(Objects::nonNull) placed after it can drop it. So a null realm role, a
    null resource_access client value or a null client role ends the Flux with an
    error, after the authorities of everything before it have been emitted. */
module KeycloakConverterPipeline {
  import opened Wrappers
  import opened Claims
  import opened KeycloakClientRoleConverter

  /** How the Flux of authorities ends: it completes, or Flux.fromIterable signals
      a NullPointerException because its iterator returned a null element. */
  datatype Termination = Completed | NullElement

  /** What a subscriber sees: the authorities emitted, in order, and how the Flux
      ended. */
  datatype Emission = Emission(emitted: seq<string>, end: Termination)

  /** `a` is an initial segment of `b`. */
  predicate Prefix<T(==)>(a: seq<T>, b: seq<T>) {
    |a| <= |b| && a == b[..|a|]
  }

  /** The elements before the first null one. */
  function UpToNull(items: seq<Value>): (r: seq<Value>)
    ensures Prefix(r, items) && Null !in r
    ensures |r| < |items| ==> items[|r|] == Null
  {
    if |items| == 0 || items[0] == Null then []
    else [items[0]] + UpToNull(items[1..])
  }

  /** Without a null, nothing is cut off. */
  lemma UpToNullWhole(items: seq<Value>)
    ensures Null !in items ==> UpToNull(items) == items
  {
  }

  lemma PrefixTransitive<T>(a: seq<T>, b: seq<T>, c: seq<T>)
    requires Prefix(a, b) && Prefix(b, c)
    ensures Prefix(a, c)
  {
    assert c[..|b|][..|a|] == c[..|a|];
  }

  /** A null in the first part stops the stream there; otherwise the stream runs
      through the first part into the second. */
  lemma {:induction false} UpToNullAppend(a: seq<Value>, b: seq<Value>)
    ensures UpToNull(a + b) == if Null in a then UpToNull(a) else a + UpToNull(b)
  {
    if |a| == 0 {
      assert a + b == b;
    } else {
      var x, rest := a[0], a[1..];
      assert (a + b)[0] == x && (a + b)[1..] == rest + b;
      if x != Null {
        assert a == [x] + rest;
        assert Null in a <==> Null in rest;
        assert UpToNull(a + b) == [x] + UpToNull(rest + b);
        UpToNullAppend(rest, b);
      }
    }
  }

  /** Flux.fromIterable(items).filter(nonNull).map(toString).map(normalizeRole):
      the authority of each element in turn, until the first null element fails
      the Flux. */
  function RolesAsWritten(items: seq<Value>): (r: Emission)
    ensures r.end == Completed <==> Null !in items
    ensures r.emitted == Authorities(UpToNull(items))
  {
    if |items| == 0 then Emission([], Completed)
    else if items[0] == Null then Emission([], NullElement)
    else
      var rest := RolesAsWritten(items[1..]);
      AuthoritiesCons(items[0], UpToNull(items[1..]));
      Emission([Authority(items[0])] + rest.emitted, rest.end)
  }

  /** A non-null element contributes its authority ahead of the rest. */
  lemma AuthoritiesCons(x: Value, rest: seq<Value>)
    requires !x.Null?
    ensures Authorities([x] + rest) == [Authority(x)] + Authorities(rest)
  {
    assert Authorities([x]) == [Authority(x)] by {
      assert NonNull([x]) == [x];
    }
    AuthoritiesAppend([x], rest);
  }

  /** The authorities of a prefix are a prefix of the authorities. */
  lemma AuthoritiesPrefix(a: seq<Value>, b: seq<Value>)
    requires Prefix(a, b)
    ensures Prefix(Authorities(a), Authorities(b))
  {
    assert b == a + b[|a|..];
    AuthoritiesAppend(a, b[|a|..]);
  }

  /** The role elements of a prefix of the clients are a prefix of the role
      elements. */
  lemma ClientRoleItemsPrefix(a: seq<Value>, b: seq<Value>)
    requires Prefix(a, b)
    ensures Prefix(ClientRoleItems(a), ClientRoleItems(b))
  {
    assert b == a + b[|a|..];
    ClientRoleItemsAppend(a, b[|a|..]);
  }

  /** The resource_access branch: fromIterable over the client values stops at a
      null value, and the flatMap'd fromIterable over one client's roles stops at
      a null role. What is emitted is the authorities of the role elements of the
      clients before the first null value, up to the first null role among them. */
  function ClientsAsWritten(clients: seq<Value>): (r: Emission)
    ensures r.end == Completed <==> Null !in clients && Null !in ClientRoleItems(clients)
    ensures r.emitted == Authorities(UpToNull(ClientRoleItems(UpToNull(clients))))
  {
    if |clients| == 0 then Emission([], Completed)
    else if clients[0] == Null then Emission([], NullElement)
    else
      var c, tail := clients[0], clients[1..];
      assert clients == [c] + tail;
      var head := RolesAsWritten(RolesOf(c));
      var rest := ClientsAsWritten(tail);
      ClientsStep(c, tail);
      UpToNullWhole(RolesOf(c));
      if head.end == NullElement then head
      else Emission(head.emitted + rest.emitted, rest.end)
  }

  /** How one non-null client value extends the stream of role elements. */
  lemma ClientsStep(c: Value, tail: seq<Value>)
    requires c != Null
    ensures ClientRoleItems([c] + tail) == RolesOf(c) + ClientRoleItems(tail)
    ensures UpToNull(ClientRoleItems(UpToNull([c] + tail))) ==
              if Null in RolesOf(c) then UpToNull(RolesOf(c))
              else RolesOf(c) + UpToNull(ClientRoleItems(UpToNull(tail)))
    ensures Null !in RolesOf(c) ==>
              Authorities(UpToNull(ClientRoleItems(UpToNull([c] + tail)))) ==
              Authorities(RolesOf(c)) + Authorities(UpToNull(ClientRoleItems(UpToNull(tail))))
  {
    var s := [c] + tail;
    assert s[0] == c && s[1..] == tail;
    var u := UpToNull(tail);
    assert UpToNull(s) == [c] + u;
    assert ([c] + u)[0] == c && ([c] + u)[1..] == u;
    UpToNullAppend(RolesOf(c), ClientRoleItems(u));
    AuthoritiesAppend(RolesOf(c), UpToNull(ClientRoleItems(u)));
  }

  /** Over one roles collection the pipeline emits a prefix of the intended
      authorities, and all of them when it completes. */
  lemma RolesAsWrittenPrefix(items: seq<Value>)
    ensures Prefix(RolesAsWritten(items).emitted, Authorities(items))
    ensures RolesAsWritten(items).end == Completed ==> RolesAsWritten(items).emitted == Authorities(items)
  {
    AuthoritiesPrefix(UpToNull(items), items);
    UpToNullWhole(items);
  }

  /** Over the resource_access clients the pipeline emits a prefix of the
      intended authorities, and all of them when it completes. */
  lemma ClientsAsWrittenPrefix(clients: seq<Value>)
    ensures Prefix(ClientsAsWritten(clients).emitted, ClientAuthorities(clients))
    ensures ClientsAsWritten(clients).end == Completed ==>
              ClientsAsWritten(clients).emitted == ClientAuthorities(clients)
  {
    var items := ClientRoleItems(UpToNull(clients));
    ClientRoleItemsPrefix(UpToNull(clients), clients);
    PrefixTransitive(UpToNull(items), items, ClientRoleItems(clients));
    AuthoritiesPrefix(UpToNull(items), ClientRoleItems(clients));
    UpToNullWhole(clients);
    UpToNullWhole(ClientRoleItems(clients));
  }

  /** convert as the pipeline runs. */
  function ConvertAsWritten(jwt: Jwt): (r: Emission)
    ensures r.end == NullElement ==> HasClaim(jwt, "realm_access") || HasClaim(jwt, "resource_access")
  {
    match RealmRoles(jwt)
    case Some(items) => RolesAsWritten(items)
    case None =>
      match Get(jwt.claims, "resource_access")
      case Obj(fields) => ClientsAsWritten(Values(fields))
      case _ => Emission([], Completed)
  }

  /** What the pipeline emits is an initial segment of what the intended
      converter grants, and all of it when the pipeline completes. */
  lemma AsWrittenEmitsPrefix(jwt: Jwt)
    ensures Prefix(ConvertAsWritten(jwt).emitted, Convert(jwt))
    ensures ConvertAsWritten(jwt).end == Completed ==> ConvertAsWritten(jwt).emitted == Convert(jwt)
  {
    match RealmRoles(jwt)
    case Some(items) =>
      RolesAsWrittenPrefix(items);
    case None =>
      match Get(jwt.claims, "resource_access")
      case Obj(fields) =>
        ClientsAsWrittenPrefix(Values(fields));
      case _ =>
  }

  /** The pipeline fails exactly when a collection it iterates holds a null: a
      realm role, a resource_access client value, or a client role. */
  lemma AsWrittenFailsOnNull(jwt: Jwt)
    ensures ConvertAsWritten(jwt).end == NullElement <==>
              match RealmRoles(jwt)
              case Some(items) => Null in items
              case None =>
                match Get(jwt.claims, "resource_access")
                case Obj(fields) => Null in Values(fields) || Null in ClientRoleItems(Values(fields))
                case _ => false
  {
  }

  /** realm_access.roles = ["admin", null]: the pipeline emits ROLE_admin and then
      fails, while the intended converter grants ROLE_admin. */
  lemma NullRealmRoleDiverges()
    ensures var jwt := Jwt([Field("realm_access", Obj([Field("roles", Arr([Str("admin"), Null]))]))]);
            ConvertAsWritten(jwt) == Emission([RolePrefix + "admin"], NullElement) &&
            Convert(jwt) == [RolePrefix + "admin"]
  {
    var jwt := Jwt([Field("realm_access", Obj([Field("roles", Arr([Str("admin"), Null]))]))]);
    assert RealmRoles(jwt) == Some([Str("admin"), Null]);
    RoleThenNull(jwt, Str("admin"));
    NormalizeBareRole();
    assert RolePrefix + "admin" == "ROLE_admin";
  }

  /** A realm role followed by a null: its authority is emitted, then the Flux
      fails; the intended converter grants that authority alone. */
  lemma RoleThenNull(jwt: Jwt, x: Value)
    requires x != Null && RealmRoles(jwt) == Some([x, Null])
    ensures ConvertAsWritten(jwt) == Emission([Authority(x)], NullElement)
    ensures Convert(jwt) == [Authority(x)]
  {
    var items := [x, Null];
    assert ConvertAsWritten(jwt) == RolesAsWritten(items);
    assert Convert(jwt) == Authorities(items);
    assert UpToNull(items) == [x] by {
      assert items[1..] == [Null];
    }
    assert Authorities(items) == [Authority(x)] by {
      assert items == [x] + [Null];
      AuthoritiesCons(x, [Null]);
      assert NonNull([Null]) == [];
    }
    assert Authorities([x]) == [Authority(x)] by {
      assert [x] == [x] + [];
      AuthoritiesCons(x, []);
    }
  }

  /** resource_access = {web: null}: the pipeline fails, while the intended
      converter skips the client and grants nothing. */
  lemma NullClientDiverges()
    ensures var jwt := Jwt([Field("resource_access", Obj([Field("web", Null)]))]);
            ConvertAsWritten(jwt) == Emission([], NullElement) && Convert(jwt) == []
  {
    var fields := [Field("web", Null)];
    var jwt := Jwt([Field("resource_access", Obj(fields))]);
    assert RealmRoles(jwt) == None;
    assert Get(jwt.claims, "resource_access") == Obj(fields);
    assert Values(fields) == [Null];
    assert ClientRoleItems([Null]) == [];
    assert ClientsAsWritten([Null]) == Emission([], NullElement);
  }
}
