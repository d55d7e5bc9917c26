/**
 The two ways of authorizing, run side by side on one snapshot of the tables.
 */
module AuthorizationAgreement {
  import opened Strings
  import opened Authorization
  import opened AuthorizationFacts
  import opened AuthorizationBatch
  import AuthorizationSingle

  /** The requests on which the two ways part: no resource named, or a super-admin naming no action. */
  predicate Parts(t: Tables, userId: string, r: Request)
  {
    var user, kind, id := Trim(userId), Trim(r.resourceType), Trim(r.resourceId);
    && user != "" && user in t.subjects
    && ((kind == "" && id == "") || (t.subjects[user].superAdmin && kind != "" && id != "" && ActionsOf(r.actions) == {}))
  }

  /** Both ways on the same requests: they give the same decision, with the same reason, exactly outside those two kinds. */
  method AuthorizeBothWays(t: Tables, userId: string, requests: seq<Request>) returns (batch: seq<Decision>, single: seq<Decision>)
    requires WellFormed(t)
    ensures |batch| == |single| == |requests|
    ensures forall i | 0 <= i < |requests| && Clear(requests, i) ::
              batch[i] == single[i] <==> !Parts(t, userId, requests[i])
  {
    hide WellFormed, Decide, DecideInBatch, Trim, ActionsOf, Clear;
    batch := AuthorizeBatch(t, userId, requests);
    single := [];
    for n := 0 to |requests|
      invariant |single| == n
      invariant forall i | 0 <= i < n && Clear(requests, i) ::
                  batch[i] == single[i] <==> !Parts(t, userId, requests[i])
    {
      BatchAgreesExactlyWhen(t, userId, requests[n]);
      var d := AuthorizationSingle.Authorize(t, userId, requests[n]);
      single := single + [d];
    }
  }

  // A type with NUL in it: the index takes the resource for another one.

  const TYPE: string := HOST + [NUL] + "a"
  const OTHER: string := "a" + [NUL] + "b"
  const COLLIDING: Tables := NO_TABLES.(
    hosts := map[OTHER := "team"],
    groups := map["g" := Group("team", "resource")],
    grants := map["u" := [Grant(GROUP, "g", "allow")]])

  /** Asked for a resource of that type together with the host, the batch grants it; asked for it alone, it is refused. */
  method GrantByCollision() returns (batch: bool, single: bool)
    ensures batch && !single
  {
    hide Trim, FactsFor, Proper, GrantGroupHolds;
    var r, host := BatchRequest(TYPE, "b", []), BatchRequest(HOST, OTHER, []);
    ghost var gs := GrantsOf(COLLIDING, "u");
    assert WellFormed(COLLIDING);
    var f := LoadBatchFacts(COLLIDING, [r, host], ["g"]);
    assert "g" in Elems(["g"]) && gs == [Grant(GROUP, "g", "allow")];
    Collides(f, r, host);
    batch := DecideGrant(COLLIDING, f, "u", r, [r, host], Elems(["g"]));
    assert gs[0] in gs;
    TrimKeeps("u");
    TrimKeeps(TYPE);
    TrimKeeps("b");
    single := AuthorizationSingle.HasGrant(COLLIDING, "u", TYPE, "b");
    NoHost(r);
  }

  lemma Collides(f: Facts, r: BatchRequest, host: BatchRequest)
    requires r == BatchRequest(TYPE, "b", []) && host == BatchRequest(HOST, OTHER, [])
    requires FactsFor(COLLIDING, f, [r, host], Elems(["g"]))
    ensures BatchGrantHits(f, Grant(GROUP, "g", "allow"), r)
  {
    hide Trim, FactsFor, Truth, Key;
    var key := Key(HOST, OTHER);
    SameKey();
    IndexOfHost(f, r, host);
    assert At(f, key).resource == "team" && Get(f.resourceGroups, "g") == "team";
    NotAudited();
  }

  lemma SameKey()
    ensures Key(TYPE, "b") == Key(HOST, OTHER)
  {
  }

  lemma HostIsApart(r: BatchRequest, host: BatchRequest)
    requires r == BatchRequest(TYPE, "b", []) && host == BatchRequest(HOST, OTHER, [])
    ensures Apart([r, host], host)
  {
    hide Key;
    NotAudited();
  }

  lemma IndexOfHost(f: Facts, r: BatchRequest, host: BatchRequest)
    requires r == BatchRequest(TYPE, "b", []) && host == BatchRequest(HOST, OTHER, [])
        && FactsFor(COLLIDING, f, [r, host], Elems(["g"]))
    ensures At(f, Key(HOST, OTHER)).resource == "team" && Get(f.resourceGroups, "g") == "team"
  {
    hide Trim, At, Key;
    assert "g" in Elems(["g"]) && host in [r, host];
    TrimKeeps(OTHER);
    assert Proper([r, host], host) by { HostIsApart(r, host); }
  }

  lemma NotAudited()
    ensures TYPE !in AUDITED && TYPE != PLATFORM_ACCOUNT
  {
    assert TYPE[4] == NUL && |TYPE| == 6;
    assert |HOST| == 4 && |GROUP| == 14 && |ACCOUNT_GROUP| == 13 && |DATABASE_INSTANCE| == 17 && |APPLICATION| == 11;
    assert |PLATFORM_ACCOUNT| == 16 && |CONTAINER_ENDPOINT| == 18 && |HOST_ACCOUNT| == 12 && |DATABASE_ACCOUNT| == 16;
  }

  lemma NoHost(r: BatchRequest)
    requires r == BatchRequest(TYPE, "b", [])
    ensures !Granted(COLLIDING, "u", r.kind, r.id)
  {
    NotAudited();
    assert |GROUP| == 14;
    assert GROUP != TYPE;
  }
}
