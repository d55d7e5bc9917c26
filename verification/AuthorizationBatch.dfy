/**
 Authorizing many requests of one user from one index. Each decision is the one the
 request would get alone, whatever else the batch holds.
 */
module AuthorizationBatch {
  import opened Strings
  import opened Authorization
  import opened AuthorizationFacts
  import AuthorizationSingle

  // -------------------------------------------------------- the whole index

  /** The types whose resources are recorded under a name. */
  const NAMED: set<string> :=
    {HOST, DATABASE_INSTANCE, APPLICATION, PLATFORM_ACCOUNT, CONTAINER_ENDPOINT, HOST_ACCOUNT, DATABASE_ACCOUNT}

  /** No other resource in the batch is recorded under the key of this one. */
  predicate Apart(requests: seq<BatchRequest>, r: BatchRequest)
  {
    forall q | q in requests && q.kind in NAMED && Key(q.kind, q.id) == Key(r.kind, r.id) :: q.kind == r.kind
  }

  /** A request the index answers for. */
  predicate Proper(requests: seq<BatchRequest>, r: BatchRequest)
  {
    Trim(r.id) != "" && Apart(requests, r)
  }

  /** The index has the names of the resource right and, where it is looked up, whether it is active. */
  predicate TellsTruth(t: Tables, f: Facts, r: BatchRequest)
  {
    var v, u := At(f, Key(r.kind, r.id)), Truth(t, r.kind, r.id);
    && v.permission == u.permission && v.resource == u.resource && v.account == u.account
    && (r.kind in AUDITED ==> v.active == u.active)
  }

  predicate ParentsOk(t: Tables, f: Facts, r: BatchRequest)
  {
    && (r.kind == HOST_ACCOUNT && HostAccountActive(t, r.id) ==> Get(f.hostOf, r.id) == t.hostAccounts[r.id].parent)
    && (r.kind == DATABASE_ACCOUNT && DatabaseAccountActive(t, r.id) ==> Get(f.instanceOf, r.id) == t.databaseAccounts[r.id].parent)
  }

  /** The index tells the truth about the requests and the groups asked for. */
  predicate FactsFor(t: Tables, f: Facts, requests: seq<BatchRequest>, groupIds: set<string>)
  {
    && GroupsRecorded(t, f, groupIds)
    && forall r | r in requests && Proper(requests, r) :: TellsTruth(t, f, r) && ParentsOk(t, f, r)
  }

  function Wanted(requests: seq<BatchRequest>, kind: string): set<string>
  {
    set r | r in requests && r.kind == kind && Trim(r.id) != "" :: r.id
  }

  /** The types in `kinds` are loaded; nothing is recorded of any other. */
  ghost predicate Progress(t: Tables, f: Facts, requests: seq<BatchRequest>, kinds: set<string>)
  {
    && (forall kind, id | kind in kinds && id in Wanted(requests, kind) :: At(f, Key(kind, id)) == Truth(t, kind, id))
    && (forall kind | NUL !in kind && kind !in kinds :: Unset(f, kind))
  }

  lemma ProgressStep(t: Tables, f: Facts, f': Facts, requests: seq<BatchRequest>, kinds: set<string>, kind: string)
    requires Progress(t, f, requests, kinds) && Recorded(t, f, f', kind, Wanted(requests, kind))
    requires kind !in kinds && NUL !in kind && forall k | k in kinds :: NUL !in k
    ensures Progress(t, f', requests, kinds + {kind})
  {
    hide At, Truth, Key, Wanted, Under;
    forall k, id | NUL !in k && k != kind
      ensures At(f', Key(k, id)) == At(f, Key(k, id))
    {
      KeysApart(k, id, kind);
    }
    forall k | NUL !in k && k !in kinds + {kind}
      ensures Unset(f', k)
    {
      assert Unset(f, k);
    }
  }

  predicate HasName(v: View)
  {
    v.permission != "" || v.resource != "" || v.account != ""
  }

  /** Names are recorded only for resources that were asked for. */
  ghost predicate Sourced(f: Facts, requests: seq<BatchRequest>)
  {
    forall key: string | HasName(At(f, key)) :: exists q | q in requests && q.kind in NAMED :: Key(q.kind, q.id) == key
  }

  lemma SourcedStep(t: Tables, f: Facts, f': Facts, requests: seq<BatchRequest>, kind: string)
    requires Sourced(f, requests) && Recorded(t, f, f', kind, Wanted(requests, kind)) && kind in NAMED
    ensures Sourced(f', requests)
  {
    hide At, Truth, Trim;
    forall key: string | HasName(At(f', key))
      ensures exists q | q in requests && q.kind in NAMED :: Key(q.kind, q.id) == key
    {
      if Under(kind, key) {
        var id := key[|kind| + 1..];
        assert key == Key(kind, id);
        assert id in Wanted(requests, kind);
        var q :| q in requests && q.kind == kind && q.id == id;
        assert Key(q.kind, q.id) == key;
      } else {
        assert At(f', key) == At(f, key);
      }
    }
  }

  lemma GroupsSourced(t: Tables, f: Facts, requests: seq<BatchRequest>, done: set<string>)
    requires GroupsActive(t, f, done)
    ensures Sourced(f, requests)
  {
    hide At;
    forall key: string
      ensures !HasName(At(f, key))
    {
      if Under(GROUP, key) {
        assert key == Key(GROUP, key[|GROUP| + 1..]);
      } else if Under(ACCOUNT_GROUP, key) {
        assert key == Key(ACCOUNT_GROUP, key[|ACCOUNT_GROUP| + 1..]);
      }
    }
  }

  lemma GroupProgress(t: Tables, f: Facts, requests: seq<BatchRequest>, ids: set<string>)
    requires GroupsActive(t, f, ids * t.groups.Keys)
    requires Wanted(requests, GROUP) <= ids && Wanted(requests, ACCOUNT_GROUP) <= ids
    ensures Progress(t, f, requests, {GROUP, ACCOUNT_GROUP})
  {
    hide At, Key, Wanted, Under;
    forall id | id in ids
      ensures At(f, Key(GROUP, id)) == Truth(t, GROUP, id) && At(f, Key(ACCOUNT_GROUP, id)) == Truth(t, ACCOUNT_GROUP, id)
    {
    }
    forall kind | NUL !in kind && kind !in {GROUP, ACCOUNT_GROUP}
      ensures Unset(f, kind)
    {
      forall id: string
        ensures At(f, Key(kind, id)) == NO_VIEW
      {
        KeysApart(kind, id, GROUP);
        KeysApart(kind, id, ACCOUNT_GROUP);
      }
    }
  }

  /** The types in the order they are loaded. */
  function KindAt(n: nat): string
  {
    match n
    case 0 => GROUP
    case 1 => ACCOUNT_GROUP
    case 2 => HOST
    case 3 => DATABASE_INSTANCE
    case 4 => APPLICATION
    case 5 => PLATFORM_ACCOUNT
    case 6 => CONTAINER_ENDPOINT
    case 7 => HOST_ACCOUNT
    case _ => DATABASE_ACCOUNT
  }

  function Kinds(n: nat): set<string>
  {
    if n == 0 then {} else Kinds(n - 1) + {KindAt(n - 1)}
  }

  lemma KindsApart(m: nat, n: nat)
    requires m < n < 9
    ensures KindAt(m) != KindAt(n)
  {
    assert KindAt(m)[0] != KindAt(n)[0] || |KindAt(m)| != |KindAt(n)|;
  }

  lemma KindsNoNul(n: nat)
    ensures NUL !in KindAt(n)
  {
  }

  lemma {:induction false} KindsBefore(m: nat, n: nat)
    requires m <= n < 9
    ensures KindAt(n) !in Kinds(m) && forall k | k in Kinds(m) :: NUL !in k
  {
    hide KindAt;
    if m > 0 {
      KindsBefore(m - 1, n);
      KindsApart(m - 1, n);
      KindsNoNul(m - 1);
    }
  }

  lemma KindsAll()
    ensures Kinds(2) == {GROUP, ACCOUNT_GROUP} && Kinds(9) == AUDITED
  {
    hide KindAt;
    calc {
      Kinds(9);
      Kinds(6) + {KindAt(6)} + {KindAt(7)} + {KindAt(8)};
      Kinds(3) + {KindAt(3)} + {KindAt(4)} + {KindAt(5)} + {KindAt(6)} + {KindAt(7)} + {KindAt(8)};
      Kinds(0) + {KindAt(0)} + {KindAt(1)} + {KindAt(2)} + {KindAt(3)} + {KindAt(4)} + {KindAt(5)} + {KindAt(6)} + {KindAt(7)}
      + {KindAt(8)};
    }
    KindNames();
  }

  lemma KindNames()
    ensures KindAt(0) == GROUP && KindAt(1) == ACCOUNT_GROUP && KindAt(2) == HOST && KindAt(3) == DATABASE_INSTANCE
    ensures KindAt(4) == APPLICATION && KindAt(5) == PLATFORM_ACCOUNT && KindAt(6) == CONTAINER_ENDPOINT
    ensures KindAt(7) == HOST_ACCOUNT && KindAt(8) == DATABASE_ACCOUNT
  {
  }

  lemma KindsNamed(n: nat)
    requires 2 <= n < 9
    ensures KindAt(n) in NAMED
  {
  }

  lemma PlainKinds(n: nat)
    requires 2 <= n < 7
    ensures PlainKind(KindAt(n))
  {
  }

  /** Loads the nth type, one of those with a single group column. */
  method LoadKind(t: Tables, f: Facts, requests: seq<BatchRequest>, n: nat) returns (f': Facts)
    requires 2 <= n < 7 && Progress(t, f, requests, Kinds(n)) && Sourced(f, requests)
    ensures Progress(t, f', requests, Kinds(n + 1)) && Sourced(f', requests) && SameGroups(f, f') && SameParents(f, f')
  {
    hide At, Truth, Key, Progress, Recorded, Loaded, Unset, Trim, KindAt, PlainKind, Sourced;
    var kind := KindAt(n);
    KindsNamed(n);
    KindsBefore(n, n);
    KindsNoNul(n);
    PlainKinds(n);
    var ids := BatchIds(requests, kind);
    f' := f;
    ProgressUnset(t, f, requests, Kinds(n), kind);
    if |ids| > 0 {
      f' := LoadPlain(t, f, kind, ids);
      RecordedSame(t, f, f', kind, Elems(ids));
    } else {
      NothingRecorded(t, f, kind);
      assert Wanted(requests, kind) == Elems(ids) == {};
    }
    ProgressStep(t, f, f', requests, Kinds(n), kind);
    SourcedStep(t, f, f', requests, kind);
  }

  lemma ProgressUnset(t: Tables, f: Facts, requests: seq<BatchRequest>, kinds: set<string>, kind: string)
    requires Progress(t, f, requests, kinds) && NUL !in kind && kind !in kinds
    ensures Unset(f, kind)
  {
  }

  lemma RecordedSame(t: Tables, f: Facts, f': Facts, kind: string, ids: set<string>)
    requires Recorded(t, f, f', kind, ids)
    ensures SameGroups(f, f')
  {
  }

  lemma NothingRecorded(t: Tables, f: Facts, kind: string)
    requires Unset(f, kind)
    ensures Recorded(t, f, f, kind, {})
  {
  }

  /** Loads the index for a batch: groups first, then each table that is asked for. */
  method LoadBatchFacts(t: Tables, requests: seq<BatchRequest>, groupIds: seq<string>) returns (f: Facts)
    ensures FactsFor(t, f, requests, Elems(groupIds))
  {
    hide At, Truth, Key, Progress, Recorded, Loaded, Unset, Trim, GroupsRecorded, GroupsActive, FactsFor, HostParents,
        DatabaseParents, Kinds, KindAt, Sourced;
    var groups := BatchIds(requests, GROUP);
    var all := AppendUnique(groupIds, groups);
    var accountGroups := BatchIds(requests, ACCOUNT_GROUP);
    all := AppendUnique(all, accountGroups);
    f := LoadGroups(t, all);
    GroupProgress(t, f, requests, Elems(all));
    GroupsSourced(t, f, requests, Elems(all) * t.groups.Keys);
    KindsAll();
    ghost var g := f;
    f := LoadKind(t, f, requests, 2);
    f := LoadKind(t, f, requests, 3);
    f := LoadKind(t, f, requests, 4);
    f := LoadKind(t, f, requests, 5);
    f := LoadKind(t, f, requests, 6);
    f := LoadAccounts(t, f, requests);
    GroupsKept(t, g, f, Elems(groupIds), Elems(all));
    ProgressIsFacts(t, f, requests, Elems(groupIds), Kinds(9));
  }

  method LoadAccounts(t: Tables, f: Facts, requests: seq<BatchRequest>) returns (f': Facts)
    requires Progress(t, f, requests, Kinds(7)) && Sourced(f, requests)
    ensures Progress(t, f', requests, Kinds(9)) && Sourced(f', requests) && SameGroups(f, f')
    ensures HostParents(t, f', Wanted(requests, HOST_ACCOUNT) * ActiveHostAccounts(t))
    ensures DatabaseParents(t, f', Wanted(requests, DATABASE_ACCOUNT) * ActiveDatabaseAccounts(t))
  {
    hide At, Truth, Key, Progress, Recorded, Loaded, Unset, Trim, ActiveHostAccounts, ActiveDatabaseAccounts, KindAt,
        Sourced;
    KindNames();
    KindsBefore(7, 7);
    KindsBefore(8, 8);
    KindsNoNul(7);
    KindsNoNul(8);
    var hosts := BatchIds(requests, HOST_ACCOUNT);
    ProgressUnset(t, f, requests, Kinds(7), HOST_ACCOUNT);
    f' := LoadHostAccounts(t, f, hosts);
    RecordedSame(t, f, f', HOST_ACCOUNT, Elems(hosts));
    ProgressStep(t, f, f', requests, Kinds(7), HOST_ACCOUNT);
    SourcedStep(t, f, f', requests, HOST_ACCOUNT);
    var databases := BatchIds(requests, DATABASE_ACCOUNT);
    ProgressUnset(t, f', requests, Kinds(8), DATABASE_ACCOUNT);
    ghost var g := f';
    f' := LoadDatabaseAccounts(t, f', databases);
    RecordedSame(t, g, f', DATABASE_ACCOUNT, Elems(databases));
    ProgressStep(t, g, f', requests, Kinds(8), DATABASE_ACCOUNT);
    SourcedStep(t, g, f', requests, DATABASE_ACCOUNT);
  }

  lemma GroupsKept(t: Tables, g: Facts, f: Facts, ids: set<string>, all: set<string>)
    requires GroupsRecorded(t, g, all) && SameGroups(g, f) && ids <= all
    ensures GroupsRecorded(t, f, ids)
  {
  }

  lemma ProgressIsFacts(t: Tables, f: Facts, requests: seq<BatchRequest>, groupIds: set<string>, kinds: set<string>)
    requires Progress(t, f, requests, kinds) && Sourced(f, requests) && GroupsRecorded(t, f, groupIds) && kinds == AUDITED
    requires HostParents(t, f, Wanted(requests, HOST_ACCOUNT) * ActiveHostAccounts(t))
    requires DatabaseParents(t, f, Wanted(requests, DATABASE_ACCOUNT) * ActiveDatabaseAccounts(t))
    ensures FactsFor(t, f, requests, groupIds)
  {
    hide At, Key, GroupsRecorded, Truth, ParentsOk, HostParents, DatabaseParents, Trim, Sourced, Apart;
    forall r | r in requests && Proper(requests, r)
      ensures TellsTruth(t, f, r) && ParentsOk(t, f, r)
    {
      assert r.id in Wanted(requests, r.kind);
      if r.kind !in kinds {
        NoNameHere(f, requests, r);
        TruthOfOthers(t, r.kind, r.id);
      }
      ParentsAreOk(t, f, requests, r);
    }
  }

  /** Of a type that is not looked up, nothing is recorded, whatever its key. */
  lemma NoNameHere(f: Facts, requests: seq<BatchRequest>, r: BatchRequest)
    requires Sourced(f, requests) && Apart(requests, r) && r.kind !in AUDITED
    ensures !HasName(At(f, Key(r.kind, r.id)))
  {
    hide At, Key;
  }

  lemma ParentsAreOk(t: Tables, f: Facts, requests: seq<BatchRequest>, r: BatchRequest)
    requires r in requests && Proper(requests, r)
    requires HostParents(t, f, Wanted(requests, HOST_ACCOUNT) * ActiveHostAccounts(t))
    requires DatabaseParents(t, f, Wanted(requests, DATABASE_ACCOUNT) * ActiveDatabaseAccounts(t))
    ensures ParentsOk(t, f, r)
  {
    hide Trim;
    assert r.id in Wanted(requests, r.kind);
  }

  lemma TruthOfOthers(t: Tables, kind: string, id: string)
    requires kind !in AUDITED
    ensures Truth(t, kind, id) == NO_VIEW
  {
  }

  // ---------------------------------------------------------------- matching

  predicate IsActive(f: Facts, kind: string, id: string)
  {
    kind !in AUDITED || Key(kind, id) in f.active
  }

  predicate GroupMatches(f: Facts, group: string, kind: string, id: string, account: bool)
  {
    if account then Get(f.accountGroups, group) != "" && Get(f.accountGroups, group) == Get(f.accountOf, Key(kind, id))
    else Get(f.resourceGroups, group) != "" && Get(f.resourceGroups, group) == Get(f.resourceOf, Key(kind, id))
  }

  predicate PermissionGroupMatches(f: Facts, group: string, kind: string, id: string)
  {
    Get(f.permissionGroups, group) != "" && Get(f.permissionGroups, group) == Get(f.permissionOf, Key(kind, id))
  }

  predicate BatchPermissionHits(f: Facts, p: Permission, r: BatchRequest)
  {
    IsActive(f, r.kind, r.id) &&
    (|| (Wild(p.resourceType, r.kind) && Wild(p.resourceId, r.id))
     || (p.resourceType == GROUP && PermissionGroupMatches(f, p.resourceId, r.kind, r.id)))
  }

  predicate BatchGrantHits(f: Facts, g: Grant, r: BatchRequest)
  {
    IsActive(f, r.kind, r.id) &&
    (|| (Wild(g.resourceType, r.kind) && Wild(g.resourceId, r.id))
     || (if g.resourceType == HOST then r.kind == HOST_ACCOUNT && Get(f.hostOf, r.id) == g.resourceId
         else if g.resourceType == DATABASE_INSTANCE then r.kind == DATABASE_ACCOUNT && Get(f.instanceOf, r.id) == g.resourceId
         else if g.resourceType == GROUP then r.kind != PLATFORM_ACCOUNT && GroupMatches(f, g.resourceId, r.kind, r.id, false)
         else if g.resourceType == ACCOUNT_GROUP then GroupMatches(f, g.resourceId, r.kind, r.id, true)
         else false))
  }

  lemma ActiveAgrees(t: Tables, f: Facts, requests: seq<BatchRequest>, groupIds: set<string>, r: BatchRequest)
    requires FactsFor(t, f, requests, groupIds) && r in requests && Proper(requests, r)
    ensures IsActive(f, r.kind, r.id) <==> ActiveResource(t, r.kind, r.id)
  {
    hide Key, Proper, GroupsRecorded, ParentsOk, Get;
    assert At(f, Key(r.kind, r.id)).active == (Key(r.kind, r.id) in f.active);
  }

  /** The three names a resource is recorded under are the ones the group rules look for. */
  lemma TruthOfGroups(t: Tables, group: string, kind: string, id: string)
    requires group in t.groups && t.groups[group].name != ""
    ensures Truth(t, kind, id).permission == t.groups[group].name <==> PermissionGroupHolds(t, group, kind, id)
    ensures t.groups[group].kind == "account" ==>
              (Truth(t, kind, id).account == t.groups[group].name <==> GrantGroupHolds(t, group, kind, id, "account"))
    ensures t.groups[group].kind == "resource" ==>
              (Truth(t, kind, id).resource == t.groups[group].name <==> GrantGroupHolds(t, group, kind, id, "resource"))
  {
  }

  lemma PermissionAgrees(t: Tables, f: Facts, requests: seq<BatchRequest>, groupIds: set<string>, r: BatchRequest, p: Permission)
    requires WellFormed(t) && FactsFor(t, f, requests, groupIds) && r in requests && Proper(requests, r)
    requires p.resourceType == GROUP && p.resourceId != "" ==> p.resourceId in groupIds
    ensures BatchPermissionHits(f, p, r) <==> ActiveResource(t, r.kind, r.id) && PermissionHits(t, p, r.kind, r.id)
  {
    hide Key, Proper, ParentsOk, ActiveResource, PermissionGroupHolds, Truth, IsActive;
    ActiveAgrees(t, f, requests, groupIds, r);
    assert TellsTruth(t, f, r);
    if p.resourceId in t.groups {
      TruthOfGroups(t, p.resourceId, r.kind, r.id);
    } else {
      NotAGroup(t, p.resourceId, r.kind, r.id);
    }
  }

  lemma NotAGroup(t: Tables, group: string, kind: string, id: string)
    requires group !in t.groups
    ensures !PermissionGroupHolds(t, group, kind, id) && !GrantGroupHolds(t, group, kind, id, "account")
        && !GrantGroupHolds(t, group, kind, id, "resource")
  {
  }

  lemma GrantAgrees(t: Tables, f: Facts, requests: seq<BatchRequest>, groupIds: set<string>, r: BatchRequest, g: Grant)
    requires WellFormed(t) && FactsFor(t, f, requests, groupIds) && r in requests && Proper(requests, r)
    requires (g.resourceType == GROUP || g.resourceType == ACCOUNT_GROUP) && g.resourceId != "" ==> g.resourceId in groupIds
    ensures BatchGrantHits(f, g, r) <==> ActiveResource(t, r.kind, r.id) && GrantHits(t, g, r.kind, r.id)
  {
    hide Key, Proper, ActiveResource, GrantGroupHolds, Truth, IsActive;
    ActiveAgrees(t, f, requests, groupIds, r);
    ActiveAccounts(t, r.kind, r.id);
    assert TellsTruth(t, f, r) && ParentsOk(t, f, r);
    if g.resourceId in t.groups {
      TruthOfGroups(t, g.resourceId, r.kind, r.id);
      OtherKinds(t, g.resourceId, r.kind, r.id);
    } else {
      NotAGroup(t, g.resourceId, r.kind, r.id);
    }
  }

  lemma ActiveAccounts(t: Tables, kind: string, id: string)
    ensures kind == HOST_ACCOUNT ==> (ActiveResource(t, kind, id) <==> HostAccountActive(t, id))
    ensures kind == DATABASE_ACCOUNT ==> (ActiveResource(t, kind, id) <==> DatabaseAccountActive(t, id))
  {
  }

  /** Resource groups hold no platform accounts; a group of one kind is none of the other. */
  lemma OtherKinds(t: Tables, group: string, kind: string, id: string)
    requires group in t.groups
    ensures kind == PLATFORM_ACCOUNT ==> !GrantGroupHolds(t, group, kind, id, "resource")
    ensures t.groups[group].kind == "account" ==> !GrantGroupHolds(t, group, kind, id, "resource")
    ensures t.groups[group].kind == "resource" ==> !GrantGroupHolds(t, group, kind, id, "account")
  {
  }

  // -------------------------------------------------------------- decisions

  method GroupIdsFromPermissions(ps: seq<Permission>) returns (ids: seq<string>)
    ensures Elems(ids) == set p | p in ps && p.resourceType == GROUP && p.resourceId != "" :: p.resourceId
  {
    ids := [];
    var seen: set<string> := {};
    for n := 0 to |ps|
      invariant seen == Elems(ids) == set p | p in ps[..n] && p.resourceType == GROUP && p.resourceId != "" :: p.resourceId
    {
      assert ps[..n + 1] == ps[..n] + [ps[n]];
      if ps[n].resourceType == GROUP && ps[n].resourceId != "" && ps[n].resourceId !in seen {
        seen := seen + {ps[n].resourceId};
        ids := ids + [ps[n].resourceId];
      }
    }
    assert ps[..|ps|] == ps;
  }

  method GroupIdsFromGrants(gs: seq<Grant>) returns (ids: seq<string>)
    ensures Elems(ids) == set g | g in gs && (g.resourceType == GROUP || g.resourceType == ACCOUNT_GROUP)
        && g.resourceId != "" :: g.resourceId
  {
    ids := [];
    var seen: set<string> := {};
    for n := 0 to |gs|
      invariant seen == Elems(ids) ==
                set g | g in gs[..n] && (g.resourceType == GROUP || g.resourceType == ACCOUNT_GROUP)
                    && g.resourceId != "" :: g.resourceId
    {
      assert gs[..n + 1] == gs[..n] + [gs[n]];
      if (gs[n].resourceType == GROUP || gs[n].resourceType == ACCOUNT_GROUP) && gs[n].resourceId != ""
          && gs[n].resourceId !in seen {
        seen := seen + {gs[n].resourceId};
        ids := ids + [gs[n].resourceId];
      }
    }
    assert gs[..|gs|] == gs;
  }

  datatype ActionDecision = ActionDecision(actionAllowed: bool, allowed: bool, denied: bool)

  /** Some permission forbids the action on this resource in particular. */
  predicate ForbiddenHere(t: Tables, ps: seq<Permission>, action: string, kind: string, id: string)
  {
    exists p | p in ps :: Denies(p) && Wild(p.action, action) && !ActionOnly(p) && PermissionHits(t, p, kind, id)
  }

  /** What the permissions say of one action: allowed at large, denied at large, denied here. */
  method ScanPermissions(t: Tables, f: Facts, ps: seq<Permission>, action: string, r: BatchRequest,
      ghost requests: seq<BatchRequest>, ghost groupIds: set<string>)
    returns (globalAllowed: bool, globalDenied: bool, resourceDenied: bool)
    requires WellFormed(t) && FactsFor(t, f, requests, groupIds) && r in requests
    requires forall p | p in ps && p.resourceType == GROUP && p.resourceId != "" :: p.resourceId in groupIds
    ensures globalAllowed <==> exists p | p in ps :: Allows(p) && Wild(p.action, action) && ActionOnly(p)
    ensures globalDenied <==> exists p | p in ps :: Denies(p) && Wild(p.action, action) && ActionOnly(p)
    ensures Proper(requests, r) ==>
        (resourceDenied <==> ActiveResource(t, r.kind, r.id) && ForbiddenHere(t, ps, action, r.kind, r.id))
  {
    hide FactsFor, Denies, Allows, Wild, ActionOnly, BatchPermissionHits, PermissionHits, ActiveResource, Proper, WellFormed;
    globalAllowed, globalDenied, resourceDenied := false, false, false;
    for n := 0 to |ps|
      invariant globalAllowed <==> exists k | 0 <= k < n :: Allows(ps[k]) && Wild(ps[k].action, action) && ActionOnly(ps[k])
      invariant globalDenied <==> exists k | 0 <= k < n :: Denies(ps[k]) && Wild(ps[k].action, action) && ActionOnly(ps[k])
      invariant Proper(requests, r) ==> (resourceDenied <==>
                               ActiveResource(t, r.kind, r.id) && exists k | 0 <= k < n ::
                                   Denies(ps[k]) && Wild(ps[k].action, action) && !ActionOnly(ps[k])
                                       && PermissionHits(t, ps[k], r.kind, r.id))
    {
      var p := ps[n];
      if Proper(requests, r) {
        PermissionAgrees(t, f, requests, groupIds, r, p);
      }
      if !Wild(p.action, action) {
        continue;
      }
      if ActionOnly(p) {
        if Denies(p) {
          globalDenied := true;
        }
        if Allows(p) {
          globalAllowed := true;
        }
        continue;
      }
      if Denies(p) && BatchPermissionHits(f, p, r) {
        resourceDenied := true;
      }
    }
  }

  /** For an action allowed at large, being forbidden comes down to this resource. */
  lemma ForbiddenIsHere(t: Tables, user: string, action: string, kind: string, id: string)
    requires MayAct(t, user, action) && kind != "" && id != ""
    ensures Forbidden(t, user, action, kind, id) <==>
        ActiveResource(t, kind, id) && ForbiddenHere(t, PermissionsOf(t, user), action, kind, id)
  {
    hide ActiveResource, PermissionHits, Denies, Allows;
    var ps := PermissionsOf(t, user);
    forall p | p in ps && Denies(p)
      ensures Matches(t, p, action, kind, id) <==> Wild(p.action, action) && !ActionOnly(p) && PermissionHits(t, p, kind, id)
    {
    }
  }

  /** What the batch has to find out about one request. */
  predicate ActionsDecided(t: Tables, user: string, requests: seq<BatchRequest>, r: BatchRequest, d: ActionDecision)
  {
    var actions := ActionsOf(r.actions);
    && (d.actionAllowed <==> exists a | a in actions :: MayAct(t, user, a))
    && (r.kind != "" && Proper(requests, r) ==>
          (d.allowed <==> ActiveResource(t, r.kind, r.id) && exists a | a in actions ::
              MayAct(t, user, a) && !Forbidden(t, user, a, r.kind, r.id)))
  }

  method DecideActions(t: Tables, f: Facts, user: string, r: BatchRequest, ghost requests: seq<BatchRequest>,
      ghost groupIds: set<string>) returns (d: ActionDecision)
    requires WellFormed(t) && user != "" && FactsFor(t, f, requests, groupIds) && r in requests
    requires forall p | p in PermissionsOf(t, user) && p.resourceType == GROUP && p.resourceId != "" :: p.resourceId in groupIds
    ensures ActionsDecided(t, user, requests, r, d)
  {
    hide FactsFor, WellFormed, Proper, ActiveResource, Forbidden, ForbiddenHere, IsActive, ActionsOf, Trim, Denies, Allows;
    d := ActionDecision(false, false, false);
    var resourceActive := IsActive(f, r.kind, r.id);
    if Proper(requests, r) {
      ActiveAgrees(t, f, requests, groupIds, r);
      ProperId(requests, r);
    }
    var actions := AuthorizationSingle.NormalizedActions(r.actions);
    var ps := PermissionsOf(t, user);
    for n := 0 to |actions|
      invariant d.actionAllowed <==> exists k | 0 <= k < n :: MayAct(t, user, actions[k])
      invariant r.kind != "" && Proper(requests, r) ==>
                  (d.allowed <==> ActiveResource(t, r.kind, r.id) && exists k | 0 <= k < n ::
                      MayAct(t, user, actions[k]) && !Forbidden(t, user, actions[k], r.kind, r.id))
    {
      var globalAllowed, globalDenied, resourceDenied := ScanPermissions(t, f, ps, actions[n], r, requests, groupIds);
      assert actions[n] in actions;
      assert MayAct(t, user, actions[n]) <==> globalAllowed && !globalDenied;
      if globalDenied || !globalAllowed {
        continue;
      }
      if r.kind != "" && Proper(requests, r) {
        ForbiddenIsHere(t, user, actions[n], r.kind, r.id);
      }
      d := d.(actionAllowed := true);
      if !resourceActive {
        continue;
      }
      if !resourceDenied {
        d := d.(allowed := true);
      }
      if resourceDenied {
        d := d.(denied := true);
      }
    }
    if d.allowed {
      d := d.(denied := false);
    }
    Counted(t, user, r, actions);
  }

  lemma ProperId(requests: seq<BatchRequest>, r: BatchRequest)
    requires Proper(requests, r)
    ensures r.id != ""
  {
  }

  /** Ranging over the normalized actions is ranging over the set of them. */
  lemma Counted(t: Tables, user: string, r: BatchRequest, actions: seq<string>)
    requires (set a | a in actions) == ActionsOf(r.actions)
    ensures (exists k | 0 <= k < |actions| :: MayAct(t, user, actions[k])) <==>
        (exists a | a in ActionsOf(r.actions) :: MayAct(t, user, a))
    ensures (exists k | 0 <= k < |actions| :: MayAct(t, user, actions[k]) && !Forbidden(t, user, actions[k], r.kind, r.id)) <==>
            (exists a | a in ActionsOf(r.actions) :: MayAct(t, user, a) && !Forbidden(t, user, a, r.kind, r.id))
  {
    hide MayAct, Forbidden, ActionsOf;
    forall a | a in ActionsOf(r.actions)
      ensures a in actions
    {
      assert a in (set b | b in actions);
    }
    forall k | 0 <= k < |actions|
      ensures actions[k] in ActionsOf(r.actions)
    {
      assert actions[k] in (set b | b in actions);
    }
  }

  method BatchActionDecisions(t: Tables, subject: string, requests: seq<BatchRequest>) returns (result: seq<ActionDecision>)
    requires WellFormed(t)
    ensures |result| == |requests|
    ensures forall i | 0 <= i < |requests| :: ActionsDecided(t, Trim(subject), requests, requests[i], result[i])
  {
    hide Trim, WellFormed, FactsFor, ActionsDecided;
    var user := Trim(subject);
    result := seq(|requests|, i => ActionDecision(false, false, false));
    if user == "" || |requests| == 0 {
      forall i | 0 <= i < |requests|
        ensures ActionsDecided(t, user, requests, requests[i], result[i])
      {
        NobodyActs(t, requests, requests[i]);
      }
      return;
    }
    var ps := PermissionsOf(t, user);
    var groupIds := GroupIdsFromPermissions(ps);
    var f := LoadBatchFacts(t, requests, groupIds);
    for n := 0 to |requests|
      invariant |result| == |requests|
      invariant forall i | 0 <= i < n :: ActionsDecided(t, user, requests, requests[i], result[i])
    {
      var d := DecideActions(t, f, user, requests[n], requests, Elems(groupIds));
      result := result[n := d];
    }
  }

  lemma NobodyActs(t: Tables, requests: seq<BatchRequest>, r: BatchRequest)
    ensures ActionsDecided(t, "", requests, r, ActionDecision(false, false, false))
  {
  }

  method BatchGrants(t: Tables, subject: string, requests: seq<BatchRequest>) returns (result: seq<bool>)
    requires WellFormed(t)
    ensures |result| == |requests|
    ensures forall i | 0 <= i < |requests| && Proper(requests, requests[i]) && requests[i].kind != "" ::
              result[i] <==> Granted(t, Trim(subject), requests[i].kind, requests[i].id)
  {
    hide Trim, WellFormed, FactsFor, Granted, Proper;
    var user := Trim(subject);
    result := seq(|requests|, i => false);
    if user == "" || |requests| == 0 {
      NobodyIsGranted(t, requests);
      return;
    }
    var gs := GrantsOf(t, user);
    var groupIds := GroupIdsFromGrants(gs);
    var f := LoadBatchFacts(t, requests, groupIds);
    for n := 0 to |requests|
      invariant |result| == |requests|
      invariant forall i | 0 <= i < n && Proper(requests, requests[i]) && requests[i].kind != "" ::
                  result[i] <==> Granted(t, user, requests[i].kind, requests[i].id)
    {
      var ok := DecideGrant(t, f, user, requests[n], requests, Elems(groupIds));
      result := result[n := ok];
    }
  }

  lemma NobodyIsGranted(t: Tables, requests: seq<BatchRequest>)
    ensures forall i | 0 <= i < |requests| :: !Granted(t, "", requests[i].kind, requests[i].id)
  {
  }

  /** What the index makes of the grants: one allows, none denies. */
  predicate IndexGrants(f: Facts, gs: seq<Grant>, r: BatchRequest)
  {
    && (forall g | g in gs :: !(BatchGrantHits(f, g, r) && g.effect == "deny"))
    && exists g | g in gs :: BatchGrantHits(f, g, r) && g.effect == "allow"
  }

  /** One pass over the grants, leaving at the first that denies. */
  method DecideGrant(t: Tables, f: Facts, user: string, r: BatchRequest, ghost requests: seq<BatchRequest>,
      ghost groupIds: set<string>) returns (ok: bool)
    requires WellFormed(t) && user != "" && FactsFor(t, f, requests, groupIds) && r in requests
    requires forall g | g in GrantsOf(t, user) && (g.resourceType == GROUP || g.resourceType == ACCOUNT_GROUP)
        && g.resourceId != "" :: g.resourceId in groupIds
    ensures ok <==> IndexGrants(f, GrantsOf(t, user), r)
    ensures Proper(requests, r) && r.kind != "" ==> (ok <==> Granted(t, user, r.kind, r.id))
  {
    hide Trim, WellFormed, FactsFor, Proper, BatchGrantHits, GrantHits, ActiveResource;
    if Proper(requests, r) {
      ProperId(requests, r);
    }
    var gs := GrantsOf(t, user);
    var denied, allowed := false, false;
    var n := 0;
    while n < |gs|
      invariant 0 <= n <= |gs| && !denied
      invariant forall k | 0 <= k < n :: !(BatchGrantHits(f, gs[k], r) && gs[k].effect == "deny")
      invariant allowed <==> exists k | 0 <= k < n :: BatchGrantHits(f, gs[k], r) && gs[k].effect == "allow"
      invariant Proper(requests, r) ==>
          forall k | 0 <= k < n :: !(ActiveResource(t, r.kind, r.id) && GrantHits(t, gs[k], r.kind, r.id) && gs[k].effect == "deny")
      invariant Proper(requests, r) ==>
          (allowed <==> ActiveResource(t, r.kind, r.id) && exists k | 0 <= k < n ::
              GrantHits(t, gs[k], r.kind, r.id) && gs[k].effect == "allow")
    {
      assert gs[n] in gs;
      if Proper(requests, r) {
        GrantAgrees(t, f, requests, groupIds, r, gs[n]);
      }
      if !BatchGrantHits(f, gs[n], r) {
        n := n + 1;
        continue;
      }
      if gs[n].effect == "deny" {
        denied := true;
        break;
      }
      if gs[n].effect == "allow" {
        allowed := true;
      }
      n := n + 1;
    }
    ok := allowed && !denied;
  }

  // ------------------------------------------------------------------ result

  /** No other resource in the batch has the key of request i. */
  predicate Clear(requests: seq<Request>, i: nat)
    requires i < |requests|
  {
    var kind, id := Trim(requests[i].resourceType), Trim(requests[i].resourceId);
    forall j | 0 <= j < |requests| && Trim(requests[j].resourceType) in NAMED
        && Key(Trim(requests[j].resourceType), Trim(requests[j].resourceId)) == Key(kind, id) ::
      Trim(requests[j].resourceType) == kind
  }

  /** Keys can only be shared when a type holds NUL. */
  lemma PlainTypesAreClear(requests: seq<Request>, i: nat)
    requires i < |requests| && NUL !in requests[i].resourceType
    ensures Clear(requests, i)
  {
    hide Trim, Key;
    var kind, id := Trim(requests[i].resourceType), Trim(requests[i].resourceId);
    TrimHolds(requests[i].resourceType);
    forall j | 0 <= j < |requests| && Trim(requests[j].resourceType) in NAMED
        && Key(Trim(requests[j].resourceType), Trim(requests[j].resourceId)) == Key(kind, id)
      ensures Trim(requests[j].resourceType) == kind
    {
      var other := Trim(requests[j].resourceType);
      NamedNoNul(other);
      KeyIsUnder(other, Trim(requests[j].resourceId));
      if other != kind {
        KeysApart(kind, id, other);
      }
    }
  }

  lemma TrimHolds(s: string)
    ensures NUL !in s ==> NUL !in Trim(s)
  {
    forall c | c in Trim(s)
      ensures c in s
    {
    }
  }

  lemma NamedNoNul(kind: string)
    requires kind in NAMED
    ensures NUL !in kind
  {
  }

  /** A trimmed type and id that share no key make a request the index answers for. */
  lemma ClearIsProper(requests: seq<Request>, batch: seq<BatchRequest>, valid: seq<bool>, i: nat)
    requires |requests| == |batch| == |valid| && i < |requests| && valid[i] && Clear(requests, i)
    requires Trim(requests[i].resourceId) != ""
    requires forall j | 0 <= j < |requests| ::
        if valid[j] then batch[j].kind == Trim(requests[j].resourceType) && batch[j].id == Trim(requests[j].resourceId)
        else batch[j] == NO_REQUEST
    ensures Proper(batch, batch[i])
  {
    hide Trim, Key;
    TrimTwice(requests[i].resourceId);
    forall q | q in batch && q.kind in NAMED && Key(q.kind, q.id) == Key(batch[i].kind, batch[i].id)
      ensures q.kind == batch[i].kind
    {
      var j :| 0 <= j < |batch| && batch[j] == q;
    }
  }

  /** Every decision of a batch is the one the request gets on its own terms, whatever the others are. */
  method AuthorizeBatch(t: Tables, userId: string, requests: seq<Request>) returns (decisions: seq<Decision>)
    requires WellFormed(t)
    ensures |decisions| == |requests|
    ensures forall i | 0 <= i < |requests| && Clear(requests, i) :: decisions[i] == DecideInBatch(t, userId, requests[i])
  {
    hide Trim, WellFormed, ActionsOf, Ordinary, Proper, ActionsDecided, Granted, Clear;
    var user := Trim(userId);
    if user == "" {
      return seq(|requests|, i => Decision(false, MissingUser));
    }
    if user !in t.subjects {
      return seq(|requests|, i => Decision(false, InvalidIdentity));
    }
    var subject := t.subjects[user];
    var batch, valid: seq<bool>;
    batch, valid, decisions := Prepare(requests);
    if subject.superAdmin {
      for n := 0 to |requests|
        invariant |decisions| == |requests|
        invariant forall i | 0 <= i < n :: decisions[i] == if valid[i] then Decision(true, SuperAdmin) else Rejected(requests[i])
        invariant forall i | n <= i < |requests| && !valid[i] :: decisions[i] == Rejected(requests[i])
      {
        if valid[n] {
          decisions := decisions[n := Decision(true, SuperAdmin)];
        }
      }
      return;
    }
    forall i | 0 <= i < |requests| && valid[i] && Clear(requests, i)
      ensures Proper(batch, batch[i])
    {
      ClearIsProper(requests, batch, valid, i);
    }
    var actionDecisions := BatchActionDecisions(t, subject.id, batch);
    var grantDecisions := BatchGrants(t, subject.id, batch);
    decisions := Combine(t, Trim(subject.id), requests, batch, valid, decisions, actionDecisions, grantDecisions);
  }

  /** What the batch answers before it looks at any table. */
  function Rejected(r: Request): Decision
  {
    if Trim(r.resourceType) == ""
        || Trim(r.resourceId) == "" then Decision(false, InvalidResource) else Decision(false, ActionDenied)
  }

  predicate Valid(r: Request)
  {
    Trim(r.resourceType) != "" && Trim(r.resourceId) != "" && ActionsOf(r.actions) != {}
  }

  const NO_REQUEST: BatchRequest := BatchRequest("", "", [])

  method Prepare(requests: seq<Request>) returns (batch: seq<BatchRequest>, valid: seq<bool>, decisions: seq<Decision>)
    ensures |batch| == |valid| == |decisions| == |requests|
    ensures forall i | 0 <= i < |requests| :: valid[i] <==> Valid(requests[i])
    ensures forall i | 0 <= i < |requests| && !valid[i] :: decisions[i] == Rejected(requests[i]) && batch[i] == NO_REQUEST
    ensures forall i | 0 <= i < |requests| && valid[i] ::
              && batch[i].kind == Trim(requests[i].resourceType) && batch[i].id == Trim(requests[i].resourceId)
              && ActionsOf(batch[i].actions) == ActionsOf(requests[i].actions)
  {
    hide Trim, ActionsOf;
    batch := seq(|requests|, i => NO_REQUEST);
    valid := seq(|requests|, i => false);
    decisions := seq(|requests|, i => Decision(false, ActionDenied));
    for n := 0 to |requests|
      invariant |batch| == |valid| == |decisions| == |requests|
      invariant forall i | 0 <= i < n :: valid[i] <==> Valid(requests[i])
      invariant forall i | n <= i < |requests| :: !valid[i]
      invariant forall i | 0 <= i < |requests| && !valid[i] :: batch[i] == NO_REQUEST
      invariant forall i | 0 <= i < n && !valid[i] :: decisions[i] == Rejected(requests[i])
      invariant forall i | 0 <= i < n && valid[i] ::
                  && batch[i].kind == Trim(requests[i].resourceType) && batch[i].id == Trim(requests[i].resourceId)
                  && ActionsOf(batch[i].actions) == ActionsOf(requests[i].actions)
    {
      var kind, id := Trim(requests[n].resourceType), Trim(requests[n].resourceId);
      if kind == "" || id == "" {
        decisions := decisions[n := Decision(false, InvalidResource)];
        continue;
      }
      var actions := AuthorizationSingle.NormalizedActions(requests[n].actions);
      NormalizedTwice(actions);
      if |actions| == 0 {
        assert ActionsOf(requests[n].actions) == {};
        decisions := decisions[n := Decision(false, ActionDenied)];
        continue;
      }
      assert actions[0] in ActionsOf(requests[n].actions);
      valid := valid[n := true];
      batch := batch[n := BatchRequest(kind, id, actions)];
    }
  }

  /** Normalizing the actions again changes nothing. */
  lemma NormalizedTwice(actions: seq<string>)
    requires forall a | a in actions :: a != "" && Trim(a) == a
    ensures ActionsOf(actions) == set a | a in actions
  {
    hide Trim;
  }

  method Combine(t: Tables, ghost user: string, ghost requests: seq<Request>, ghost batch: seq<BatchRequest>, valid: seq<bool>,
                 rejected: seq<Decision>, actionDecisions: seq<ActionDecision>, grantDecisions: seq<bool>)
                     returns (decisions: seq<Decision>)
    requires |requests| == |batch| == |valid| == |rejected| == |actionDecisions| == |grantDecisions|
    requires forall i | 0 <= i < |batch| :: ActionsDecided(t, user, batch, batch[i], actionDecisions[i])
    requires forall i | 0 <= i < |batch| && Proper(batch, batch[i]) && batch[i].kind != "" ::
        grantDecisions[i] <==> Granted(t, user, batch[i].kind, batch[i].id)
    ensures |decisions| == |batch|
    ensures forall i | 0 <= i < |batch| && !valid[i] :: decisions[i] == rejected[i]
    ensures forall i | 0 <= i < |batch| && valid[i] && batch[i].kind != "" && Proper(batch, batch[i]) ::
              decisions[i] == Ordinary(t, user, ActionsOf(batch[i].actions), batch[i].kind, batch[i].id)
  {
    hide Granted, ActionsOf, ActionsDecided, Proper, Ordinary;
    decisions := rejected;
    for n := 0 to |valid|
      invariant |decisions| == |batch|
      invariant forall i | 0 <= i < |batch| && !valid[i] :: decisions[i] == rejected[i]
      invariant forall i | 0 <= i < n && valid[i] && batch[i].kind != "" && Proper(batch, batch[i]) ::
                  decisions[i] == Ordinary(t, user, ActionsOf(batch[i].actions), batch[i].kind, batch[i].id)
    {
      if !valid[n] {
        continue;
      }
      var action := actionDecisions[n];
      if batch[n].kind != "" && Proper(batch, batch[n]) {
        Combined(t, user, batch, batch[n], action);
      }
      if !action.actionAllowed {
        decisions := decisions[n := Decision(false, ActionDenied)];
        continue;
      }
      if !action.allowed || !grantDecisions[n] {
        decisions := decisions[n := Decision(false, ResourceDenied)];
        continue;
      }
      decisions := decisions[n := Decision(true, Allowed)];
    }
  }

  /** Actions and grant together give the rule for an ordinary user. */
  lemma Combined(t: Tables, user: string, requests: seq<BatchRequest>, r: BatchRequest, d: ActionDecision)
    requires ActionsDecided(t, user, requests, r, d) && r.kind != "" && Proper(requests, r)
    ensures Ordinary(t, user, ActionsOf(r.actions), r.kind, r.id) ==
            if !d.actionAllowed then Decision(false, ActionDenied)
            else if !d.allowed || !Granted(t, user, r.kind, r.id) then Decision(false, ResourceDenied)
            else Decision(true, Allowed)
  {
    hide MayAct, ActionsOf, Proper;
    GrantedIsActive(t, user, r.kind, r.id);
    ProperId(requests, r);
    forall a | !ActiveResource(t, r.kind, r.id)
      ensures !Forbidden(t, user, a, r.kind, r.id)
    {
    }
    hide Forbidden, Granted, ActiveResource;
  }

  lemma GrantedIsActive(t: Tables, user: string, kind: string, id: string)
    ensures Granted(t, user, kind, id) ==> ActiveResource(t, kind, id)
  {
  }
}
