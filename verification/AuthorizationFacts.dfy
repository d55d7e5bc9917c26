/**
 The index a batch is decided from: names of groups, and for each requested resource the
 names it belongs under, loaded table by table into maps keyed by type and id.
 */
module AuthorizationFacts {
  import opened Strings
  import opened Authorization

  const NUL: char := '\0'

  datatype BatchRequest = BatchRequest(kind: string, id: string, actions: seq<string>)

  // ------------------------------------------------------------------- keys

  function Key(kind: string, id: string): string
  {
    kind + [NUL] + id
  }

  /** The key belongs to the type. */
  predicate Under(kind: string, key: string)
  {
    |kind| < |key| && key[..|kind|] == kind && key[|kind|] == NUL
  }

  lemma KeyIsUnder(kind: string, id: string)
    ensures Under(kind, Key(kind, id))
  {
    assert Key(kind, id)[..|kind|] == kind;
  }

  /** Types without NUL do not share keys. */
  lemma KeysApart(kind: string, id: string, other: string)
    requires NUL !in kind && NUL !in other && kind != other
    ensures !Under(other, Key(kind, id))
  {
    var k := Key(kind, id);
    assert k[..|kind|] == kind && k[|kind|] == NUL;
  }

  lemma KeyIsInjective(kind: string, a: string, b: string)
    requires Key(kind, a) == Key(kind, b)
    ensures a == b
  {
    assert Key(kind, a)[|kind| + 1..] == a && Key(kind, b)[|kind| + 1..] == b;
  }

  /** Why a type must not hold NUL: two resources would share a key. */
  lemma KeysCollide()
    ensures Key("host" + [NUL] + "a", "b") == Key("host", "a" + [NUL] + "b")
  {
  }

  // ------------------------------------------------------------------ index

  datatype Facts = Facts(
    permissionGroups: map<string, string>,
    resourceGroups: map<string, string>,
    accountGroups: map<string, string>,
    permissionOf: map<string, string>,
    resourceOf: map<string, string>,
    accountOf: map<string, string>,
    hostOf: map<string, string>,
    instanceOf: map<string, string>,
    active: set<string>)

  const NO_FACTS: Facts := Facts(map[], map[], map[], map[], map[], map[], map[], map[], {})

  function Get(m: map<string, string>, k: string): string
  {
    if k in m then m[k] else ""
  }

  /** What the index says under one key. */
  datatype View = View(permission: string, resource: string, account: string, active: bool)

  const NO_VIEW: View := View("", "", "", false)

  function At(f: Facts, key: string): View
  {
    View(Get(f.permissionOf, key), Get(f.resourceOf, key), Get(f.accountOf, key), key in f.active)
  }

  /** What the tables say of one resource. */
  function Truth(t: Tables, kind: string, id: string): View
  {
    if kind == HOST && id in t.hosts then View(t.hosts[id], t.hosts[id], "", true)
    else if kind == DATABASE_INSTANCE && id in t.instances then View(t.instances[id], t.instances[id], "", true)
    else if kind == APPLICATION && id in t.applications then View(t.applications[id], t.applications[id], "", true)
    else if kind == PLATFORM_ACCOUNT && id in t.platformAccounts then View(t.platformAccounts[id], "", t.platformAccounts[id], true)
    else if kind == CONTAINER_ENDPOINT && id in t.endpoints then View("", t.endpoints[id], "", true)
    else if kind == HOST_ACCOUNT && HostAccountActive(t, id) then
      var name := t.hosts[t.hostAccounts[id].parent]; View(name, name, t.hostAccounts[id].group, true)
    else if kind == DATABASE_ACCOUNT && DatabaseAccountActive(t, id) then
      var name := t.instances[t.databaseAccounts[id].parent]; View(name, name, t.databaseAccounts[id].group, true)
    else if (kind == GROUP || kind == ACCOUNT_GROUP) && id in t.groups then View("", "", "", true)
    else NO_VIEW
  }

  /** Nothing is recorded under the type yet. */
  ghost predicate Unset(f: Facts, kind: string)
  {
    forall id: string :: At(f, Key(kind, id)) == NO_VIEW
  }

  predicate SameGroups(f: Facts, f': Facts)
  {
    f'.permissionGroups == f.permissionGroups && f'.resourceGroups == f.resourceGroups && f'.accountGroups == f.accountGroups
  }

  /** The ids in `done` are recorded truly, no other of the type is, and nothing else changed. */
  ghost predicate Loaded(t: Tables, f: Facts, f': Facts, kind: string, done: set<string>)
  {
    && (forall id: string :: At(f', Key(kind, id)) == if id in done then Truth(t, kind, id) else NO_VIEW)
    && (forall key | !Under(kind, key) :: At(f', key) == At(f, key))
    && SameGroups(f, f')
  }

  /** The requested ids of the type are recorded truly, no other of the type is, and nothing else changed. */
  ghost predicate Recorded(t: Tables, f: Facts, f': Facts, kind: string, ids: set<string>)
  {
    && (forall id: string :: At(f', Key(kind, id)) == if id in ids then Truth(t, kind, id) else NO_VIEW)
    && (forall key | !Under(kind, key) :: At(f', key) == At(f, key))
    && SameGroups(f, f')
  }

  /** One more row. */
  lemma LoadedRow(t: Tables, f: Facts, g: Facts, f': Facts, kind: string, done: set<string>, id: string)
    requires Loaded(t, f, g, kind, done)
    requires At(f', Key(kind, id)) == Truth(t, kind, id) && SameGroups(g, f')
    requires forall key | key != Key(kind, id) :: At(f', key) == At(g, key)
    ensures Loaded(t, f, f', kind, done + {id})
  {
    hide At, Truth, Key;
    KeyIsUnder(kind, id);
    forall a: string
      ensures At(f', Key(kind, a)) == if a in done + {id} then Truth(t, kind, a) else NO_VIEW
    {
      if a != id && Key(kind, a) == Key(kind, id) {
        KeyIsInjective(kind, a, id);
      }
    }
  }

  lemma LoadedNone(t: Tables, f: Facts, kind: string)
    requires Unset(f, kind)
    ensures Loaded(t, f, f, kind, {})
  {
  }

  lemma LoadedAll(t: Tables, f: Facts, f': Facts, kind: string, ids: set<string>, done: set<string>)
    requires Loaded(t, f, f', kind, done) && done <= ids
    requires forall id | id in ids && id !in done :: Truth(t, kind, id) == NO_VIEW
    ensures Recorded(t, f, f', kind, ids)
  {
    hide At, Truth, Key;
  }

  predicate SameParents(f: Facts, f': Facts)
  {
    f'.hostOf == f.hostOf && f'.instanceOf == f.instanceOf
  }

  // ------------------------------------------------------------------ loading

  function Elems(s: seq<string>): set<string>
  {
    set x | x in s
  }

  method BatchIds(requests: seq<BatchRequest>, kind: string) returns (ids: seq<string>)
    ensures Elems(ids) == set r | r in requests && r.kind == kind && Trim(r.id) != "" :: r.id
    ensures forall i, j | 0 <= i < j < |ids| :: ids[i] != ids[j]
  {
    hide Trim;
    var seen: set<string> := {};
    ids := [];
    for n := 0 to |requests|
      invariant seen == Elems(ids)
      invariant seen == set r | r in requests[..n] && r.kind == kind && Trim(r.id) != "" :: r.id
      invariant forall i, j | 0 <= i < j < |ids| :: ids[i] != ids[j]
    {
      assert requests[..n + 1] == requests[..n] + [requests[n]];
      if requests[n].kind == kind && Trim(requests[n].id) != "" {
        if requests[n].id !in seen {
          seen := seen + {requests[n].id};
          ids := ids + [requests[n].id];
        }
      }
    }
    assert requests[..|requests|] == requests;
  }

  method AppendUnique(ids: seq<string>, additional: seq<string>) returns (out: seq<string>)
    ensures Elems(out) == Elems(ids) + Elems(additional)
  {
    var seen := Elems(ids);
    out := ids;
    for n := 0 to |additional|
      invariant seen == Elems(out)
      invariant seen == Elems(ids) + Elems(additional[..n])
    {
      assert additional[..n + 1] == additional[..n] + [additional[n]];
      if additional[n] in seen {
        continue;
      }
      seen := seen + {additional[n]};
      out := out + [additional[n]];
    }
    assert additional[..|additional|] == additional;
  }

  /** Which of the three names a table's group column is recorded as. */
  datatype Uses = Uses(permission: bool, resource: bool, account: bool)

  function UsesOf(kind: string): Uses
  {
    if kind == PLATFORM_ACCOUNT then Uses(true, false, true)
    else if kind == CONTAINER_ENDPOINT then Uses(false, true, false)
    else Uses(true, true, false)
  }

  /** The active rows of a table with one group column. */
  function TableOf(t: Tables, kind: string): map<string, string>
  {
    if kind == HOST then t.hosts
    else if kind == DATABASE_INSTANCE then t.instances
    else if kind == APPLICATION then t.applications
    else if kind == PLATFORM_ACCOUNT then t.platformAccounts
    else t.endpoints
  }

  predicate PlainKind(kind: string)
  {
    kind in {HOST, DATABASE_INSTANCE, APPLICATION, PLATFORM_ACCOUNT, CONTAINER_ENDPOINT}
  }

  /** One row goes in. */
  function WithRow(f: Facts, key: string, name: string, uses: Uses): Facts
  {
    f.(active := f.active + {key},
       permissionOf := if uses.permission then f.permissionOf[key := name] else f.permissionOf,
       resourceOf := if uses.resource then f.resourceOf[key := name] else f.resourceOf,
       accountOf := if uses.account then f.accountOf[key := name] else f.accountOf)
  }

  lemma RowRecorded(t: Tables, f: Facts, kind: string, id: string)
    requires PlainKind(kind) && id in TableOf(t, kind)
    requires At(f, Key(kind, id)) == NO_VIEW || At(f, Key(kind, id)) == Truth(t, kind, id)
    ensures var f' := WithRow(f, Key(kind, id), TableOf(t, kind)[id], UsesOf(kind));
            && At(f', Key(kind, id)) == Truth(t, kind, id)
            && (forall key | key != Key(kind, id) :: At(f', key) == At(f, key))
            && SameGroups(f, f') && SameParents(f, f')
  {
  }

  lemma PlainStep(t: Tables, f: Facts, g: Facts, kind: string, done: set<string>, id: string)
    requires PlainKind(kind) && id in TableOf(t, kind) && Loaded(t, f, g, kind, done)
    ensures var f' := WithRow(g, Key(kind, id), TableOf(t, kind)[id], UsesOf(kind));
            Loaded(t, f, f', kind, done + {id}) && SameParents(g, f')
  {
    hide Key, At, WithRow, Truth, PlainKind, TableOf, UsesOf;
    RowRecorded(t, g, kind, id);
    LoadedRow(t, f, g, WithRow(g, Key(kind, id), TableOf(t, kind)[id], UsesOf(kind)), kind, done, id);
  }

  lemma TruthOfMissing(t: Tables, kind: string, id: string)
    requires PlainKind(kind) && id !in TableOf(t, kind)
    ensures Truth(t, kind, id) == NO_VIEW
  {
  }

  /** Loads the requested rows of a table with one group column. */
  method LoadPlain(t: Tables, f: Facts, kind: string, ids: seq<string>) returns (f': Facts)
    requires PlainKind(kind) && Unset(f, kind)
    ensures Recorded(t, f, f', kind, Elems(ids)) && SameParents(f, f')
  {
    hide Key, WithRow, Truth, Loaded, Recorded, UsesOf, TableOf, PlainKind, Unset;
    f' := f;
    LoadedNone(t, f, kind);
    ghost var done: set<string> := {};
    for n := 0 to |ids|
      invariant Loaded(t, f, f', kind, done) && SameParents(f, f')
      invariant done <= Elems(ids) && forall k | 0 <= k < n && ids[k] in TableOf(t, kind) :: ids[k] in done
    {
      if ids[n] in TableOf(t, kind) {
        PlainStep(t, f, f', kind, done, ids[n]);
        f' := WithRow(f', Key(kind, ids[n]), TableOf(t, kind)[ids[n]], UsesOf(kind));
        done := done + {ids[n]};
      }
    }
    forall id | id in Elems(ids) && id !in done
      ensures Truth(t, kind, id) == NO_VIEW
    {
      TruthOfMissing(t, kind, id);
    }
    LoadedAll(t, f, f', kind, Elems(ids), done);
  }

  // Accounts, whose parents must be active too.

  function WithAccount(f: Facts, key: string, name: string, group: string): Facts
  {
    f.(active := f.active + {key}, permissionOf := f.permissionOf[key := name],
       resourceOf := f.resourceOf[key := name], accountOf := f.accountOf[key := group])
  }

  lemma HostAccountRecorded(t: Tables, f: Facts, id: string)
    requires HostAccountActive(t, id)
    ensures var child := t.hostAccounts[id];
            var f' := WithAccount(f, Key(HOST_ACCOUNT, id), t.hosts[child.parent],
                child.group).(hostOf := f.hostOf[id := child.parent]);
            && At(f', Key(HOST_ACCOUNT, id)) == Truth(t, HOST_ACCOUNT, id)
            && (forall key | key != Key(HOST_ACCOUNT, id) :: At(f', key) == At(f, key))
            && SameGroups(f, f') && f'.instanceOf == f.instanceOf
  {
  }

  lemma HostStep(t: Tables, f: Facts, g: Facts, done: set<string>, id: string)
    requires HostAccountActive(t, id) && Loaded(t, f, g, HOST_ACCOUNT, done)
    ensures var child := t.hostAccounts[id];
            var f' := WithAccount(g, Key(HOST_ACCOUNT, id), t.hosts[child.parent],
                child.group).(hostOf := g.hostOf[id := child.parent]);
            && Loaded(t, f, f', HOST_ACCOUNT, done + {id}) && f'.instanceOf == g.instanceOf
            && (HostParents(t, g, done) ==> HostParents(t, f', done + {id}))
  {
    hide Key, At, WithAccount, Truth;
    var child := t.hostAccounts[id];
    HostAccountRecorded(t, g, id);
    LoadedRow(t, f, g, WithAccount(g, Key(HOST_ACCOUNT, id), t.hosts[child.parent],
        child.group).(hostOf := g.hostOf[id := child.parent]), HOST_ACCOUNT, done, id);
  }

  /** The accounts whose own row and parent are active. */
  function ActiveHostAccounts(t: Tables): set<string>
  {
    set id | id in t.hostAccounts && HostAccountActive(t, id)
  }

  predicate HostParents(t: Tables, f: Facts, done: set<string>)
  {
    forall id | id in done && id in t.hostAccounts :: Get(f.hostOf, id) == t.hostAccounts[id].parent
  }

  method LoadHostAccounts(t: Tables, f: Facts, ids: seq<string>) returns (f': Facts)
    requires Unset(f, HOST_ACCOUNT)
    ensures Recorded(t, f, f', HOST_ACCOUNT, Elems(ids)) && f'.instanceOf == f.instanceOf
    ensures HostParents(t, f', Elems(ids) * ActiveHostAccounts(t))
  {
    hide Key, WithAccount, Truth, Loaded, Recorded, Unset, HostParents;
    f' := f;
    LoadedNone(t, f, HOST_ACCOUNT);
    ghost var done: set<string> := {};
    HostParentsNone(t, f);
    for n := 0 to |ids|
      invariant Loaded(t, f, f', HOST_ACCOUNT, done) && f'.instanceOf == f.instanceOf && HostParents(t, f', done)
      invariant done <= Elems(ids) && forall k | 0 <= k < n && HostAccountActive(t, ids[k]) :: ids[k] in done
    {
      if HostAccountActive(t, ids[n]) {
        var child := t.hostAccounts[ids[n]];
        HostStep(t, f, f', done, ids[n]);
        f' := WithAccount(f', Key(HOST_ACCOUNT, ids[n]), t.hosts[child.parent],
            child.group).(hostOf := f'.hostOf[ids[n] := child.parent]);
        done := done + {ids[n]};
      }
    }
    forall id | id in Elems(ids) && id !in done
      ensures Truth(t, HOST_ACCOUNT, id) == NO_VIEW
    {
      TruthOfMissingAccount(t, id);
    }
    LoadedAll(t, f, f', HOST_ACCOUNT, Elems(ids), done);
    HostParentsSome(t, f', done, Elems(ids) * ActiveHostAccounts(t));
  }

  lemma HostParentsSome(t: Tables, f: Facts, done: set<string>, some: set<string>)
    requires HostParents(t, f, done) && some <= done
    ensures HostParents(t, f, some)
  {
  }

  lemma HostParentsNone(t: Tables, f: Facts)
    ensures HostParents(t, f, {})
  {
  }

  lemma TruthOfMissingAccount(t: Tables, id: string)
    ensures !HostAccountActive(t, id) ==> Truth(t, HOST_ACCOUNT, id) == NO_VIEW
    ensures !DatabaseAccountActive(t, id) ==> Truth(t, DATABASE_ACCOUNT, id) == NO_VIEW
    ensures id !in t.groups ==> Truth(t, GROUP, id) == NO_VIEW && Truth(t, ACCOUNT_GROUP, id) == NO_VIEW
  {
  }

  lemma DatabaseAccountRecorded(t: Tables, f: Facts, id: string)
    requires DatabaseAccountActive(t, id)
    ensures var child := t.databaseAccounts[id];
            var f' := WithAccount(f, Key(DATABASE_ACCOUNT, id), t.instances[child.parent],
                child.group).(instanceOf := f.instanceOf[id := child.parent]);
            && At(f', Key(DATABASE_ACCOUNT, id)) == Truth(t, DATABASE_ACCOUNT, id)
            && (forall key | key != Key(DATABASE_ACCOUNT, id) :: At(f', key) == At(f, key))
            && SameGroups(f, f') && f'.hostOf == f.hostOf
  {
  }

  lemma DatabaseStep(t: Tables, f: Facts, g: Facts, done: set<string>, id: string)
    requires DatabaseAccountActive(t, id) && Loaded(t, f, g, DATABASE_ACCOUNT, done)
    ensures var child := t.databaseAccounts[id];
            var f' := WithAccount(g, Key(DATABASE_ACCOUNT, id), t.instances[child.parent],
                child.group).(instanceOf := g.instanceOf[id := child.parent]);
            && Loaded(t, f, f', DATABASE_ACCOUNT, done + {id}) && f'.hostOf == g.hostOf
            && (DatabaseParents(t, g, done) ==> DatabaseParents(t, f', done + {id}))
  {
    hide Key, At, WithAccount, Truth;
    var child := t.databaseAccounts[id];
    DatabaseAccountRecorded(t, g, id);
    LoadedRow(t, f, g, WithAccount(g, Key(DATABASE_ACCOUNT, id), t.instances[child.parent],
        child.group).(instanceOf := g.instanceOf[id := child.parent]), DATABASE_ACCOUNT, done, id);
  }

  /** The accounts whose own row and parent are active. */
  function ActiveDatabaseAccounts(t: Tables): set<string>
  {
    set id | id in t.databaseAccounts && DatabaseAccountActive(t, id)
  }

  predicate DatabaseParents(t: Tables, f: Facts, done: set<string>)
  {
    forall id | id in done && id in t.databaseAccounts :: Get(f.instanceOf, id) == t.databaseAccounts[id].parent
  }

  method LoadDatabaseAccounts(t: Tables, f: Facts, ids: seq<string>) returns (f': Facts)
    requires Unset(f, DATABASE_ACCOUNT)
    ensures Recorded(t, f, f', DATABASE_ACCOUNT, Elems(ids)) && f'.hostOf == f.hostOf
    ensures DatabaseParents(t, f', Elems(ids) * ActiveDatabaseAccounts(t))
  {
    hide Key, WithAccount, Truth, Loaded, Recorded, Unset, DatabaseParents;
    f' := f;
    LoadedNone(t, f, DATABASE_ACCOUNT);
    ghost var done: set<string> := {};
    DatabaseParentsNone(t, f);
    for n := 0 to |ids|
      invariant Loaded(t, f, f', DATABASE_ACCOUNT, done) && f'.hostOf == f.hostOf && DatabaseParents(t, f', done)
      invariant done <= Elems(ids) && forall k | 0 <= k < n && DatabaseAccountActive(t, ids[k]) :: ids[k] in done
    {
      if DatabaseAccountActive(t, ids[n]) {
        var child := t.databaseAccounts[ids[n]];
        DatabaseStep(t, f, f', done, ids[n]);
        f' := WithAccount(f', Key(DATABASE_ACCOUNT, ids[n]), t.instances[child.parent],
            child.group).(instanceOf := f'.instanceOf[ids[n] := child.parent]);
        done := done + {ids[n]};
      }
    }
    forall id | id in Elems(ids) && id !in done
      ensures Truth(t, DATABASE_ACCOUNT, id) == NO_VIEW
    {
      TruthOfMissingAccount(t, id);
    }
    LoadedAll(t, f, f', DATABASE_ACCOUNT, Elems(ids), done);
    DatabaseParentsSome(t, f', done, Elems(ids) * ActiveDatabaseAccounts(t));
  }

  lemma DatabaseParentsSome(t: Tables, f: Facts, done: set<string>, some: set<string>)
    requires DatabaseParents(t, f, done) && some <= done
    ensures DatabaseParents(t, f, some)
  {
  }

  lemma DatabaseParentsNone(t: Tables, f: Facts)
    ensures DatabaseParents(t, f, {})
  {
  }

  // Groups: the names by id, once for permissions and once by kind for grants.

  /** The names of the groups asked for. */
  predicate GroupsRecorded(t: Tables, f: Facts, ids: set<string>)
  {
    && f.permissionGroups.Keys <= t.groups.Keys && f.accountGroups.Keys <= t.groups.Keys && f.resourceGroups.Keys <= t.groups.Keys
    && forall g | g in ids ::
      && Get(f.permissionGroups, g) == (if g in t.groups then t.groups[g].name else "")
      && Get(f.accountGroups, g) == (if g in t.groups && t.groups[g].kind == "account" then t.groups[g].name else "")
      && Get(f.resourceGroups, g) == (if g in t.groups && t.groups[g].kind != "account" then t.groups[g].name else "")
  }

  ghost predicate GroupsActive(t: Tables, f: Facts, done: set<string>)
  {
    && (forall id: string ::
        At(f, Key(GROUP, id)) == At(f, Key(ACCOUNT_GROUP, id)) == if id in done then View("", "", "", true) else NO_VIEW)
    && (forall key | !Under(GROUP, key) && !Under(ACCOUNT_GROUP, key) :: At(f, key) == NO_VIEW)
  }

  function GroupKeys(ids: set<string>): set<string>
  {
    (set id | id in ids :: Key(GROUP, id)) + (set id | id in ids :: Key(ACCOUNT_GROUP, id))
  }

  function Names(t: Tables, ids: set<string>): map<string, string>
  {
    map g | g in ids && g in t.groups :: t.groups[g].name
  }

  function AccountNames(t: Tables, ids: set<string>): map<string, string>
  {
    map g | g in ids && g in t.groups && t.groups[g].kind == "account" :: t.groups[g].name
  }

  function ResourceNames(t: Tables, ids: set<string>): map<string, string>
  {
    map g | g in ids && g in t.groups && t.groups[g].kind != "account" :: t.groups[g].name
  }

  /** The names of the groups in `done`, and their ids under both types. */
  predicate NamesLoaded(t: Tables, f: Facts, done: set<string>)
  {
    f == NO_FACTS.(active := GroupKeys(done), permissionGroups := Names(t, done),
        accountGroups := AccountNames(t, done), resourceGroups := ResourceNames(t, done))
  }

  function WithGroup(f: Facts, id: string, g: Group): Facts
  {
    var f := f.(active := f.active + {Key(GROUP, id), Key(ACCOUNT_GROUP, id)},
        permissionGroups := f.permissionGroups[id := g.name]);
    if g.kind == "account" then f.(accountGroups := f.accountGroups[id := g.name])
    else f.(resourceGroups := f.resourceGroups[id := g.name])
  }

  lemma GroupKeysPush(done: set<string>, id: string)
    ensures GroupKeys(done + {id}) == GroupKeys(done) + {Key(GROUP, id), Key(ACCOUNT_GROUP, id)}
  {
    hide Key;
  }

  lemma NamesPush(t: Tables, done: set<string>, id: string)
    requires id in t.groups
    ensures Names(t, done + {id}) == Names(t, done)[id := t.groups[id].name]
  {
  }

  lemma KindNamesPush(t: Tables, done: set<string>, id: string)
    requires id in t.groups && id !in done
    ensures AccountNames(t, done + {id}) == if t.groups[id].kind == "account"
        then AccountNames(t, done)[id := t.groups[id].name] else AccountNames(t, done)
    ensures ResourceNames(t, done + {id}) == if t.groups[id].kind != "account"
        then ResourceNames(t, done)[id := t.groups[id].name] else ResourceNames(t, done)
  {
  }

  lemma GroupStep(t: Tables, f: Facts, done: set<string>, id: string)
    requires NamesLoaded(t, f, done) && id in t.groups && id !in done
    ensures NamesLoaded(t, WithGroup(f, id, t.groups[id]), done + {id})
  {
    hide Key, GroupKeys, Names, AccountNames, ResourceNames;
    GroupKeysPush(done, id);
    NamesPush(t, done, id);
    KindNamesPush(t, done, id);
  }

  method LoadGroups(t: Tables, ids: seq<string>) returns (f: Facts)
    ensures GroupsRecorded(t, f, Elems(ids)) && GroupsActive(t, f, Elems(ids) * t.groups.Keys)
    ensures SameParents(NO_FACTS, f)
  {
    hide Key, NamesLoaded, WithGroup, GroupsRecorded, GroupsActive;
    f := NO_FACTS;
    var rows := Elems(ids) * t.groups.Keys;
    ghost var done: set<string> := {};
    NoNames(t);
    while rows != {}
      invariant done + rows == Elems(ids) * t.groups.Keys && done !! rows
      invariant NamesLoaded(t, f, done)
      decreases |rows|
    {
      var id :| id in rows;
      GroupStep(t, f, done, id);
      f := WithGroup(f, id, t.groups[id]);
      done, rows := done + {id}, rows - {id};
    }
    NamesAreRecorded(t, f, Elems(ids));
  }

  lemma NoNames(t: Tables)
    ensures NamesLoaded(t, NO_FACTS, {})
  {
    assert GroupKeys({}) == {} && Names(t, {}) == map[] && AccountNames(t, {}) == map[] && ResourceNames(t, {}) == map[];
  }

  lemma NamesAreRecorded(t: Tables, f: Facts, ids: set<string>)
    requires NamesLoaded(t, f, ids * t.groups.Keys)
    ensures GroupsRecorded(t, f, ids) && GroupsActive(t, f, ids * t.groups.Keys) && SameParents(NO_FACTS, f)
  {
    hide GroupKeys, GroupsActive;
    ActiveGroups(t, f, ids * t.groups.Keys);
  }

  lemma ActiveGroups(t: Tables, f: Facts, done: set<string>)
    requires f.permissionOf == f.resourceOf == f.accountOf == map[] && f.active == GroupKeys(done)
    ensures GroupsActive(t, f, done)
  {
    hide Key, Under;
    forall id: string
      ensures Key(GROUP, id) in f.active <==> id in done
      ensures Key(ACCOUNT_GROUP, id) in f.active <==> id in done
    {
      GroupKeyIn(done, id);
    }
    forall key | !Under(GROUP, key) && !Under(ACCOUNT_GROUP, key)
      ensures key !in f.active
    {
      if key in f.active {
        KeysAreUnder(done, key);
      }
    }
  }

  lemma GroupKeyIn(done: set<string>, id: string)
    ensures Key(GROUP, id) in GroupKeys(done) <==> id in done
    ensures Key(ACCOUNT_GROUP, id) in GroupKeys(done) <==> id in done
  {
    hide Key, Under;
    KeyIsUnder(GROUP, id);
    KeyIsUnder(ACCOUNT_GROUP, id);
    forall a | a in done
      ensures Key(GROUP, a) != Key(ACCOUNT_GROUP, id) && Key(ACCOUNT_GROUP, a) != Key(GROUP, id)
      ensures Key(GROUP, a) == Key(GROUP, id) ==> a == id
      ensures Key(ACCOUNT_GROUP, a) == Key(ACCOUNT_GROUP, id) ==> a == id
    {
      KeysApart(GROUP, a, ACCOUNT_GROUP);
      KeysApart(ACCOUNT_GROUP, a, GROUP);
      if Key(GROUP, a) == Key(GROUP, id) {
        KeyIsInjective(GROUP, a, id);
      }
      if Key(ACCOUNT_GROUP, a) == Key(ACCOUNT_GROUP, id) {
        KeyIsInjective(ACCOUNT_GROUP, a, id);
      }
    }
  }

  lemma KeysAreUnder(done: set<string>, key: string)
    requires key in GroupKeys(done)
    ensures Under(GROUP, key) || Under(ACCOUNT_GROUP, key)
  {
    hide Key, Under;
    forall a | a in done
      ensures Under(GROUP, Key(GROUP, a)) && Under(ACCOUNT_GROUP, Key(ACCOUNT_GROUP, a))
    {
      KeyIsUnder(GROUP, a);
      KeyIsUnder(ACCOUNT_GROUP, a);
    }
  }
}
