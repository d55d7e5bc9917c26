/**
 What a user may do, over one snapshot of the tables: role permissions decide the action,
 resource grants decide the resource, and a deny beats an allow in both.
 */
module Authorization {
  import opened Strings

  function LowerChar(c: char): char
  {
    if 'A' <= c <= 'Z' then c + ('a' - 'A') else c
  }

  /** Case-insensitive comparison with a lower-case ASCII word. */
  predicate Folds(s: string, word: string)
  {
    |s| == |word| && forall k | 0 <= k < |s| :: LowerChar(s[k]) == word[k]
  }

  // ----------------------------------------------------------------- tables

  const HOST := "host"
  const HOST_ACCOUNT := "host_account"
  const DATABASE_INSTANCE := "database_instance"
  const DATABASE_ACCOUNT := "database_account"
  const APPLICATION := "application"
  const CONTAINER_ENDPOINT := "container_endpoint"
  const PLATFORM_ACCOUNT := "platform_account"
  const GROUP := "resource_group"
  const ACCOUNT_GROUP := "account_group"

  datatype Group = Group(name: string, kind: string)
  datatype Child = Child(parent: string, group: string)
  datatype Subject = Subject(id: string, superAdmin: bool)
  datatype Permission = Permission(action: string, resourceType: string, resourceId: string, effect: string)
  datatype Grant = Grant(resourceType: string, resourceId: string, effect: string)

  /** The active rows at one instant, by id; parents hold the name of their group. */
  datatype Tables = Tables(
    hosts: map<string, string>,
    hostAccounts: map<string, Child>,
    instances: map<string, string>,
    databaseAccounts: map<string, Child>,
    applications: map<string, string>,
    endpoints: map<string, string>,
    platformAccounts: map<string, string>,
    groups: map<string, Group>,
    subjects: map<string, Subject>,
    permissions: map<string, seq<Permission>>,
    grants: map<string, seq<Grant>>)

  /** What the group service enforces on every group it stores. */
  predicate WellFormed(t: Tables)
  {
    && "" !in t.groups
    && forall g | g in t.groups :: t.groups[g].name != "" && (t.groups[g].kind == "resource" || t.groups[g].kind == "account")
  }

  function PermissionsOf(t: Tables, user: string): seq<Permission>
  {
    if user in t.permissions then t.permissions[user] else []
  }

  function GrantsOf(t: Tables, user: string): seq<Grant>
  {
    if user in t.grants then t.grants[user] else []
  }

  predicate HostAccountActive(t: Tables, id: string)
  {
    id in t.hostAccounts && t.hostAccounts[id].parent in t.hosts
  }

  predicate DatabaseAccountActive(t: Tables, id: string)
  {
    id in t.databaseAccounts && t.databaseAccounts[id].parent in t.instances
  }

  /** The types whose resources are looked up. */
  const AUDITED: set<string> :=
    {GROUP, ACCOUNT_GROUP, HOST, DATABASE_INSTANCE, APPLICATION, PLATFORM_ACCOUNT, CONTAINER_ENDPOINT, HOST_ACCOUNT,
        DATABASE_ACCOUNT}

  /** A resource of a known type must exist, and its parent too; other types are taken as they are. */
  predicate ActiveResource(t: Tables, kind: string, id: string)
  {
    if kind == HOST then id in t.hosts
    else if kind == HOST_ACCOUNT then HostAccountActive(t, id)
    else if kind == DATABASE_INSTANCE then id in t.instances
    else if kind == DATABASE_ACCOUNT then DatabaseAccountActive(t, id)
    else if kind == APPLICATION then id in t.applications
    else if kind == CONTAINER_ENDPOINT then id in t.endpoints
    else if kind == PLATFORM_ACCOUNT then id in t.platformAccounts
    else if kind == GROUP || kind == ACCOUNT_GROUP then id in t.groups
    else true
  }

  // ---------------------------------------------------------------- matching

  predicate Wild(granted: string, requested: string)
  {
    granted == requested || granted == "*"
  }

  predicate ActionOnly(p: Permission)
  {
    p.resourceType == "" && p.resourceId == ""
  }

  predicate Allows(p: Permission)
  {
    p.effect == "" || Folds(p.effect, "allow")
  }

  predicate Denies(p: Permission)
  {
    Folds(p.effect, "deny")
  }

  /** Permission groups: by name, whatever the group's kind; container endpoints are in none. */
  predicate PermissionGroupHolds(t: Tables, group: string, kind: string, id: string)
  {
    group in t.groups &&
    var name := t.groups[group].name;
    if kind == HOST_ACCOUNT then HostAccountActive(t, id) && t.hosts[t.hostAccounts[id].parent] == name
    else if kind == DATABASE_ACCOUNT then DatabaseAccountActive(t, id) && t.instances[t.databaseAccounts[id].parent] == name
    else if kind == HOST then id in t.hosts && t.hosts[id] == name
    else if kind == DATABASE_INSTANCE then id in t.instances && t.instances[id] == name
    else if kind == APPLICATION then id in t.applications && t.applications[id] == name
    else if kind == PLATFORM_ACCOUNT then id in t.platformAccounts && t.platformAccounts[id] == name
    else false
  }

  predicate PermissionHits(t: Tables, p: Permission, kind: string, id: string)
  {
    || (Wild(p.resourceType, kind) && Wild(p.resourceId, id))
    || (p.resourceType == GROUP && p.resourceId != "" && PermissionGroupHolds(t, p.resourceId, kind, id))
  }

  predicate Matches(t: Tables, p: Permission, action: string, kind: string, id: string)
  {
    Wild(p.action, action) &&
    if kind == "" && id == "" then ActionOnly(p) else ActionOnly(p) || PermissionHits(t, p, kind, id)
  }

  /** Grant groups of one kind: account groups hold accounts by their own group, resource groups by their parent's. */
  predicate GrantGroupHolds(t: Tables, group: string, kind: string, id: string, groupKind: string)
  {
    group in t.groups && t.groups[group].kind == groupKind &&
    var name := t.groups[group].name;
    if groupKind == "account" then
      if kind == HOST_ACCOUNT then HostAccountActive(t, id) && t.hostAccounts[id].group == name
      else if kind == DATABASE_ACCOUNT then DatabaseAccountActive(t, id) && t.databaseAccounts[id].group == name
      else if kind == PLATFORM_ACCOUNT then id in t.platformAccounts && t.platformAccounts[id] == name
      else false
    else
      if kind == HOST_ACCOUNT then HostAccountActive(t, id) && t.hosts[t.hostAccounts[id].parent] == name
      else if kind == DATABASE_ACCOUNT then DatabaseAccountActive(t, id) && t.instances[t.databaseAccounts[id].parent] == name
      else if kind == HOST then id in t.hosts && t.hosts[id] == name
      else if kind == DATABASE_INSTANCE then id in t.instances && t.instances[id] == name
      else if kind == APPLICATION then id in t.applications && t.applications[id] == name
      else if kind == CONTAINER_ENDPOINT then id in t.endpoints && t.endpoints[id] == name
      else false
  }

  predicate GrantHits(t: Tables, g: Grant, kind: string, id: string)
  {
    || (Wild(g.resourceType, kind) && Wild(g.resourceId, id))
    || (g.resourceType == HOST && kind == HOST_ACCOUNT && HostAccountActive(t, id) && t.hostAccounts[id].parent == g.resourceId)
    || (g.resourceType == DATABASE_INSTANCE && kind == DATABASE_ACCOUNT && DatabaseAccountActive(t, id)
        && t.databaseAccounts[id].parent == g.resourceId)
    || (g.resourceType == GROUP && GrantGroupHolds(t, g.resourceId, kind, id, "resource"))
    || (g.resourceType == ACCOUNT_GROUP && GrantGroupHolds(t, g.resourceId, kind, id, "account"))
  }

  // --------------------------------------------------------------- decisions

  datatype Reason = Allowed | SuperAdmin | MissingUser | InvalidIdentity | ActionDenied | InvalidResource | ResourceDenied

  datatype Decision = Decision(allowed: bool, reason: Reason)

  datatype Request = Request(actions: seq<string>, resourceType: string, resourceId: string)

  /** Some role lets the user do the action, and none forbids it, in general. */
  predicate MayAct(t: Tables, user: string, action: string)
  {
    && user != "" && action != ""
    && (forall p | p in PermissionsOf(t, user) :: !(Denies(p) && Wild(p.action, action) && ActionOnly(p)))
    && (exists p | p in PermissionsOf(t, user) :: Allows(p) && Wild(p.action, action) && ActionOnly(p))
  }

  /** Some role forbids the action on the resource. */
  predicate Forbidden(t: Tables, user: string, action: string, kind: string, id: string)
  {
    && user != "" && action != ""
    && (kind != "" && id != "" ==> ActiveResource(t, kind, id))
    && exists p | p in PermissionsOf(t, user) :: Denies(p) && Matches(t, p, action, kind, id)
  }

  /** The user is granted the resource, and no grant denies it. */
  predicate Granted(t: Tables, user: string, kind: string, id: string)
  {
    && user != "" && kind != "" && id != ""
    && ActiveResource(t, kind, id)
    && (forall g | g in GrantsOf(t, user) :: !(GrantHits(t, g, kind, id) && g.effect == "deny"))
    && (exists g | g in GrantsOf(t, user) :: GrantHits(t, g, kind, id) && g.effect == "allow")
  }

  /** The distinct non-blank actions of a request. */
  function ActionsOf(actions: seq<string>): set<string>
  {
    set a | a in actions && Trim(a) != "" :: Trim(a)
  }

  /** The rule for an ordinary user: an action that is allowed and not forbidden here, then a grant. */
  function Ordinary(t: Tables, user: string, actions: set<string>, kind: string, id: string): Decision
  {
    if exists a | a in actions :: MayAct(t, user, a) && !(kind != "" && Forbidden(t, user, a, kind, id)) then
      if kind == "" || Granted(t, user, kind, id) then Decision(true, Allowed) else Decision(false, ResourceDenied)
    else if exists a | a in actions :: MayAct(t, user, a) then Decision(false, ResourceDenied)
    else Decision(false, ActionDenied)
  }

  /** The decision on one request of one user. */
  function Decide(t: Tables, userId: string, r: Request): Decision
  {
    var user, kind, id := Trim(userId), Trim(r.resourceType), Trim(r.resourceId);
    if user == "" then Decision(false, MissingUser)
    else if user !in t.subjects then Decision(false, InvalidIdentity)
    else if (kind == "") != (id == "") then Decision(false, InvalidResource)
    else if t.subjects[user].superAdmin then Decision(true, SuperAdmin)
    else Ordinary(t, Trim(t.subjects[user].id), ActionsOf(r.actions), kind, id)
  }

  /** What the batch answers for one of its requests. */
  function DecideInBatch(t: Tables, userId: string, r: Request): Decision
  {
    var user, kind, id := Trim(userId), Trim(r.resourceType), Trim(r.resourceId);
    if user == "" then Decision(false, MissingUser)
    else if user !in t.subjects then Decision(false, InvalidIdentity)
    else if kind == "" || id == "" then Decision(false, InvalidResource)
    else if ActionsOf(r.actions) == {} then Decision(false, ActionDenied)
    else if t.subjects[user].superAdmin then Decision(true, SuperAdmin)
    else Ordinary(t, Trim(t.subjects[user].id), ActionsOf(r.actions), kind, id)
  }

  lemma OrdinaryReasons(t: Tables, user: string, actions: set<string>, kind: string, id: string)
    ensures var d := Ordinary(t, user, actions, kind, id);
            && d.reason in {Allowed, ResourceDenied, ActionDenied} && (d.allowed <==> d.reason == Allowed)
            && (actions == {} ==> d == Decision(false, ActionDenied))
  {
    hide MayAct, Forbidden, Granted;
  }

  /** The two ways to ask agree exactly unless the resource, or a super-admin's actions, are left out. */
  lemma BatchAgreesExactlyWhen(t: Tables, userId: string, r: Request)
    ensures var user, kind, id := Trim(userId), Trim(r.resourceType), Trim(r.resourceId);
            DecideInBatch(t, userId, r) == Decide(t, userId, r) <==>
              !(user != "" && user in t.subjects &&
                ((kind == "" && id == "") || (t.subjects[user].superAdmin && kind != "" && id != "" && ActionsOf(r.actions) == {})))
  {
    hide Ordinary, Trim, ActionsOf;
    var user, kind, id := Trim(userId), Trim(r.resourceType), Trim(r.resourceId);
    if user != "" && user in t.subjects {
      OrdinaryReasons(t, Trim(t.subjects[user].id), ActionsOf(r.actions), kind, id);
    }
  }

  const NO_TABLES: Tables := Tables(map[], map[], map[], map[], map[], map[], map[], map[], map[], map[], map[])

  /** A super-admin who names no action is let through alone, but not in a batch. */
  lemma BatchDisagrees()
    ensures var t := NO_TABLES.(subjects := map["u" := Subject("u", true)]);
            Decide(t, "u", Request([], "host", "h")).allowed && !DecideInBatch(t, "u", Request([], "host", "h")).allowed
  {
    hide Ordinary, ActionsOf, Trim;
    TrimKeeps("u");
    TrimKeeps("host");
    TrimKeeps("h");
    NoActions();
  }

  lemma NoActions()
    ensures ActionsOf([]) == {}
  {
  }
}
