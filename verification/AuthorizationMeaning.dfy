/**
 What a decision says about the tables, over their fields and written-out words: which rows
 let a user through, which stop them, and that one that denies beats any that allows.
 */
module AuthorizationMeaning {
  import opened Strings
  import opened Authorization

  // ------------------------------------------------------------------- the rows

  predicate SaysDeny(effect: string)
  {
    && |effect| == 4 && (effect[0] == 'd' || effect[0] == 'D') && (effect[1] == 'e' || effect[1] == 'E')
    && (effect[2] == 'n' || effect[2] == 'N') && (effect[3] == 'y' || effect[3] == 'Y')
  }

  predicate SaysAllow(effect: string)
  {
    || effect == ""
    || (&& |effect| == 5 && (effect[0] == 'a' || effect[0] == 'A') && (effect[1] == 'l' || effect[1] == 'L')
        && (effect[2] == 'l' || effect[2] == 'L') && (effect[3] == 'o' || effect[3] == 'O')
        && (effect[4] == 'w' || effect[4] == 'W'))
  }

  predicate Exists(t: Tables, kind: string, id: string)
  {
    && (kind == "host" ==> id in t.hosts)
    && (kind == "host_account" ==> id in t.hostAccounts && t.hostAccounts[id].parent in t.hosts)
    && (kind == "database_instance" ==> id in t.instances)
    && (kind == "database_account" ==> id in t.databaseAccounts && t.databaseAccounts[id].parent in t.instances)
    && (kind == "application" ==> id in t.applications)
    && (kind == "container_endpoint" ==> id in t.endpoints)
    && (kind == "platform_account" ==> id in t.platformAccounts)
    && (kind == "resource_group" || kind == "account_group" ==> id in t.groups)
  }

  /** The name the resource, or what it belongs to, is grouped under. */
  predicate GroupedUnder(t: Tables, kind: string, id: string, name: string)
  {
    || (kind == "host" && id in t.hosts && t.hosts[id] == name)
    || (kind == "host_account" && id in t.hostAccounts && t.hostAccounts[id].parent in t.hosts
        && t.hosts[t.hostAccounts[id].parent] == name)
    || (kind == "database_instance" && id in t.instances && t.instances[id] == name)
    || (kind == "database_account" && id in t.databaseAccounts && t.databaseAccounts[id].parent in t.instances
        && t.instances[t.databaseAccounts[id].parent] == name)
    || (kind == "application" && id in t.applications && t.applications[id] == name)
  }

  predicate PlatformGroup(t: Tables, kind: string, id: string, name: string)
  {
    kind == "platform_account" && id in t.platformAccounts && t.platformAccounts[id] == name
  }

  predicate EndpointGroup(t: Tables, kind: string, id: string, name: string)
  {
    kind == "container_endpoint" && id in t.endpoints && t.endpoints[id] == name
  }

  /** The group an account is itself in. */
  predicate AccountGroup(t: Tables, kind: string, id: string, name: string)
  {
    || (kind == "host_account" && id in t.hostAccounts && t.hostAccounts[id].parent in t.hosts && t.hostAccounts[id].group == name)
    || (kind == "database_account" && id in t.databaseAccounts && t.databaseAccounts[id].parent in t.instances
        && t.databaseAccounts[id].group == name)
    || PlatformGroup(t, kind, id, name)
  }

  /** The row is for the action, and for no resource in particular. */
  predicate ForAction(p: Permission, action: string)
  {
    (p.action == action || p.action == "*") && p.resourceType == "" && p.resourceId == ""
  }

  /** The row is for the action on the resource: by name, by wildcard, or through a group. */
  predicate ForResource(t: Tables, p: Permission, action: string, kind: string, id: string)
  {
    && (p.action == action || p.action == "*")
    && (|| ((p.resourceType == kind || p.resourceType == "*") && (p.resourceId == id || p.resourceId == "*"))
        || (&& p.resourceType == "resource_group" && p.resourceId != "" && p.resourceId in t.groups
            && (GroupedUnder(t, kind, id, t.groups[p.resourceId].name) || PlatformGroup(t, kind, id, t.groups[p.resourceId].name))))
  }

  /** The grant is for the resource: by name, by wildcard, through its parent, or through a group. */
  predicate GrantFor(t: Tables, g: Grant, kind: string, id: string)
  {
    || ((g.resourceType == kind || g.resourceType == "*") && (g.resourceId == id || g.resourceId == "*"))
    || (g.resourceType == "host" && kind == "host_account" && id in t.hostAccounts
        && t.hostAccounts[id].parent == g.resourceId && g.resourceId in t.hosts)
    || (g.resourceType == "database_instance" && kind == "database_account" && id in t.databaseAccounts
        && t.databaseAccounts[id].parent == g.resourceId && g.resourceId in t.instances)
    || (g.resourceType == "resource_group" && g.resourceId in t.groups && t.groups[g.resourceId].kind == "resource"
        && (GroupedUnder(t, kind, id, t.groups[g.resourceId].name) || EndpointGroup(t, kind, id, t.groups[g.resourceId].name)))
    || (g.resourceType == "account_group" && g.resourceId in t.groups && t.groups[g.resourceId].kind == "account"
        && AccountGroup(t, kind, id, t.groups[g.resourceId].name))
  }

  predicate Permits(t: Tables, user: string, p: Permission)
  {
    user in t.permissions && p in t.permissions[user]
  }

  predicate Grants(t: Tables, user: string, g: Grant)
  {
    user in t.grants && g in t.grants[user]
  }

  // ------------------------------------------------------- the rules in these terms

  lemma Effects(p: Permission)
    ensures Denies(p) <==> SaysDeny(p.effect)
    ensures Allows(p) <==> SaysAllow(p.effect)
  {
    Letters(p.effect);
  }

  lemma Letters(s: string)
    ensures Folds(s, "deny") <==> SaysDeny(s)
    ensures Folds(s, "allow") <==> s != "" && SaysAllow(s)
  {
  }

  lemma ExistsIsActive(t: Tables, kind: string, id: string)
    ensures ActiveResource(t, kind, id) <==> Exists(t, kind, id)
  {
    KindsDiffer();
  }

  lemma KindsDiffer()
    ensures |HOST| == 4 && |HOST_ACCOUNT| == 12 && |DATABASE_INSTANCE| == 17 && |DATABASE_ACCOUNT| == 16 && |APPLICATION| == 11
    ensures |CONTAINER_ENDPOINT| == 18 && |PLATFORM_ACCOUNT| == 16 && |GROUP| == 14 && |ACCOUNT_GROUP| == 13
    ensures DATABASE_ACCOUNT[0] == 'd' && PLATFORM_ACCOUNT[0] == 'p'
  {
  }

  lemma PermissionGroups(t: Tables, group: string, kind: string, id: string)
    requires group in t.groups
    ensures PermissionGroupHolds(t, group, kind, id) <==>
            GroupedUnder(t, kind, id, t.groups[group].name) || PlatformGroup(t, kind, id, t.groups[group].name)
  {
    KindsDiffer();
  }

  lemma GrantGroups(t: Tables, group: string, kind: string, id: string)
    requires group in t.groups
    ensures t.groups[group].kind == "resource" ==>
              (GrantGroupHolds(t, group, kind, id, "resource") <==>
               GroupedUnder(t, kind, id, t.groups[group].name) || EndpointGroup(t, kind, id, t.groups[group].name))
    ensures t.groups[group].kind == "account" ==>
              (GrantGroupHolds(t, group, kind, id, "account") <==> AccountGroup(t, kind, id, t.groups[group].name))
  {
    KindsDiffer();
  }

  lemma PermissionIsFor(t: Tables, p: Permission, action: string, kind: string, id: string)
    ensures Wild(p.action, action) && ActionOnly(p) <==> ForAction(p, action)
    ensures Wild(p.action, action) && PermissionHits(t, p, kind, id) <==> ForResource(t, p, action, kind, id)
  {
    hide GroupedUnder, PlatformGroup, PermissionGroupHolds;
    if p.resourceId in t.groups {
      PermissionGroups(t, p.resourceId, kind, id);
    } else {
      NoGroup(t, p.resourceId, kind, id);
    }
  }

  lemma NoGroup(t: Tables, group: string, kind: string, id: string)
    requires group !in t.groups
    ensures !PermissionGroupHolds(t, group, kind, id)
    ensures !GrantGroupHolds(t, group, kind, id, "resource") && !GrantGroupHolds(t, group, kind, id, "account")
  {
  }

  lemma GrantIsFor(t: Tables, g: Grant, kind: string, id: string)
    ensures GrantHits(t, g, kind, id) <==> GrantFor(t, g, kind, id)
  {
    hide GroupedUnder, EndpointGroup, AccountGroup, GrantGroupHolds;
    if g.resourceId in t.groups {
      GrantGroups(t, g.resourceId, kind, id);
      OtherKind(t, g.resourceId, kind, id);
    } else {
      NoGroup(t, g.resourceId, kind, id);
    }
  }

  lemma OtherKind(t: Tables, group: string, kind: string, id: string)
    requires group in t.groups
    ensures t.groups[group].kind != "resource" ==> !GrantGroupHolds(t, group, kind, id, "resource")
    ensures t.groups[group].kind != "account" ==> !GrantGroupHolds(t, group, kind, id, "account")
  {
  }

  // --------------------------------------------------------------- what is asked

  /** One of the actions asked for, white space cut off. */
  predicate Asks(r: Request, action: string)
  {
    action != "" && exists a | a in r.actions :: Trim(a) == action
  }

  lemma AsksIsIn(r: Request, action: string)
    ensures Asks(r, action) <==> action in ActionsOf(r.actions)
  {
    hide Trim;
  }

  /** Some row allows the action at large, and none denies it at large. */
  ghost predicate MayDo(t: Tables, user: string, action: string)
  {
    && user != "" && action != ""
    && (exists p: Permission :: Permits(t, user, p) && SaysAllow(p.effect) && ForAction(p, action))
    && (forall p: Permission | Permits(t, user, p) && ForAction(p, action) :: !SaysDeny(p.effect))
  }

  /** No row denies the action on the resource. */
  ghost predicate Unopposed(t: Tables, user: string, action: string, kind: string, id: string)
  {
    forall p: Permission | Permits(t, user, p) && ForResource(t, p, action, kind, id) :: !SaysDeny(p.effect)
  }

  /** The resource exists, some grant gives it, and none takes it away. */
  ghost predicate MayUse(t: Tables, user: string, kind: string, id: string)
  {
    && Exists(t, kind, id)
    && (exists g: Grant :: Grants(t, user, g) && g.effect == "allow" && GrantFor(t, g, kind, id))
    && (forall g: Grant | Grants(t, user, g) && GrantFor(t, g, kind, id) :: g.effect != "deny")
  }

  lemma ActIsDo(t: Tables, user: string, action: string)
    ensures MayAct(t, user, action) <==> MayDo(t, user, action)
  {
    hide SaysDeny, SaysAllow, Denies, Allows, ForAction;
    forall p: Permission
      ensures Permits(t, user, p) <==> p in PermissionsOf(t, user)
      ensures (Denies(p) <==> SaysDeny(p.effect)) && (Allows(p) <==> SaysAllow(p.effect))
      ensures Wild(p.action, action) && ActionOnly(p) <==> ForAction(p, action)
    {
      Effects(p);
      PermissionIsFor(t, p, action, "", "");
    }
    if MayDo(t, user, action) {
      var p: Permission :| Permits(t, user, p) && SaysAllow(p.effect) && ForAction(p, action);
      assert p in PermissionsOf(t, user) && Allows(p) && Wild(p.action, action) && ActionOnly(p);
    }
    if MayAct(t, user, action) {
      var p :| p in PermissionsOf(t, user) && Allows(p) && Wild(p.action, action) && ActionOnly(p);
      assert Permits(t, user, p) && SaysAllow(p.effect) && ForAction(p, action);
    }
  }

  lemma ForbiddenIsOpposed(t: Tables, user: string, action: string, kind: string, id: string)
    requires MayDo(t, user, action) && kind != "" && id != "" && Exists(t, kind, id)
    ensures Forbidden(t, user, action, kind, id) <==> !Unopposed(t, user, action, kind, id)
  {
    hide SaysDeny, SaysAllow, Denies, Allows, Exists, ActiveResource, PermissionHits, ForResource;
    ExistsIsActive(t, kind, id);
    forall p: Permission
      ensures Permits(t, user, p) <==> p in PermissionsOf(t, user)
      ensures Denies(p) <==> SaysDeny(p.effect)
      ensures Permits(t, user, p) && SaysDeny(p.effect) ==>
                (Matches(t, p, action, kind, id) <==> ForResource(t, p, action, kind, id))
    {
      Effects(p);
      PermissionIsFor(t, p, action, kind, id);
    }
    if Forbidden(t, user, action, kind, id) {
      var p :| p in PermissionsOf(t, user) && Denies(p) && Matches(t, p, action, kind, id);
      assert Permits(t, user, p) && ForResource(t, p, action, kind, id) && SaysDeny(p.effect);
    }
    if !Unopposed(t, user, action, kind, id) {
      var p: Permission :| Permits(t, user, p) && ForResource(t, p, action, kind, id) && SaysDeny(p.effect);
      assert p in PermissionsOf(t, user) && Denies(p) && Matches(t, p, action, kind, id);
    }
  }

  lemma GrantedIsUse(t: Tables, user: string, kind: string, id: string)
    requires user != "" && kind != "" && id != ""
    ensures Granted(t, user, kind, id) <==> MayUse(t, user, kind, id)
  {
    hide Exists, ActiveResource, GrantHits, GrantFor;
    ExistsIsActive(t, kind, id);
    forall g: Grant
      ensures Grants(t, user, g) <==> g in GrantsOf(t, user)
      ensures GrantHits(t, g, kind, id) <==> GrantFor(t, g, kind, id)
    {
      GrantIsFor(t, g, kind, id);
    }
    if MayUse(t, user, kind, id) {
      var g: Grant :| Grants(t, user, g) && g.effect == "allow" && GrantFor(t, g, kind, id);
      assert g in GrantsOf(t, user) && GrantHits(t, g, kind, id) && g.effect == "allow";
    }
    if Granted(t, user, kind, id) {
      var g :| g in GrantsOf(t, user) && GrantHits(t, g, kind, id) && g.effect == "allow";
      assert Grants(t, user, g) && g.effect == "allow" && GrantFor(t, g, kind, id);
    }
  }

  // ---------------------------------------------------------------------- results

  /** An ordinary user whose request names a resource fully or not at all. */
  predicate Ordinarily(t: Tables, userId: string, r: Request)
  {
    && Trim(userId) != "" && Trim(userId) in t.subjects && !t.subjects[Trim(userId)].superAdmin
    && (Trim(r.resourceType) == "") == (Trim(r.resourceId) == "")
  }

  function SubjectOf(t: Tables, userId: string): string
    requires Trim(userId) in t.subjects
  {
    Trim(t.subjects[Trim(userId)].id)
  }

  /** The request can be met: an action that may be done, unopposed on the resource, and the resource may be used. */
  ghost predicate Meets(t: Tables, user: string, r: Request, action: string)
  {
    var kind, id := Trim(r.resourceType), Trim(r.resourceId);
    && Asks(r, action) && MayDo(t, user, action)
    && (kind != "" ==> Unopposed(t, user, action, kind, id) && MayUse(t, user, kind, id))
  }

  lemma OrdinaryMeaning(t: Tables, user: string, r: Request)
    requires (Trim(r.resourceType) == "") == (Trim(r.resourceId) == "")
    ensures var d := Ordinary(t, user, ActionsOf(r.actions), Trim(r.resourceType), Trim(r.resourceId));
            d == if exists a: string :: Meets(t, user, r, a) then Decision(true, Allowed)
                 else if exists a: string :: Asks(r, a) && MayDo(t, user, a) then Decision(false, ResourceDenied)
                 else Decision(false, ActionDenied)
  {
    hide Trim, MayAct, MayDo, Forbidden, Unopposed, Granted, MayUse, Asks, ActionsOf;
    var kind, id := Trim(r.resourceType), Trim(r.resourceId);
    forall a: string
      ensures Asks(r, a) <==> a in ActionsOf(r.actions)
      ensures MayAct(t, user, a) <==> MayDo(t, user, a)
    {
      AsksIsIn(r, a);
      ActIsDo(t, user, a);
    }
    if kind != "" {
      if user != "" {
        GrantedIsUse(t, user, kind, id);
      } else {
        Nobody(t, kind, id);
      }
      forall a: string | MayDo(t, user, a) && MayUse(t, user, kind, id)
        ensures Forbidden(t, user, a, kind, id) <==> !Unopposed(t, user, a, kind, id)
      {
        UsedExists(t, user, kind, id);
        ForbiddenIsOpposed(t, user, a, kind, id);
      }
    }
    var d := Ordinary(t, user, ActionsOf(r.actions), kind, id);
    if a: string :| Meets(t, user, r, a) {
      assert a in ActionsOf(r.actions) && MayAct(t, user, a) && !(kind != "" && Forbidden(t, user, a, kind, id));
    }
    if d == Decision(true, Allowed) {
      var a :| a in ActionsOf(r.actions) && MayAct(t, user, a) && !(kind != "" && Forbidden(t, user, a, kind, id));
      assert Meets(t, user, r, a);
    }
    if a: string :| Asks(r, a) && MayDo(t, user, a) {
      assert a in ActionsOf(r.actions) && MayAct(t, user, a);
    } else {
      assert forall a | a in ActionsOf(r.actions) :: !MayAct(t, user, a);
    }
  }

  lemma UsedExists(t: Tables, user: string, kind: string, id: string)
    requires MayUse(t, user, kind, id)
    ensures Exists(t, kind, id)
  {
  }

  lemma Nobody(t: Tables, kind: string, id: string)
    ensures !Granted(t, "", kind, id) && forall a: string :: !MayDo(t, "", a)
  {
  }

  /** The whole decision on an ordinary user, in terms of the rows. */
  ghost predicate DecidedAs(t: Tables, user: string, r: Request, d: Decision)
  {
    d == if exists a: string :: Meets(t, user, r, a) then Decision(true, Allowed)
         else if exists a: string :: Asks(r, a) && MayDo(t, user, a) then Decision(false, ResourceDenied)
         else Decision(false, ActionDenied)
  }

  /** Both rules decide by the rows; the batch wants a resource. */
  lemma RowsDecide(t: Tables, userId: string, r: Request)
    requires Ordinarily(t, userId, r)
    ensures DecidedAs(t, SubjectOf(t, userId), r, Decide(t, userId, r))
    ensures Trim(r.resourceType) != "" ==> DecidedAs(t, SubjectOf(t, userId), r, DecideInBatch(t, userId, r))
    ensures Trim(r.resourceType) == "" ==> DecideInBatch(t, userId, r) == Decision(false, InvalidResource)
  {
    hide Trim, Ordinary, Meets, MayDo, Asks, ActionsOf;
    var user := SubjectOf(t, userId);
    OrdinaryMeaning(t, user, r);
    if ActionsOf(r.actions) == {} {
      forall a: string
        ensures !Asks(r, a)
      {
        AsksIsIn(r, a);
      }
      assert forall a: string | Meets(t, user, r, a) :: Asks(r, a) by { MeetsAsks(t, user, r); }
    }
  }

  lemma MeetsAsks(t: Tables, user: string, r: Request)
    ensures forall a: string | Meets(t, user, r, a) :: Asks(r, a)
  {
  }

  /** A row that denies every asked action at large is answered with action denied, whatever allows it. */
  lemma DenyAtLargeBeatsAllow(t: Tables, userId: string, r: Request)
    requires Ordinarily(t, userId, r)
    requires forall a: string | Asks(r, a) ::
        exists p: Permission :: Permits(t, SubjectOf(t, userId), p) && ForAction(p, a) && SaysDeny(p.effect)
    ensures Decide(t, userId, r) == Decision(false, ActionDenied)
    ensures Trim(r.resourceType) != "" ==> DecideInBatch(t, userId, r) == Decision(false, ActionDenied)
  {
    hide Trim, Asks, Decide, DecideInBatch, SaysDeny;
    RowsDecide(t, userId, r);
  }

  /** A row that denies every asked action on the resource keeps it from being allowed. */
  lemma DenyHereBeatsAllow(t: Tables, userId: string, r: Request)
    requires Ordinarily(t, userId, r) && Trim(r.resourceType) != ""
    requires forall a: string | Asks(r, a) ::
        exists p: Permission :: Permits(t, SubjectOf(t, userId), p) && SaysDeny(p.effect)
            && ForResource(t, p, a, Trim(r.resourceType), Trim(r.resourceId))
    ensures !Decide(t, userId, r).allowed && !DecideInBatch(t, userId, r).allowed
  {
    hide Trim, Asks, Decide, DecideInBatch, SaysDeny, ForResource, MayDo, MayUse;
    RowsDecide(t, userId, r);
  }

  /** One grant that denies keeps the resource from being allowed. */
  lemma DenyGrantBeatsAllow(t: Tables, userId: string, r: Request, g: Grant)
    requires Ordinarily(t, userId, r) && Trim(r.resourceType) != ""
    requires Grants(t, SubjectOf(t, userId), g) && g.effect == "deny" && GrantFor(t, g, Trim(r.resourceType), Trim(r.resourceId))
    ensures !Decide(t, userId, r).allowed && !DecideInBatch(t, userId, r).allowed
  {
    hide Trim, Asks, Decide, DecideInBatch, GrantFor, MayDo, Unopposed;
    RowsDecide(t, userId, r);
  }

  /** Whoever is allowed has a row that allows an asked action and, for a resource, a grant that gives it. */
  lemma AllowedHasRows(t: Tables, userId: string, r: Request) returns (p: Permission, g: Grant)
    requires Ordinarily(t, userId, r) && (Decide(t, userId, r).allowed || DecideInBatch(t, userId, r).allowed)
    ensures var user := SubjectOf(t, userId);
            && Permits(t, user, p) && SaysAllow(p.effect) && (exists a: string :: Asks(r, a) && ForAction(p, a))
            && (Trim(r.resourceType) != "" ==>
                  Grants(t, user, g) && g.effect == "allow" && GrantFor(t, g, Trim(r.resourceType), Trim(r.resourceId)))
  {
    hide Trim, Asks, Decide, DecideInBatch, GrantFor, SaysAllow, Unopposed;
    RowsDecide(t, userId, r);
    var user := SubjectOf(t, userId);
    var a: string :| Meets(t, user, r, a);
    p :| Permits(t, user, p) && SaysAllow(p.effect) && ForAction(p, a);
    if Trim(r.resourceType) != "" {
      g :| Grants(t, user, g) && g.effect == "allow" && GrantFor(t, g, Trim(r.resourceType), Trim(r.resourceId));
    } else {
      g := Grant("", "", "");
    }
  }

  /** One such row and one such grant are enough where no row denies. */
  lemma RowsAreEnough(t: Tables, userId: string, r: Request, action: string, p: Permission, g: Grant)
    requires Ordinarily(t, userId, r) && Trim(r.resourceType) != "" && Asks(r, action)
    requires var user := SubjectOf(t, userId);
             && user != "" && Permits(t, user, p) && SaysAllow(p.effect) && ForAction(p, action)
             && Grants(t, user, g) && g.effect == "allow" && GrantFor(t, g, Trim(r.resourceType), Trim(r.resourceId))
             && (forall q: Permission | Permits(t, user, q) :: !SaysDeny(q.effect))
             && (forall h: Grant | Grants(t, user, h) :: h.effect != "deny")
    requires Exists(t, Trim(r.resourceType), Trim(r.resourceId))
    ensures Decide(t, userId, r) == DecideInBatch(t, userId, r) == Decision(true, Allowed)
  {
    hide Trim, Decide, DecideInBatch, GrantFor, SaysAllow, SaysDeny, Exists, ForResource, ForAction;
    RowsDecide(t, userId, r);
    assert Meets(t, SubjectOf(t, userId), r, action) by {
      AsksSome(r, action);
    }
  }

  lemma AsksSome(r: Request, action: string)
    requires Asks(r, action)
    ensures action != ""
  {
  }

  /** Of everyone else only a known super-admin is let through, and not with half a resource. */
  lemma OthersAllowedExactlyWhen(t: Tables, userId: string, r: Request)
    requires !Ordinarily(t, userId, r)
    ensures var user, whole := Trim(userId), (Trim(r.resourceType) == "") == (Trim(r.resourceId) == "");
            var known := user != "" && user in t.subjects;
            && (Decide(t, userId, r).allowed <==> known && t.subjects[user].superAdmin && whole)
            && (DecideInBatch(t, userId, r).allowed <==>
                known && t.subjects[user].superAdmin && whole && Trim(r.resourceType) != "" && exists a: string :: Asks(r, a))
            && (!known ==>
                  && Decide(t, userId, r) == DecideInBatch(t, userId, r)
                  && Decide(t, userId, r).reason in {MissingUser, InvalidIdentity})
            && (known && !whole ==> Decide(t, userId, r) == DecideInBatch(t, userId, r) == Decision(false, InvalidResource))
  {
    hide Trim, Asks, ActionsOf;
    forall a: string
      ensures Asks(r, a) <==> a in ActionsOf(r.actions)
    {
      AsksIsIn(r, a);
    }
  }
}
