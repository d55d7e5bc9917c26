/**
 Authorizing one request: the loops over actions, permissions and grants.
 */
module AuthorizationSingle {
  import opened Strings
  import opened Authorization

  /** Role permissions on an action, with or without a resource. */
  predicate Permitted(t: Tables, user: string, action: string, kind: string, id: string)
  {
    var ps := PermissionsOf(t, user);
    && user != "" && action != ""
    && (kind != "" && id != "" ==> ActiveResource(t, kind, id))
    && (forall p | p in ps :: !(Denies(p) && Matches(t, p, action, kind, id)))
    && (|| (kind != "" && id != "" && exists p | p in ps :: Allows(p) && PermissionHits(t, p, kind, id) && Wild(p.action, action))
        || (&& (exists p | p in ps :: Allows(p) && Wild(p.action, action) && ActionOnly(p))
            && ((kind == "" && id == "") ||
                (kind != "" && id != "" && exists p | p in ps :: Allows(p) && PermissionHits(t, p, kind, id) && p.action == ""))))
  }

  /** Without a resource, only permissions on the action alone count. */
  lemma PermittedInGeneral(t: Tables, user: string, action: string)
    ensures Permitted(t, user, action, "", "") <==> MayAct(t, user, action)
  {
    var ps := PermissionsOf(t, user);
    forall p | p in ps
      ensures Matches(t, p, action, "", "") <==> Wild(p.action, action) && ActionOnly(p)
    {
    }
  }

  method HasPermission(t: Tables, userId: string, action: string, kind: string, id: string) returns (ok: bool)
    ensures ok <==> Permitted(t, Trim(userId), Trim(action), Trim(kind), Trim(id))
  {
    hide Trim, Denies, Allows, ActiveResource, PermissionGroupHolds;
    var user, action, kind, id := Trim(userId), Trim(action), Trim(kind), Trim(id);
    if user == "" || action == "" {
      return false;
    }
    if kind != "" && id != "" && !ActiveResource(t, kind, id) {
      return false;
    }
    var ps := PermissionsOf(t, user);
    for n := 0 to |ps|
      invariant forall k | 0 <= k < n :: !(Denies(ps[k]) && Matches(t, ps[k], action, kind, id))
    {
      if Denies(ps[n]) && Matches(t, ps[n], action, kind, id) {
        assert ps[n] in ps;
        return false;
      }
    }
    ok := AnyAllows(t, ps, action, kind, id);
  }

  /** The second loop: an allow on the action, and one on the resource, or one on both. */
  method AnyAllows(t: Tables, ps: seq<Permission>, action: string, kind: string, id: string) returns (ok: bool)
    requires action != ""
    ensures ok <==>
            (|| (kind != "" && id != "" && exists p | p in ps ::
                Allows(p) && PermissionHits(t, p, kind, id) && Wild(p.action, action))
             || (&& (exists p | p in ps :: Allows(p) && Wild(p.action, action) && ActionOnly(p))
                 && ((kind == "" && id == "") ||
                     (kind != "" && id != "" && exists p | p in ps ::
                         Allows(p) && PermissionHits(t, p, kind, id) && p.action == ""))))
  {
    hide Allows, PermissionGroupHolds;
    var hasAction := false;
    var hasResourceGrant := kind == "" && id == "";
    for n := 0 to |ps|
      invariant hasAction <==> exists k | 0 <= k < n :: Allows(ps[k]) && Wild(ps[k].action, action) && ActionOnly(ps[k])
      invariant hasResourceGrant <==> (kind == "" && id == "") ||
                                      (kind != "" && id != "" && exists k | 0 <= k < n ::
                                          Allows(ps[k]) && PermissionHits(t, ps[k], kind, id) && ps[k].action == "")
      invariant kind != "" && id != "" ==>
          forall k | 0 <= k < n :: !(Allows(ps[k]) && PermissionHits(t, ps[k], kind, id) && Wild(ps[k].action, action))
    {
      var p := ps[n];
      if !Allows(p) {
        continue;
      }
      if Wild(p.action, action) && ActionOnly(p) {
        hasAction := true;
        continue;
      }
      if kind != "" && id != "" && PermissionHits(t, p, kind, id) {
        if Wild(p.action, action) {
          return true;
        }
        if p.action == "" || p.action == "*" {
          hasResourceGrant := true;
        }
      }
    }
    ok := hasAction && hasResourceGrant;
  }

  method HasDeny(t: Tables, userId: string, action: string, kind: string, id: string) returns (denied: bool)
    ensures denied <==> Forbidden(t, Trim(userId), Trim(action), Trim(kind), Trim(id))
  {
    hide Trim, Denies, ActiveResource, Matches;
    var user, action, kind, id := Trim(userId), Trim(action), Trim(kind), Trim(id);
    if user == "" || action == "" {
      return false;
    }
    if kind != "" && id != "" && !ActiveResource(t, kind, id) {
      return false;
    }
    var ps := PermissionsOf(t, user);
    for n := 0 to |ps|
      invariant forall k | 0 <= k < n :: !(Denies(ps[k]) && Matches(t, ps[k], action, kind, id))
    {
      if Denies(ps[n]) && Matches(t, ps[n], action, kind, id) {
        return true;
      }
    }
    denied := false;
  }

  method HasGrant(t: Tables, userId: string, kind: string, id: string) returns (ok: bool)
    ensures ok <==> Granted(t, Trim(userId), Trim(kind), Trim(id))
  {
    hide Trim, ActiveResource, GrantHits;
    var user, kind, id := Trim(userId), Trim(kind), Trim(id);
    if user == "" || kind == "" || id == "" {
      return false;
    }
    if !ActiveResource(t, kind, id) {
      return false;
    }
    var gs := GrantsOf(t, user);
    for n := 0 to |gs|
      invariant forall k | 0 <= k < n :: !(GrantHits(t, gs[k], kind, id) && gs[k].effect == "deny")
    {
      if GrantHits(t, gs[n], kind, id) && gs[n].effect == "deny" {
        assert gs[n] in gs;
        return false;
      }
    }
    for n := 0 to |gs|
      invariant forall k | 0 <= k < n :: !(GrantHits(t, gs[k], kind, id) && gs[k].effect == "allow")
    {
      if GrantHits(t, gs[n], kind, id) && gs[n].effect == "allow" {
        assert gs[n] in gs;
        return true;
      }
    }
    ok := false;
  }

  /** Trims, drops blanks and repetitions, keeps the order of first occurrence. */
  method NormalizedActions(actions: seq<string>) returns (out: seq<string>)
    ensures (set a | a in out) == ActionsOf(actions)
    ensures forall a | a in out :: a != "" && Trim(a) == a
    ensures forall i, j | 0 <= i < j < |out| :: out[i] != out[j]
  {
    hide Trim;
    out := [];
    var seen: set<string> := {};
    for n := 0 to |actions|
      invariant seen == set a | a in out
      invariant seen == set a | a in actions[..n] && Trim(a) != "" :: Trim(a)
      invariant forall a | a in out :: a != "" && Trim(a) == a
      invariant forall i, j | 0 <= i < j < |out| :: out[i] != out[j]
    {
      var action := Trim(actions[n]);
      TrimTwice(actions[n]);
      assert actions[..n + 1] == actions[..n] + [actions[n]];
      if action == "" {
        continue;
      }
      if action in seen {
        continue;
      }
      seen := seen + {action};
      out := out + [action];
    }
    assert actions[..|actions|] == actions;
  }

  /** The decision on one request. */
  method Authorize(t: Tables, userId: string, r: Request) returns (d: Decision)
    ensures d == Decide(t, userId, r)
  {
    hide Trim, ActionsOf, Ordinary;
    var user := Trim(userId);
    if user == "" {
      return Decision(false, MissingUser);
    }
    if user !in t.subjects {
      return Decision(false, InvalidIdentity);
    }
    var subject := t.subjects[user];
    var kind, id := Trim(r.resourceType), Trim(r.resourceId);
    if (kind == "") != (id == "") {
      return Decision(false, InvalidResource);
    }
    if subject.superAdmin {
      return Decision(true, SuperAdmin);
    }
    TrimTwice(r.resourceType);
    TrimTwice(r.resourceId);
    var actions := NormalizedActions(r.actions);
    d := AuthorizeOrdinary(t, subject.id, actions, kind, id);
  }

  /** The loop over the actions, stopping at the first that is allowed and not forbidden. */
  method AuthorizeOrdinary(t: Tables, subject: string, actions: seq<string>, kind: string, id: string) returns (d: Decision)
    requires (kind == "") == (id == "") && Trim(kind) == kind && Trim(id) == id
    requires forall a | a in actions :: Trim(a) == a
    ensures d == Ordinary(t, Trim(subject), (set a | a in actions), kind, id)
  {
    hide Trim, MayAct, Forbidden, Granted, Permitted;
    var user := Trim(subject);
    TrimNothing();
    var allowedAction, resourcePermissionDenied := false, false;
    var n := 0;
    while n < |actions|
      invariant 0 <= n <= |actions| && !allowedAction
      invariant resourcePermissionDenied <==> exists k | 0 <= k < n :: MayAct(t, user, actions[k])
      invariant forall k | 0 <= k < n :: MayAct(t, user, actions[k]) ==> kind != "" && Forbidden(t, user, actions[k], kind, id)
    {
      var allowed := HasPermission(t, subject, actions[n], "", "");
      PermittedInGeneral(t, user, actions[n]);
      if !allowed {
        n := n + 1;
        continue;
      }
      if kind != "" {
        var denied := HasDeny(t, subject, actions[n], kind, id);
        if denied {
          resourcePermissionDenied := true;
          n := n + 1;
          continue;
        }
      }
      allowedAction := true;
      assert actions[n] in (set a | a in actions);
      break;
    }
    if !allowedAction {
      if resourcePermissionDenied {
        return Decision(false, ResourceDenied);
      }
      return Decision(false, ActionDenied);
    }
    if kind != "" {
      var allowed := HasGrant(t, subject, kind, id);
      if !allowed {
        return Decision(false, ResourceDenied);
      }
    }
    d := Decision(true, Allowed);
  }

  lemma TrimNothing()
    ensures Trim("") == ""
  {
  }
}
