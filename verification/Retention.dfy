/**
 One pass of audit retention: expired sessions first, then the oldest ones until the replay
 directory is within its quota. Every call to the outside may fail, with or without effect,
 and is noted when it does.
 */
module Retention {
  import opened Strings

  datatype Option<T> = Nothing | Some(value: T)

  /** How a call to the outside turns out; a failed one may have had its effect. */
  datatype Outcome = Done | Failed(effect: bool)

  function Upcoming(script: seq<Outcome>): Outcome
  {
    if script == [] then Done else script[0]
  }

  function Later(script: seq<Outcome>): seq<Outcome>
  {
    if script == [] then [] else script[1..]
  }

  predicate AllDone(script: seq<Outcome>)
  {
    forall o | o in script :: o.Done?
  }

  /** Sessions are known by numbers; only their order matters. */
  type Id = nat

  datatype Status = Ready | Pending | CleanupFailed

  /** `recoverable`: an upload of the session can still be completed. */
  datatype Session = Session(
    endedAt: Option<nat>, recoverable: bool, replayDir: string, artifacts: seq<string>, status: Status, at: Option<nat>)

  type Sessions = map<Id, Session>

  // -------------------------------------------------------------------- claims

  datatype Query = Query(cutoff: int, stale: int, replayOnly: bool)

  /** Ended in time, nothing to recover, and not under a claim that may still be at work. */
  predicate Claimable(sessions: Sessions, id: Id, q: Query)
  {
    && id in sessions
    && var s := sessions[id];
    && s.endedAt.Some? && s.endedAt.value <= q.cutoff
    && !s.recoverable
    && (s.status == Ready || s.at.Nothing? || s.at.value <= q.stale)
    && (q.replayOnly ==> s.replayDir != "")
  }

  predicate Older(sessions: Sessions, a: Id, b: Id)
    requires a in sessions && sessions[a].endedAt.Some? && b in sessions && sessions[b].endedAt.Some?
  {
    var x, y := sessions[a].endedAt.value, sessions[b].endedAt.value;
    x < y || (x == y && a < b)
  }

  /** Of two sessions one is the older. */
  lemma OlderIsStrict(sessions: Sessions, a: Id, b: Id, c: Id)
    requires forall id | id in {a, b, c} :: id in sessions && sessions[id].endedAt.Some?
    ensures Older(sessions, a, b) <==> a != b && !Older(sessions, b, a)
    ensures Older(sessions, a, b) && Older(sessions, b, c) ==> Older(sessions, a, c)
    ensures Older(sessions, a, b) ==> sessions[a].endedAt.value <= sessions[b].endedAt.value
  {
  }

  /** The oldest that can be claimed, as many as the limit allows. */
  predicate TheOldest(sessions: Sessions, ids: set<Id>, q: Query, limit: nat)
  {
    && |ids| <= limit
    && (forall id | id in ids :: Claimable(sessions, id, q))
    && (|ids| < limit ==> forall id | id in sessions && Claimable(sessions, id, q) :: id in ids)
    && forall a, b | a in ids && b in sessions && b !in ids && Claimable(sessions, b, q) :: Older(sessions, a, b)
  }

  function Elements(ids: seq<Id>): set<Id>
  {
    set id | id in ids
  }

  /** The claim is stored before anything is touched. */
  function Claimed(sessions: Sessions, ids: set<Id>, now: nat): Sessions
  {
    map id | id in sessions :: if id in ids then sessions[id].(status := Pending, at := Some(now)) else sessions[id]
  }

  // --------------------------------------------------------------------- notes

  datatype Note =
    /** The sessions a claim returned, and the total size of the directories at that moment. */
    | Claims(ids: set<Id>, total: nat)
    | ClaimFault(marked: set<Id>)
    | ListFault | MarkFault | DirectoryFault | ObjectFault | UsageFault
    | RowFault(gone: bool)

  predicate Faultless(log: seq<Note>)
  {
    forall n | n in log :: n.Claims?
  }

  /** The sessions that claims have returned. */
  function ClaimedIds(log: seq<Note>): set<Id>
  {
    if log == [] then {}
    else
      var last := log[|log| - 1];
      ClaimedIds(log[..|log| - 1]) + if last.Claims? then last.ids else {}
  }

  /** The sessions that a claim marked although it reported a failure. */
  function MarkedIds(log: seq<Note>): set<Id>
  {
    if log == [] then {}
    else
      var last := log[|log| - 1];
      MarkedIds(log[..|log| - 1]) + if last.ClaimFault? then last.marked else {}
  }

  /** Deletions of rows that happened although they were reported to fail. */
  function LostRows(log: seq<Note>): nat
  {
    if log == [] then 0
    else LostRows(log[..|log| - 1]) + if log[|log| - 1] == RowFault(true) then 1 else 0
  }

  /** How full the replay directory was at each claim. */
  function ClaimTotals(log: seq<Note>): seq<nat>
  {
    if log == [] then []
    else
      var last := log[|log| - 1];
      ClaimTotals(log[..|log| - 1]) + if last.Claims? then [last.total] else []
  }

  lemma Noted(log: seq<Note>, n: Note)
    ensures ClaimTotals(log + [n]) == ClaimTotals(log) + if n.Claims? then [n.total] else []
    ensures ClaimedIds(log + [n]) == ClaimedIds(log) + if n.Claims? then n.ids else {}
    ensures MarkedIds(log + [n]) == MarkedIds(log) + if n.ClaimFault? then n.marked else {}
    ensures LostRows(log + [n]) == LostRows(log) + if n == RowFault(true) then 1 else 0
    ensures Faultless(log + [n]) == (Faultless(log) && n.Claims?)
  {
    assert (log + [n])[..|log|] == log;
  }

  // ------------------------------------------------------------------- totals

  ghost function Total(sizes: map<string, nat>): nat
  {
    if sizes == map[] then 0
    else
      var k :| k in sizes;
      sizes[k] + Total(sizes - {k})
  }

  lemma {:induction false} TotalWithout(sizes: map<string, nat>, k: string)
    requires k in sizes
    ensures Total(sizes) == sizes[k] + Total(sizes - {k})
    decreases |sizes|
  {
    var c :| c in sizes && Total(sizes) == sizes[c] + Total(sizes - {c});
    if c != k {
      TotalWithout(sizes - {c}, k);
      TotalWithout(sizes - {k}, c);
      assert sizes - {c} - {k} == sizes - {k} - {c};
    }
  }

  lemma TotalShrinks(sizes: map<string, nat>, k: string)
    ensures Total(sizes - {k}) <= Total(sizes)
  {
    if k in sizes {
      TotalWithout(sizes, k);
    } else {
      assert sizes - {k} == sizes;
    }
  }

  // ------------------------------------------------------------------ the store

  class Store {
    var sessions: Sessions
    /** Replay directories with their sizes, and stored objects. */
    var directories: map<string, nat>
    var objects: set<string>
    var script: seq<Outcome>
    ghost var log: seq<Note>

    method NextOutcome() returns (o: Outcome)
      modifies this`script
      ensures o == Upcoming(old(script)) && script == Later(old(script))
    {
      o, script := Upcoming(script), Later(script);
    }

    /** The oldest of some sessions. */
    method FindOldest(among: set<Id>) returns (m: Id)
      requires among != {} && forall id | id in among :: id in sessions && sessions[id].endedAt.Some?
      ensures m in among && forall id | id in among && id != m :: Older(sessions, m, id)
    {
      m :| m in among;
      var left := among - {m};
      while left != {}
        invariant left < among && m in among - left
        invariant forall id | id in among - left && id != m :: Older(sessions, m, id)
        decreases |left|
      {
        var id :| id in left;
        ghost var seen := among - left;
        left := left - {id};
        assert among - left == seen + {id};
        if Older(sessions, id, m) {
          forall x | x in seen
            ensures Older(sessions, id, x)
          {
            assert x == m || Older(sessions, m, x);
          }
          m := id;
        }
      }
    }

    method SelectOldest(q: Query, limit: nat) returns (ids: seq<Id>)
      ensures TheOldest(sessions, Elements(ids), q, limit) && |Elements(ids)| == |ids|
    {
      ids := [];
      var left := set id | id in sessions && Claimable(sessions, id, q);
      while |ids| < limit && left != {}
        invariant |Elements(ids)| == |ids| <= limit
        invariant Elements(ids) !! left && forall id :: Claimable(sessions, id, q) <==> id in Elements(ids) + left
        invariant forall a, b | a in Elements(ids) && b in left :: Older(sessions, a, b)
        decreases left
      {
        var m := FindOldest(left);
        assert Elements(ids + [m]) == Elements(ids) + {m};
        ids, left := ids + [m], left - {m};
      }
    }

    /** Claims the oldest sessions of a kind. */
    method Claim(q: Query, now: nat, limit: nat) returns (ids: seq<Id>, ok: bool)
      modifies this`script, this`sessions, this`log
      ensures ok == Upcoming(old(script)).Done? && script == Later(old(script)) && |log| == |old(log)| + 1
      ensures log == old(log) + [log[|old(log)|]]
      ensures var n := log[|old(log)|];
          if ok then n == Claims(Elements(ids), Total(directories)) && TheOldest(old(sessions), n.ids, q, limit) && |n.ids| == |ids|
              && sessions == Claimed(old(sessions), n.ids, now)
          else n.ClaimFault? && ids == [] && sessions == Claimed(old(sessions), n.marked, now)
    {
      ids := SelectOldest(q, limit);
      var o := NextOutcome();
      ok := o.Done?;
      ghost var marked := if o == Failed(false) then {} else Elements(ids);
      log := log + [if ok then Claims(Elements(ids), Total(directories)) else ClaimFault(marked)];
      if o != Failed(false) {
        sessions := map id | id in sessions ::
            if id in ids then sessions[id].(status := Pending, at := Some(now)) else sessions[id];
      }
      if !ok {
        ids := [];
      }
    }

    method ListArtifacts(id: Id) returns (keys: seq<string>, ok: bool)
      modifies this`script, this`log
      ensures ok == Upcoming(old(script)).Done? && script == Later(old(script))
      ensures log == if ok then old(log) else old(log) + [ListFault]
      ensures ok ==> keys == if id in sessions then sessions[id].artifacts else []
    {
      var o := NextOutcome();
      ok := o.Done?;
      keys := if ok && id in sessions then sessions[id].artifacts else [];
      if !ok {
        log := log + [ListFault];
      }
    }

    method MarkFailed(id: Id, now: nat)
      modifies this`script, this`sessions, this`log
      ensures script == Later(old(script))
      ensures sessions ==
              if Upcoming(old(script)) != Failed(false) && id in old(sessions) && old(sessions)[id].status == Pending then
                old(sessions)[id := old(sessions)[id].(status := CleanupFailed, at := Some(now))]
              else old(sessions)
      ensures log == if Upcoming(old(script)).Done? then old(log) else old(log) + [MarkFault]
    {
      var o := NextOutcome();
      if o != Failed(false) && id in sessions && sessions[id].status == Pending {
        sessions := sessions[id := sessions[id].(status := CleanupFailed, at := Some(now))];
      }
      if !o.Done? {
        log := log + [MarkFault];
      }
    }

    /** Deletes the rows of a session under a claim. */
    method DeleteSession(id: Id) returns (ok: bool)
      requires id in sessions && sessions[id].status == Pending
      modifies this`script, this`sessions, this`log
      ensures ok == Upcoming(old(script)).Done? && script == Later(old(script))
      ensures sessions == if Upcoming(old(script)) == Failed(false) then old(sessions) else old(sessions) - {id}
      ensures log == if ok then old(log) else old(log) + [RowFault(Upcoming(old(script)).effect)]
    {
      var o := NextOutcome();
      ok := o.Done?;
      if o != Failed(false) {
        sessions := sessions - {id};
      }
      if !ok {
        log := log + [RowFault(o.effect)];
      }
    }

    /** A directory that is missing counts as deleted; a failed deletion may have removed it. */
    method DeleteDirectory(dir: string) returns (removed: nat, ok: bool)
      modifies this`script, this`directories, this`log
      ensures ok == Upcoming(old(script)).Done? && script == Later(old(script))
      ensures directories == if Upcoming(old(script)) == Failed(false) then old(directories) else old(directories) - {dir}
      ensures ok ==> Total(old(directories)) == removed + Total(directories)
      ensures !ok ==> removed == 0
      ensures log == if ok then old(log) else old(log) + [DirectoryFault]
    {
      var o := NextOutcome();
      ok := o.Done?;
      removed := if ok && dir in directories then directories[dir] else 0;
      if dir in directories {
        TotalWithout(directories, dir);
      }
      assert dir !in directories ==> directories - {dir} == directories;
      if o != Failed(false) {
        directories := directories - {dir};
      }
      if !ok {
        log := log + [DirectoryFault];
      }
    }

    method DeleteObject(key: string) returns (ok: bool)
      modifies this`script, this`objects, this`log
      ensures ok == Upcoming(old(script)).Done? && script == Later(old(script))
      ensures objects == if Upcoming(old(script)) == Failed(false) then old(objects) else old(objects) - {key}
      ensures log == if ok then old(log) else old(log) + [ObjectFault]
    {
      var o := NextOutcome();
      ok := o.Done?;
      if o != Failed(false) {
        objects := objects - {key};
      }
      if !ok {
        log := log + [ObjectFault];
      }
    }

    method Usage() returns (bytes: nat, ok: bool)
      modifies this`script, this`log
      ensures ok == Upcoming(old(script)).Done? && script == Later(old(script))
      ensures ok ==> bytes == Total(directories)
      ensures log == if ok then old(log) else old(log) + [UsageFault]
    {
      var o := NextOutcome();
      ok := o.Done?;
      bytes := 0;
      if ok {
        bytes := SumSizes();
      } else {
        log := log + [UsageFault];
      }
    }

    method SumSizes() returns (sum: nat)
      ensures sum == Total(directories)
    {
      sum := 0;
      var left := directories;
      while left != map[]
        invariant sum + Total(left) == Total(directories)
        decreases |left|
      {
        var k :| k in left;
        TotalWithout(left, k);
        sum := sum + left[k];
        left := left - {k};
      }
    }
  }

  // -------------------------------------------------------------- one session

  /** The state of the store at one moment. */
  datatype Snap = Snap(sessions: Sessions, directories: map<string, nat>, objects: set<string>)

  ghost function SnapOf(store: Store): Snap
    reads store
  {
    Snap(store.sessions, store.directories, store.objects)
  }

  /** Nothing of the session is left outside the tables. */
  predicate Gone(s: Session, n: Snap)
  {
    && (Trim(s.replayDir) != "" ==> s.replayDir !in n.directories)
    && forall key | key in s.artifacts :: key !in n.objects
  }

  /** Rows that are left say the same as before, those outside the marked ones to the letter. */
  predicate RowsKept(b: Snap, n: Snap, marked: set<Id>)
  {
    forall id | id in n.sessions ::
      && id in b.sessions
      && n.sessions[id] == b.sessions[id].(status := n.sessions[id].status, at := n.sessions[id].at)
      && (id !in marked ==> n.sessions[id] == b.sessions[id])
  }

  /** Only directories and objects of the touched sessions have disappeared, and nothing has appeared. */
  predicate OnlyOf(b: Snap, n: Snap, touched: set<Id>)
  {
    && n.objects <= b.objects
    && (forall d | d in n.directories :: d in b.directories && n.directories[d] == b.directories[d])
    && (forall d | d in b.directories && d !in n.directories ::
        exists id | id in touched && id in b.sessions :: b.sessions[id].replayDir == d)
    && (forall key | key in b.objects && key !in n.objects ::
        exists id | id in touched && id in b.sessions :: key in b.sessions[id].artifacts)
  }

  /** Rows that are gone were touched, and went after everything they stood for. */
  predicate DeletedLast(b: Snap, n: Snap, touched: set<Id>)
  {
    forall id | id in b.sessions && id !in n.sessions :: id in touched && Gone(b.sessions[id], n)
  }

  predicate Safe(b: Snap, n: Snap, touched: set<Id>, marked: set<Id>)
  {
    RowsKept(b, n, touched + marked) && OnlyOf(b, n, touched) && DeletedLast(b, n, touched)
  }

  /** Two stretches, one after the other. */
  lemma SafeThen(a: Snap, b: Snap, c: Snap, touched: set<Id>, marked: set<Id>, more: set<Id>)
    requires Safe(a, b, touched, marked) && Safe(b, c, more, {}) && more <= touched
    ensures Safe(a, c, touched, marked)
  {
    hide Trim;
    forall d | d in a.directories && d !in c.directories
      ensures exists id | id in touched && id in a.sessions :: a.sessions[id].replayDir == d
    {
      if d in b.directories {
        var id :| id in more && id in b.sessions && b.sessions[id].replayDir == d;
        assert id in touched && a.sessions[id].replayDir == d;
      }
    }
    forall key | key in a.objects && key !in c.objects
      ensures exists id | id in touched && id in a.sessions :: key in a.sessions[id].artifacts
    {
      if key in b.objects {
        var id :| id in more && id in b.sessions && key in b.sessions[id].artifacts;
        assert id in touched && key in a.sessions[id].artifacts;
      }
    }
    forall id | id in a.sessions && id !in c.sessions
      ensures id in touched && Gone(a.sessions[id], c)
    {
      if id in b.sessions {
        assert Gone(b.sessions[id], c);
      } else {
        assert Gone(a.sessions[id], b);
      }
    }
  }

  /** The session can be cleaned up at all. */
  predicate Fit(s: Session, hasObjects: bool)
  {
    (s.artifacts != [] ==> hasObjects) && forall key | key in s.artifacts :: Trim(key) != ""
  }

  /** What one cleanup does to the store. */
  ghost predicate Cleaned(m: Snap, n: Snap, id: Id, now: nat, removed: nat, deleted: bool, before: seq<Note>, after: seq<Note>)
  {
    && Safe(m, n, {id}, {})
    && (id in n.sessions ==>
        !deleted && (n.sessions[id] == m.sessions[id] || n.sessions[id].at == Some(now)) && n.sessions[id].status != Ready)
    && n.sessions.Keys + {id} == m.sessions.Keys
    && ClaimedIds(after) == ClaimedIds(before) && MarkedIds(after) == MarkedIds(before) && before <= after
    && ClaimTotals(after) == ClaimTotals(before)
    && LostRows(after) == LostRows(before) + (if id in n.sessions || deleted then 0 else 1)
    && removed + Total(n.directories) <= Total(m.directories)
    && (removed + Total(n.directories) == Total(m.directories) || (removed == 0 && !deleted && DirectoryFault in after))
    && (deleted ==> after == before) && (after == before || !Faultless(after))
  }

  /** What becomes of its directory and objects. */
  ghost predicate FilesCleaned(m: Snap, n: Snap, id: Id, removed: nat, ok: bool, before: seq<Note>, after: seq<Note>)
    requires id in m.sessions
  {
    && n.sessions == m.sessions && OnlyOf(m, n, {id})
    && (ok ==> Gone(m.sessions[id], n) && after == before)
    && ClaimedIds(after) == ClaimedIds(before) && MarkedIds(after) == MarkedIds(before) && before <= after
    && ClaimTotals(after) == ClaimTotals(before)
    && LostRows(after) == LostRows(before) && (after == before || !Faultless(after))
    && removed + Total(n.directories) <= Total(m.directories)
    && (removed + Total(n.directories) == Total(m.directories) || (removed == 0 && !ok && DirectoryFault in after))
  }

  method DeleteFiles(store: Store, id: Id, hasObjects: bool) returns (removed: nat, ok: bool)
    requires id in store.sessions
    modifies store`script, store`directories, store`objects, store`log
    ensures FilesCleaned(old(SnapOf(store)), SnapOf(store), id, removed, ok, old(store.log), store.log)
    ensures store.log == old(store.log) && Fit(store.sessions[id], hasObjects) ==> ok
    ensures AllDone(old(store.script)) ==> AllDone(store.script) && store.log == old(store.log)
  {
    hide Trim, Total, ClaimedIds, MarkedIds, ClaimTotals, LostRows, Faultless, OnlyOf, Gone;
    removed, ok := 0, false;
    ghost var m := SnapOf(store);
    OnlyIts(m, m, id);
    var dir := store.sessions[id].replayDir;
    var keys, listed := store.ListArtifacts(id);
    Noted(old(store.log), ListFault);
    if !listed || (|keys| > 0 && !hasObjects) {
      return;
    }
    if Trim(dir) != "" {
      var done;
      removed, done := store.DeleteDirectory(dir);
      OnlyIts(m, SnapOf(store), id);
      if !done {
        Noted(old(store.log), DirectoryFault);
        TotalShrinks(old(store.directories), dir);
        return;
      }
    }
    Noted(old(store.log), ObjectFault);
    ok := DeleteObjects(store, keys);
    OnlyIts(m, SnapOf(store), id);
  }

  lemma OnlyIts(m: Snap, n: Snap, id: Id)
    requires id in m.sessions
    ensures ItsFiles(m, n, m.sessions[id]) ==> OnlyOf(m, n, {id})
    ensures AllItsFiles(m, n, m.sessions[id]) ==> Gone(m.sessions[id], n)
  {
    hide Trim;
  }

  predicate ItsFiles(m: Snap, n: Snap, s: Session)
  {
    && n.objects <= m.objects && (forall key | key in m.objects && key !in n.objects :: key in s.artifacts)
    && n.directories in {m.directories, m.directories - {s.replayDir}}
  }

  predicate AllItsFiles(m: Snap, n: Snap, s: Session)
  {
    && (Trim(s.replayDir) != "" ==> n.directories == m.directories - {s.replayDir})
    && forall key | key in s.artifacts :: key !in n.objects
  }

  /** And then of its rows. */
  lemma RowsLast(m: Snap, f: Snap, n: Snap, id: Id, now: nat, removed: nat, ok: bool, deleted: bool,
      before: seq<Note>, between: seq<Note>, after: seq<Note>)
    requires id in m.sessions && m.sessions[id].status == Pending && FilesCleaned(m, f, id, removed, ok, before, between)
    requires n.directories == f.directories && n.objects == f.objects && (deleted ==> ok && after == between)
    requires if id in n.sessions then !deleted && (n.sessions == f.sessions
             || n.sessions == f.sessions[id := f.sessions[id].(status := CleanupFailed, at := Some(now))])
             else ok && n.sessions == f.sessions - {id}
    requires ClaimedIds(after) == ClaimedIds(between) && MarkedIds(after) == MarkedIds(between) && between <= after
    requires ClaimTotals(after) == ClaimTotals(between)
    requires after == between || !Faultless(after)
    requires LostRows(after) == LostRows(between) + if id in n.sessions || deleted then 0 else 1
    ensures Cleaned(m, n, id, now, removed, deleted, before, after)
  {
    hide Total, ClaimedIds, MarkedIds, ClaimTotals, LostRows, Trim;
    if id !in n.sessions {
      assert Gone(m.sessions[id], n);
    }
  }

  /**
   How a cleanup that fails leaves the rows: marked as failed, for a later pass to take up. It is otherwise only if
   the last call that failed was that marking, or the deletion of the rows themselves; these stay claimed then.
   */
  ghost predicate KeptAs(m: Sessions, n: Sessions, id: Id, now: nat, before: seq<Note>, after: seq<Note>)
    requires id in m
  {
    || n == m[id := m[id].(status := CleanupFailed, at := Some(now))]
    || (n == m && before < after && after[|after| - 1] in {MarkFault, RowFault(false)})
    || (n == m - {id} && before < after && after[|after| - 1] == RowFault(true))
  }

  /** A session's rows are deleted last: only once its directory and all its objects are gone. */
  method CleanupSession(store: Store, id: Id, now: nat, hasObjects: bool) returns (removed: nat, deleted: bool, ok: bool)
    requires id in store.sessions && store.sessions[id].status == Pending
    modifies store
    ensures Cleaned(old(SnapOf(store)), SnapOf(store), id, now, removed, deleted, old(store.log), store.log)
    ensures deleted <==> ok
    ensures !ok ==> KeptAs(old(store.sessions), store.sessions, id, now, old(store.log), store.log)
    ensures store.log == old(store.log) && Fit(old(store.sessions[id]), hasObjects) ==> ok
    ensures AllDone(old(store.script)) ==> AllDone(store.script) && store.log == old(store.log)
  {
    hide Total, ClaimedIds, MarkedIds, ClaimTotals, LostRows, Cleaned, OnlyOf, Gone, Fit;
    removed, ok := DeleteFiles(store, id, hasObjects);
    ghost var f, between := SnapOf(store), store.log;
    deleted := false;
    if !ok {
      Fail(store, id, now);
      RowsLast(old(SnapOf(store)), f, SnapOf(store), id, now, removed, false, false, old(store.log), between, store.log);
      return;
    }
    Noted(between, RowFault(true));
    Noted(between, RowFault(false));
    deleted := store.DeleteSession(id);
    RowsLast(old(SnapOf(store)), f, SnapOf(store), id, now, removed, ok, deleted, old(store.log), between, store.log);
    ok := deleted;
  }

  /** The claim is kept for a later pass. */
  method Fail(store: Store, id: Id, now: nat)
    requires id in store.sessions && store.sessions[id].status == Pending
    modifies store`script, store`sessions, store`log
    ensures
      || store.sessions == old(store.sessions)[id := old(store.sessions)[id].(status := CleanupFailed, at := Some(now))]
      || (store.sessions == old(store.sessions) && store.log == old(store.log) + [MarkFault])
    ensures old(store.log) <= store.log && ClaimedIds(store.log) == ClaimedIds(old(store.log))
    ensures store.log == old(store.log) || !Faultless(store.log)
    ensures ClaimTotals(store.log) == ClaimTotals(old(store.log))
    ensures MarkedIds(store.log) == MarkedIds(old(store.log)) && LostRows(store.log) == LostRows(old(store.log))
    ensures AllDone(old(store.script)) ==> AllDone(store.script) && store.log == old(store.log)
  {
    hide ClaimedIds, MarkedIds, ClaimTotals, LostRows;
    Noted(store.log, MarkFault);
    store.MarkFailed(id, now);
  }

  /** Deletes the objects in turn, up to the first that has no key or cannot be deleted. */
  method DeleteObjects(store: Store, keys: seq<string>) returns (ok: bool)
    modifies store`script, store`objects, store`log
    ensures store.objects <= old(store.objects)
    ensures forall key | key in old(store.objects) && key !in store.objects :: key in keys
    ensures ok ==> store.log == old(store.log) && forall key | key in keys :: key !in store.objects
    ensures !ok ==>
              || store.log == old(store.log) + [ObjectFault]
              || (store.log == old(store.log) && exists key | key in keys :: Trim(key) == "")
    ensures AllDone(old(store.script)) ==> AllDone(store.script) && store.log == old(store.log)
  {
    hide Trim;
    for n := 0 to |keys|
      invariant store.objects <= old(store.objects) && store.log == old(store.log)
      invariant forall key | key in old(store.objects) && key !in store.objects :: key in keys
      invariant forall k | 0 <= k < n :: keys[k] !in store.objects
      invariant AllDone(old(store.script)) ==> AllDone(store.script)
    {
      if Trim(keys[n]) == "" {
        return false;
      }
      var done := store.DeleteObject(keys[n]);
      if !done {
        return false;
      }
    }
    ok := true;
  }

  // ------------------------------------------------------------------ the pass

  datatype Result = Result(claimed: nat, deleted: nat, freed: nat, usage: nat, quotaExceeded: bool)

  /** What is under a claim of this pass cannot be claimed again in it. */
  predicate Held(sessions: Sessions, marked: set<Id>, now: nat)
  {
    forall id | id in marked && id in sessions :: sessions[id].status != Ready && sessions[id].at == Some(now)
  }

  predicate Waiting(sessions: Sessions, ids: set<Id>)
  {
    forall id | id in ids :: id in sessions && sessions[id].status == Pending
  }

  /** Which sessions the pass has to do with; of the claimed ones, `done` have been worked through. */
  predicate Tracked(b: Snap, n: Snap, now: nat, claimed: set<Id>, marked: set<Id>, done: set<Id>)
  {
    && done <= claimed
    && Safe(b, n, done, claimed + marked)
    && Held(n.sessions, claimed + marked, now)
    && Waiting(n.sessions, claimed - done)
  }

  /** The counters, with `lost` rows deleted unseen. */
  ghost predicate Tallied(b: Snap, n: Snap, done: nat, lost: nat, complete: bool, r: Result)
  {
    && r.deleted <= r.claimed == done
    && |n.sessions.Keys| + r.deleted + lost == |b.sessions.Keys|
    && r.freed + Total(n.directories) <= Total(b.directories)
    && (complete ==> r.freed + Total(n.directories) == Total(b.directories))
  }

  /** What the pass has done so far. */
  ghost predicate Passed(b: Snap, n: Snap, now: nat, log: seq<Note>, done: set<Id>, r: Result)
  {
    && Tracked(b, n, now, ClaimedIds(log), MarkedIds(log), done)
    && Tallied(b, n, |done|, LostRows(log), DirectoryFault !in log, r)
  }

  lemma Starts(b: Snap, now: nat)
    ensures Passed(b, b, now, [], {}, Result(0, 0, 0, 0, false))
  {
  }

  /** A fresh claim is of sessions that this pass has not claimed. */
  lemma ClaimIsFresh(sessions: Sessions, marked: set<Id>, now: nat, ids: set<Id>, q: Query)
    requires Held(sessions, marked, now) && q.stale < now && forall id | id in ids :: Claimable(sessions, id, q)
    ensures ids !! marked
  {
  }

  lemma ClaimHolds(sessions: Sessions, marked: set<Id>, waiting: set<Id>, now: nat, ids: set<Id>)
    requires Held(sessions, marked, now) && Waiting(sessions, waiting)
    ensures var next := Claimed(sessions, ids, now);
            Held(next, marked + ids, now) && Waiting(next, waiting) && (ids <= sessions.Keys ==> Waiting(next, waiting + ids))
  {
  }

  lemma ClaimTracks(b: Snap, n: Snap, now: nat, claimed: set<Id>, marked: set<Id>, done: set<Id>, ids: set<Id>)
    requires Tracked(b, n, now, claimed, marked, done)
    ensures var n' := n.(sessions := Claimed(n.sessions, ids, now));
            && Tracked(b, n', now, claimed, marked + ids, done)
            && (ids !! claimed && ids <= n.sessions.Keys ==> Tracked(b, n', now, claimed + ids, marked, done))
  {
    hide Held, Waiting, Safe, Claimed;
    ClaimIsSafe(b, n, now, done, claimed + marked, ids);
    ClaimHolds(n.sessions, claimed + marked, claimed - done, now, ids);
    assert claimed + ids + marked == claimed + marked + ids == claimed + (marked + ids);
    if ids !! claimed {
      assert claimed + ids - done == claimed - done + ids;
    }
  }

  lemma ClaimTallies(b: Snap, n: Snap, now: nat, done: nat, lost: nat, complete: bool, r: Result, ids: set<Id>)
    requires Tallied(b, n, done, lost, complete, r)
    ensures Tallied(b, n.(sessions := Claimed(n.sessions, ids, now)), done, lost, complete, r)
  {
    hide Total;
    assert Claimed(n.sessions, ids, now).Keys == n.sessions.Keys;
  }

  lemma ClaimPasses(b: Snap, n: Snap, now: nat, log: seq<Note>, done: set<Id>, r: Result, note: Note, ids: set<Id>)
    requires Passed(b, n, now, log, done, r)
    requires note == ClaimFault(ids) || (note.Claims? && note.ids == ids && ids !! ClaimedIds(log) && ids <= n.sessions.Keys)
    ensures Passed(b, n.(sessions := Claimed(n.sessions, ids, now)), now, log + [note], done, r)
  {
    hide Tracked, Tallied, ClaimedIds, MarkedIds, ClaimTotals, LostRows, Claimed, Faultless;
    Noted(log, note);
    ClaimTracks(b, n, now, ClaimedIds(log), MarkedIds(log), done, ids);
    ClaimTallies(b, n, now, |done|, LostRows(log), DirectoryFault !in log, r, ids);
    if note.Claims? {
      assert MarkedIds(log + [note]) == MarkedIds(log);
    } else {
      assert ClaimedIds(log + [note]) == ClaimedIds(log);
    }
  }

  lemma ClaimIsSafe(b: Snap, n: Snap, now: nat, done: set<Id>, marked: set<Id>, ids: set<Id>)
    requires Safe(b, n, done, marked)
    ensures Safe(b, n.(sessions := Claimed(n.sessions, ids, now)), done, marked + ids)
  {
    hide Trim;
    var n' := n.(sessions := Claimed(n.sessions, ids, now));
    assert n'.sessions.Keys == n.sessions.Keys;
    forall id | id in b.sessions && id !in n'.sessions
      ensures id in done && Gone(b.sessions[id], n')
    {
      assert Gone(b.sessions[id], n);
    }
  }

  lemma CleanupHolds(m: Snap, n: Snap, id: Id, now: nat, marked: set<Id>, waiting: set<Id>)
    requires Held(m.sessions, marked, now) && Waiting(m.sessions, waiting) && id in marked && id in m.sessions
    requires RowsKept(m, n, {id}) && n.sessions.Keys + {id} == m.sessions.Keys
    requires id in n.sessions ==>
        (n.sessions[id] == m.sessions[id] || n.sessions[id].at == Some(now)) && n.sessions[id].status != Ready
    ensures Held(n.sessions, marked, now) && Waiting(n.sessions, waiting - {id})
  {
  }

  lemma CleanupTracks(b: Snap, m: Snap, n: Snap, now: nat, claimed: set<Id>, marked: set<Id>, done: set<Id>, id: Id)
    requires Tracked(b, m, now, claimed, marked, done) && id in claimed && id !in done
    requires Safe(m, n, {id}, {}) && n.sessions.Keys + {id} == m.sessions.Keys
    requires id in n.sessions ==>
        (n.sessions[id] == m.sessions[id] || n.sessions[id].at == Some(now)) && n.sessions[id].status != Ready
    ensures Tracked(b, n, now, claimed, marked, done + {id})
  {
    hide Safe, Held, Waiting;
    SafeMore(b, m, done, {id}, claimed + marked);
    SafeThen(b, m, n, done + {id}, claimed + marked, {id});
    SafeRows(m, n, {id});
    CleanupHolds(m, n, id, now, claimed + marked, claimed - done);
    assert claimed - done - {id} == claimed - (done + {id});
  }

  lemma CleanupPasses(b: Snap, m: Snap, n: Snap, now: nat, log: seq<Note>, log': seq<Note>, done: set<Id>, r: Result, id: Id,
      removed: nat, deleted: bool, r': Result)
    requires Passed(b, m, now, log, done, r) && id in ClaimedIds(log) && id !in done
    requires Cleaned(m, n, id, now, removed, deleted, log, log')
    requires r' == r.(claimed := r.claimed + 1, freed := r.freed + removed, deleted := r.deleted + if deleted then 1 else 0)
    ensures Passed(b, n, now, log', done + {id}, r')
  {
    hide Total, ClaimedIds, MarkedIds, ClaimTotals, LostRows, Safe, Tracked, Faultless;
    CleanupTracks(b, m, n, now, ClaimedIds(log), MarkedIds(log), done, id);
    assert n.sessions.Keys == if id in n.sessions then m.sessions.Keys else m.sessions.Keys - {id};
  }

  lemma SafeRows(b: Snap, n: Snap, touched: set<Id>)
    requires Safe(b, n, touched, {})
    ensures RowsKept(b, n, touched)
  {
    assert touched + {} == touched;
  }

  lemma SafeMore(b: Snap, n: Snap, done: set<Id>, more: set<Id>, marked: set<Id>)
    requires Safe(b, n, done, marked) && more <= marked
    ensures Safe(b, n, done + more, marked)
  {
    hide Gone;
    forall d | d in b.directories && d !in n.directories
      ensures exists id | id in done + more && id in b.sessions :: b.sessions[id].replayDir == d
    {
      var id :| id in done && id in b.sessions && b.sessions[id].replayDir == d;
      assert id in done + more;
    }
    forall key | key in b.objects && key !in n.objects
      ensures exists id | id in done + more && id in b.sessions :: key in b.sessions[id].artifacts
    {
      var id :| id in done && id in b.sessions && key in b.sessions[id].artifacts;
      assert id in done + more;
    }
  }

  predicate AllFit(b: Snap, ids: set<Id>, hasObjects: bool)
  {
    forall id | id in ids && id in b.sessions :: Fit(b.sessions[id], hasObjects)
  }

  /** Success, and only success, is reported; `unfit` sessions are the only failures that no call reports. */
  ghost predicate Reported(b: Snap, log: seq<Note>, hasObjects: bool, r: Result, ok: bool)
  {
    && (ok ==> Faultless(log) && r.deleted == r.claimed)
    && (Faultless(log) && AllFit(b, ClaimedIds(log), hasObjects) ==> ok)
  }

  lemma ReportGoesOn(b: Snap, m: Snap, id: Id, log: seq<Note>, log': seq<Note>, hasObjects: bool, r: Result, r': Result,
      ok: bool, deleted: bool)
    requires Reported(b, log, hasObjects, r, ok) && id in ClaimedIds(log) && ClaimedIds(log') == ClaimedIds(log)
    requires log <= log' && (log' == log || !Faultless(log')) && (deleted ==> log' == log)
    requires id in b.sessions && id in m.sessions && m.sessions[id].artifacts == b.sessions[id].artifacts
    requires log' == log && Fit(m.sessions[id], hasObjects) ==> deleted
    requires r'.claimed == r.claimed + 1 && r'.deleted == r.deleted + if deleted then 1 else 0
    ensures Reported(b, log', hasObjects, r', ok && deleted)
  {
    hide ClaimedIds, Trim;
  }

  /** One claimed session: everything that is known of the pass goes on. */
  method CleanupNext(store: Store, ghost b: Snap, now: nat, ghost done: set<Id>, r: Result, id: Id, hasObjects: bool,
      ghost ok: bool)
      returns (r': Result, removed: nat, cleaned: bool)
    requires Passed(b, SnapOf(store), now, store.log, done, r) && id in ClaimedIds(store.log) && id !in done
    requires Reported(b, store.log, hasObjects, r, ok)
    modifies store
    ensures Passed(b, SnapOf(store), now, store.log, done + {id}, r') && Reported(b, store.log, hasObjects, r', ok && cleaned)
    ensures r' == r.(claimed := r.claimed + 1, freed := r.freed + removed, deleted := r'.deleted)
    ensures old(store.log) <= store.log && ClaimedIds(store.log) == ClaimedIds(old(store.log))
    ensures MarkedIds(store.log) == MarkedIds(old(store.log)) && ClaimTotals(store.log) == ClaimTotals(old(store.log))
    ensures removed + Total(store.directories) == Total(old(store.directories))
            || (removed == 0 && !cleaned && DirectoryFault in store.log)
    ensures AllDone(old(store.script)) ==> AllDone(store.script) && store.log == old(store.log)
  {
    hide Total, ClaimedIds, MarkedIds, ClaimTotals, LostRows, Safe, Held, Fit;
    ghost var m := SnapOf(store);
    IsWaiting(b, m, now, store.log, done, r, id);
    var deleted;
    removed, deleted, cleaned := CleanupSession(store, id, now, hasObjects);
    r' := r.(claimed := r.claimed + 1, freed := r.freed + removed, deleted := r.deleted + if deleted then 1 else 0);
    CleanupPasses(b, m, SnapOf(store), now, old(store.log), store.log, done, r, id, removed, deleted, r');
    ReportGoesOn(b, m, id, old(store.log), store.log, hasObjects, r, r', ok, deleted);
  }

  lemma IsWaiting(b: Snap, m: Snap, now: nat, log: seq<Note>, done: set<Id>, r: Result, id: Id)
    requires Passed(b, m, now, log, done, r) && id in ClaimedIds(log) && id !in done
    ensures id in m.sessions && m.sessions[id].status == Pending
    ensures id in b.sessions && m.sessions[id].artifacts == b.sessions[id].artifacts
  {
    hide Total, ClaimedIds, MarkedIds, ClaimTotals, LostRows;
    assert id in ClaimedIds(log) - done;
  }

  /** The expired sessions, the oldest first, as many as the batch allows. */
  method ExpiredPhase(store: Store, now: nat, q: Query, batchSize: nat, hasObjects: bool)
      returns (r: Result, remaining: nat, offered: bool, ok: bool)
    requires store.log == [] && q.stale < now
    modifies store
    ensures Passed(old(SnapOf(store)), SnapOf(store), now, store.log, ClaimedIds(store.log), r)
        && r.claimed + remaining == batchSize
    ensures store.log != [] && (offered <==> store.log[0].Claims?)
    ensures offered ==> TheOldest(old(store.sessions), store.log[0].ids, q, batchSize) && ClaimedIds(store.log) == store.log[0].ids
    ensures if offered then MarkedIds(store.log) == {} else r.claimed == 0
    ensures |ClaimTotals(store.log)| <= 1
    ensures Reported(old(SnapOf(store)), store.log, hasObjects, r, ok)
    ensures AllDone(old(store.script)) ==> AllDone(store.script) && Faultless(store.log)
    ensures r.usage == 0 && !r.quotaExceeded
  {
    hide Total, ClaimedIds, MarkedIds, ClaimTotals, LostRows, Passed, Reported, TheOldest, Claimed, Faultless, Elements;
    ghost var b := SnapOf(store);
    r, remaining := Result(0, 0, 0, 0, false), batchSize;
    var expired;
    expired, offered := store.Claim(q, now, batchSize);
    ClaimStarts(b, now, store.log[0], hasObjects, batchSize, q);
    assert store.log == [store.log[0]];
    ok := offered;
    if !offered {
      return;
    }
    ghost var ids := Elements(expired);
    NothingDone(expired);
    for n := 0 to |expired|
      invariant store.log != [] && store.log[0].Claims? && store.log[0].ids == ids && ClaimedIds(store.log) == ids
      invariant MarkedIds(store.log) == {} && |ClaimTotals(store.log)| <= 1
      invariant Passed(b, SnapOf(store), now, store.log, Elements(expired[..n]), r) && Reported(b, store.log, hasObjects, r, ok)
      invariant r.claimed == n && n + remaining == batchSize && r.usage == 0 && !r.quotaExceeded
      invariant AllDone(old(store.script)) ==> AllDone(store.script) && Faultless(store.log)
    {
      if remaining == 0 {
        break;
      }
      NextId(expired, n);
      var removed, cleaned;
      r, removed, cleaned := CleanupNext(store, b, now, Elements(expired[..n]), r, expired[n], hasObjects, ok);
      ok := ok && cleaned;
      remaining := remaining - 1;
    }
    assert expired[..|expired|] == expired;
  }

  lemma NothingDone(ids: seq<Id>)
    ensures Elements(ids[..0]) == {}
  {
  }

  lemma NextId(ids: seq<Id>, n: nat)
    requires n < |ids| && |Elements(ids)| == |ids|
    ensures ids[n] in Elements(ids) && ids[n] !in Elements(ids[..n]) && Elements(ids[..n + 1]) == Elements(ids[..n]) + {ids[n]}
  {
    if ids[n] in Elements(ids[..n]) {
      assert Elements(ids) == Elements(ids[..n] + ids[n + 1..]);
      SizeAtMost(ids[..n] + ids[n + 1..]);
    }
  }

  lemma {:induction false} SizeAtMost(ids: seq<Id>)
    ensures |Elements(ids)| <= |ids|
  {
    if ids != [] {
      var init := ids[..|ids| - 1];
      SizeAtMost(init);
      assert Elements(ids) == Elements(init) + {ids[|ids| - 1]};
    }
  }

  /** The first claim of a pass. */
  lemma ClaimStarts(b: Snap, now: nat, note: Note, hasObjects: bool, limit: nat, q: Query)
    requires note.ClaimFault? || (note.Claims? && TheOldest(b.sessions, note.ids, q, limit))
    ensures var ids := if note.Claims? then note.ids else note.marked;
            Passed(b, b.(sessions := Claimed(b.sessions, ids, now)), now, [note], {}, Result(0, 0, 0, 0, false))
    ensures ClaimedIds([note]) == (if note.Claims? then note.ids else {}) && (note.Claims? ==> MarkedIds([note]) == {})
        && |ClaimTotals([note])| <= 1
    ensures Reported(b, [note], hasObjects, Result(0, 0, 0, 0, false), note.Claims?) && Faultless([note]) == note.Claims?
  {
    hide Passed, Claimed, Total;
    Starts(b, now);
    Noted([], note);
    assert [] + [note] == [note];
    ClaimPasses(b, b, now, [], {}, Result(0, 0, 0, 0, false), note, if note.Claims? then note.ids else note.marked);
  }

  /** Sessions were taken oldest first: what could have been taken and was not is younger. */
  predicate OldestFirst(sessions: Sessions, taken: set<Id>, seen: set<Id>, q: Query)
  {
    && (forall a | a in taken :: Claimable(sessions, a, q))
    && forall a, x | a in taken && x in sessions && x !in seen && Claimable(sessions, x, q) :: Older(sessions, a, x)
  }

  predicate NoneLeft(sessions: Sessions, q: Query)
  {
    forall id | id in sessions :: !Claimable(sessions, id, q)
  }

  /** What is not under a claim of the pass is as it was. */
  lemma AsItWas(b: Snap, n: Snap, now: nat, log: seq<Note>, r: Result, q: Query, id: Id)
    requires Passed(b, n, now, log, ClaimedIds(log), r) && q.stale < now
    ensures Claimable(n.sessions, id, q) ==> id !in ClaimedIds(log) + MarkedIds(log)
    ensures id !in ClaimedIds(log) + MarkedIds(log) && (id in n.sessions || id in b.sessions) ==>
              id in n.sessions && id in b.sessions && n.sessions[id] == b.sessions[id]
  {
    hide ClaimedIds, MarkedIds, ClaimTotals, LostRows, Total, Gone, OnlyOf;
  }

  lemma ClaimIsOldest(b: Snap, n: Snap, now: nat, log: seq<Note>, r: Result, q: Query, earlier: set<Id>, ids: set<Id>, limit: nat)
    requires Passed(b, n, now, log, ClaimedIds(log), r) && q.stale < now && earlier <= ClaimedIds(log)
    requires OldestFirst(b.sessions, ClaimedIds(log) - earlier, ClaimedIds(log) + MarkedIds(log), q)
    requires TheOldest(n.sessions, ids, q, limit)
    ensures ids !! ClaimedIds(log) + MarkedIds(log)
    ensures OldestFirst(b.sessions, ClaimedIds(log) + ids - earlier, ClaimedIds(log) + ids + MarkedIds(log), q)
  {
    hide ClaimedIds, MarkedIds, ClaimTotals, Passed;
    var seen := ClaimedIds(log) + MarkedIds(log);
    forall id
      ensures Claimable(n.sessions, id, q) ==> id !in seen && id in b.sessions && n.sessions[id] == b.sessions[id]
      ensures id in b.sessions && id !in seen ==> id in n.sessions && n.sessions[id] == b.sessions[id]
    {
      AsItWas(b, n, now, log, r, q, id);
    }
    forall a, x | a in ClaimedIds(log) + ids - earlier && x in b.sessions && x !in seen + ids && Claimable(b.sessions, x, q)
      ensures Claimable(b.sessions, a, q) && Older(b.sessions, a, x)
    {
      if a in ids {
        assert Claimable(n.sessions, a, q) && Claimable(n.sessions, x, q);
        assert Older(n.sessions, a, x);
      }
    }
  }

  /** Everything that is known between two claims of the quota loop. */
  ghost predicate Between(b: Snap, n: Snap, now: nat, log: seq<Note>, r: Result, q: Query, earlier: set<Id>,
      hasObjects: bool, ok: bool)
  {
    && Passed(b, n, now, log, ClaimedIds(log), r) && Reported(b, log, hasObjects, r, ok)
    && earlier <= ClaimedIds(log)
    && OldestFirst(b.sessions, ClaimedIds(log) - earlier, ClaimedIds(log) + MarkedIds(log), q)
  }

  lemma FaultBetween(b: Snap, n: Snap, now: nat, log: seq<Note>, r: Result, q: Query, earlier: set<Id>, hasObjects: bool, ok: bool)
    requires Between(b, n, now, log, r, q, earlier, hasObjects, ok)
    ensures Between(b, n, now, log + [UsageFault], r, q, earlier, hasObjects, false)
  {
    hide ClaimedIds, MarkedIds, ClaimTotals, LostRows, Tracked, Total, OldestFirst, Faultless, AllFit;
    Noted(log, UsageFault);
    assert ClaimedIds(log + [UsageFault]) == ClaimedIds(log) && MarkedIds(log + [UsageFault]) == MarkedIds(log);
  }

  lemma ResultBetween(b: Snap, n: Snap, now: nat, log: seq<Note>, r: Result, q: Query, earlier: set<Id>, hasObjects: bool, ok: bool,
      usage: nat, exceeded: bool)
    requires Between(b, n, now, log, r, q, earlier, hasObjects, ok)
    ensures Between(b, n, now, log, r.(usage := usage, quotaExceeded := exceeded), q, earlier, hasObjects, ok)
  {
    hide ClaimedIds, MarkedIds, ClaimTotals, LostRows, Total, Safe, Held, OldestFirst, Faultless, AllFit;
  }

  /** A claim in the quota loop that failed, or found nothing. */
  lemma EmptyClaim(b: Snap, n: Snap, n': Snap, now: nat, log: seq<Note>, r: Result, q: Query, earlier: set<Id>, hasObjects: bool,
      ok: bool, note: Note)
    requires Between(b, n, now, log, r, q, earlier, hasObjects, ok) && (note.ClaimFault? || (note.Claims? && note.ids == {}))
    requires n' == n.(sessions := Claimed(n.sessions, if note.Claims? then {} else note.marked, now))
    ensures Between(b, n', now, log + [note], r, q, earlier, hasObjects, ok && note.Claims?)
    ensures note.Claims? ==> n' == n
  {
    hide ClaimedIds, MarkedIds, ClaimTotals, LostRows, Total, Passed, Faultless, AllFit;
    Noted(log, note);
    ClaimPasses(b, n, now, log, ClaimedIds(log), r, note, if note.Claims? then {} else note.marked);
    assert ClaimedIds(log + [note]) == ClaimedIds(log);
    if note.Claims? {
      assert Claimed(n.sessions, {}, now) == n.sessions;
    }
  }

  /** One that found a session. */
  lemma OneClaim(b: Snap, n: Snap, n': Snap, now: nat, log: seq<Note>, r: Result, q: Query, earlier: set<Id>, hasObjects: bool,
      ok: bool, id: Id, total: nat)
    requires Between(b, n, now, log, r, q, earlier, hasObjects, ok) && q.stale < now
    requires TheOldest(n.sessions, {id}, q, 1) && n' == n.(sessions := Claimed(n.sessions, {id}, now))
    ensures var log' := log + [Claims({id}, total)];
            && Passed(b, n', now, log', ClaimedIds(log), r) && Reported(b, log', hasObjects, r, ok)
            && ClaimedIds(log') == ClaimedIds(log) + {id} && id !in ClaimedIds(log) && MarkedIds(log') == MarkedIds(log)
            && OldestFirst(b.sessions, ClaimedIds(log') - earlier, ClaimedIds(log') + MarkedIds(log'), q)
  {
    hide ClaimedIds, MarkedIds, ClaimTotals, LostRows, Total, Passed, OldestFirst, Faultless, Fit;
    Noted(log, Claims({id}, total));
    ClaimIsOldest(b, n, now, log, r, q, earlier, {id}, 1);
    assert MarkedIds(log + [Claims({id}, total)]) == MarkedIds(log);
    assert id in {id} && Claimable(n.sessions, id, q);
    ClaimPasses(b, n, now, log, ClaimedIds(log), r, Claims({id}, total), {id});
  }

  datatype Turn = NoClaim | NoCandidate | Worked(removed: nat, cleaned: bool)

  /** One turn of the quota loop: the oldest candidate is claimed and cleaned up. */
  method TakeOldest(store: Store, now: nat, q: Query, r: Result, hasObjects: bool, ghost ok: bool, ghost b: Snap,
      ghost earlier: set<Id>)
    returns (r': Result, turn: Turn)
    requires Between(b, SnapOf(store), now, store.log, r, q, earlier, hasObjects, ok) && q.stale < now
    modifies store
    ensures Between(b, SnapOf(store), now, store.log, r', q, earlier, hasObjects,
                    ok && (turn.NoCandidate? || (turn.Worked? && turn.cleaned)))
    ensures old(store.log) <= store.log
    ensures ClaimTotals(store.log) == ClaimTotals(old(store.log)) + if turn.NoClaim? then [] else [Total(old(store.directories))]
    ensures r'.claimed == r.claimed + if turn.Worked? then 1 else 0
    ensures turn.NoClaim? ==> !Faultless(store.log)
    ensures turn.NoCandidate? ==> NoneLeft(store.sessions, q)
    ensures !turn.Worked? ==> store.directories == old(store.directories)
    ensures turn.Worked? ==>
              turn.removed + Total(store.directories) == Total(old(store.directories))
              || (turn.removed == 0 && !turn.cleaned && DirectoryFault in store.log)
    ensures AllDone(old(store.script)) && Faultless(old(store.log)) ==> AllDone(store.script) && Faultless(store.log)
  {
    hide Total, ClaimedIds, MarkedIds, ClaimTotals, LostRows, Passed, Reported, OldestFirst, TheOldest, Claimed,
        Faultless, Between, Elements;
    r' := r;
    ghost var n, log := SnapOf(store), store.log;
    var ids, claimed := store.Claim(q, now, 1);
    ghost var note := store.log[|log|];
    Noted(log, note);
    if !claimed {
      EmptyClaim(b, n, SnapOf(store), now, log, r, q, earlier, hasObjects, ok, note);
      return r, NoClaim;
    }
    AtMostOne(ids);
    AtMost(n.sessions, note.ids, q, 1);
    if |ids| == 0 {
      EmptyClaim(b, n, SnapOf(store), now, log, r, q, earlier, hasObjects, ok, note);
      NoneClaimed(n.sessions, q);
      return r, NoCandidate;
    }
    OneClaim(b, n, SnapOf(store), now, log, r, q, earlier, hasObjects, ok, ids[0], note.total);
    assert earlier <= ClaimedIds(log) by { BetweenEarlier(b, n, now, log, r, q, earlier, hasObjects, ok); }
    var removed, cleaned;
    r', removed, cleaned := CleanupNext(store, b, now, ClaimedIds(log), r, ids[0], hasObjects, ok);
    MakeBetween(b, SnapOf(store), now, store.log, r', q, earlier, hasObjects, ok && cleaned);
    turn := Worked(removed, cleaned);
  }

  lemma AtMost(sessions: Sessions, ids: set<Id>, q: Query, limit: nat)
    requires TheOldest(sessions, ids, q, limit)
    ensures |ids| <= limit
  {
  }

  lemma BetweenEarlier(b: Snap, n: Snap, now: nat, log: seq<Note>, r: Result, q: Query, earlier: set<Id>,
      hasObjects: bool, ok: bool)
    requires Between(b, n, now, log, r, q, earlier, hasObjects, ok)
    ensures earlier <= ClaimedIds(log)
  {
  }

  /** Nothing was claimed for the quota while it was met. */
  predicate Needed(log: seq<Note>, maxBytes: nat)
  {
    forall i | 1 <= i < |ClaimTotals(log)| :: ClaimTotals(log)[i] > maxBytes
  }

  /**
   The oldest sessions in turn, until the quota is met, the batch used up, or none left to
   claim. The usage it tracks is the real one unless a directory's deletion failed and
   measuring again failed as well.
   */
  method QuotaPhase(store: Store, now: nat, q: Query, r0: Result, left: nat, maxBytes: nat, hasObjects: bool, ok0: bool,
      ghost b: Snap, ghost earlier: set<Id>)
    returns (r: Result, ok: bool)
    requires Between(b, SnapOf(store), now, store.log, r0, q, earlier, hasObjects, ok0) && q.stale < now
    requires r0.usage == 0 && !r0.quotaExceeded && Needed(store.log, maxBytes)
    modifies store
    ensures Between(b, SnapOf(store), now, store.log, r, q, earlier, hasObjects, ok) && old(store.log) <= store.log
    ensures r.claimed <= r0.claimed + left && Needed(store.log, maxBytes)
    ensures r.quotaExceeded <==> r.usage > maxBytes
    ensures r.usage == Total(store.directories) || (UsageFault in store.log && (r.usage == 0 || DirectoryFault in store.log))
    ensures r.quotaExceeded && Faultless(store.log) ==> r.claimed == r0.claimed + left || NoneLeft(store.sessions, q)
    ensures AllDone(old(store.script)) && Faultless(old(store.log)) ==> AllDone(store.script) && Faultless(store.log)
  {
    hide Total, ClaimedIds, MarkedIds, ClaimTotals, LostRows, Passed, Reported, OldestFirst, TheOldest, Claimed,
        Faultless, Between, NoneLeft;
    r, ok := r0, ok0;
    var usage, measured := store.Usage();
    Noted(old(store.log), UsageFault);
    if !measured {
      FaultBetween(b, SnapOf(store), now, old(store.log), r, q, earlier, hasObjects, ok);
      ok := false;
      return;
    }
    var remaining := left;
    while usage > maxBytes && remaining > 0
      invariant Between(b, SnapOf(store), now, store.log, r, q, earlier, hasObjects, ok) && old(store.log) <= store.log
      invariant r.claimed + remaining == r0.claimed + left
      invariant usage == Total(store.directories) && Needed(store.log, maxBytes)
      invariant AllDone(old(store.script)) && Faultless(old(store.log)) ==> AllDone(store.script) && Faultless(store.log)
      decreases remaining
    {
      ResultBetween(b, SnapOf(store), now, store.log, r, q, earlier, hasObjects, ok, r.usage, true);
      r := r.(quotaExceeded := true);
      var turn;
      r, turn := TakeOldest(store, now, q, r, hasObjects, ok, b, earlier);
      if !turn.Worked? {
        ok := ok && turn.NoCandidate?;
        break;
      }
      ok := ok && turn.cleaned;
      usage := if turn.removed >= usage then 0 else usage - turn.removed;
      if !turn.cleaned && turn.removed == 0 {
        ghost var log := store.log;
        var again, fine := store.Usage();
        Noted(log, UsageFault);
        if !fine {
          FaultBetween(b, SnapOf(store), now, log, r, q, earlier, hasObjects, ok);
          break;
        }
        usage := again;
      }
      remaining := remaining - 1;
    }
    ResultBetween(b, SnapOf(store), now, store.log, r, q, earlier, hasObjects, ok, usage, usage > maxBytes);
    r := r.(usage := usage, quotaExceeded := usage > maxBytes);
  }

  lemma MakeBetween(b: Snap, n: Snap, now: nat, log: seq<Note>, r: Result, q: Query, earlier: set<Id>, hasObjects: bool, ok: bool)
    requires Passed(b, n, now, log, ClaimedIds(log), r) && Reported(b, log, hasObjects, r, ok)
    requires earlier <= ClaimedIds(log)
    requires OldestFirst(b.sessions, ClaimedIds(log) - earlier, ClaimedIds(log) + MarkedIds(log), q)
    ensures Between(b, n, now, log, r, q, earlier, hasObjects, ok)
  {
  }

  lemma AtMostOne(ids: seq<Id>)
    ensures Elements(ids) == if |ids| == 0 then {} else if |ids| == 1 then {ids[0]} else Elements(ids)
  {
  }

  lemma NoneClaimed(sessions: Sessions, q: Query)
    requires TheOldest(sessions, {}, q, 1)
    ensures NoneLeft(sessions, q)
  {
  }

  /** What a pass has done, in terms of the claims and failures it met. */
  ghost predicate Accounted(b: Snap, n: Snap, log: seq<Note>, hasObjects: bool, r: Result, ok: bool)
  {
    // Rows went last, and nothing of a session that was not claimed was touched.
    && Safe(b, n, ClaimedIds(log), MarkedIds(log))
    && r.deleted <= r.claimed == |ClaimedIds(log)|
    && |n.sessions| + r.deleted + LostRows(log) == |b.sessions|
    && r.freed + Total(n.directories) <= Total(b.directories)
    && (DirectoryFault !in log ==> r.freed + Total(n.directories) == Total(b.directories))
    // Success is reported if nothing failed and every claimed session could be cleaned up, and only if all were.
    && (ok ==> Faultless(log) && r.deleted == r.claimed)
    && (Faultless(log) && AllFit(b, ClaimedIds(log), hasObjects) ==> ok)
  }

  /**
   One bounded pass. Whatever fails, rows go only after everything they stand for, nothing of
   a session that was not claimed is touched, sessions go oldest first and no more of them
   than the quota needs, and the counters say what happened.
   */
  method RunOnce(store: Store, now: nat, cutoff: int, stale: int, batchSize: nat, maxBytes: nat, hasObjects: bool)
    returns (r: Result, ok: bool)
    requires 1 <= batchSize && stale < now
    modifies store
    ensures Accounted(old(SnapOf(store)), SnapOf(store), store.log, hasObjects, r, ok) && r.claimed <= batchSize
    ensures AllDone(old(store.script)) ==> Faultless(store.log)
    ensures store.log != [] && (!store.log[0].Claims? ==> r.claimed == 0)
    ensures store.log[0].Claims? ==> TheOldest(old(store.sessions), store.log[0].ids, Query(cutoff, stale, false), batchSize)
    ensures store.log[0].Claims? ==>
              OldestFirst(old(store.sessions), ClaimedIds(store.log) - store.log[0].ids,
                          ClaimedIds(store.log) + MarkedIds(store.log), Query(now, stale, true))
    ensures Needed(store.log, maxBytes) && (maxBytes == 0 ==> |ClaimTotals(store.log)| <= 1)
    ensures maxBytes > 0 && r.claimed < batchSize && Faultless(store.log) ==>
              && r.usage == Total(store.directories)
              && (r.quotaExceeded ==> NoneLeft(store.sessions, Query(now, stale, true)))
    ensures r.usage in {0, Total(store.directories)} || (UsageFault in store.log && DirectoryFault in store.log)
    ensures r.quotaExceeded <==> r.usage > maxBytes
    // What went had ended by the cutoff, or had a replay directory and went for the quota; nothing of it could be
    // recovered, and nobody else was at work on it.
    ensures forall id | id in old(store.sessions) && id !in store.sessions ::
              var s := old(store.sessions)[id];
              && s.endedAt.Some? && !s.recoverable && (s.status == Ready || s.at.Nothing? || s.at.value <= stale)
              && (s.endedAt.value <= cutoff || (maxBytes > 0 && s.endedAt.value <= now && s.replayDir != ""))
    // And everything of that kind has gone, once a pass succeeds and has room for more.
    ensures ok && r.claimed < batchSize ==>
              forall id | id in store.sessions ::
                var s := store.sessions[id];
                s.endedAt.Some? && s.endedAt.value <= cutoff && !s.recoverable ==>
                  s.status != Ready && s.at.Some? && s.at.value > stale
    ensures r.quotaExceeded && r.claimed < batchSize && maxBytes > 0 && Faultless(store.log) ==>
              forall id | id in store.sessions ::
                var s := store.sessions[id];
                s.endedAt.Some? && s.endedAt.value <= now && !s.recoverable && s.replayDir != "" ==>
                  s.status != Ready && s.at.Some? && s.at.value > stale
  {
    hide Total, ClaimedIds, MarkedIds, ClaimTotals, LostRows, Passed, Reported, OldestFirst, TheOldest, Faultless, Between,
      NoneLeft, Accounted, Claimable;
    ghost var b := SnapOf(store);
    store.log := [];
    var remaining, offered;
    r, remaining, offered, ok := ExpiredPhase(store, now, Query(cutoff, stale, false), batchSize, hasObjects);
    ghost var earlier, q := ClaimedIds(store.log), Query(now, stale, true);
    NothingForQuota(b, SnapOf(store), now, store.log, r, q, hasObjects, ok);
    FromBetween(b, SnapOf(store), now, store.log, r, q, earlier, hasObjects, ok);
    IfFaultless(store.log);
    GoneWereDue(b, SnapOf(store), store.log, r, ok, cutoff, now, stale, batchSize, hasObjects, false);
    if !offered || maxBytes == 0 || remaining == 0 {
      return;
    }
    r, ok := QuotaPhase(store, now, Query(now, stale, true), r, remaining, maxBytes, hasObjects, ok, b, earlier);
    FromBetween(b, SnapOf(store), now, store.log, r, q, earlier, hasObjects, ok);
    IfFaultless(store.log);
    GoneWereDue(b, SnapOf(store), store.log, r, ok, cutoff, now, stale, batchSize, hasObjects, true);
    NoneLeftMeans(store.sessions, now, stale);
  }

  lemma NoneLeftMeans(sessions: Sessions, now: nat, stale: int)
    ensures NoneLeft(sessions, Query(now, stale, true)) ==>
              forall id | id in sessions ::
                var s := sessions[id];
                s.endedAt.Some? && s.endedAt.value <= now && !s.recoverable && s.replayDir != "" ==>
                  s.status != Ready && s.at.Some? && s.at.value > stale
  {
  }

  /** Whatever is gone was claimed; after a success, whatever was claimed is gone. */
  lemma ClaimedAreGone(b: Snap, n: Snap, log: seq<Note>, hasObjects: bool, r: Result)
    requires Accounted(b, n, log, hasObjects, r, true) && ClaimedIds(log) <= b.sessions.Keys
    ensures n.sessions.Keys == b.sessions.Keys - ClaimedIds(log)
  {
    hide ClaimedIds, MarkedIds, Total, Gone, OnlyOf, Fit, LostRows;
    var gone := b.sessions.Keys - n.sessions.Keys;
    assert gone <= ClaimedIds(log) && n.sessions.Keys <= b.sessions.Keys;
    assert |b.sessions.Keys| == |gone| + |n.sessions.Keys| by {
      assert b.sessions.Keys == gone + n.sessions.Keys;
    }
    assert |n.sessions.Keys| == |n.sessions| && |b.sessions.Keys| == |b.sessions|;
    SameSize(gone, ClaimedIds(log));
  }

  lemma SameSize(a: set<Id>, b: set<Id>)
    requires a <= b && |a| >= |b|
    ensures a == b
  {
    assert |b - a| == |b| - |a|;
  }

  /** Nothing is marked unseen, and no row lost, when nothing fails. */
  lemma {:induction false} FaultlessLog(log: seq<Note>)
    requires Faultless(log)
    ensures MarkedIds(log) == {} && LostRows(log) == 0
  {
    if log != [] {
      FaultlessLog(log[..|log| - 1]);
      assert log[|log| - 1] in log;
    }
  }

  lemma {:induction false} FirstClaimed(log: seq<Note>)
    requires log != [] && log[0].Claims?
    ensures log[0].ids <= ClaimedIds(log)
    decreases |log|
  {
    if |log| > 1 {
      FirstClaimed(log[..|log| - 1]);
    }
  }

  /** What a pass takes, and what it leaves, told by the fields of the sessions. */
  lemma GoneWereDue(b: Snap, n: Snap, log: seq<Note>, r: Result, ok: bool, cutoff: int, now: nat, stale: int, batchSize: nat,
      hasObjects: bool, forQuota: bool)
    requires Accounted(b, n, log, hasObjects, r, ok) && log != [] && (!log[0].Claims? ==> r.claimed == 0)
    requires log[0].Claims? ==>
        && TheOldest(b.sessions, log[0].ids, Query(cutoff, stale, false), batchSize)
        && OldestFirst(b.sessions, ClaimedIds(log) - log[0].ids, ClaimedIds(log) + MarkedIds(log), Query(now, stale, true))
        && (!forQuota ==> ClaimedIds(log) == log[0].ids)
    ensures forall id | id in b.sessions && id !in n.sessions ::
              var s := b.sessions[id];
              && s.endedAt.Some? && !s.recoverable && (s.status == Ready || s.at.Nothing? || s.at.value <= stale)
              && (s.endedAt.value <= cutoff || (forQuota && s.endedAt.value <= now && s.replayDir != ""))
    ensures ok && r.claimed < batchSize ==>
              forall id | id in n.sessions ::
                var s := n.sessions[id];
                s.endedAt.Some? && s.endedAt.value <= cutoff && !s.recoverable ==>
                  s.status != Ready && s.at.Some? && s.at.value > stale
  {
    hide ClaimedIds, MarkedIds, Total, Gone, OnlyOf, Fit, LostRows, Older;
    var claimed := ClaimedIds(log);
    assert forall id | id in b.sessions && id !in n.sessions :: id in claimed;
    if log[0].Claims? {
      assert forall id | id in claimed && id !in log[0].ids :: Claimable(b.sessions, id, Query(now, stale, true));
      if ok && r.claimed < batchSize {
        FirstClaimed(log);
        FaultlessLog(log);
        ClaimedAreGone(b, n, log, hasObjects, r);
        SmallerSize(log[0].ids, claimed);
      }
    }
  }

  lemma SmallerSize(a: set<Id>, b: set<Id>)
    requires a <= b
    ensures |a| <= |b|
  {
    assert |b - a| == |b| - |a|;
  }

  lemma IfFaultless(log: seq<Note>)
    ensures Faultless(log) ==> UsageFault !in log && (log != [] ==> log[0].Claims?)
  {
  }

  lemma NothingForQuota(b: Snap, n: Snap, now: nat, log: seq<Note>, r: Result, q: Query, hasObjects: bool, ok: bool)
    requires Passed(b, n, now, log, ClaimedIds(log), r) && Reported(b, log, hasObjects, r, ok)
    ensures Between(b, n, now, log, r, q, ClaimedIds(log), hasObjects, ok)
    ensures OldestFirst(b.sessions, ClaimedIds(log) - ClaimedIds(log), ClaimedIds(log) + MarkedIds(log), q)
  {
    hide Passed, Reported, ClaimedIds, MarkedIds;
    assert ClaimedIds(log) - ClaimedIds(log) == {};
  }

  lemma FromBetween(b: Snap, n: Snap, now: nat, log: seq<Note>, r: Result, q: Query, earlier: set<Id>, hasObjects: bool, ok: bool)
    requires Between(b, n, now, log, r, q, earlier, hasObjects, ok)
    ensures Accounted(b, n, log, hasObjects, r, ok)
    ensures OldestFirst(b.sessions, ClaimedIds(log) - earlier, ClaimedIds(log) + MarkedIds(log), q)
    ensures r.claimed == |ClaimedIds(log)|
  {
    hide ClaimedIds, MarkedIds, LostRows, Total, Gone, OnlyOf, OldestFirst;
    assert |n.sessions.Keys| == |n.sessions| && |b.sessions.Keys| == |b.sessions|;
    assert ClaimedIds(log) + (ClaimedIds(log) + MarkedIds(log)) == ClaimedIds(log) + MarkedIds(log);
  }
}
