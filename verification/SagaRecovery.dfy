/**
 No operation is ever stuck: from every reachable world, however its earlier workers were
 interrupted, one reconciler alone can bring it to rest, and then its user is where its
 stage says.
 */
module SagaRecovery {
  import opened SagaStore
  import opened SagaProgram
  import opened SagaWorld
  import opened SagaSafety
  import opened SagaRoutes

  /** At rest: nothing was created, or the account is managed, or it was retired. */
  predicate AtRest(w: World, id: string)
  {
    && id in w.ops
    && var op := w.ops[id];
       || (op.row.stage == NotCreated && !Live(w, id))
       || (op.row.stage == ActiveManaged && Live(w, id) && op.granted && op.account)
       || (!op.row.active && !op.account && !Live(w, id))
  }

  /** The last write of a cleanup: the operation is discarded. */
  lemma Discard(cfg: Config, run: seq<Event>, w: World, id: string, i: nat, site: Site) returns (w': World)
    requires Reaches(cfg, run, w) && Holds(w, id, i) && w.ops[id].workers[i].pc == At(site)
    requires site == ReserveFinish || site == ReconcileFinish
    requires w.ops[id].row.stage == Reserved || w.ops[id].row.stage == CleanupInProgress
    requires !Live(w, id)
    ensures Reaches(cfg, run + [Work(id, i, Write)], w') && AtRest(w', id)
  {
    hide Reaches, Next, OwnsIdentity;
    w' := Step(cfg, run, w, id, i, Write);
  }

  lemma CleanUp(cfg: Config, run: seq<Event>, w: World, id: string, i: nat) returns (more: seq<Event>, w': World)
    requires cfg.Valid() && Reaches(cfg, run, w) && Holds(w, id, i) && w.ops[id].workers[i].pc == At(ReconcileBegin)
    requires CleanupSource(w.ops[id].row.stage)
    ensures Reaches(cfg, run + more, w') && OnlyBy(more, id, i) && AtRest(w', id)
  {
    hide Reaches, Next, OwnsIdentity, WorkerStep, AtRest;
    var a, w1 := WriteAndRead(cfg, run, w, id, i, ReconcileBegin);
    var b, w2 := RenewInTime(cfg, run + a, w1, id, i, ReconcileDrop);
    var c, w3 := DropIt(cfg, run + a + b, w2, id, i, ReconcileDrop, w.clock + cfg.lease - cfg.cleanupTimeout);
    w' := Discard(cfg, run + a + b + c, w3, id, i, ReconcileFinish);
    more := a + b + c + [Work(id, i, Write)];
    assert run + more == run + a + b + c + [Work(id, i, Write)];
  }

  lemma Retire(cfg: Config, run: seq<Event>, w: World, id: string, i: nat) returns (w': World)
    requires Reaches(cfg, run, w) && Holds(w, id, i) && w.ops[id].workers[i].pc == Complete
    requires w.ops[id].row.stage == DropStarted && w.ops[id].row.cleanup == InProgress
    requires w.ops[id].account && !Live(w, id)
    ensures Reaches(cfg, run + [Work(id, i, Completed)], w') && AtRest(w', id)
  {
    hide Reaches, Next, OwnsIdentity;
    w' := Step(cfg, run, w, id, i, Completed);
  }

  /** From the renewal on, a deprovisioning ends. */
  lemma FinishDrop(cfg: Config, run: seq<Event>, w: World, id: string, i: nat) returns (more: seq<Event>, w': World)
    requires cfg.Valid() && Reaches(cfg, run, w) && Holds(w, id, i) && w.ops[id].workers[i].pc == Renew(ManagedDrop)
    requires w.ops[id].row.stage == DropStarted && w.ops[id].row.cleanup == InProgress && w.ops[id].account
    ensures Reaches(cfg, run + more, w') && OnlyBy(more, id, i) && AtRest(w', id)
  {
    hide Reaches, Next, OwnsIdentity, WorkerStep, AtRest;
    var b, w2 := RenewInTime(cfg, run, w, id, i, ManagedDrop);
    var c, w3 := DropIt(cfg, run + b, w2, id, i, ManagedDrop, w.clock + cfg.lease - cfg.cleanupTimeout);
    w' := Retire(cfg, run + b + c, w3, id, i);
    more := b + c + [Work(id, i, Completed)];
    assert run + more == run + b + c + [Work(id, i, Completed)];
  }

  lemma Drop(cfg: Config, run: seq<Event>, w: World, id: string, i: nat) returns (more: seq<Event>, w': World)
    requires cfg.Valid() && Reaches(cfg, run, w) && Holds(w, id, i) && w.ops[id].workers[i].pc == At(DropBegin)
    requires w.ops[id].row.stage == DeprovisionRequested || w.ops[id].row.stage == DropUncertain
    requires w.ops[id].account
    ensures Reaches(cfg, run + more, w') && OnlyBy(more, id, i) && AtRest(w', id)
  {
    hide Reaches, Next, OwnsIdentity, WorkerStep, AtRest;
    var a, w1 := WriteAndRead(cfg, run, w, id, i, DropBegin);
    var b, w2 := FinishDrop(cfg, run + a, w1, id, i);
    more, w' := a + b, w2;
    assert run + more == run + a + b;
  }

  lemma ActivateIt(cfg: Config, run: seq<Event>, w: World, id: string, i: nat) returns (w': World)
    requires Reaches(cfg, run, w) && Holds(w, id, i) && w.ops[id].workers[i].pc == Activate(0)
    requires w.ops[id].row.stage == ActivationPending && w.ops[id].row.cleanup == NoCleanup
    requires Live(w, id) && w.ops[id].granted
    ensures Reaches(cfg, run + [Work(id, i, Activated)], w') && AtRest(w', id)
  {
    hide Reaches, Next, OwnsIdentity;
    w' := Step(cfg, run, w, id, i, Activated);
  }

  lemma OldEnough(cfg: Config, r: Row, now: nat) returns (delay: nat)
    requires r.active && r.stage != NotCreated && r.stage != ActiveManaged
    ensures Executable(r, cfg.staleAfter, now + delay) && LeaseFree(r, now + delay)
  {
    var attempt := if r.lastAttempt.Some? then r.lastAttempt.value else 0;
    var expires := if r.expires.Some? then r.expires.value else 0;
    delay := r.createdAt + r.updatedAt + attempt + expires + cfg.staleAfter;
  }

  /** What a claim finds, once the lease and the last attempt are old enough. */
  lemma ClaimIt(cfg: Config, run: seq<Event>, w: World, id: string, holder: Holder) returns (more: seq<Event>, w': World)
    requires cfg.Valid() && Reaches(cfg, run, w) && id in w.ops
    requires w.ops[id].row.active && w.ops[id].row.stage != NotCreated && w.ops[id].row.stage != ActiveManaged
    ensures Reaches(cfg, run + more, w') && |more| == 2 && more[0].Tick? && more[1] == Claim(id, holder)
    ensures Holds(w', id, |w.ops[id].workers|) && id in w'.ops && |w'.ops[id].workers| > |w.ops[id].workers|
    ensures w'.ops[id].workers[|w.ops[id].workers|].pc == EnterReconcile(w'.ops[id].row)
    ensures w'.ops[id].row.stage == w.ops[id].row.stage
  {
    hide Reaches, Next, EnterReconcile, Executable;
    var delay := OldEnough(cfg, w.ops[id].row, w.clock);
    var w1 := Wait(cfg, run, w, delay);
    w' := ClaimNow(cfg, run + [Tick(delay)], w1, id, holder);
    more := [Tick(delay), Claim(id, holder)];
    assert run + more == run + [Tick(delay)] + [Claim(id, holder)];
  }

  /** Nothing, or waiting, claiming, and then steps of the claimant alone. */
  predicate OneClaimant(more: seq<Event>, id: string, holder: Holder, i: nat)
  {
    more == [] || (|more| >= 2 && more[0].Tick? && more[1] == Claim(id, holder) && OnlyBy(more[2..], id, i))
  }

  /** Whatever happened before, one reconciler that claims the operation can bring it to rest. */
  lemma Recovers(cfg: Config, run: seq<Event>, w: World, id: string, holder: Holder) returns (more: seq<Event>, w': World)
    requires Settled(cfg) && Reaches(cfg, run, w) && id in w.ops
    ensures Reaches(cfg, run + more, w') && OneClaimant(more, id, holder, |w.ops[id].workers|) && AtRest(w', id)
  {
    hide Reaches, Next, WorkerStep, AtRest, Holds;
    RowPromises(cfg, run, w, id);
    var r := w.ops[id].row;
    if !r.active || r.stage == NotCreated || r.stage == ActiveManaged {
      more, w' := [], w;
      assert run + [] == run;
    } else {
      var i := |w.ops[id].workers|;
      var a, w1 := ClaimIt(cfg, run, w, id, holder);
      RowPromises(cfg, run + a, w1, id);
      var b, w2 := FinishClaim(cfg, run + a, w1, id, i);
      more, w' := a + b, w2;
      assert run + more == run + a + b;
    }
  }

  lemma FinishClaim(cfg: Config, run: seq<Event>, w: World, id: string, i: nat) returns (more: seq<Event>, w': World)
    requires Settled(cfg) && Reaches(cfg, run, w) && Holds(w, id, i)
    requires w.ops[id].workers[i].pc == EnterReconcile(w.ops[id].row)
    requires w.ops[id].row.stage != NotCreated && w.ops[id].row.stage != ActiveManaged
    requires RowOk(Live(w, id), w.ops[id].row, w.ops[id].account, w.ops[id].granted, w.ops[id].creates)
    ensures Reaches(cfg, run + more, w') && OnlyBy(more, id, i) && AtRest(w', id)
  {
    hide Reaches, Next, WorkerStep, AtRest, OwnsIdentity;
    var r := w.ops[id].row;
    match r.stage {
      case Reserved =>
        w' := Discard(cfg, run, w, id, i, ReserveFinish);
        more := [Work(id, i, Write)];
      case ActivationPending =>
        w' := ActivateIt(cfg, run, w, id, i);
        more := [Work(id, i, Activated)];
      case DropStarted => more, w' := FinishDrop(cfg, run, w, id, i);
      case DeprovisionRequested => more, w' := Drop(cfg, run, w, id, i);
      case DropUncertain => more, w' := Drop(cfg, run, w, id, i);
      case _ => more, w' := CleanUp(cfg, run, w, id, i);
    }
  }

  lemma RowPromises(cfg: Config, run: seq<Event>, w: World, id: string)
    requires Settled(cfg) && Reaches(cfg, run, w) && id in w.ops
    ensures RowOk(Live(w, id), w.ops[id].row, w.ops[id].account, w.ops[id].granted, w.ops[id].creates)
    ensures !w.ops[id].row.active || w.ops[id].row.stage == NotCreated || w.ops[id].row.stage == ActiveManaged ==> AtRest(w, id)
  {
    RunKeeps(cfg, run);
    assert OpInv(cfg, w.clock, Live(w, id), w.ops[id]);
  }
}
