/**
 Where a deprovisioning and a reconciler's cleanup end that work alone against a working store, for
 every way the upstream server can meet their DROP.
 */
module SagaEndings {
  import opened SagaStore
  import opened SagaProgram
  import opened SagaWorld
  import opened SagaRoutes
  import opened SagaProvisioning
  import opened SagaOutcomes

  /** What a newcomer leaves alone: other operations, other users, earlier workers, and the clock. */
  predicate OnlyHere(w: World, w': World, id: string)
  {
    && id in w.ops && w'.clock == w.clock && w'.ops.Keys == w.ops.Keys
    && (forall k | k in w.ops && k != id :: w'.ops[k] == w.ops[k])
    && |w'.ops[id].workers| == |w.ops[id].workers| + 1
    && (forall k | 0 <= k < |w.ops[id].workers| :: w'.ops[id].workers[k] == w.ops[id].workers[k])
    && AccountOf(w'.ops[id].row) == AccountOf(w.ops[id].row)
    && w'.upstream - {AccountOf(w.ops[id].row)} == w.upstream - {AccountOf(w.ops[id].row)}
  }

  /** A worker has joined and holds the row. */
  predicate Joined(w: World, w': World, id: string, row: Row, pc: Pc)
  {
    && id in w.ops && w' == w.(ops := w.ops[id := Join(w.ops[id], row, pc)])
    && AccountOf(row) == AccountOf(w.ops[id].row)
  }

  lemma JoinedOnlyHere(w: World, w1: World, w': World, id: string, row: Row, pc: Pc)
    requires Joined(w, w1, id, row, pc) && Local(w1, w', id, |w.ops[id].workers|)
    ensures OnlyHere(w, w', id)
  {
    forall k | 0 <= k < |w.ops[id].workers|
      ensures w'.ops[id].workers[k] == w.ops[id].workers[k]
    {
      assert w1.ops[id].workers[k] == w.ops[id].workers[k];
    }
  }

  lemma IdentityIsOwned(cfg: Config, run: seq<Event>, w: World, id: string)
    requires Reaches(cfg, run, w) && id in w.ops
    ensures OwnsIdentity(w.ops[id].row)
  {
    hide OwnsIdentity, Run;
    UsersAreNamed(cfg, run);
  }

  // ------------------------------------------------------------------ deprovisioning

  lemma Begins(cfg: Config, run: seq<Event>, w: World, id: string, holder: Holder) returns (w': World)
    requires cfg.Valid() && Reaches(cfg, run, w) && Next(cfg, w, Deprovision(id, holder)).Some?
    ensures id in w.ops && Reaches(cfg, run + [Deprovision(id, holder)], w') && Holds(w', id, |w.ops[id].workers|)
    ensures w'.ops[id].row.stage == DeprovisionRequested && Joined(w, w', id, w'.ops[id].row, At(DropBegin))
  {
    hide Reaches, OwnsIdentity;
    IdentityIsOwned(cfg, run, w, id);
    w' := Extend(cfg, run, w, Deprovision(id, holder));
    OwnsAfter(w.ops[id].row, w'.ops[id].row);
  }

  /** DROP was met. */
  lemma DropIsMet(cfg: Config, run: seq<Event>, w: World, id: string, i: nat, x: Exchange) returns (more: seq<Event>, w': World)
    requires cfg.Valid() && Reaches(cfg, run, w) && Holds(w, id, i) && Possible(x)
    requires w.ops[id].workers[i].pc == At(DropBegin) && w.ops[id].row.stage == DeprovisionRequested
    ensures Reaches(cfg, run + more, w') && OnlyBy(more, id, i) && Local(w, w', id, i) && Holds(w', id, i)
    ensures w'.ops[id].row.stage == DropStarted && w'.ops[id].row.cleanup == InProgress && w'.ops[id].account == w.ops[id].account
    ensures w'.ops[id].workers[i].pc == (if x == ACKNOWLEDGED then Complete else At(DropDefer))
    ensures Live(w', id) == (Live(w, id) && !TookEffect(x))
  {
    hide Reaches, Next, WorkerStep, OwnsIdentity, Onward, Local;
    var a, w1 := WriteAndRead(cfg, run, w, id, i, DropBegin);
    var b, w2 := RenewAndExchange(cfg, run + a, w1, id, i, ManagedDrop, x);
    DropLeadsTo(x, NoError, w2.ops[id].row);
    more, w' := a + b, w2;
    assert run + more == run + a + b;
    LocalThen(w, w1, w2, id, i);
  }

  /** The account is retired, or the attempt to do so fails. */
  lemma Finishes(cfg: Config, run: seq<Event>, w: World, id: string, i: nat, finished: bool) returns (w': World)
    requires Reaches(cfg, run, w) && Holds(w, id, i) && w.ops[id].workers[i].pc == Complete && w.ops[id].account
    requires w.ops[id].row.stage == DropStarted && w.ops[id].row.cleanup == InProgress
    ensures Reaches(cfg, run + [Work(id, i, if finished then Completed else CompleteFails)], w')
    ensures Local(w, w', id, i) && w'.upstream == w.upstream
    ensures if finished then !w'.ops[id].row.active && !w'.ops[id].account
            else Holds(w', id, i) && w'.ops[id].row == w.ops[id].row && w'.ops[id].account
                 && w'.ops[id].workers[i].pc == At(DropDefer)
  {
    hide Reaches, Next, OwnsIdentity;
    w' := Step(cfg, run, w, id, i, if finished then Completed else CompleteFails);
  }

  predicate Deprovisioned(op: Op, x: Exchange, finished: bool)
  {
    if x == ACKNOWLEDGED && finished then !op.row.active && !op.account
    else op.row.active && op.row.stage == DropUncertain && op.row.cleanup == Required && op.row.holder.Nothing? && op.account
  }

  lemma EndsDrop(cfg: Config, run: seq<Event>, w: World, id: string, i: nat, x: Exchange, finished: bool)
      returns (more: seq<Event>, w': World)
    requires Reaches(cfg, run, w) && Holds(w, id, i) && w.ops[id].account
    requires w.ops[id].row.stage == DropStarted && w.ops[id].row.cleanup == InProgress
    requires w.ops[id].workers[i].pc == (if x == ACKNOWLEDGED then Complete else At(DropDefer))
    ensures Reaches(cfg, run + more, w') && OnlyBy(more, id, i) && Local(w, w', id, i) && w'.upstream == w.upstream
    ensures Deprovisioned(w'.ops[id], x, finished)
  {
    hide Reaches, Next, WorkerStep, OwnsIdentity;
    if x == ACKNOWLEDGED {
      var w1 := Finishes(cfg, run, w, id, i, finished);
      if finished {
        more, w' := [Work(id, i, Completed)], w1;
      } else {
        w' := LetGo(cfg, run + [Work(id, i, CompleteFails)], w1, id, i, DropDefer);
        more := [Work(id, i, CompleteFails), Work(id, i, Write)];
        assert run + more == run + [Work(id, i, CompleteFails)] + [Work(id, i, Write)];
        LocalThen(w, w1, w', id, i);
      }
    } else {
      w' := LetGo(cfg, run, w, id, i, DropDefer);
      more := [Work(id, i, Write)];
    }
  }

  /**
   From every reachable world of every configuration, a deprovisioning that can begin and works alone ends with
   user and account gone if DROP is acknowledged and the last write succeeds; otherwise it is left to a reconciler,
   with the account still there, and without the user exactly if DROP took effect.
   */
  lemma DeprovisioningEnds(cfg: Config, run: seq<Event>, w: World, id: string, holder: Holder, x: Exchange, finished: bool)
      returns (steps: seq<Event>, w': World)
    requires cfg.Valid() && Reaches(cfg, run, w) && id in w.ops && Possible(x)
    requires w.ops[id].account && w.ops[id].row.active && w.ops[id].row.stage == ActiveManaged
    requires w.ops[id].row.cleanup == NoCleanup && w.ops[id].row.expires.Nothing?
    ensures Reaches(cfg, run + [Deprovision(id, holder)] + steps, w') && OnlyBy(steps, id, |w.ops[id].workers|)
    ensures OnlyHere(w, w', id) && Deprovisioned(w'.ops[id], x, finished) && Live(w', id) == (Live(w, id) && !TookEffect(x))
  {
    hide Reaches, WorkerStep, OwnsIdentity, Deprovisioned, OnlyHere, Local;
    var i := |w.ops[id].workers|;
    var w1 := Begins(cfg, run, w, id, holder);
    hide Next;
    var r1 := run + [Deprovision(id, holder)];
    assert w1.ops[id].account && Live(w1, id) == Live(w, id);
    var a, w2 := DropIsMet(cfg, r1, w1, id, i, x);
    var b, w3 := EndsDrop(cfg, r1 + a, w2, id, i, x, finished);
    steps, w' := a + b, w3;
    assert r1 + steps == r1 + a + b;
    LocalThen(w1, w2, w3, id, i);
    JoinedOnlyHere(w, w1, w3, id, w1.ops[id].row, At(DropBegin));
    SameLive(w2, w3, id, i);
  }

  // ------------------------------------------------------------------------- cleanup

  lemma Claims(cfg: Config, run: seq<Event>, w: World, id: string, holder: Holder) returns (w': World)
    requires cfg.Valid() && Reaches(cfg, run, w) && Next(cfg, w, Claim(id, holder)).Some?
    requires w.ops[id].row.stage in
        {CreateStarted, CreateUncertain, UpstreamCreated, GrantStarted, CleanupRequired, CleanupInProgress}
    ensures Reaches(cfg, run + [Claim(id, holder)], w') && Holds(w', id, |w.ops[id].workers|)
    ensures w'.ops[id].row.stage == w.ops[id].row.stage && Joined(w, w', id, w'.ops[id].row, At(ReconcileBegin))
  {
    hide Reaches, OwnsIdentity;
    IdentityIsOwned(cfg, run, w, id);
    w' := Extend(cfg, run, w, Claim(id, holder));
    OwnsAfter(w.ops[id].row, w'.ops[id].row);
  }

  /** Its DROP was met, and the last write made. */
  lemma EndsReconcile(cfg: Config, run: seq<Event>, w: World, id: string, i: nat, x: Exchange) returns (more: seq<Event>, w': World)
    requires cfg.Valid() && Reaches(cfg, run, w) && Holds(w, id, i) && Possible(x)
    requires w.ops[id].workers[i].pc == Renew(ReconcileDrop) && w.ops[id].row.stage == CleanupInProgress
    ensures Reaches(cfg, run + more, w') && OnlyBy(more, id, i) && Local(w, w', id, i)
    ensures CleanedUp(w'.ops[id].row, x) && Live(w', id) == (Live(w, id) && !TookEffect(x))
    ensures w'.ops[id].account == w.ops[id].account && w'.ops[id].granted == w.ops[id].granted
  {
    hide Reaches, Next, WorkerStep, OwnsIdentity, Onward, Local;
    var a, w1 := RenewAndExchange(cfg, run, w, id, i, ReconcileDrop, x);
    DropLeadsTo(x, NoError, w1.ops[id].row);
    w' := LetGo(cfg, run + a, w1, id, i, if x == ACKNOWLEDGED then ReconcileFinish else CleanupFail);
    more := a + [Work(id, i, Write)];
    assert run + more == run + a + [Work(id, i, Write)];
    LocalThen(w, w1, w', id, i);
    SameLive(w1, w', id, i);
  }

  /**
   From every reachable world of every configuration, a reconciler that claims an operation in any of the six
   stages that ask for cleanup, and works alone, ends with the operation not_created if DROP is acknowledged, and
   in cleanup_required if not; the user is gone exactly if it was not there or DROP took effect.
   */
  lemma CleanupEnds(cfg: Config, run: seq<Event>, w: World, id: string, holder: Holder, x: Exchange)
      returns (steps: seq<Event>, w': World)
    requires cfg.Valid() && Reaches(cfg, run, w) && Possible(x) && Next(cfg, w, Claim(id, holder)).Some?
    requires w.ops[id].row.stage in
        {CreateStarted, CreateUncertain, UpstreamCreated, GrantStarted, CleanupRequired, CleanupInProgress}
    ensures Reaches(cfg, run + [Claim(id, holder)] + steps, w') && OnlyBy(steps, id, |w.ops[id].workers|)
    ensures OnlyHere(w, w', id) && CleanedUp(w'.ops[id].row, x) && Live(w', id) == (Live(w, id) && !TookEffect(x))
    ensures w'.ops[id].account == w.ops[id].account && w'.ops[id].granted == w.ops[id].granted
  {
    hide Reaches, WorkerStep, OwnsIdentity, OnlyHere, Local, CleanedUp;
    var i := |w.ops[id].workers|;
    var w1 := Claims(cfg, run, w, id, holder);
    hide Next;
    var r1 := run + [Claim(id, holder)];
    assert w1.ops[id].account == w.ops[id].account && w1.ops[id].granted == w.ops[id].granted && Live(w1, id) == Live(w, id);
    var a, w2 := WriteAndRead(cfg, r1, w1, id, i, ReconcileBegin);
    var b, w3 := EndsReconcile(cfg, r1 + a, w2, id, i, x);
    steps, w' := a + b, w3;
    assert r1 + steps == r1 + a + b;
    LocalThen(w1, w2, w3, id, i);
    JoinedOnlyHere(w, w1, w3, id, w1.ops[id].row, At(ReconcileBegin));
  }

  // ------------------------------------------------------- statements that are not sent

  /** A statement that is not sent: the worker was cancelled, the lease was not renewed, or its time is up. */
  predicate Unsent(pc: Pc, move: Move, e: Effect)
  {
    || (pc == Renew(e) && move == Cancelled)
    || (pc.Renewing? && pc.effect == e && move == RenewFails)
    || (pc.Ready? && pc.effect == e && move == Expire)
  }

  lemma TurnsBack(cfg: Config, run: seq<Event>, w: World, id: string, i: nat, move: Move, e: Effect) returns (w': World)
    requires Reaches(cfg, run, w) && Holds(w, id, i) && Unsent(w.ops[id].workers[i].pc, move, e)
    ensures Reaches(cfg, run + [Work(id, i, move)], w') && Local(w, w', id, i) && w'.upstream == w.upstream && Holds(w', id, i)
    ensures w'.ops[id].row == w.ops[id].row && w'.ops[id].account == w.ops[id].account && w'.ops[id].granted == w.ops[id].granted
    ensures w'.ops[id].workers[i].pc == match e
                                        case GrantUser => At(DeferGrant)
                                        case ManagedDrop => At(DropDefer)
                                        case _ => Done
  {
    hide Reaches, Next, OwnsIdentity;
    w' := Step(cfg, run, w, id, i, move);
  }

  /**
   Then GRANT and the DROP of a deprovisioning are left to a reconciler at once, with the lease given back; the
   others are left as they are, for a reconciler to find once the lease has run out. Nothing happens upstream.
   */
  lemma UnsentEnds(cfg: Config, run: seq<Event>, w: World, id: string, i: nat, move: Move, e: Effect)
      returns (more: seq<Event>, w': World)
    requires Reaches(cfg, run, w) && Holds(w, id, i) && Unsent(w.ops[id].workers[i].pc, move, e)
    requires (e == GrantUser ==> w.ops[id].row.stage == GrantStarted) && (e == ManagedDrop ==> w.ops[id].row.stage == DropStarted)
    ensures Reaches(cfg, run + [Work(id, i, move)] + more, w') && OnlyBy(more, id, i) && Local(w, w', id, i)
    ensures w'.upstream == w.upstream && w'.ops[id].account == w.ops[id].account && w'.ops[id].granted == w.ops[id].granted
    ensures var row := w'.ops[id].row;
            if e == GrantUser then row.active && row.stage == CleanupRequired && row.cleanup == Required && row.holder.Nothing?
            else if e == ManagedDrop then row.active && row.stage == DropUncertain && row.cleanup == Required && row.holder.Nothing?
            else row == w.ops[id].row && w'.ops[id].workers[i].pc == Done
  {
    hide Reaches, Next, WorkerStep, OwnsIdentity, Unsent, Local;
    var w1 := TurnsBack(cfg, run, w, id, i, move, e);
    var r1 := run + [Work(id, i, move)];
    if e == GrantUser || e == ManagedDrop {
      w' := LetGo(cfg, r1, w1, id, i, if e == GrantUser then DeferGrant else DropDefer);
      more := [Work(id, i, Write)];
      LocalThen(w, w1, w', id, i);
    } else {
      more, w' := [], w1;
      assert r1 + more == r1;
    }
  }
}
