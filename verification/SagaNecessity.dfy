/**
 The conditions of the safety proof are needed. If a statement may take effect after its
 call returned, or if an operation may be claimed while its last writer can still read it
 back, then some run leaves an upstream user that no operation answers for.
 */
module SagaNecessity {
  import opened SagaStore
  import opened SagaProgram
  import opened SagaWorld
  import opened SagaSafety
  import opened SagaExclusion
  import opened SagaRoutes
  import opened SagaOnce

  const TOKEN: string := "aaaaaaaaaaaaaaaaaaaa"
  const ID: string := OPERATION_PREFIX + TOKEN
  const REQUEST: Holder := Holder("request", "r")
  const OTHER: Holder := Holder("other", "o")

  /** The only operation was discarded, but its user exists. */
  predicate Orphaned(w: World)
  {
    && w.ops.Keys == {ID}
    && w.ops[ID].row.stage == NotCreated
    && AccountOf(w.ops[ID].row) in w.upstream
  }

  lemma OrphanIsUnanswered(w: World)
    requires Orphaned(w)
    ensures exists a | a in w.upstream :: !AnsweredFor(w, a)
  {
    assert !AnsweredFor(w, AccountOf(w.ops[ID].row));
  }

  /** The first request, up to holding the lease it starts with. */
  lemma FirstRequest(cfg: Config) returns (run: seq<Event>, w: World)
    requires cfg.Valid()
    ensures Reaches(cfg, run, w) && w == World(0, map[ID := NewOp(cfg, TOKEN, "h", REQUEST, 0)], {})
    ensures Holds(w, ID, 0) && OwnsIdentity(w.ops[ID].row)
  {
    assert Reaches(cfg, [], EMPTY);
    w := Begin(cfg, [], EMPTY, TOKEN, "h", REQUEST);
    run := [] + [Provision(TOKEN, "h", REQUEST)];
    assert w.ops[ID].row.id[4..] == TOKEN && w.ops[ID].row.id[..4] == OPERATION_PREFIX;
  }

  // ------------------------------------------------------------ late effects

  /** CREATE USER is sent; the connection breaks before it takes effect. */
  lemma SendAndLoseAnswer(cfg: Config, run: seq<Event>, w: World) returns (more: seq<Event>, w': World)
    requires Reaches(cfg, run, w) && Holds(w, ID, 0)
    requires w.ops[ID].workers[0].pc.Ready? && w.ops[ID].workers[0].pc.effect == CreateUser
        && w.clock < w.ops[ID].workers[0].pc.deadline
    ensures Reaches(cfg, run + more, w') && Local(w, w', ID, 0) && Holds(w', ID, 0)
    ensures w'.ops[ID].row == w.ops[ID].row && w'.ops[ID].workers[0].pc == At(MarkUncertain)
    ensures cfg.lateEffects ==> w'.ops[ID].straggler == Some(w.ops[ID].workers[0].pc.deadline)
  {
    hide Reaches, Next, OwnsIdentity;
    var w1 := SendIt(cfg, run, w, ID, 0, CreateUser, w.ops[ID].workers[0].pc.deadline);
    w' := Step(cfg, run + [Work(ID, 0, Send)], w1, ID, 0, Answer(ReadFailed));
    more := [Work(ID, 0, Send), Work(ID, 0, Answer(ReadFailed))];
    assert run + more == run + [Work(ID, 0, Send)] + [Work(ID, 0, Answer(ReadFailed))];
  }

  /** The request cleans up after an uncertain CREATE USER. */
  lemma CleanUpUncertain(cfg: Config, run: seq<Event>, w: World) returns (run': seq<Event>, w': World)
    requires cfg.Valid() && Reaches(cfg, run, w) && Holds(w, ID, 0) && OwnsIdentity(w.ops[ID].row)
    requires w.ops.Keys == {ID} && w.ops[ID].row.stage == CreateStarted && w.ops[ID].workers[0].pc == At(MarkUncertain)
    ensures Reaches(cfg, run', w') && w'.clock == w.clock && w'.ops.Keys == {ID}
    ensures w'.ops[ID].row.stage == NotCreated && w'.ops[ID].straggler == w.ops[ID].straggler
  {
    hide Reaches, Next, WorkerStep, OwnsIdentity;
    var a, w1 := WriteAndRead(cfg, run, w, ID, 0, MarkUncertain);
    IdentityFollows(w.ops[ID].row, w1.ops[ID].row);
    var r2, w2 := RequireCleanup(cfg, run + a, w1);
    run', w' := DropAndFinish(cfg, r2, w2, 0, CleanupDrop(CreateOutcomeUncertain));
  }

  lemma RequireCleanup(cfg: Config, run: seq<Event>, w: World) returns (run': seq<Event>, w': World)
    requires cfg.Valid() && Reaches(cfg, run, w) && Holds(w, ID, 0) && w.ops.Keys == {ID}
    requires w.ops[ID].row.stage == CreateUncertain && w.ops[ID].workers[0].pc == At(CleanupRequire(CreateOutcomeUncertain))
    ensures Reaches(cfg, run', w') && Holds(w', ID, 0) && w'.clock == w.clock && w'.ops.Keys == {ID}
    ensures w'.ops[ID].row.stage == CleanupInProgress && w'.ops[ID].workers[0].pc == Renew(CleanupDrop(CreateOutcomeUncertain))
    ensures w'.ops[ID].straggler == w.ops[ID].straggler
  {
    hide Reaches, Next, WorkerStep, OwnsIdentity;
    var a, w1 := WriteAndRead(cfg, run, w, ID, 0, CleanupRequire(CreateOutcomeUncertain));
    var b, w2 := WriteAndRead(cfg, run + a, w1, ID, 0, CleanupBegin(CreateOutcomeUncertain));
    run', w' := run + a + b, w2;
  }

  /** A cleanup from its renewal on. */
  lemma DropAndFinish(cfg: Config, run: seq<Event>, w: World, i: nat, e: Effect) returns (run': seq<Event>, w': World)
    requires cfg.Valid() && Reaches(cfg, run, w) && Holds(w, ID, i) && w.ops.Keys == {ID}
    requires e.CleanupDrop? || e == ReconcileDrop
    requires w.ops[ID].row.stage == CleanupInProgress && w.ops[ID].workers[i].pc == Renew(e)
    ensures Reaches(cfg, run', w') && Local(w, w', ID, i) && w'.ops.Keys == {ID}
    ensures w'.ops[ID].row.stage == NotCreated && w'.ops[ID].straggler == w.ops[ID].straggler && !Live(w', ID)
  {
    hide Reaches, Next, WorkerStep, OwnsIdentity;
    var a, w1 := RenewInTime(cfg, run, w, ID, i, e);
    var b, w2 := DropIt(cfg, run + a, w1, ID, i, e, w.clock + cfg.lease - cfg.cleanupTimeout);
    w' := FinishIt(cfg, run + a + b, w2, i);
    run' := run + a + b + [Work(ID, i, Write)];
  }

  lemma FinishIt(cfg: Config, run: seq<Event>, w: World, i: nat) returns (w': World)
    requires Reaches(cfg, run, w) && Holds(w, ID, i) && w.ops[ID].workers[i].pc.At?
    requires w.ops[ID].workers[i].pc.site.CleanupFinish? || w.ops[ID].workers[i].pc.site == ReconcileFinish
    requires w.ops[ID].row.stage == CleanupInProgress
    ensures Reaches(cfg, run + [Work(ID, i, Write)], w') && Local(w, w', ID, i) && w'.upstream == w.upstream
    ensures w'.ops[ID].row.stage == NotCreated && w'.ops[ID].straggler == w.ops[ID].straggler
  {
    hide Reaches, Next, OwnsIdentity;
    w' := Step(cfg, run, w, ID, i, Write);
  }

  /** A late CREATE USER outlives the DROP USER that was to undo it. */
  lemma LateEffectsOrphan(cfg: Config) returns (run: seq<Event>, w: World)
    requires cfg.Valid() && cfg.lateEffects
    ensures Reaches(cfg, run, w) && Orphaned(w)
  {
    hide Reaches, WorkerStep, OwnsIdentity;
    var r0, w0 := FirstRequest(cfg);
    var a, w1 := WriteAndRead(cfg, r0, w0, ID, 0, BeginCreate);
    var b, w2 := RenewInTime(cfg, r0 + a, w1, ID, 0, CreateUser);
    var c, w3 := SendAndLoseAnswer(cfg, r0 + a + b, w2);
    IdentityFollows(w0.ops[ID].row, w3.ops[ID].row);
    var r4, w4 := CleanUpUncertain(cfg, r0 + a + b + c, w3);
    w := Extend(cfg, r4, w4, Straggle(ID));
    run := r4 + [Straggle(ID)];
  }

  // ----------------------------------------------------------- early claims

  /** A reconciler claims the operation while the request has yet to read back its first write. */
  lemma ClaimTooEarly(cfg: Config) returns (run: seq<Event>, w: World)
    requires cfg.Valid() && !cfg.returnsOwnWrite && cfg.staleAfter < cfg.cleanupTimeout
    ensures Reaches(cfg, run, w) && w.clock == cfg.lease - 1 + cfg.staleAfter && w.ops.Keys == {ID}
    ensures |w.ops[ID].workers| == 2 && Holds(w, ID, 1) && w.ops[ID].row.stage == CreateStarted
    ensures w.ops[ID].workers[0].pc.Reread? && w.ops[ID].workers[0].pc.site == BeginCreate
        && w.clock < w.ops[ID].workers[0].pc.until
    ensures w.ops[ID].workers[1].pc == At(ReconcileBegin)
  {
    hide Reaches, Next, WorkerStep, OwnsIdentity;
    var r0, w0 := FirstRequest(cfg);
    var w1 := Wait(cfg, r0, w0, cfg.lease - 1);
    var r1 := r0 + [Tick(cfg.lease - 1)];
    var w2 := WriteIt(cfg, r1, w1, ID, 0, BeginCreate);
    var r2 := r1 + [Work(ID, 0, Write)];
    var w3 := Wait(cfg, r2, w2, cfg.staleAfter);
    var r3 := r2 + [Tick(cfg.staleAfter)];
    IdentityFollows(w0.ops[ID].row, Leased(w3.ops[ID].row, OTHER, cfg.lease, w3.clock));
    w := ClaimNow(cfg, r3, w3, ID, OTHER);
    run := r3 + [Claim(ID, OTHER)];
  }

  /** The request reads back the reconciler's row, takes it for its own, and sends CREATE USER. */
  lemma CreateOnBorrowedLease(cfg: Config, run: seq<Event>, w: World) returns (run': seq<Event>, w': World)
    requires cfg.Valid() && !cfg.returnsOwnWrite && Reaches(cfg, run, w) && w.ops.Keys == {ID}
    requires |w.ops[ID].workers| == 2 && Holds(w, ID, 1) && w.ops[ID].row.stage == CreateStarted
    requires w.ops[ID].workers[0].pc.Reread? && w.ops[ID].workers[0].pc.site == BeginCreate
        && w.clock < w.ops[ID].workers[0].pc.until
    requires w.ops[ID].workers[1].pc == At(ReconcileBegin)
    ensures Reaches(cfg, run', w') && w'.clock == w.clock && w'.ops.Keys == {ID} && |w'.ops[ID].workers| == 2
    ensures w'.ops[ID].row.active && w'.ops[ID].row.holder.Some? && LeaseValid(w'.ops[ID].row, w'.clock)
        && w'.ops[ID].row.stage == CleanupInProgress
    ensures w'.ops[ID].workers[0].pc == Sent(CreateUser, w.clock + cfg.lease - cfg.cleanupTimeout, false)
    ensures AccountOf(w'.ops[ID].workers[0].op) == AccountOf(w'.ops[ID].row)
    ensures w'.ops[ID].workers[1].pc.Reread? && w'.ops[ID].workers[1].pc.site == ReconcileBegin
        && w'.clock < w'.ops[ID].workers[1].pc.until
  {
    hide Reaches, Next, WorkerStep, OwnsIdentity;
    var w1 := WriteIt(cfg, run, w, ID, 1, ReconcileBegin);
    var r1 := run + [Work(ID, 1, Write)];
    var w2 := ReadIt(cfg, r1, w1, ID, 0);
    var r2 := r1 + [Work(ID, 0, ReadBack)];
    var a, w3 := RenewInTime(cfg, r2, w2, ID, 0, CreateUser);
    w' := SendIt(cfg, r2 + a, w3, ID, 0, CreateUser, w.clock + cfg.lease - cfg.cleanupTimeout);
    run' := r2 + a + [Work(ID, 0, Send)];
  }

  /** Both act under one lease: the reconciler drops and discards, then CREATE USER takes effect. */
  lemma EarlyClaimOrphan(cfg: Config) returns (run: seq<Event>, w: World)
    requires cfg.Valid() && !cfg.returnsOwnWrite && cfg.staleAfter < cfg.cleanupTimeout
    ensures Reaches(cfg, run, w) && Orphaned(w)
  {
    hide Reaches, Next, WorkerStep, OwnsIdentity;
    var r0, w0 := ClaimTooEarly(cfg);
    var r1, w1 := CreateOnBorrowedLease(cfg, r0, w0);
    var w2 := ReadIt(cfg, r1, w1, ID, 1);
    var r3, w3 := DropAndFinish(cfg, r1 + [Work(ID, 1, ReadBack)], w2, 1, ReconcileDrop);
    w := CreateApplies(cfg, r3, w3);
    run := r3 + [Work(ID, 0, Apply)];
  }

  lemma CreateApplies(cfg: Config, run: seq<Event>, w: World) returns (w': World)
    requires Reaches(cfg, run, w) && w.ops.Keys == {ID} && |w.ops[ID].workers| >= 1 && !Live(w, ID)
    requires var pc := w.ops[ID].workers[0].pc; pc.Sent? && pc.effect == CreateUser && !pc.applied && w.clock < pc.deadline
    requires AccountOf(w.ops[ID].workers[0].op) == AccountOf(w.ops[ID].row)
    ensures Reaches(cfg, run + [Work(ID, 0, Apply)], w')
    ensures w' == w.(ops := w.ops[ID := Goto(w.ops[ID], 0, w.ops[ID].workers[0].pc.(applied := true))],
                     upstream := w.upstream + {AccountOf(w.ops[ID].row)})
  {
    hide Reaches, Next, OwnsIdentity;
    w' := Step(cfg, run, w, ID, 0, Apply);
  }

  // ------------------------------------------------------------------ result

  predicate Orphans(cfg: Config, run: seq<Event>)
  {
    Run(cfg, run).Some? && exists a | a in Run(cfg, run).value.upstream :: !AnsweredFor(Run(cfg, run).value, a)
  }

  /** No run orphans a user exactly when the two conditions hold. */
  lemma NoOrphanExactlyWhen(cfg: Config)
    requires cfg.Valid()
    ensures Settled(cfg) <==> !exists run :: Orphans(cfg, run)
  {
    if Settled(cfg) {
      forall run | Run(cfg, run).Some?
        ensures !Orphans(cfg, run)
      {
        NoOrphan(cfg, run);
      }
    } else {
      var run, w;
      if cfg.lateEffects {
        run, w := LateEffectsOrphan(cfg);
      } else {
        run, w := EarlyClaimOrphan(cfg);
      }
      OrphanIsUnanswered(w);
      assert Orphans(cfg, run);
    }
  }

  // ------------------------------------------------------- the lease, shared

  /** The request has created its user and is about to write that it is granting. */
  lemma CreateLate(cfg: Config) returns (run: seq<Event>, w: World)
    requires cfg.Valid()
    ensures Reaches(cfg, run, w) && w.clock == cfg.lease - 1 && w.ops.Keys == {ID} && |w.ops[ID].workers| == 1
    ensures Holds(w, ID, 0) && OwnsIdentity(w.ops[ID].row) && w.ops[ID].row.stage == CreateStarted
    ensures w.ops[ID].row.lastAttempt == Some(0) && w.ops[ID].row.expires == Some(2 * cfg.lease - 1)
    ensures w.ops[ID].workers[0].pc == At(MarkCreated)
  {
    hide Reaches, Next, WorkerStep, OwnsIdentity;
    var r0, w0 := FirstRequest(cfg);
    var a, w1 := WriteAndRead(cfg, r0, w0, ID, 0, BeginCreate);
    var w2 := Wait(cfg, r0 + a, w1, cfg.lease - 1);
    var b, w3 := RenewInTime(cfg, r0 + a + [Tick(cfg.lease - 1)], w2, ID, 0, CreateUser);
    IdentityFollows(w0.ops[ID].row, w3.ops[ID].row);
    run, w := CreateIt(cfg, r0 + a + [Tick(cfg.lease - 1)] + b, w3, w2.clock + cfg.lease - cfg.cleanupTimeout);
  }

  /** CREATE USER is sent, takes effect and is acknowledged. */
  lemma CreateIt(cfg: Config, run: seq<Event>, w: World, deadline: nat) returns (run': seq<Event>, w': World)
    requires Reaches(cfg, run, w) && w.ops.Keys == {ID} && Holds(w, ID, 0) && !Live(w, ID)
    requires w.ops[ID].workers[0].pc == Ready(CreateUser, deadline) && w.clock < deadline
    ensures Reaches(cfg, run', w') && w'.ops.Keys == {ID} && w'.clock == w.clock && Holds(w', ID, 0)
    ensures w'.ops[ID].row == w.ops[ID].row && |w'.ops[ID].workers| == |w.ops[ID].workers|
    ensures w'.ops[ID].workers[0].pc == At(MarkCreated)
  {
    hide Reaches, Next, OwnsIdentity;
    var w1 := SendIt(cfg, run, w, ID, 0, CreateUser, deadline);
    var w2 := CreateApplies(cfg, run + [Work(ID, 0, Send)], w1);
    w' := Step(cfg, run + [Work(ID, 0, Send)] + [Work(ID, 0, Apply)], w2, ID, 0, Answer(Packet(0)));
    run' := run + [Work(ID, 0, Send)] + [Work(ID, 0, Apply)] + [Work(ID, 0, Answer(Packet(0)))];
  }

  /** It renews once more, cannot grant, and turns to cleaning up as its lease runs out. */
  lemma GrantLate(cfg: Config) returns (run: seq<Event>, w: World)
    requires cfg.Valid()
    ensures Reaches(cfg, run, w) && w.clock == 3 * cfg.lease - 3 && w.ops.Keys == {ID} && |w.ops[ID].workers| == 1
    ensures Holds(w, ID, 0) && OwnsIdentity(w.ops[ID].row) && w.ops[ID].row.stage == GrantStarted
    ensures w.ops[ID].row.lastAttempt == Some(0) && w.ops[ID].row.expires == Some(3 * cfg.lease - 2)
    ensures w.ops[ID].workers[0].pc == At(CleanupRequire(GrantFailed))
  {
    hide Reaches, Next, WorkerStep, OwnsIdentity;
    var r0, w0 := CreateLate(cfg);
    var a, w1 := WriteAndRead(cfg, r0, w0, ID, 0, MarkCreated);
    var b, w2 := WriteAndRead(cfg, r0 + a, w1, ID, 0, MarkGranting);
    var w3 := Wait(cfg, r0 + a + b, w2, cfg.lease - 1);
    var c, w4 := RenewInTime(cfg, r0 + a + b + [Tick(cfg.lease - 1)], w3, ID, 0, GrantUser);
    IdentityFollows(w0.ops[ID].row, w4.ops[ID].row);
    var r4 := r0 + a + b + [Tick(cfg.lease - 1)] + c;
    var w5 := GiveUpGrant(cfg, r4, w4);
    w := Wait(cfg, r4 + [Work(ID, 0, GiveUp)], w5, cfg.lease - 1);
    run := r4 + [Work(ID, 0, GiveUp)] + [Tick(cfg.lease - 1)];
  }

  lemma GiveUpGrant(cfg: Config, run: seq<Event>, w: World) returns (w': World)
    requires Reaches(cfg, run, w) && Holds(w, ID, 0) && OwnsIdentity(w.ops[ID].row)
    requires w.ops[ID].workers[0].pc.Ready? && w.ops[ID].workers[0].pc.effect == GrantUser
    ensures Reaches(cfg, run + [Work(ID, 0, GiveUp)], w')
    ensures w' == w.(ops := w.ops[ID := Goto(w.ops[ID], 0, At(CleanupRequire(GrantFailed)))])
  {
    hide Reaches, Next, OwnsIdentity;
    w' := Step(cfg, run, w, ID, 0, GiveUp);
  }

  /** A reconciler claims before the request has read back that it is cleaning up. */
  lemma ClaimDuringCleanup(cfg: Config) returns (run: seq<Event>, w: World)
    requires cfg.Valid() && !Excluding(cfg)
    ensures Reaches(cfg, run, w) && w.ops.Keys == {ID} && |w.ops[ID].workers| == 2 && Holds(w, ID, 1)
    ensures w.ops[ID].row.stage == CleanupRequired && w.ops[ID].workers[1].pc == At(ReconcileBegin)
    ensures var pc := w.ops[ID].workers[0].pc; pc.Reread? && pc.site == CleanupRequire(GrantFailed) && w.clock < pc.until
  {
    hide Reaches, Next, WorkerStep, OwnsIdentity;
    var r0, w0 := GrantLate(cfg);
    var w1 := WriteIt(cfg, r0, w0, ID, 0, CleanupRequire(GrantFailed));
    var r1 := r0 + [Work(ID, 0, Write)];
    var start := 3 * cfg.lease - 3;
    var delay := if cfg.staleAfter <= start + 1 then 1 else cfg.staleAfter - start;
    var w2 := Wait(cfg, r1, w1, delay);
    IdentityFollows(w0.ops[ID].row, Leased(w2.ops[ID].row, OTHER, cfg.lease, w2.clock));
    w := ClaimNow(cfg, r1 + [Tick(delay)], w2, ID, OTHER);
    run := r1 + [Tick(delay)] + [Claim(ID, OTHER)];
  }

  /** The request reads back the reconciler's row and goes on under it; so does the reconciler. */
  lemma DropTwice(cfg: Config) returns (run: seq<Event>, w: World)
    requires cfg.Valid() && !Excluding(cfg)
    ensures Reaches(cfg, run, w) && !ActsAlone(w)
    ensures w.ops.Keys == {ID} && |w.ops[ID].workers| == 2 && Holds(w, ID, 1) && w.ops[ID].row.stage == CleanupInProgress
    ensures var pc := w.ops[ID].workers[0].pc; pc.Ready? && IsDrop(pc.effect) && w.clock < pc.deadline
    ensures var pc := w.ops[ID].workers[1].pc; pc.Ready? && pc.effect == ReconcileDrop && w.clock < pc.deadline
  {
    hide Reaches, Next, WorkerStep, OwnsIdentity;
    var r0, w0 := ClaimDuringCleanup(cfg);
    var r1, w1 := RequestGoesOn(cfg, r0, w0);
    var w2 := ReadIt(cfg, r1, w1, ID, 1);
    var a, w3 := RenewInTime(cfg, r1 + [Work(ID, 1, ReadBack)], w2, ID, 1, ReconcileDrop);
    run, w := r1 + [Work(ID, 1, ReadBack)] + a, w3;
    assert MayAct(w.clock, w.ops[ID].workers[0]) && MayAct(w.clock, w.ops[ID].workers[1]);
  }

  lemma RequestGoesOn(cfg: Config, run: seq<Event>, w: World) returns (run': seq<Event>, w': World)
    requires cfg.Valid() && !cfg.returnsOwnWrite && Reaches(cfg, run, w) && w.ops.Keys == {ID}
        && |w.ops[ID].workers| == 2 && Holds(w, ID, 1)
    requires w.ops[ID].row.stage == CleanupRequired && w.ops[ID].workers[1].pc == At(ReconcileBegin)
    requires var pc := w.ops[ID].workers[0].pc; pc.Reread? && pc.site == CleanupRequire(GrantFailed) && w.clock < pc.until
    ensures Reaches(cfg, run', w') && w'.clock == w.clock && w'.ops.Keys == {ID} && |w'.ops[ID].workers| == 2
    ensures Holds(w', ID, 0) && w'.ops[ID].workers[0].pc.Ready? && w.clock < w'.ops[ID].workers[0].pc.deadline
    ensures IsDrop(w'.ops[ID].workers[0].pc.effect) && w'.ops[ID].row.stage == CleanupInProgress
    ensures var pc := w'.ops[ID].workers[1].pc; pc.Reread? && pc.site == ReconcileBegin && w.clock < pc.until
  {
    hide Reaches, Next, WorkerStep, OwnsIdentity;
    var w1 := WriteIt(cfg, run, w, ID, 1, ReconcileBegin);
    var r1 := run + [Work(ID, 1, Write)];
    var w2 := ReadIt(cfg, r1, w1, ID, 0);
    run', w' := BeginAndRenew(cfg, r1 + [Work(ID, 0, ReadBack)], w2);
  }

  lemma BeginAndRenew(cfg: Config, run: seq<Event>, w: World) returns (run': seq<Event>, w': World)
    requires cfg.Valid() && Reaches(cfg, run, w) && Holds(w, ID, 0) && w.ops.Keys == {ID}
    requires w.ops[ID].row.stage == CleanupInProgress && w.ops[ID].workers[0].pc == At(CleanupBegin(GrantFailed))
    ensures Reaches(cfg, run', w') && Local(w, w', ID, 0) && w'.ops.Keys == {ID} && Holds(w', ID, 0)
    ensures w'.ops[ID].workers[0].pc.Ready? && w.clock < w'.ops[ID].workers[0].pc.deadline
    ensures IsDrop(w'.ops[ID].workers[0].pc.effect) && w'.ops[ID].row.stage == CleanupInProgress
  {
    hide Reaches, Next, WorkerStep, OwnsIdentity;
    var a, w1 := WriteAndRead(cfg, run, w, ID, 0, CleanupBegin(GrantFailed));
    var b, w2 := RenewInTime(cfg, run + a, w1, ID, 0, CleanupDrop(GrantFailed));
    run', w' := run + a + b, w2;
  }

  /** The lease excludes in every run exactly under the condition on the configuration. */
  lemma LeaseExcludesExactlyWhen(cfg: Config)
    requires cfg.Valid()
    ensures Excluding(cfg) <==> forall run | Run(cfg, run).Some? :: ActsAlone(Run(cfg, run).value)
  {
    if Excluding(cfg) {
      forall run | Run(cfg, run).Some?
        ensures ActsAlone(Run(cfg, run).value)
      {
        LeaseExcludes(cfg, run);
      }
    } else {
      var run, w := DropTwice(cfg);
      assert Run(cfg, run) == Some(w);
      assert Run(cfg, run).Some? && !ActsAlone(Run(cfg, run).value);
    }
  }

  // ------------------------------------------------- a statement out of its stage

  /** Whoever may act does so in the stage its statement belongs to. */
  predicate InStage(w: World)
  {
    forall id, i | id in w.ops && 0 <= i < |w.ops[id].workers| && MayAct(w.clock, w.ops[id].workers[i]) ::
      w.ops[id].row.stage == StageFor(w.ops[id].workers[i].pc.effect)
  }

  /** A DROP USER that can take effect now does so in cleanup_in_progress or drop_started, whichever is its own. */
  predicate DropsInStage(w: World)
  {
    forall id, i | id in w.ops && 0 <= i < |w.ops[id].workers| && MayDrop(w.clock, w.ops[id].workers[i]) ::
      w.ops[id].row.stage == StageFor(w.ops[id].workers[i].pc.effect)
  }

  predicate MayDrop(now: nat, w: Worker)
  {
    w.pc.Sent? && IsDrop(w.pc.effect) && !w.pc.applied && now < w.pc.deadline
  }

  lemma DropsAreActs(w: World)
    requires InStage(w)
    ensures DropsInStage(w)
  {
    forall id, i | id in w.ops && 0 <= i < |w.ops[id].workers| && MayDrop(w.clock, w.ops[id].workers[i])
      ensures w.ops[id].row.stage == StageFor(w.ops[id].workers[i].pc.effect)
    {
      assert MayAct(w.clock, w.ops[id].workers[i]);
    }
  }

  /** With two at work, the reconciler gives up and says so while the request's DROP USER is on its way. */
  lemma DropOutOfItsStage(cfg: Config) returns (run: seq<Event>, w: World)
    requires cfg.Valid() && !Excluding(cfg)
    ensures Reaches(cfg, run, w) && !DropsInStage(w)
  {
    hide Reaches, Next, WorkerStep, OwnsIdentity, Excluding, ActsAlone;
    var r0, w0 := DropTwice(cfg);
    var w1 := SendNow(cfg, r0, w0);
    var r1 := r0 + [Work(ID, 0, Send)];
    var w2 := GiveUpDrop(cfg, r1, w1);
    var r2 := r1 + [Work(ID, 1, GiveUp)];
    w := WriteIt(cfg, r2, w2, ID, 1, CleanupFail);
    run := r2 + [Work(ID, 1, Write)];
    assert MayDrop(w.clock, w.ops[ID].workers[0]);
  }

  lemma SendNow(cfg: Config, run: seq<Event>, w: World) returns (w': World)
    requires Reaches(cfg, run, w) && ID in w.ops && |w.ops[ID].workers| == 2
    requires var pc := w.ops[ID].workers[0].pc; pc.Ready? && IsDrop(pc.effect) && w.clock < pc.deadline
    ensures Reaches(cfg, run + [Work(ID, 0, Send)], w')
    ensures var pc := w.ops[ID].workers[0].pc;
            w' == w.(ops := w.ops[ID := Goto(w.ops[ID], 0, Sent(pc.effect, pc.deadline, false))])
  {
    hide Reaches, Next, OwnsIdentity;
    w' := Step(cfg, run, w, ID, 0, Send);
  }

  lemma GiveUpDrop(cfg: Config, run: seq<Event>, w: World) returns (w': World)
    requires Reaches(cfg, run, w) && ID in w.ops && |w.ops[ID].workers| == 2
    requires var pc := w.ops[ID].workers[1].pc; pc.Ready? && pc.effect == ReconcileDrop
    ensures Reaches(cfg, run + [Work(ID, 1, GiveUp)], w')
    ensures w' == w.(ops := w.ops[ID := Goto(w.ops[ID], 1, At(CleanupFail))])
  {
    hide Reaches, Next, OwnsIdentity;
    w' := Step(cfg, run, w, ID, 1, GiveUp);
  }

  lemma ActsInStage(cfg: Config, run: seq<Event>)
    requires Excluding(cfg) && Run(cfg, run).Some?
    ensures InStage(Run(cfg, run).value)
  {
    var w := Run(cfg, run).value;
    forall id, i | id in w.ops && 0 <= i < |w.ops[id].workers| && MayAct(w.clock, w.ops[id].workers[i])
      ensures w.ops[id].row.stage == StageFor(w.ops[id].workers[i].pc.effect)
    {
      ActorsHoldTheLease(cfg, run, id, i);
    }
  }

  /** Statements, and DROP USER in particular, keep to their stages in every run exactly when the lease excludes. */
  lemma StagesKeptExactlyWhen(cfg: Config)
    requires cfg.Valid()
    ensures Excluding(cfg) <==> forall run | Run(cfg, run).Some? :: InStage(Run(cfg, run).value)
    ensures Excluding(cfg) <==> forall run | Run(cfg, run).Some? :: DropsInStage(Run(cfg, run).value)
  {
    hide InStage, DropsInStage, Excluding;
    if Excluding(cfg) {
      forall run | Run(cfg, run).Some?
        ensures InStage(Run(cfg, run).value) && DropsInStage(Run(cfg, run).value)
      {
        ActsInStage(cfg, run);
        DropsAreActs(Run(cfg, run).value);
      }
    } else {
      var run, w := DropOutOfItsStage(cfg);
      assert Run(cfg, run) == Some(w);
      if InStage(w) {
        DropsAreActs(w);
      }
      assert Run(cfg, run).Some? && !InStage(Run(cfg, run).value) && !DropsInStage(Run(cfg, run).value);
    }
  }

  // -------------------------------------------------- one statement at a time

  /** No worker may act while a CREATE USER that was given up can still take effect. */
  predicate NothingLate(w: World)
  {
    forall id, i | id in w.ops && 0 <= i < |w.ops[id].workers| && w.ops[id].straggler.Some?
        && w.clock < w.ops[id].straggler.value ::
      !MayAct(w.clock, w.ops[id].workers[i])
  }

  /** A CREATE USER that was given up but can still take effect does so in create_started. */
  predicate LateInStage(w: World)
  {
    forall id | id in w.ops && w.ops[id].straggler.Some? && w.clock < w.ops[id].straggler.value ::
      w.ops[id].row.stage == StageFor(CreateUser)
  }

  /** The request is about to drop what its own lost CREATE USER may still create. */
  lemma LateOverlap(cfg: Config) returns (run: seq<Event>, w: World)
    requires cfg.Valid() && cfg.lateEffects
    ensures Reaches(cfg, run, w) && !NothingLate(w) && !LateInStage(w)
  {
    hide Reaches, WorkerStep, OwnsIdentity;
    var r0, w0 := FirstRequest(cfg);
    var a, w1 := WriteAndRead(cfg, r0, w0, ID, 0, BeginCreate);
    var b, w2 := RenewInTime(cfg, r0 + a, w1, ID, 0, CreateUser);
    var c, w3 := SendAndLoseAnswer(cfg, r0 + a + b, w2);
    IdentityFollows(w0.ops[ID].row, w3.ops[ID].row);
    run, w := OverlapFrom(cfg, r0 + a + b + c, w3);
  }

  lemma OverlapFrom(cfg: Config, run: seq<Event>, w: World) returns (run': seq<Event>, w': World)
    requires cfg.Valid() && Reaches(cfg, run, w) && Holds(w, ID, 0) && OwnsIdentity(w.ops[ID].row)
    requires w.ops.Keys == {ID} && w.ops[ID].row.stage == CreateStarted && w.ops[ID].workers[0].pc == At(MarkUncertain)
    requires w.ops[ID].straggler.Some? && w.clock < w.ops[ID].straggler.value
    ensures Reaches(cfg, run', w') && !NothingLate(w') && !LateInStage(w')
  {
    hide Reaches, Next, WorkerStep, OwnsIdentity;
    var a, w1 := WriteAndRead(cfg, run, w, ID, 0, MarkUncertain);
    IdentityFollows(w.ops[ID].row, w1.ops[ID].row);
    var r2, w2 := RequireCleanup(cfg, run + a, w1);
    var b, w3 := RenewInTime(cfg, r2, w2, ID, 0, CleanupDrop(CreateOutcomeUncertain));
    run', w' := r2 + b, w3;
    assert MayAct(w'.clock, w'.ops[ID].workers[0]);
  }

  /** At most one statement for an operation can take effect at any instant of any run, exactly under both conditions. */
  lemma OneStatementExactlyWhen(cfg: Config)
    requires cfg.Valid()
    ensures Excluding(cfg) && !cfg.lateEffects <==>
            forall run | Run(cfg, run).Some? :: ActsAlone(Run(cfg, run).value) && NothingLate(Run(cfg, run).value)
  {
    hide Excluding, ActsAlone;
    if Excluding(cfg) && !cfg.lateEffects {
      forall run | Run(cfg, run).Some?
        ensures ActsAlone(Run(cfg, run).value) && NothingLate(Run(cfg, run).value)
      {
        LeaseExcludes(cfg, run);
        RunOnceOnly(cfg, run);
        assert forall id | id in Run(cfg, run).value.ops :: Once(cfg, Run(cfg, run).value.ops[id]);
      }
    } else {
      var run, w;
      if cfg.lateEffects {
        run, w := LateOverlap(cfg);
      } else {
        run, w := DropTwice(cfg);
      }
      assert Run(cfg, run) == Some(w);
      assert Run(cfg, run).Some? && !(ActsAlone(Run(cfg, run).value) && NothingLate(Run(cfg, run).value));
    }
  }

  /** Every statement that can take effect, late ones included, is in its own stage in every run, exactly under both conditions. */
  lemma EveryStatementInStageExactlyWhen(cfg: Config)
    requires cfg.Valid()
    ensures Excluding(cfg) && !cfg.lateEffects <==>
            forall run | Run(cfg, run).Some? :: InStage(Run(cfg, run).value) && LateInStage(Run(cfg, run).value)
  {
    hide Excluding, InStage;
    if Excluding(cfg) && !cfg.lateEffects {
      forall run | Run(cfg, run).Some?
        ensures InStage(Run(cfg, run).value) && LateInStage(Run(cfg, run).value)
      {
        ActsInStage(cfg, run);
        RunOnceOnly(cfg, run);
        assert forall id | id in Run(cfg, run).value.ops :: Once(cfg, Run(cfg, run).value.ops[id]);
      }
    } else {
      var run, w;
      if cfg.lateEffects {
        run, w := LateOverlap(cfg);
      } else {
        run, w := DropOutOfItsStage(cfg);
        if InStage(w) {
          DropsAreActs(w);
        }
      }
      assert Run(cfg, run) == Some(w);
      assert Run(cfg, run).Some? && !(InStage(Run(cfg, run).value) && LateInStage(Run(cfg, run).value));
    }
  }

  /** The shipped durations do not meet it: 30 seconds of lease, 10 of cleanup, 30 until stale. */
  lemma ShippedConfiguration(cfg: Config)
    requires cfg == Configure(10_000_000_000, 30_000_000_000, 0, false, false)
    ensures Settled(cfg) && !Excluding(cfg)
  {
  }
}
