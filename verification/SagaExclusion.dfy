/**
 When the lease excludes. Under one condition on the configuration, at no instant of any
 run may two workers act upstream for one operation, and whoever may act stands on the
 stored row, in the stage its statement belongs to, under a lease that has not run out.
 */
module SagaExclusion {
  import opened SagaStore
  import opened SagaProgram
  import opened SagaWorld
  import opened SagaSafety

  /**
   Either a writer is handed its own write; or it must read it back at the instant it
   wrote; or nobody may claim an operation until every write that its first attempt can
   still lead to, two renewals on, has been read back or abandoned.
   */
  predicate Excluding(cfg: Config)
  {
    && cfg.Valid()
    && (cfg.returnsOwnWrite || cfg.cleanupTimeout == 1 || 3 * cfg.lease + cfg.cleanupTimeout - 3 <= cfg.staleAfter)
  }

  /** The worker may send, or has sent, a statement whose deadline has not passed. */
  predicate MayAct(now: nat, w: Worker)
  {
    (w.pc.Ready? || w.pc.Sent?) && now < w.pc.deadline
  }

  function StageFor(e: Effect): Stage
  {
    match e
    case CreateUser => CreateStarted
    case GrantUser => GrantStarted
    case CleanupDrop(_) => CleanupInProgress
    case ReconcileDrop => CleanupInProgress
    case ManagedDrop => DropStarted
  }

  // -------------------------------------------------------------- invariant

  /** Writes after which the worker goes on towards a statement. */
  predicate Leads(site: Site)
  {
    match site
    case BeginCreate => true
    case MarkUncertain => true
    case MarkCreated => true
    case MarkGranting => true
    case CleanupRequire(_) => true
    case CleanupBegin(_) => true
    case ReconcileBegin => true
    case DropBegin => true
    case _ => false
  }

  /** Points from which a statement, or the end of one, can still come. */
  predicate Lively(pc: Pc)
  {
    match pc
    case At(site) => !site.ReleaseActivation?
    case Reread(site, _, _) => Leads(site)
    case Activate(_) => false
    case Done => false
    case _ => true
  }

  /** The worker knows the stored row, or is about to read back the row it stored. */
  predicate Current(w: Worker, r: Row)
  {
    w.pc != Done && if w.pc.Reread? then w.pc.written == r.revision else w.op.revision == r.revision
  }

  /** How far past the last attempt the lease can reach after so many renewals. */
  predicate Reach(cfg: Config, r: Row, renewals: nat)
  {
    && r.lastAttempt.Some? && r.expires.Some?
    && (renewals == 0 ==> r.expires.value <= r.lastAttempt.value + cfg.lease)
    && (renewals == 1 ==> r.expires.value <= r.lastAttempt.value + 2 * cfg.lease - 1)
    && (renewals == 2 ==> r.expires.value <= r.lastAttempt.value + 3 * cfg.lease - 2)
  }

  predicate EffectReach(cfg: Config, r: Row, e: Effect, renewed: bool)
  {
    match e
    case CreateUser => Reach(cfg, r, if renewed then 1 else 0)
    case GrantUser => Reach(cfg, r, if renewed then 2 else 1)
    case _ => true
  }

  predicate SiteReach(cfg: Config, now: nat, r: Row, site: Site)
  {
    match site
    case BeginCreate => r.expires.Some? && r.expires.value <= now + cfg.lease
    case MarkUncertain => Reach(cfg, r, 1)
    case MarkCreated => Reach(cfg, r, 1)
    case MarkGranting => Reach(cfg, r, 1)
    case CleanupRequire(_) => Reach(cfg, r, 2)
    case ReleaseActivation => Settling(r.stage)
    case _ => true
  }

  predicate WrittenReach(cfg: Config, r: Row, site: Site)
  {
    match site
    case BeginCreate => Reach(cfg, r, 0)
    case MarkUncertain => Reach(cfg, r, 1)
    case MarkCreated => Reach(cfg, r, 1)
    case MarkGranting => Reach(cfg, r, 1)
    case _ => true
  }

  /** Nobody can claim the row before `until`. */
  predicate Guarded(cfg: Config, r: Row, until: nat)
  {
    || cfg.returnsOwnWrite
    || (r.expires.Some? && until <= r.expires.value)
    || (r.lastAttempt.Some? && until <= r.lastAttempt.value + cfg.staleAfter)
  }

  predicate Covered(now: nat, s: Row, r: Row, deadline: nat)
  {
    deadline <= now || (s == r && r.active && r.expires.Some? && deadline < r.expires.value)
  }

  predicate PcStands(cfg: Config, now: nat, s: Row, r: Row, pc: Pc)
  {
    match pc
    case At(site) => SiteReach(cfg, now, s, site)
    case Reread(site, written, until) =>
      && s.revision < written <= r.revision
      && (site.MarkPending? ==> Settling(r.stage))
      && (Leads(site) ==>
            && (written < r.revision ==> cfg.returnsOwnWrite || until <= now)
            && (written == r.revision ==>
                  r.active && r.stage == ChangeAt(site, NoError).stage && Guarded(cfg, r, until) && WrittenReach(cfg, r, site)))
    case Renew(e) => s.stage == StageFor(e) && EffectReach(cfg, s, e, false)
    case Renewing(e, start) => s.stage == StageFor(e) && EffectReach(cfg, s, e, false) && start <= now
    case Ready(e, deadline) => s.stage == StageFor(e) && EffectReach(cfg, s, e, true) && Covered(now, s, r, deadline)
    case Sent(e, deadline, _) => s.stage == StageFor(e) && EffectReach(cfg, s, e, true) && Covered(now, s, r, deadline)
    case Activate(_) => Settling(s.stage)
    case _ => true
  }

  predicate Standing(cfg: Config, now: nat, w: Worker, r: Row)
  {
    w.pc == Done ||
    (&& w.op.revision <= r.revision
     && (w.op.revision == r.revision && r.active ==> w.op == r)
     && PcStands(cfg, now, w.op, r, w.pc))
  }

  predicate Holding(w: Worker, r: Row)
  {
    Lively(w.pc) && Current(w, r)
  }

  predicate Exclusive(cfg: Config, now: nat, op: Op)
  {
    && (forall i | 0 <= i < |op.workers| :: Standing(cfg, now, op.workers[i], op.row))
    && (forall i, j | 0 <= i < j < |op.workers| :: !(Holding(op.workers[i], op.row) && Holding(op.workers[j], op.row)))
  }

  // ------------------------------------------------------------------ steps

  /** A step by worker i: it changes the row only if it knows it, or to settle an activation. */
  predicate MovedAlone(cfg: Config, now: nat, op: Op, i: nat, op': Op)
    requires i < |op.workers|
  {
    && |op'.workers| == |op.workers|
    && op'.workers == op.workers[i := op'.workers[i]]
    && Standing(cfg, now, op'.workers[i], op'.row)
    && (Settling(op.row.stage) ==> Settling(op'.row.stage))
    && (Holding(op'.workers[i], op'.row) ==> Holding(op.workers[i], op.row))
    && (op'.row != op.row ==>
          && (Holding(op.workers[i], op.row) || op.row.stage == ActivationPending)
          && (op'.row.revision == op.row.revision + 1
              || (Holding(op.workers[i], op.row) && op'.row.revision == op.row.revision && !op'.row.active)))
  }

  /** What a change of the row leaves of another worker. */
  lemma OtherStands(cfg: Config, now: nat, w: Worker, r: Row, r': Row)
    requires Standing(cfg, now, w, r)
    requires Settling(r.stage) ==> Settling(r'.stage)
    requires r' != r ==> !Holding(w, r) || r.stage == ActivationPending
    requires r' != r ==> r'.revision == r.revision + 1 || (!Holding(w, r) && r'.revision == r.revision && !r'.active)
    ensures Standing(cfg, now, w, r')
    ensures Holding(w, r') ==> Holding(w, r)
  {
  }

  lemma MovedAloneKeeps(cfg: Config, now: nat, op: Op, i: nat, op': Op)
    requires Exclusive(cfg, now, op) && i < |op.workers| && MovedAlone(cfg, now, op, i, op')
    ensures Exclusive(cfg, now, op')
  {
    hide Standing, Holding;
    forall j | 0 <= j < |op.workers| && j != i
      ensures Standing(cfg, now, op'.workers[j], op'.row)
      ensures Holding(op'.workers[j], op'.row) ==> Holding(op.workers[j], op.row)
    {
      assert op'.workers[j] == op.workers[j];
      assert Standing(cfg, now, op.workers[j], op.row);
      if i < j {
        assert !(Holding(op.workers[i], op.row) && Holding(op.workers[j], op.row));
      } else {
        assert !(Holding(op.workers[j], op.row) && Holding(op.workers[i], op.row));
      }
      OtherStands(cfg, now, op.workers[j], op.row, op'.row);
    }
  }

  /** A write is guarded until it has been read back. */
  lemma WriteStands(cfg: Config, now: nat, s: Row, site: Site, r': Row)
    requires Excluding(cfg) && PcStands(cfg, now, s, s, At(site)) && s.active
    requires Transition(s, FenceOf(s), ChangeAt(site, s.lastError), now) == Some(r')
    ensures PcStands(cfg, now, s, r', Reread(site, r'.revision, now + cfg.cleanupTimeout))
    ensures Settling(s.stage) ==> Settling(r'.stage)
    ensures site.ReleaseActivation? ==> s.stage == ActivationPending
  {
  }

  lemma WriteAlone(cfg: Config, now: nat, op: Op, i: nat, move: Move)
    requires Excluding(cfg) && Exclusive(cfg, now, op) && i < |op.workers|
    requires op.workers[i].pc.At?
    requires WriteStep(cfg, now, op, i, move).Some?
    ensures MovedAlone(cfg, now, op, i, WriteStep(cfg, now, op, i, move).value.op)
  {
    hide OwnsIdentity, ChangeAt, ValidChange, AfterFail, Excluding;
    var w := op.workers[i];
    assert Standing(cfg, now, w, op.row);
    FailedWriteStops(w.pc.site);
    if move.Write? {
      WriteStands(cfg, now, w.op, w.pc.site, WriteStep(cfg, now, op, i, move).value.op.row);
    }
  }

  /** What is read back on the way to a statement is the worker's own write. */
  lemma ReadStands(cfg: Config, now: nat, s: Row, r: Row, pc: Pc)
    requires cfg.Valid() && pc.Reread? && PcStands(cfg, now, s, r, pc)
    requires now < pc.until && (cfg.returnsOwnWrite ==> r.revision == pc.written)
    ensures PcStands(cfg, now, r, r, AfterOk(pc.site, r))
    ensures Lively(AfterOk(pc.site, r)) ==> Leads(pc.site) && pc.written == r.revision
  {
    hide OwnsIdentity;
  }

  lemma ReadAlone(cfg: Config, now: nat, op: Op, i: nat, move: Move)
    requires cfg.Valid() && Exclusive(cfg, now, op) && i < |op.workers|
    requires op.workers[i].pc.Reread?
    requires WriteStep(cfg, now, op, i, move).Some?
    ensures MovedAlone(cfg, now, op, i, WriteStep(cfg, now, op, i, move).value.op)
  {
    hide OwnsIdentity, AfterOk, AfterFail;
    var w := op.workers[i];
    assert Standing(cfg, now, w, op.row);
    FailedWriteStops(w.pc.site);
    if move.ReadBack? {
      ReadStands(cfg, now, w.op, op.row, w.pc);
    }
  }

  lemma RenewStands(cfg: Config, now: nat, s: Row, e: Effect, start: nat, h: Holder, deadline: nat)
    requires PcStands(cfg, now, s, s, Renewing(e, start)) && s.active && LeaseValid(s, now)
    requires deadline < now + cfg.lease
    ensures var r := Leased(s, h, cfg.lease, now); PcStands(cfg, now, r, r, Ready(e, deadline))
  {
  }

  lemma NotReadyStands(cfg: Config, now: nat, s: Row, r: Row, e: Effect)
    ensures PcStands(cfg, now, s, r, AfterNotReady(e)) && !AfterNotReady(e).Ready? && !AfterNotReady(e).Reread?
  {
  }

  lemma RenewAlone(cfg: Config, now: nat, op: Op, i: nat, move: Move)
    requires Exclusive(cfg, now, op) && i < |op.workers|
    requires op.workers[i].pc.Renew? || op.workers[i].pc.Renewing?
    requires RenewStep(cfg, now, op, i, move).Some?
    ensures MovedAlone(cfg, now, op, i, RenewStep(cfg, now, op, i, move).value.op)
  {
    hide Timeout, AfterNotReady;
    var w, op' := op.workers[i], RenewStep(cfg, now, op, i, move).value.op;
    assert Standing(cfg, now, w, op.row);
    NotReadyStands(cfg, now, w.op, op'.row, w.pc.effect);
    if move.Renewed? && op'.workers[i].pc.Ready? {
      DeadlineInsideLease(cfg, w.pc.startedAt, now, move.remaining);
      RenewStands(cfg, now, w.op, w.pc.effect, w.pc.startedAt, w.op.holder.value, op'.workers[i].pc.deadline);
    }
  }

  lemma AnswerStands(cfg: Config, now: nat, s: Row, r: Row, pc: Pc, reply: Reply)
    requires cfg.Valid() && (pc.Ready? || pc.Sent?) && PcStands(cfg, now, s, r, pc)
    ensures PcStands(cfg, now, s, r, AfterReply(pc.effect, reply, s)) && !AfterReply(pc.effect, reply, s).Reread?
    ensures PcStands(cfg, now, s, r, AfterNotSent(pc.effect, s)) && !AfterNotSent(pc.effect, s).Reread?
  {
    hide OwnsIdentity;
  }

  lemma EffectAlone(cfg: Config, now: nat, live: bool, op: Op, i: nat, move: Move)
    requires cfg.Valid() && Exclusive(cfg, now, op) && i < |op.workers|
    requires op.workers[i].pc.Ready? || op.workers[i].pc.Sent?
    requires EffectStep(cfg, now, live, op, i, move).Some?
    ensures MovedAlone(cfg, now, op, i, EffectStep(cfg, now, live, op, i, move).value.op)
  {
    hide AfterReply, AfterNotSent, AfterNotReady;
    var w := op.workers[i];
    assert Standing(cfg, now, w, op.row);
    NotReadyStands(cfg, now, w.op, op.row, w.pc.effect);
    AnswerStands(cfg, now, w.op, op.row, w.pc, if move.Answer? then move.reply else ReadFailed);
  }

  lemma FinishAlone(cfg: Config, now: nat, op: Op, i: nat, move: Move)
    requires Exclusive(cfg, now, op) && i < |op.workers|
    requires op.workers[i].pc.Activate? || op.workers[i].pc.Complete?
    requires FinishStep(now, op, i, move).Some?
    ensures MovedAlone(cfg, now, op, i, FinishStep(now, op, i, move).value.op)
  {
    assert Standing(cfg, now, op.workers[i], op.row);
  }

  lemma WorkerStepAlone(cfg: Config, now: nat, live: bool, op: Op, i: nat, move: Move)
    requires Excluding(cfg) && Exclusive(cfg, now, op) && i < |op.workers|
    requires WorkerStep(cfg, now, live, op, i, move).Some?
    ensures Exclusive(cfg, now, WorkerStep(cfg, now, live, op, i, move).value.op)
  {
    hide Exclusive, MovedAlone, WriteStep, RenewStep, EffectStep, FinishStep;
    match op.workers[i].pc {
      case At(_) => WriteAlone(cfg, now, op, i, move);
      case Reread(_, _, _) => ReadAlone(cfg, now, op, i, move);
      case Renew(_) => RenewAlone(cfg, now, op, i, move);
      case Renewing(_, _) => RenewAlone(cfg, now, op, i, move);
      case Ready(_, _) => EffectAlone(cfg, now, live, op, i, move);
      case Sent(_, _, _) => EffectAlone(cfg, now, live, op, i, move);
      case Activate(_) => FinishAlone(cfg, now, op, i, move);
      case Complete => FinishAlone(cfg, now, op, i, move);
    }
    MovedAloneKeeps(cfg, now, op, i, WorkerStep(cfg, now, live, op, i, move).value.op);
  }

  /** Whoever joins finds the lease free, so every earlier deadline and every guard has passed. */
  lemma JoinStands(cfg: Config, now: nat, w: Worker, r: Row, r': Row)
    requires Standing(cfg, now, w, r) && r.active && LeaseFree(r, now)
    requires Executable(r, cfg.staleAfter, now) || r.stage == ActiveManaged
    requires r'.revision == r.revision + 1 && (Settling(r.stage) ==> Settling(r'.stage))
    ensures Standing(cfg, now, w, r') && !Holding(w, r')
  {
  }

  lemma JoinAlone(cfg: Config, now: nat, op: Op, row: Row, pc: Pc)
    requires Exclusive(cfg, now, op) && op.row.active && LeaseFree(op.row, now)
    requires Executable(op.row, cfg.staleAfter, now) || op.row.stage == ActiveManaged
    requires row.revision == op.row.revision + 1 && (Settling(op.row.stage) ==> Settling(row.stage))
    requires Standing(cfg, now, Worker(row, pc), row)
    ensures Exclusive(cfg, now, Join(op, row, pc))
  {
    hide Standing, Holding, Executable;
    var op' := Join(op, row, pc);
    forall i | 0 <= i < |op.workers|
      ensures Standing(cfg, now, op'.workers[i], op'.row) && !Holding(op'.workers[i], op'.row)
    {
      assert Standing(cfg, now, op.workers[i], op.row);
      JoinStands(cfg, now, op.workers[i], op.row, row);
    }
  }

  lemma TimePassesAlone(cfg: Config, now: nat, later: nat, op: Op)
    requires Exclusive(cfg, now, op) && now <= later
    ensures Exclusive(cfg, later, op)
  {
    forall i | 0 <= i < |op.workers|
      ensures Standing(cfg, later, op.workers[i], op.row)
    {
      assert Standing(cfg, now, op.workers[i], op.row);
    }
  }

  // ------------------------------------------------------------- whole runs

  predicate AllExclusive(cfg: Config, w: World)
  {
    forall id | id in w.ops :: Exclusive(cfg, w.clock, w.ops[id])
  }

  lemma NextAlone(cfg: Config, w: World, e: Event)
    requires Excluding(cfg) && AllExclusive(cfg, w) && Next(cfg, w, e).Some?
    ensures AllExclusive(cfg, Next(cfg, w, e).value)
  {
    hide Excluding, Exclusive, WorkerStep;
    match e {
      case Tick(delay) =>
        forall id | id in w.ops
          ensures Exclusive(cfg, w.clock + delay, w.ops[id])
        {
          TimePassesAlone(cfg, w.clock, w.clock + delay, w.ops[id]);
        }
      case Provision(token, host, holder) => NewAlone(cfg, token, host, holder, w.clock);
      case Claim(id, holder) => ClaimAlone(cfg, w.clock, w.ops[id], holder);
      case Deprovision(id, holder) => DeprovisionAlone(cfg, w.clock, w.ops[id], holder);
      case Work(id, i, move) => WorkerStepAlone(cfg, w.clock, Live(w, id), w.ops[id], i, move);
      case Straggle(id) => StraggleAlone(cfg, w.clock, w.ops[id]);
    }
  }

  lemma NewAlone(cfg: Config, token: string, host: string, holder: Holder, now: nat)
    ensures Exclusive(cfg, now, NewOp(cfg, token, host, holder, now))
  {
  }

  lemma ClaimAlone(cfg: Config, now: nat, op: Op, holder: Holder)
    requires Exclusive(cfg, now, op) && ClaimStep(cfg, now, op, holder).Some?
    ensures Exclusive(cfg, now, ClaimStep(cfg, now, op, holder).value)
  {
    hide Exclusive, Executable, OwnsIdentity;
    var claimed := ClaimRow(op.row, FenceOf(op.row), holder, cfg.lease, now).value;
    JoinAlone(cfg, now, op, claimed, EnterReconcile(claimed));
  }

  lemma DeprovisionAlone(cfg: Config, now: nat, op: Op, holder: Holder)
    requires Exclusive(cfg, now, op) && DeprovisionStep(cfg, now, op, holder).Some?
    ensures Exclusive(cfg, now, DeprovisionStep(cfg, now, op, holder).value)
  {
    hide Exclusive, Executable, OwnsIdentity;
    var begun := BeginDeprovisionRow(op.row, holder, cfg.lease, now).value;
    JoinAlone(cfg, now, op, begun, EnterDeprovision(begun));
  }

  lemma StraggleAlone(cfg: Config, now: nat, op: Op)
    requires Exclusive(cfg, now, op)
    ensures Exclusive(cfg, now, op.(straggler := Nothing))
  {
  }

  lemma {:induction false} RunAlone(cfg: Config, events: seq<Event>)
    requires Excluding(cfg) && Run(cfg, events).Some?
    ensures AllExclusive(cfg, Run(cfg, events).value)
  {
    if events != [] {
      RunAlone(cfg, events[..|events| - 1]);
      NextAlone(cfg, Run(cfg, events[..|events| - 1]).value, events[|events| - 1]);
    }
  }

  /** At most one worker of each operation may act upstream. */
  predicate ActsAlone(w: World)
  {
    forall id, i, j | id in w.ops && 0 <= i < j < |w.ops[id].workers| ::
      !(MayAct(w.clock, w.ops[id].workers[i]) && MayAct(w.clock, w.ops[id].workers[j]))
  }

  /** In every run, at every instant. */
  lemma LeaseExcludes(cfg: Config, events: seq<Event>)
    requires Excluding(cfg) && Run(cfg, events).Some?
    ensures ActsAlone(Run(cfg, events).value)
  {
    RunAlone(cfg, events);
    var w := Run(cfg, events).value;
    forall id, i, j | id in w.ops && 0 <= i < j < |w.ops[id].workers|
      ensures !(MayAct(w.clock, w.ops[id].workers[i]) && MayAct(w.clock, w.ops[id].workers[j]))
    {
      var op := w.ops[id];
      assert Standing(cfg, w.clock, op.workers[i], op.row) && Standing(cfg, w.clock, op.workers[j], op.row);
      assert !(Holding(op.workers[i], op.row) && Holding(op.workers[j], op.row));
    }
  }

  /** Whoever may act stands on the stored row, in its statement's stage, under a valid lease. */
  lemma ActorsHoldTheLease(cfg: Config, events: seq<Event>, id: string, i: nat)
    requires Excluding(cfg) && Run(cfg, events).Some?
    requires var w := Run(cfg, events).value; id in w.ops && i < |w.ops[id].workers| && MayAct(w.clock, w.ops[id].workers[i])
    ensures var w := Run(cfg, events).value; var op := w.ops[id]; var worker := op.workers[i];
            && worker.op == op.row && op.row.active
            && op.row.stage == StageFor(worker.pc.effect)
            && LeaseValid(op.row, w.clock) && worker.pc.deadline < op.row.expires.value
  {
    RunAlone(cfg, events);
    var w := Run(cfg, events).value;
    assert Standing(cfg, w.clock, w.ops[id].workers[i], w.ops[id].row);
  }
}
