/**
 No upstream user is ever orphaned. The invariant ties each worker's program point to
 the stored row; every step of every worker keeps it, in any order and at any time.
 */
module SagaSafety {
  import opened SagaStore
  import opened SagaProgram
  import opened SagaWorld

  /**
   The two facts the protocol rests on: a statement has no effect once its call has
   returned, and nobody can claim an operation while its last writer may still be
   reading it back.
   */
  predicate Settled(cfg: Config)
  {
    && cfg.Valid()
    && !cfg.lateEffects
    && (cfg.returnsOwnWrite || cfg.cleanupTimeout <= cfg.staleAfter)
  }

  // ------------------------------------------------------------- invariant

  predicate CleaningUp(s: Stage)
  {
    s == CleanupRequired || s == CleanupInProgress || s == NotCreated
  }

  predicate Dropping(s: Stage)
  {
    s == DropStarted || s == DropUncertain
  }

  /** Stages that promise an upstream user. */
  predicate Promises(s: Stage)
  {
    s == UpstreamCreated || s == GrantStarted || PromisesGrants(s)
  }

  /** Stages that promise its grants as well. */
  predicate PromisesGrants(s: Stage)
  {
    s == ActivationPending || s == ActiveManaged || s == DeprovisionRequested
  }

  /** Once the grants are in place, an operation never goes back. */
  predicate Settling(s: Stage)
  {
    PromisesGrants(s) || Dropping(s)
  }

  /** Stages with a managed local account. */
  predicate Managed(s: Stage)
  {
    s == ActiveManaged || s == DeprovisionRequested || Dropping(s)
  }

  /** A row handed out earlier: older than the stored one, or equal to it. */
  predicate Snapshot(s: Row, r: Row)
  {
    && s.id == r.id && s.username == r.username && s.host == r.host
    && s.revision <= r.revision
    && (s.revision == r.revision ==> s.stage == r.stage)
    && (s.revision == r.revision && r.active ==> s == r)
    && (CleaningUp(s.stage) ==> CleaningUp(r.stage))
    && (Dropping(s.stage) ==> Dropping(r.stage))
    && (Settling(s.stage) ==> Settling(r.stage))
  }

  predicate RowOk(live: bool, r: Row, account: bool, granted: bool, creates: nat)
  {
    && OwnsIdentity(r)
    && creates <= 1
    && (creates == 0 ==> !live)
    && (r.stage == Reserved ==> creates == 0)
    && (r.stage == NotCreated ==> !live)
    && (!r.active ==> !live && Dropping(r.stage))
    && (Promises(r.stage) ==> live)
    && (PromisesGrants(r.stage) ==> granted)
    && (account <==> Managed(r.stage) && r.active)
    && (r.stage == DropStarted ==> r.cleanup == InProgress)
    && (r.stage == ActivationPending || r.stage == ActiveManaged ==> r.cleanup == NoCleanup)
  }

  /** The points only the request that created the operation can reach. */
  predicate CreatorOnly(pc: Pc)
  {
    match pc
    case At(site) => site in {BeginCreate, DiscardReserved, DiscardNotCreated, MarkCreated, MarkUncertain}
    case Reread(site, _, _) => site in {BeginCreate, DiscardReserved, DiscardNotCreated, MarkCreated, MarkUncertain}
    case Renew(e) => e == CreateUser
    case Renewing(e, _) => e == CreateUser
    case Ready(e, _) => e == CreateUser
    case Sent(e, _, _) => e == CreateUser
    case _ => false
  }

  /** While CREATE USER may run, its sender's lease outlasts it and nobody else has joined. */
  predicate Window(now: nat, r: Row, crowd: nat, s: Row, deadline: nat)
  {
    || deadline <= now
    || (r == s && crowd == 1 && s.expires.Some? && deadline < s.expires.value)
  }

  predicate DropStage(e: Effect, s: Stage)
  {
    match e
    case CleanupDrop(_) => CleaningUp(s)
    case ReconcileDrop => CleaningUp(s)
    case ManagedDrop => Dropping(s)
    case _ => true
  }

  /** `crowd` workers have ever held the operation. */
  predicate PcOk(cfg: Config, now: nat, live: bool, r: Row, crowd: nat, creates: nat, granted: bool, w: Worker)
  {
    var s := w.op;
    match w.pc
    case At(site) =>
      (match site
       case BeginCreate => s.stage == Reserved && creates == 0 && (r.revision == s.revision ==> crowd == 1)
       case DiscardReserved => s.stage == Reserved && creates == 0
       case ReserveFinish => s.stage == Reserved
       case DiscardNotCreated => !live
       case MarkCreated => s.stage == CreateStarted && (r.revision == s.revision ==> live)
       case MarkPending => granted
       case ReleaseActivation => Settling(s.stage)
       case CleanupFinish(_) => !live
       case ReconcileFinish => !live
       case _ => true)
    case Reread(site, written, until) =>
      && written <= r.revision
      && (site.BeginCreate? ==>
            && creates == 0
            && (written == r.revision ==>
                  && r.active && r.stage == CreateStarted && crowd == 1
                  && r.lastAttempt.Some? && until <= r.lastAttempt.value + cfg.cleanupTimeout)
            && (written < r.revision ==> cfg.returnsOwnWrite || until <= now))
      && ((site.CleanupBegin? || site.ReconcileBegin?) ==> CleaningUp(r.stage))
      && (site.DropBegin? ==> Dropping(r.stage))
      && (site.MarkPending? ==> Settling(r.stage))
    case Renew(e) =>
      && DropStage(e, s.stage)
      && (e.CreateUser? ==> s.stage == CreateStarted && creates == 0 && (r.revision == s.revision ==> crowd == 1))
    case Renewing(e, start) =>
      && start <= now
      && DropStage(e, s.stage)
      && (e.CreateUser? ==> s.stage == CreateStarted && creates == 0 && (r.revision == s.revision ==> crowd == 1))
    case Ready(e, deadline) =>
      && DropStage(e, s.stage)
      && (e.CreateUser? ==> s.stage == CreateStarted && creates == 0 && Window(now, r, crowd, s, deadline))
    case Sent(e, deadline, applied) =>
      && DropStage(e, s.stage)
      && (IsDrop(e) && applied ==> !live)
      && (e.CreateUser? ==>
            && s.stage == CreateStarted && creates == 1 && Window(now, r, crowd, s, deadline)
            && (!applied ==> !live)
            && (applied && r.revision == s.revision ==> live))
    case Activate(_) => Settling(s.stage)
    case Complete => !live
    case Done => true
  }

  predicate WorkerOk(cfg: Config, now: nat, live: bool, op: Op, i: nat)
    requires i < |op.workers|
  {
    var w := op.workers[i];
    w.pc == Done ||
    (&& Snapshot(w.op, op.row)
     && (i > 0 ==> !CreatorOnly(w.pc))
     && PcOk(cfg, now, live, op.row, |op.workers|, op.creates, op.granted, w))
  }

  predicate OpInv(cfg: Config, now: nat, live: bool, op: Op)
  {
    && |op.workers| >= 1
    && op.straggler.Nothing?
    && RowOk(live, op.row, op.account, op.granted, op.creates)
    && forall i | 0 <= i < |op.workers| :: WorkerOk(cfg, now, live, op, i)
  }

  // -------------------------------------------- what a step leaves to others

  /** How the row may move on. */
  predicate Follows(r: Row, r': Row)
  {
    && r'.id == r.id && r'.username == r.username && r'.host == r.host
    && (r' == r || (r.active && r'.revision == r.revision + 1)
        || (r.active && !r'.active && r'.revision == r.revision && r'.stage == r.stage))
    && (CleaningUp(r.stage) ==> CleaningUp(r'.stage))
    && (Dropping(r.stage) ==> Dropping(r'.stage))
    && (Settling(r.stage) ==> Settling(r'.stage))
  }

  lemma IdentityFollows(r: Row, r': Row)
    requires OwnsIdentity(r) && r'.id == r.id && r'.username == r.username
    ensures OwnsIdentity(r')
  {
  }

  lemma SnapshotFollows(s: Row, r: Row, r': Row)
    requires Snapshot(s, r) && Follows(r, r')
    ensures Snapshot(s, r')
  {
  }

  /** Another worker's step: with two workers about, no CREATE USER is open. */
  lemma OthersKeep(cfg: Config, now: nat, live: bool, op: Op, live': bool, op': Op, j: nat)
    requires j < |op.workers| == |op'.workers| && |op.workers| >= 2
    requires WorkerOk(cfg, now, live, op, j) && op'.workers[j] == op.workers[j]
    requires Follows(op.row, op'.row)
    requires op'.row == op.row || op'.row.revision == op.row.revision + 1 || op.row.stage != CreateStarted
    requires live' ==> live
    requires live && !live' ==> CleaningUp(op.row.stage) || Dropping(op.row.stage)
    requires op'.creates == op.creates || j > 0
    requires op.granted ==> op'.granted
    ensures WorkerOk(cfg, now, live', op', j)
  {
    if op.workers[j].pc != Done {
      SnapshotFollows(op.workers[j].op, op.row, op'.row);
    }
  }

  /** A claim: the lease has run out, and with it every deadline set under it. */
  lemma JoinKeeps(cfg: Config, now: nat, live: bool, op: Op, op': Op, j: nat)
    requires Settled(cfg) && j < |op.workers|
    requires WorkerOk(cfg, now, live, op, j)
    requires op.row.active && LeaseFree(op.row, now)
    requires op.row.stage == CreateStarted ==> Executable(op.row, cfg.staleAfter, now)
    requires Follows(op.row, op'.row) && op'.row.revision == op.row.revision + 1
    requires |op'.workers| == |op.workers| + 1 && op'.workers[j] == op.workers[j]
    requires op'.creates == op.creates && op'.granted == op.granted
    ensures WorkerOk(cfg, now, live, op', j)
  {
    if op.workers[j].pc != Done {
      SnapshotFollows(op.workers[j].op, op.row, op'.row);
    }
  }

  /** The invariant holds on while time passes. */
  lemma TimePasses(cfg: Config, now: nat, later: nat, live: bool, op: Op)
    requires OpInv(cfg, now, live, op) && now <= later
    ensures OpInv(cfg, later, live, op)
  {
    forall i | 0 <= i < |op.workers|
      ensures WorkerOk(cfg, later, live, op, i)
    {
      assert WorkerOk(cfg, now, live, op, i);
    }
  }

  lemma NewOpOk(cfg: Config, token: string, host: string, holder: Holder, now: nat)
    requires |token| == TOKEN_LENGTH
    ensures OpInv(cfg, now, false, NewOp(cfg, token, host, holder, now))
  {
    var row := NewRow(cfg, token, host, holder, now);
    assert row.id[..4] == OPERATION_PREFIX && row.id[4..] == token;
  }

  lemma EnteredPc(cfg: Config, now: nat, live: bool, r: Row, crowd: nat, creates: nat, granted: bool)
    ensures PcOk(cfg, now, live, r, crowd, creates, granted, Worker(r, EnterReconcile(r))) && !CreatorOnly(EnterReconcile(r))
    ensures r.stage == DeprovisionRequested ==>
              PcOk(cfg, now, live, r, crowd, creates, granted, Worker(r, EnterDeprovision(r))) && !CreatorOnly(EnterDeprovision(r))
  {
    hide OwnsIdentity;
  }

  lemma ClaimOk(cfg: Config, now: nat, live: bool, op: Op, holder: Holder)
    requires Settled(cfg) && OpInv(cfg, now, live, op)
    requires ClaimStep(cfg, now, op, holder).Some?
    ensures OpInv(cfg, now, live, ClaimStep(cfg, now, op, holder).value)
  {
    hide RowOk, PcOk, CreatorOnly, EnterReconcile, Settled;
    var op' := ClaimStep(cfg, now, op, holder).value;
    LeasedOk(live, op, holder, cfg.lease, now);
    forall j | 0 <= j < |op.workers|
      ensures WorkerOk(cfg, now, live, op', j)
    {
      assert WorkerOk(cfg, now, live, op, j);
      JoinKeeps(cfg, now, live, op, op', j);
    }
    EnteredPc(cfg, now, live, op'.row, |op'.workers|, op'.creates, op'.granted);
  }

  lemma DeprovisionOk(cfg: Config, now: nat, live: bool, op: Op, holder: Holder)
    requires Settled(cfg) && OpInv(cfg, now, live, op)
    requires DeprovisionStep(cfg, now, op, holder).Some?
    ensures OpInv(cfg, now, live, DeprovisionStep(cfg, now, op, holder).value)
  {
    var op' := DeprovisionStep(cfg, now, op, holder).value;
    forall j | 0 <= j < |op.workers|
      ensures WorkerOk(cfg, now, live, op', j)
    {
      assert WorkerOk(cfg, now, live, op, j);
      JoinKeeps(cfg, now, live, op, op', j);
    }
  }

  // ------------------------------------------------------------ worker steps

  function LiveAfter(live: bool, s: Statement): bool
  {
    match s
    case NoStatement => live
    case CreateStatement => true
    case DropStatement => false
  }

  /** What has to be shown of the worker that moved, and of the row. */
  predicate MovedOk(cfg: Config, now: nat, live: bool, op: Op, i: nat, m: Moved)
    requires i < |op.workers|
  {
    var live' := LiveAfter(live, m.statement);
    && |m.op.workers| == |op.workers|
    && m.op.straggler.Nothing?
    && RowOk(live', m.op.row, m.op.account, m.op.granted, m.op.creates)
    && WorkerOk(cfg, now, live', m.op, i)
    && m.op.workers == op.workers[i := m.op.workers[i]]
    && Follows(op.row, m.op.row)
    && (m.op.row == op.row || m.op.row.revision == op.row.revision + 1 || op.row.stage != CreateStarted)
    && (live' && !live ==> |op.workers| == 1)
    && (live && !live' ==> CleaningUp(op.row.stage) || Dropping(op.row.stage))
    && (m.op.creates == op.creates || i == 0)
    && (op.granted ==> m.op.granted)
  }

  lemma MovedKeeps(cfg: Config, now: nat, live: bool, op: Op, i: nat, m: Moved)
    requires OpInv(cfg, now, live, op) && i < |op.workers|
    requires MovedOk(cfg, now, live, op, i, m)
    ensures OpInv(cfg, now, LiveAfter(live, m.statement), m.op)
  {
    var live' := LiveAfter(live, m.statement);
    forall j | 0 <= j < |op.workers|
      ensures WorkerOk(cfg, now, live', m.op, j)
    {
      assert WorkerOk(cfg, now, live, op, j);
      if j != i {
        OthersKeep(cfg, now, live, op, live', m.op, j);
      }
    }
  }

  // Each kind of step: first what it means for the program point, then for the operation.

  /** Points that ask for nothing. */
  predicate Idle(pc: Pc)
  {
    pc == Done || (pc.At? && (pc.site in {CleanupFail, DropDefer, DeferGrant} || pc.site.CleanupRequire?))
  }

  lemma IdleOk(cfg: Config, now: nat, live: bool, r: Row, crowd: nat, creates: nat, granted: bool, w: Worker)
    requires Idle(w.pc)
    ensures PcOk(cfg, now, live, r, crowd, creates, granted, w) && !CreatorOnly(w.pc)
  {
  }

  /** A write goes through only if the worker's row is the stored one. */
  lemma WriteKeepsRow(cfg: Config, now: nat, live: bool, op: Op, i: nat)
    requires Settled(cfg) && OpInv(cfg, now, live, op) && i < |op.workers|
    requires op.workers[i].pc.At?
    requires WriteStep(cfg, now, op, i, Write).Some?
    ensures var m := WriteStep(cfg, now, op, i, Write).value;
            && m.op.row.revision == op.row.revision + 1
            && RowOk(live, m.op.row, m.op.account, m.op.granted, m.op.creates) && Follows(op.row, m.op.row)
                && op.workers[i].op == op.row
  {
    hide OwnsIdentity, CreatorOnly;
    assert WorkerOk(cfg, now, live, op, i);
    var m := WriteStep(cfg, now, op, i, Write).value;
    IdentityFollows(op.row, m.op.row);
  }

  lemma WriteOk(cfg: Config, now: nat, live: bool, op: Op, i: nat)
    requires Settled(cfg) && OpInv(cfg, now, live, op) && i < |op.workers|
    requires op.workers[i].pc.At?
    requires WriteStep(cfg, now, op, i, Write).Some?
    ensures MovedOk(cfg, now, live, op, i, WriteStep(cfg, now, op, i, Write).value)
  {
    hide OwnsIdentity, RowOk;
    WriteKeepsRow(cfg, now, live, op, i);
    assert WorkerOk(cfg, now, live, op, i);
  }

  lemma DivertPc(cfg: Config, now: nat, live: bool, r: Row, crowd: nat, creates: nat, granted: bool, s: Row)
    requires PcOk(cfg, now, live, r, crowd, creates, granted, Worker(s, At(BeginCreate)))
    ensures PcOk(cfg, now, live, r, crowd, creates, granted, Worker(s, At(DiscardReserved))) && CreatorOnly(At(BeginCreate))
  {
  }

  lemma AtElseOk(cfg: Config, now: nat, live: bool, op: Op, i: nat, move: Move)
    requires OpInv(cfg, now, live, op) && i < |op.workers|
    requires op.workers[i].pc.At? && move != Write
    requires WriteStep(cfg, now, op, i, move).Some?
    ensures MovedOk(cfg, now, live, op, i, WriteStep(cfg, now, op, i, move).value)
  {
    hide RowOk, PcOk, CreatorOnly, OwnsIdentity, AfterFail;
    var w, w' := op.workers[i], WriteStep(cfg, now, op, i, move).value.op.workers[i];
    assert WorkerOk(cfg, now, live, op, i);
    FailedWriteStops(w.pc.site);
    if w'.pc == At(DiscardReserved) {
      DivertPc(cfg, now, live, op.row, |op.workers|, op.creates, op.granted, w.op);
    } else {
      IdleOk(cfg, now, live, op.row, |op.workers|, op.creates, op.granted, w');
    }
  }

  /** What the worker reads back is a row it may go on from. */
  lemma ReadBackPc(cfg: Config, now: nat, live: bool, r: Row, crowd: nat, creates: nat, granted: bool, w: Worker)
    requires Settled(cfg) && w.pc.Reread? && PcOk(cfg, now, live, r, crowd, creates, granted, w)
    requires now < w.pc.until && (cfg.returnsOwnWrite ==> r.revision == w.pc.written)
    ensures PcOk(cfg, now, live, r, crowd, creates, granted, Worker(r, AfterOk(w.pc.site, r)))
    ensures CreatorOnly(AfterOk(w.pc.site, r)) ==> CreatorOnly(w.pc)
  {
    hide OwnsIdentity;
  }

  lemma RereadOk(cfg: Config, now: nat, live: bool, op: Op, i: nat, move: Move)
    requires Settled(cfg) && OpInv(cfg, now, live, op) && i < |op.workers|
    requires op.workers[i].pc.Reread?
    requires WriteStep(cfg, now, op, i, move).Some?
    ensures MovedOk(cfg, now, live, op, i, WriteStep(cfg, now, op, i, move).value)
  {
    hide RowOk, PcOk, CreatorOnly, OwnsIdentity, AfterFail, AfterOk, Settled;
    var w, w' := op.workers[i], WriteStep(cfg, now, op, i, move).value.op.workers[i];
    assert WorkerOk(cfg, now, live, op, i);
    if move.ReadBack? {
      ReadBackPc(cfg, now, live, op.row, |op.workers|, op.creates, op.granted, w);
    } else {
      FailedWriteStops(w.pc.site);
      IdleOk(cfg, now, live, op.row, |op.workers|, op.creates, op.granted, w');
    }
  }

  /** The deadline is counted from before the renewal, so it falls inside the renewed lease. */
  lemma DeadlineInsideLease(cfg: Config, start: nat, now: nat, remaining: nat)
    requires start <= now && remaining <= cfg.lease && Timeout(cfg, remaining).Some?
    ensures start + Timeout(cfg, remaining).value < now + cfg.lease
  {
  }

  /** Leasing changes nothing that the row promises. */
  lemma LeasedOk(live: bool, op: Op, h: Holder, duration: nat, now: nat)
    requires RowOk(live, op.row, op.account, op.granted, op.creates) && op.row.active
    ensures RowOk(live, Leased(op.row, h, duration, now), op.account, op.granted, op.creates)
    ensures Follows(op.row, Leased(op.row, h, duration, now))
  {
    IdentityFollows(op.row, Leased(op.row, h, duration, now));
  }

  lemma StartRenewPc(cfg: Config, now: nat, live: bool, r: Row, crowd: nat, creates: nat, granted: bool, s: Row, e: Effect)
    requires PcOk(cfg, now, live, r, crowd, creates, granted, Worker(s, Renew(e)))
    ensures PcOk(cfg, now, live, r, crowd, creates, granted, Worker(s, Renewing(e, now)))
    ensures CreatorOnly(Renewing(e, now)) ==> CreatorOnly(Renew(e))
    ensures Idle(AfterNotReady(e))
  {
  }

  lemma StartRenewOk(cfg: Config, now: nat, live: bool, op: Op, i: nat, move: Move)
    requires OpInv(cfg, now, live, op) && i < |op.workers|
    requires op.workers[i].pc.Renew?
    requires RenewStep(cfg, now, op, i, move).Some?
    ensures MovedOk(cfg, now, live, op, i, RenewStep(cfg, now, op, i, move).value)
  {
    hide RowOk, PcOk, CreatorOnly, OwnsIdentity, AfterNotReady;
    var w, w' := op.workers[i], RenewStep(cfg, now, op, i, move).value.op.workers[i];
    assert WorkerOk(cfg, now, live, op, i);
    StartRenewPc(cfg, now, live, op.row, |op.workers|, op.creates, op.granted, w.op, w.pc.effect);
    if w'.pc == AfterNotReady(w.pc.effect) {
      IdleOk(cfg, now, live, op.row, |op.workers|, op.creates, op.granted, w');
    }
  }

  lemma RenewedPc(cfg: Config, now: nat, live: bool, r: Row, crowd: nat, creates: nat, granted: bool, w: Worker,
      h: Holder, deadline: nat)
    requires w.pc.Renewing? && PcOk(cfg, now, live, r, crowd, creates, granted, w) && w.op == r
    requires deadline < now + cfg.lease
    ensures var r' := Leased(r, h, cfg.lease, now);
            PcOk(cfg, now, live, r', crowd, creates, granted, Worker(r', Ready(w.pc.effect, deadline)))
    ensures CreatorOnly(Ready(w.pc.effect, deadline)) ==> CreatorOnly(w.pc)
  {
  }

  lemma LateIsIdle(e: Effect)
    ensures Idle(AfterNotReady(e)) && !AfterNotReady(e).Ready?
  {
  }

  lemma StartedBefore(cfg: Config, now: nat, live: bool, r: Row, crowd: nat, creates: nat, granted: bool, w: Worker)
    requires w.pc.Renewing? && PcOk(cfg, now, live, r, crowd, creates, granted, w)
    ensures w.pc.startedAt <= now
  {
  }

  /** A renewal: only the lease and the revision change, and the worker holds the new row or stands aside. */
  lemma RenewedOk(cfg: Config, now: nat, live: bool, op: Op, i: nat, move: Move)
    requires OpInv(cfg, now, live, op) && i < |op.workers|
    requires op.workers[i].pc.Renewing?
    requires RenewStep(cfg, now, op, i, move).Some?
    ensures MovedOk(cfg, now, live, op, i, RenewStep(cfg, now, op, i, move).value)
  {
    hide RowOk, PcOk, CreatorOnly, OwnsIdentity, AfterNotReady, Timeout, Idle;
    var w, m := op.workers[i], RenewStep(cfg, now, op, i, move).value;
    var w' := m.op.workers[i];
    assert WorkerOk(cfg, now, live, op, i);
    LateIsIdle(w.pc.effect);
    if move.Renewed? || move.RenewedUnseen? {
      LeasedOk(live, op, w.op.holder.value, cfg.lease, now);
    }
    if w'.pc == AfterNotReady(w.pc.effect) {
      IdleOk(cfg, now, live, m.op.row, |op.workers|, op.creates, op.granted, w');
    } else {
      StartedBefore(cfg, now, live, op.row, |op.workers|, op.creates, op.granted, w);
      DeadlineInsideLease(cfg, w.pc.startedAt, now, move.remaining);
      RenewedPc(cfg, now, live, op.row, |op.workers|, op.creates, op.granted, w, w.op.holder.value, w'.pc.deadline);
    }
  }

  /** Sending CREATE USER: the window is open, so the row is the sender's. */
  lemma SendOk(cfg: Config, now: nat, live: bool, op: Op, i: nat)
    requires OpInv(cfg, now, live, op) && i < |op.workers|
    requires op.workers[i].pc.Ready?
    requires EffectStep(cfg, now, live, op, i, Send).Some?
    ensures MovedOk(cfg, now, live, op, i, EffectStep(cfg, now, live, op, i, Send).value)
  {
    hide OwnsIdentity, AfterNotSent, AfterNotReady, AfterReply;
    assert WorkerOk(cfg, now, live, op, i);
  }

  lemma NotSentPc(cfg: Config, now: nat, live: bool, r: Row, crowd: nat, creates: nat, granted: bool, w: Worker)
    requires w.pc.Ready? && PcOk(cfg, now, live, r, crowd, creates, granted, w) && (creates == 0 ==> !live)
    ensures PcOk(cfg, now, live, r, crowd, creates, granted, Worker(w.op, AfterNotSent(w.pc.effect, w.op)))
    ensures CreatorOnly(AfterNotSent(w.pc.effect, w.op)) ==> CreatorOnly(w.pc)
  {
    hide OwnsIdentity;
  }

  lemma NotSentOk(cfg: Config, now: nat, live: bool, op: Op, i: nat, move: Move)
    requires OpInv(cfg, now, live, op) && i < |op.workers|
    requires op.workers[i].pc.Ready? && move != Send
    requires EffectStep(cfg, now, live, op, i, move).Some?
    ensures MovedOk(cfg, now, live, op, i, EffectStep(cfg, now, live, op, i, move).value)
  {
    hide OwnsIdentity, PcOk, CreatorOnly, AfterNotSent, AfterNotReady, Idle;
    var w := op.workers[i];
    assert WorkerOk(cfg, now, live, op, i);
    if move.GiveUp? {
      NotSentPc(cfg, now, live, op.row, |op.workers|, op.creates, op.granted, w);
    } else {
      LateIsIdle(w.pc.effect);
      IdleOk(cfg, now, live, op.row, |op.workers|, op.creates, op.granted, Worker(w.op, AfterNotReady(w.pc.effect)));
    }
  }

  lemma ApplyOk(cfg: Config, now: nat, live: bool, op: Op, i: nat)
    requires OpInv(cfg, now, live, op) && i < |op.workers|
    requires op.workers[i].pc.Sent?
    requires EffectStep(cfg, now, live, op, i, Apply).Some?
    ensures MovedOk(cfg, now, live, op, i, EffectStep(cfg, now, live, op, i, Apply).value)
  {
    hide OwnsIdentity, AfterReply;
    assert WorkerOk(cfg, now, live, op, i);
  }

  /** An honest answer sends the worker to a point whose claim is true. */
  lemma AnswerPc(cfg: Config, now: nat, live: bool, r: Row, crowd: nat, creates: nat, granted: bool, w: Worker, reply: Reply)
    requires w.pc.Sent? && PcOk(cfg, now, live, r, crowd, creates, granted, w)
    requires Honest(reply, w.pc.applied)
    ensures PcOk(cfg, now, live, r, crowd, creates, granted
        || (w.pc.effect.GrantUser? && reply == Packet(0)), Worker(w.op, AfterReply(w.pc.effect, reply, w.op)))
    ensures CreatorOnly(AfterReply(w.pc.effect, reply, w.op)) ==> CreatorOnly(w.pc)
  {
    hide OwnsIdentity;
  }

  lemma AnswerOk(cfg: Config, now: nat, live: bool, op: Op, i: nat, reply: Reply)
    requires !cfg.lateEffects && OpInv(cfg, now, live, op) && i < |op.workers|
    requires op.workers[i].pc.Sent?
    requires EffectStep(cfg, now, live, op, i, Answer(reply)).Some?
    ensures MovedOk(cfg, now, live, op, i, EffectStep(cfg, now, live, op, i, Answer(reply)).value)
  {
    hide OwnsIdentity, PcOk, CreatorOnly, AfterReply;
    assert WorkerOk(cfg, now, live, op, i);
    AnswerPc(cfg, now, live, op.row, |op.workers|, op.creates, op.granted, op.workers[i], reply);
  }

  lemma ActivatedRow(live: bool, op: Op, f: Fence, now: nat)
    requires RowOk(live, op.row, op.account, op.granted, op.creates) && ActivateRow(op.row, f, now).Some?
    ensures RowOk(live, ActivateRow(op.row, f, now).value, true, op.granted, op.creates)
    ensures Follows(op.row, ActivateRow(op.row, f, now).value)
  {
    IdentityFollows(op.row, ActivateRow(op.row, f, now).value);
  }

  lemma AgainPc(cfg: Config, now: nat, live: bool, r: Row, r': Row, crowd: nat, creates: nat, granted: bool, w: Worker, pc: Pc)
    requires w.pc.Activate? && PcOk(cfg, now, live, r, crowd, creates, granted, w)
    requires pc.Activate? || pc == At(ReleaseActivation)
    ensures PcOk(cfg, now, live, r', crowd, creates, granted, Worker(w.op, pc)) && !CreatorOnly(pc)
  {
  }

  lemma ActivateOk(cfg: Config, now: nat, live: bool, op: Op, i: nat, move: Move)
    requires OpInv(cfg, now, live, op) && i < |op.workers|
    requires op.workers[i].pc.Activate?
    requires FinishStep(now, op, i, move).Some?
    ensures MovedOk(cfg, now, live, op, i, FinishStep(now, op, i, move).value)
  {
    hide RowOk, PcOk, CreatorOnly;
    var w, m := op.workers[i], FinishStep(now, op, i, move).value;
    assert WorkerOk(cfg, now, live, op, i);
    if !move.ActivateFails? {
      ActivatedRow(live, op, FenceOf(w.op), now);
    }
    if m.op.workers[i].pc != Done {
      AgainPc(cfg, now, live, op.row, m.op.row, |op.workers|, op.creates, op.granted, w, m.op.workers[i].pc);
    }
  }

  lemma CompletedRow(live: bool, op: Op, f: Fence, now: nat)
    requires RowOk(live, op.row, op.account, op.granted, op.creates) && CompleteDeprovisionRow(op.row, f, now).Some? && !live
    ensures RowOk(live, CompleteDeprovisionRow(op.row, f, now).value, false, op.granted, op.creates)
    ensures Follows(op.row, CompleteDeprovisionRow(op.row, f, now).value)
    ensures op.row.stage != CreateStarted
  {
    IdentityFollows(op.row, CompleteDeprovisionRow(op.row, f, now).value);
  }

  lemma CompletePc(cfg: Config, now: nat, live: bool, r: Row, crowd: nat, creates: nat, granted: bool, w: Worker)
    requires w.pc.Complete? && PcOk(cfg, now, live, r, crowd, creates, granted, w)
    ensures !live
  {
  }

  lemma CompleteOk(cfg: Config, now: nat, live: bool, op: Op, i: nat, move: Move)
    requires OpInv(cfg, now, live, op) && i < |op.workers|
    requires op.workers[i].pc.Complete?
    requires FinishStep(now, op, i, move).Some?
    ensures MovedOk(cfg, now, live, op, i, FinishStep(now, op, i, move).value)
  {
    hide RowOk, PcOk, CreatorOnly;
    var w, m := op.workers[i], FinishStep(now, op, i, move).value;
    assert WorkerOk(cfg, now, live, op, i);
    CompletePc(cfg, now, live, op.row, |op.workers|, op.creates, op.granted, w);
    if !move.CompleteFails? {
      CompletedRow(live, op, FenceOf(w.op), now);
    }
    IdleOk(cfg, now, live, m.op.row, |op.workers|, op.creates, op.granted, m.op.workers[i]);
  }

  /** Every step of every worker keeps the invariant of its operation. */
  lemma WorkerStepKeeps(cfg: Config, now: nat, live: bool, op: Op, i: nat, move: Move)
    requires Settled(cfg) && OpInv(cfg, now, live, op) && i < |op.workers|
    requires WorkerStep(cfg, now, live, op, i, move).Some?
    ensures var m := WorkerStep(cfg, now, live, op, i, move).value;
            OpInv(cfg, now, LiveAfter(live, m.statement), m.op) && Follows(op.row, m.op.row)
  {
    hide OpInv, MovedOk, WriteStep, RenewStep, EffectStep, FinishStep;
    var m := WorkerStep(cfg, now, live, op, i, move).value;
    match op.workers[i].pc {
      case At(_) => if move.Write? { WriteOk(cfg, now, live, op, i); } else { AtElseOk(cfg, now, live, op, i, move); }
      case Reread(_, _, _) => RereadOk(cfg, now, live, op, i, move);
      case Renew(_) => StartRenewOk(cfg, now, live, op, i, move);
      case Renewing(_, _) =>
        RenewedOk(cfg, now, live, op, i, move);
      case Ready(_, _) => if move.Send? { SendOk(cfg, now, live, op, i); } else { NotSentOk(cfg, now, live, op, i, move); }
      case Sent(_, _, _) =>
        SentMoves(cfg, now, live, op, i, move);
        if move.Apply? { ApplyOk(cfg, now, live, op, i); } else { AnswerOk(cfg, now, live, op, i, move.reply); }
      case Activate(_) => ActivateOk(cfg, now, live, op, i, move);
      case Complete => CompleteOk(cfg, now, live, op, i, move);
    }
    MovedFollows(cfg, now, live, op, i, m);
    MovedKeeps(cfg, now, live, op, i, m);
  }

  lemma SentMoves(cfg: Config, now: nat, live: bool, op: Op, i: nat, move: Move)
    requires i < |op.workers| && op.workers[i].pc.Sent?
    requires EffectStep(cfg, now, live, op, i, move).Some?
    ensures move.Apply? || move.Answer?
  {
  }

  lemma MovedFollows(cfg: Config, now: nat, live: bool, op: Op, i: nat, m: Moved)
    requires i < |op.workers| && MovedOk(cfg, now, live, op, i, m)
    ensures Follows(op.row, m.op.row)
  {
  }

  /** Only a statement that was sent has an effect, and only before its deadline. */
  lemma OnlySentActs(cfg: Config, now: nat, live: bool, op: Op, i: nat, move: Move)
    requires i < |op.workers| && WorkerStep(cfg, now, live, op, i, move).Some?
    ensures op.workers[i].pc != Done
    ensures WorkerStep(cfg, now, live, op, i, move).value.statement != NoStatement ==>
              op.workers[i].pc.Sent? && now < op.workers[i].pc.deadline
    ensures WorkerStep(cfg, now, live, op, i, move).value.statement == DropStatement ==> IsDrop(op.workers[i].pc.effect)
    ensures WorkerStep(cfg, now, live, op, i, move).value.statement == CreateStatement ==> op.workers[i].pc.effect == CreateUser
  {
    hide AfterReply, AfterNotSent, AfterNotReady, AfterOk, AfterFail, Timeout, ChangeAt, Transition, RenewRow;
  }

  /** A statement is aimed at the operation's own user. */
  lemma StatementsAreOwn(cfg: Config, now: nat, live: bool, op: Op, i: nat, move: Move)
    requires OpInv(cfg, now, live, op) && i < |op.workers|
    requires WorkerStep(cfg, now, live, op, i, move).Some?
    ensures AccountOf(op.workers[i].op) == AccountOf(op.row)
    ensures WorkerStep(cfg, now, live, op, i, move).value.statement == DropStatement ==>
              CleaningUp(op.row.stage) || Dropping(op.row.stage)
    ensures WorkerStep(cfg, now, live, op, i, move).value.statement == CreateStatement ==>
              op.row.stage == CreateStarted && op.creates == 1 && |op.workers| == 1
  {
    hide WorkerStep, RowOk, CreatorOnly;
    assert WorkerOk(cfg, now, live, op, i);
    OnlySentActs(cfg, now, live, op, i, move);
  }

  // ------------------------------------------------------------- whole runs

  predicate Owned(w: World, a: Account)
  {
    exists id | id in w.ops :: AccountOf(w.ops[id].row) == a
  }

  predicate WorldInv(cfg: Config, w: World)
  {
    && (forall id | id in w.ops :: w.ops[id].row.id == id && OpInv(cfg, w.clock, Live(w, id), w.ops[id]))
    && (forall a | a in w.upstream :: Owned(w, a))
  }

  /** An operation's step does not touch the user of any other. */
  lemma OtherUsers(cfg: Config, w: World, id: string, other: string)
    requires WorldInv(cfg, w) && id in w.ops && other in w.ops && id != other
    ensures AccountOf(w.ops[id].row) != AccountOf(w.ops[other].row)
  {
    if w.ops[id].row.username == w.ops[other].row.username {
      IdentityIsInjective(w.ops[id].row, w.ops[other].row);
    }
  }

  /** Replacing one operation, and its user's existence, keeps the invariant of the world. */
  lemma ReplaceKeeps(cfg: Config, w: World, id: string, op: Op, statement: Statement)
    requires WorldInv(cfg, w) && id in w.ops
    requires AccountOf(op.row) == AccountOf(w.ops[id].row) && op.row.id == id
    requires OpInv(cfg, w.clock, LiveAfter(Live(w, id), statement), op)
    ensures WorldInv(cfg, w.(ops := w.ops[id := op], upstream := Applied(w.upstream, AccountOf(op.row), statement)))
  {
    hide OpInv;
    var w' := w.(ops := w.ops[id := op], upstream := Applied(w.upstream, AccountOf(op.row), statement));
    forall other | other in w'.ops
      ensures w'.ops[other].row.id == other && OpInv(cfg, w'.clock, Live(w', other), w'.ops[other])
    {
      if other != id {
        OtherUsers(cfg, w, id, other);
      }
    }
    forall a | a in w'.upstream
      ensures Owned(w', a)
    {
      if a == AccountOf(op.row) {
        assert AccountOf(w'.ops[id].row) == a;
      } else {
        var owner :| owner in w.ops && AccountOf(w.ops[owner].row) == a;
        assert AccountOf(w'.ops[owner].row) == a;
      }
    }
  }

  lemma TickKeeps(cfg: Config, w: World, delay: nat)
    requires WorldInv(cfg, w)
    ensures WorldInv(cfg, w.(clock := w.clock + delay))
  {
    hide OpInv;
    var w' := w.(clock := w.clock + delay);
    forall id | id in w'.ops
      ensures w'.ops[id].row.id == id && OpInv(cfg, w'.clock, Live(w', id), w'.ops[id])
    {
      TimePasses(cfg, w.clock, w'.clock, Live(w, id), w.ops[id]);
    }
    forall a | a in w'.upstream
      ensures Owned(w', a)
    {
      assert Owned(w, a);
    }
  }

  lemma ProvisionKeeps(cfg: Config, w: World, token: string, host: string, holder: Holder)
    requires WorldInv(cfg, w) && |token| == TOKEN_LENGTH && OPERATION_PREFIX + token !in w.ops
    ensures WorldInv(cfg, w.(ops := w.ops[OPERATION_PREFIX + token := NewOp(cfg, token, host, holder, w.clock)]))
  {
    var id, op := OPERATION_PREFIX + token, NewOp(cfg, token, host, holder, w.clock);
    var w' := w.(ops := w.ops[id := op]);
    NewOpOk(cfg, token, host, holder, w.clock);
    if AccountOf(op.row) in w.upstream {
      var owner :| owner in w.ops && AccountOf(w.ops[owner].row) == AccountOf(op.row);
      IdentityIsInjective(op.row, w.ops[owner].row);
      assert false;
    }
    forall a | a in w'.upstream
      ensures Owned(w', a)
    {
      var owner :| owner in w.ops && AccountOf(w.ops[owner].row) == a;
      assert AccountOf(w'.ops[owner].row) == a;
    }
  }

  /** Every step of the system keeps the invariant. */
  lemma NextKeeps(cfg: Config, w: World, e: Event)
    requires Settled(cfg) && WorldInv(cfg, w) && Next(cfg, w, e).Some?
    ensures WorldInv(cfg, Next(cfg, w, e).value)
  {
    hide OpInv, WorldInv, WorkerStep, ClaimStep, DeprovisionStep, Settled;
    var w' := Next(cfg, w, e).value;
    match e {
      case Tick(delay) => TickKeeps(cfg, w, delay);
      case Provision(token, host, holder) => ProvisionKeeps(cfg, w, token, host, holder);
      case Claim(id, holder) =>
        var op := w.ops[id];
        OpOk(cfg, w, id);
        ClaimOk(cfg, w.clock, Live(w, id), op, holder);
        ClaimIdentity(cfg, w.clock, op, holder);
        ReplaceKeeps(cfg, w, id, ClaimStep(cfg, w.clock, op, holder).value, NoStatement);
      case Deprovision(id, holder) =>
        var op := w.ops[id];
        OpOk(cfg, w, id);
        DeprovisionOk(cfg, w.clock, Live(w, id), op, holder);
        ClaimIdentity(cfg, w.clock, op, holder);
        ReplaceKeeps(cfg, w, id, DeprovisionStep(cfg, w.clock, op, holder).value, NoStatement);
      case Work(id, i, move) =>
        var op := w.ops[id];
        OpOk(cfg, w, id);
        WorkerStepKeeps(cfg, w.clock, Live(w, id), op, i, move);
        StatementsAreOwn(cfg, w.clock, Live(w, id), op, i, move);
        var m := WorkerStep(cfg, w.clock, Live(w, id), op, i, move).value;
        ReplaceKeeps(cfg, w, id, m.op, m.statement);
      case Straggle(id) =>
        OpOk(cfg, w, id);
        assert false;
    }
  }

  lemma OpOk(cfg: Config, w: World, id: string)
    requires WorldInv(cfg, w) && id in w.ops
    ensures w.ops[id].row.id == id && OpInv(cfg, w.clock, Live(w, id), w.ops[id]) && w.ops[id].straggler.Nothing?
  {
  }

  lemma ClaimIdentity(cfg: Config, now: nat, op: Op, holder: Holder)
    ensures ClaimStep(cfg, now, op, holder).Some? ==>
              ClaimStep(cfg, now, op, holder).value.row.id == op.row.id
                  && AccountOf(ClaimStep(cfg, now, op, holder).value.row) == AccountOf(op.row)
    ensures DeprovisionStep(cfg, now, op, holder).Some? ==>
              DeprovisionStep(cfg, now, op, holder).value.row.id == op.row.id
                  && AccountOf(DeprovisionStep(cfg, now, op, holder).value.row) == AccountOf(op.row)
  {
  }

  lemma {:induction false} RunKeeps(cfg: Config, events: seq<Event>)
    requires Settled(cfg) && Run(cfg, events).Some?
    ensures WorldInv(cfg, Run(cfg, events).value)
  {
    if events != [] {
      RunKeeps(cfg, events[..|events| - 1]);
      NextKeeps(cfg, Run(cfg, events[..|events| - 1]).value, events[|events| - 1]);
    }
  }

  // ----------------------------------------------------------------- results

  /** Some operation still answers for the user, and has not declared it gone. */
  predicate AnsweredFor(w: World, a: Account)
  {
    exists id | id in w.ops ::
      && AccountOf(w.ops[id].row) == a
      && w.ops[id].row.active
      && w.ops[id].row.stage != Reserved
      && w.ops[id].row.stage != NotCreated
  }

  /** No orphan: in every run, every upstream user is answered for. */
  lemma NoOrphan(cfg: Config, events: seq<Event>)
    requires Settled(cfg) && Run(cfg, events).Some?
    ensures var w := Run(cfg, events).value; forall a | a in w.upstream :: AnsweredFor(w, a)
  {
    RunKeeps(cfg, events);
    var w := Run(cfg, events).value;
    forall a | a in w.upstream
      ensures AnsweredFor(w, a)
    {
      var id :| id in w.ops && AccountOf(w.ops[id].row) == a;
      assert OpInv(cfg, w.clock, Live(w, id), w.ops[id]);
    }
  }

  /** What a stage promises holds: the user exists, it has its grants, and it was created once. */
  lemma StagesKeepTheirPromise(cfg: Config, events: seq<Event>, id: string)
    requires Settled(cfg) && Run(cfg, events).Some? && id in Run(cfg, events).value.ops
    ensures var w := Run(cfg, events).value; var op := w.ops[id];
            && (Promises(op.row.stage) ==> Live(w, id))
            && (PromisesGrants(op.row.stage) ==> op.granted)
            && (op.account <==> Managed(op.row.stage) && op.row.active)
            && (op.row.stage == NotCreated || !op.row.active ==> !Live(w, id))
            && op.creates <= 1
  {
    RunKeeps(cfg, events);
    var w := Run(cfg, events).value;
    assert OpInv(cfg, w.clock, Live(w, id), w.ops[id]);
  }

  /** A DROP USER that takes effect is aimed at its own operation's user, which that operation has given up. */
  lemma DropsAreWarranted(cfg: Config, events: seq<Event>, id: string, i: nat, move: Move)
    requires Settled(cfg) && Run(cfg, events + [Work(id, i, move)]).Some?
    ensures var w, w' := Run(cfg, events).value, Run(cfg, events + [Work(id, i, move)]).value;
            && Run(cfg, events).Some? && id in w.ops
            && (forall a | a in w.upstream && a !in w'.upstream ::
                  a == AccountOf(w.ops[id].row) && (CleaningUp(w.ops[id].row.stage) || Dropping(w.ops[id].row.stage)))
            && (forall a | a in w'.upstream && a !in w.upstream ::
                  a == AccountOf(w.ops[id].row) && w.ops[id].row.stage == CreateStarted)
  {
    hide WorkerStep, Settled, OpInv;
    RunOnce(cfg, events, Work(id, i, move));
    RunKeeps(cfg, events);
    var w := Run(cfg, events).value;
    StatementsAreOwn(cfg, w.clock, Live(w, id), w.ops[id], i, move);
  }
}
