/**
 What holds in every run of every configuration, also of those in which users can be
 orphaned: CREATE USER is sent at most once per operation, and nothing takes effect late
 unless the server lets it.
 */
module SagaOnce {
  import opened SagaStore
  import opened SagaProgram
  import opened SagaWorld

  /** Points from which CREATE USER can still be sent. */
  predicate Early(pc: Pc)
  {
    match pc
    case At(site) => site == BeginCreate
    case Reread(site, _, _) => site == BeginCreate
    case Renew(e) => e == CreateUser
    case Renewing(e, _) => e == CreateUser
    case Ready(e, _) => e == CreateUser
    case _ => false
  }

  /** Only the first worker can stand there, and only while nothing was sent. */
  predicate Once(cfg: Config, op: Op)
  {
    && op.creates <= 1
    && (forall i | 0 <= i < |op.workers| :: Early(op.workers[i].pc) ==> i == 0 && op.creates == 0)
    && (!cfg.lateEffects ==> op.straggler.Nothing?)
  }

  /** Where a worker goes on; it never comes back to before CREATE USER. */
  lemma WritesOn(site: Site, r: Row)
    ensures Early(AfterOk(site, r)) ==> site == BeginCreate
    ensures !Early(AfterFail(site))
  {
    hide OwnsIdentity;
  }

  lemma StatementsOn(e: Effect, reply: Reply, r: Row)
    ensures !Early(AfterNotReady(e)) && !Early(AfterReply(e, reply, r)) && !Early(AfterNotSent(e, r))
  {
    hide OwnsIdentity;
  }

  lemma ComesIn(r: Row)
    ensures !Early(EnterReconcile(r)) && !Early(EnterDeprovision(r))
  {
    hide OwnsIdentity;
  }

  /** A step by worker i. */
  predicate MovesOn(cfg: Config, op: Op, i: nat, op': Op)
    requires i < |op.workers|
  {
    && |op'.workers| == |op.workers| && op'.workers == op.workers[i := op'.workers[i]]
    && (Early(op'.workers[i].pc) ==> Early(op.workers[i].pc) && op'.creates == op.creates)
    && (op'.creates == op.creates || (Early(op.workers[i].pc) && op'.creates == op.creates + 1))
    && (!cfg.lateEffects ==> op'.straggler == op.straggler)
  }

  lemma MovesOnce(cfg: Config, op: Op, i: nat, op': Op)
    requires Once(cfg, op) && i < |op.workers| && MovesOn(cfg, op, i, op')
    ensures Once(cfg, op')
  {
    forall j | 0 <= j < |op'.workers| && Early(op'.workers[j].pc)
      ensures j == 0 && op'.creates == 0
    {
      if j != i {
        assert op'.workers[j] == op.workers[j];
      }
    }
  }

  lemma WriteMoves(cfg: Config, now: nat, op: Op, i: nat, move: Move)
    requires i < |op.workers| && (op.workers[i].pc.At? || op.workers[i].pc.Reread?) && WriteStep(cfg, now, op, i, move).Some?
    ensures MovesOn(cfg, op, i, WriteStep(cfg, now, op, i, move).value.op)
  {
    hide AfterOk, AfterFail, Transition, ChangeAt;
    WritesOn(op.workers[i].pc.site, op.row);
  }

  lemma RenewMoves(cfg: Config, now: nat, op: Op, i: nat, move: Move)
    requires i < |op.workers| && (op.workers[i].pc.Renew? || op.workers[i].pc.Renewing?) && RenewStep(cfg, now, op, i, move).Some?
    ensures MovesOn(cfg, op, i, RenewStep(cfg, now, op, i, move).value.op)
  {
    hide AfterNotReady, RenewRow, Timeout;
    StatementsOn(op.workers[i].pc.effect, ReadFailed, op.row);
  }

  lemma EffectMoves(cfg: Config, now: nat, live: bool, op: Op, i: nat, move: Move)
    requires i < |op.workers| && (op.workers[i].pc.Ready? || op.workers[i].pc.Sent?)
        && EffectStep(cfg, now, live, op, i, move).Some?
    ensures MovesOn(cfg, op, i, EffectStep(cfg, now, live, op, i, move).value.op)
  {
    hide AfterNotReady, AfterReply, AfterNotSent;
    StatementsOn(op.workers[i].pc.effect, if move.Answer? then move.reply else ReadFailed, op.workers[i].op);
  }

  lemma FinishMoves(cfg: Config, now: nat, op: Op, i: nat, move: Move)
    requires i < |op.workers| && (op.workers[i].pc.Activate? || op.workers[i].pc.Complete?) && FinishStep(now, op, i, move).Some?
    ensures MovesOn(cfg, op, i, FinishStep(now, op, i, move).value.op)
  {
    hide ActivateRow, CompleteDeprovisionRow;
  }

  lemma WorkerOnce(cfg: Config, now: nat, live: bool, op: Op, i: nat, move: Move)
    requires Once(cfg, op) && i < |op.workers| && WorkerStep(cfg, now, live, op, i, move).Some?
    ensures Once(cfg, WorkerStep(cfg, now, live, op, i, move).value.op)
  {
    hide Once, MovesOn, WriteStep, RenewStep, EffectStep, FinishStep;
    match op.workers[i].pc {
      case At(_) => WriteMoves(cfg, now, op, i, move);
      case Reread(_, _, _) => WriteMoves(cfg, now, op, i, move);
      case Renew(_) => RenewMoves(cfg, now, op, i, move);
      case Renewing(_, _) => RenewMoves(cfg, now, op, i, move);
      case Ready(_, _) => EffectMoves(cfg, now, live, op, i, move);
      case Sent(_, _, _) => EffectMoves(cfg, now, live, op, i, move);
      case Activate(_) => FinishMoves(cfg, now, op, i, move);
      case Complete => FinishMoves(cfg, now, op, i, move);
    }
    MovesOnce(cfg, op, i, WorkerStep(cfg, now, live, op, i, move).value.op);
  }

  lemma JoinOnce(cfg: Config, op: Op, row: Row)
    requires Once(cfg, op)
    ensures Once(cfg, Join(op, row, EnterReconcile(row))) && Once(cfg, Join(op, row, EnterDeprovision(row)))
  {
    hide EnterReconcile, EnterDeprovision;
    ComesIn(row);
  }

  predicate AllOnce(cfg: Config, w: World)
  {
    forall id | id in w.ops :: Once(cfg, w.ops[id])
  }

  lemma NextOnce(cfg: Config, w: World, e: Event)
    requires AllOnce(cfg, w) && Next(cfg, w, e).Some?
    ensures AllOnce(cfg, Next(cfg, w, e).value)
  {
    hide Once, WorkerStep, NewOp, Executable, ClaimRow, BeginDeprovisionRow, EnterReconcile, EnterDeprovision;
    match e {
      case Tick(delay) =>
      case Provision(token, host, holder) => NewOnce(cfg, token, host, holder, w.clock);
      case Claim(id, holder) =>
        JoinOnce(cfg, w.ops[id], ClaimRow(w.ops[id].row, FenceOf(w.ops[id].row), holder, cfg.lease, w.clock).value);
      case Deprovision(id, holder) =>
        JoinOnce(cfg, w.ops[id], BeginDeprovisionRow(w.ops[id].row, holder, cfg.lease, w.clock).value);
      case Work(id, i, move) => WorkerOnce(cfg, w.clock, Live(w, id), w.ops[id], i, move);
      case Straggle(id) => StraggleOnce(cfg, w.ops[id]);
    }
  }

  lemma NewOnce(cfg: Config, token: string, host: string, holder: Holder, now: nat)
    ensures Once(cfg, NewOp(cfg, token, host, holder, now))
  {
  }

  lemma StraggleOnce(cfg: Config, op: Op)
    requires Once(cfg, op)
    ensures Once(cfg, op.(straggler := Nothing))
  {
  }

  lemma {:induction false} RunOnceOnly(cfg: Config, events: seq<Event>)
    requires Run(cfg, events).Some?
    ensures AllOnce(cfg, Run(cfg, events).value)
  {
    if events != [] {
      RunOnceOnly(cfg, events[..|events| - 1]);
      NextOnce(cfg, Run(cfg, events[..|events| - 1]).value, events[|events| - 1]);
    }
  }

  /** Whatever the configuration: CREATE USER is sent at most once for an operation, and is late only if the server lets it. */
  lemma CreatedOnce(cfg: Config, events: seq<Event>, id: string)
    requires Run(cfg, events).Some? && id in Run(cfg, events).value.ops
    ensures Run(cfg, events).value.ops[id].creates <= 1
    ensures !cfg.lateEffects ==> Run(cfg, events).value.ops[id].straggler.Nothing?
  {
    RunOnceOnly(cfg, events);
  }
}
