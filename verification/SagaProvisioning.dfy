/**
 What a provisioning comes to. A request that works alone ends where the server's answers
 send it, and with its grants acknowledged it never turns to cleaning up.
 */
module SagaProvisioning {
  import opened SagaStore
  import opened SagaProgram
  import opened SagaWorld
  import opened SagaRoutes

  // ------------------------------------------------------- whose user is whose

  /** The operation is stored under its id, and everyone at work on it knows its user. */
  predicate Mine(id: string, op: Op)
  {
    && op.row.id == id && OwnsIdentity(op.row)
    && forall i | 0 <= i < |op.workers| :: AccountOf(op.workers[i].op) == AccountOf(op.row)
  }

  predicate Kept(op: Op, op': Op)
  {
    && op'.row.id == op.row.id && AccountOf(op'.row) == AccountOf(op.row)
    && forall i | 0 <= i < |op'.workers| ::
         AccountOf(op'.workers[i].op) == AccountOf(op.row)
         || (i < |op.workers| && AccountOf(op'.workers[i].op) == AccountOf(op.workers[i].op))
  }

  lemma KeptIsMine(id: string, op: Op, op': Op)
    requires Mine(id, op) && Kept(op, op')
    ensures Mine(id, op')
  {
  }

  lemma WorkerKeeps(cfg: Config, now: nat, live: bool, op: Op, i: nat, move: Move)
    requires i < |op.workers| && WorkerStep(cfg, now, live, op, i, move).Some?
    ensures Kept(op, WorkerStep(cfg, now, live, op, i, move).value.op)
  {
    hide AfterOk, AfterFail, AfterNotReady, AfterReply, AfterNotSent, ChangeAt, Timeout, ValidChange;
    match op.workers[i].pc {
      case At(_) => WriteKeeps(cfg, now, op, i, move);
      case Reread(_, _, _) => WriteKeeps(cfg, now, op, i, move);
      case Renew(_) => RenewKeeps(cfg, now, op, i, move);
      case Renewing(_, _) => RenewKeeps(cfg, now, op, i, move);
      case Ready(_, _) => EffectKeeps(cfg, now, live, op, i, move);
      case Sent(_, _, _) => EffectKeeps(cfg, now, live, op, i, move);
      case Activate(_) => FinishKeeps(cfg, now, op, i, move);
      case Complete => FinishKeeps(cfg, now, op, i, move);
    }
  }

  lemma WriteKeeps(cfg: Config, now: nat, op: Op, i: nat, move: Move)
    requires i < |op.workers| && (op.workers[i].pc.At? || op.workers[i].pc.Reread?) && WriteStep(cfg, now, op, i, move).Some?
    ensures Kept(op, WriteStep(cfg, now, op, i, move).value.op)
  {
    hide AfterOk, AfterFail, ChangeAt, ValidChange;
  }

  lemma RenewKeeps(cfg: Config, now: nat, op: Op, i: nat, move: Move)
    requires i < |op.workers| && (op.workers[i].pc.Renew? || op.workers[i].pc.Renewing?) && RenewStep(cfg, now, op, i, move).Some?
    ensures Kept(op, RenewStep(cfg, now, op, i, move).value.op)
  {
    hide AfterNotReady, Timeout;
  }

  lemma EffectKeeps(cfg: Config, now: nat, live: bool, op: Op, i: nat, move: Move)
    requires i < |op.workers| && (op.workers[i].pc.Ready? || op.workers[i].pc.Sent?)
    requires EffectStep(cfg, now, live, op, i, move).Some?
    ensures Kept(op, EffectStep(cfg, now, live, op, i, move).value.op)
  {
    hide AfterNotReady, AfterReply, AfterNotSent;
  }

  lemma FinishKeeps(cfg: Config, now: nat, op: Op, i: nat, move: Move)
    requires i < |op.workers| && (op.workers[i].pc.Activate? || op.workers[i].pc.Complete?) && FinishStep(now, op, i, move).Some?
    ensures Kept(op, FinishStep(now, op, i, move).value.op)
  {
  }

  /** Every upstream user belongs to a stored operation. */
  predicate Accounted(w: World)
  {
    && (forall id | id in w.ops :: Mine(id, w.ops[id]))
    && (forall a | a in w.upstream :: exists id | id in w.ops :: AccountOf(w.ops[id].row) == a)
  }

  /** One operation moves on, and only its user may come or go. */
  lemma ReplaceAccounts(w: World, id: string, op': Op, upstream': set<Account>)
    requires Accounted(w) && id in w.ops && Kept(w.ops[id], op')
    requires upstream' <= w.upstream + {AccountOf(w.ops[id].row)}
    ensures Accounted(w.(ops := w.ops[id := op'], upstream := upstream'))
  {
    hide Mine;
    var w' := w.(ops := w.ops[id := op'], upstream := upstream');
    KeptIsMine(id, w.ops[id], op');
    forall a | a in w'.upstream
      ensures exists k | k in w'.ops :: AccountOf(w'.ops[k].row) == a
    {
      if a == AccountOf(w.ops[id].row) {
        assert AccountOf(w'.ops[id].row) == a;
      } else {
        var k :| k in w.ops && AccountOf(w.ops[k].row) == a;
        assert AccountOf(w'.ops[k].row) == a;
      }
    }
  }

  lemma NewIsMine(cfg: Config, token: string, host: string, holder: Holder, now: nat)
    requires |token| == TOKEN_LENGTH
    ensures Mine(OPERATION_PREFIX + token, NewOp(cfg, token, host, holder, now))
  {
    var r := NewOp(cfg, token, host, holder, now).row;
    assert r.id[4..] == token && r.id[..4] == OPERATION_PREFIX;
  }

  lemma NewAccounts(cfg: Config, w: World, token: string, host: string, holder: Holder)
    requires Accounted(w) && |token| == TOKEN_LENGTH && OPERATION_PREFIX + token !in w.ops
    ensures Accounted(w.(ops := w.ops[OPERATION_PREFIX + token := NewOp(cfg, token, host, holder, w.clock)]))
  {
    hide Mine, NewOp;
    NewIsMine(cfg, token, host, holder, w.clock);
    var w' := w.(ops := w.ops[OPERATION_PREFIX + token := NewOp(cfg, token, host, holder, w.clock)]);
    forall a | a in w'.upstream
      ensures exists k | k in w'.ops :: AccountOf(w'.ops[k].row) == a
    {
      var k :| k in w.ops && AccountOf(w.ops[k].row) == a;
      assert AccountOf(w'.ops[k].row) == a;
    }
  }

  lemma JoinKeeps(cfg: Config, now: nat, op: Op, holder: Holder)
    ensures ClaimStep(cfg, now, op, holder).Some? ==> Kept(op, ClaimStep(cfg, now, op, holder).value)
    ensures DeprovisionStep(cfg, now, op, holder).Some? ==> Kept(op, DeprovisionStep(cfg, now, op, holder).value)
  {
    hide EnterReconcile, EnterDeprovision, Executable;
  }

  lemma WorkerAccounts(cfg: Config, w: World, id: string, i: nat, move: Move)
    requires Accounted(w) && Next(cfg, w, Work(id, i, move)).Some?
    ensures Accounted(Next(cfg, w, Work(id, i, move)).value)
  {
    hide WorkerStep, Kept;
    var op := w.ops[id];
    WorkerKeeps(cfg, w.clock, Live(w, id), op, i, move);
    var m := WorkerStep(cfg, w.clock, Live(w, id), op, i, move).value;
    assert Mine(id, op);
    ReplaceAccounts(w, id, m.op, Applied(w.upstream, AccountOf(op.workers[i].op), m.statement));
  }

  lemma NextAccounts(cfg: Config, w: World, e: Event)
    requires Accounted(w) && Next(cfg, w, e).Some?
    ensures Accounted(Next(cfg, w, e).value)
  {
    hide Mine, Kept, WorkerStep, ClaimStep, DeprovisionStep, NewOp, OwnsIdentity;
    match e {
      case Tick(delay) =>
      case Provision(token, host, holder) => NewAccounts(cfg, w, token, host, holder);
      case Claim(id, holder) =>
        JoinKeeps(cfg, w.clock, w.ops[id], holder);
        ReplaceAccounts(w, id, ClaimStep(cfg, w.clock, w.ops[id], holder).value, w.upstream);
      case Deprovision(id, holder) =>
        JoinKeeps(cfg, w.clock, w.ops[id], holder);
        ReplaceAccounts(w, id, DeprovisionStep(cfg, w.clock, w.ops[id], holder).value, w.upstream);
      case Work(id, i, move) => WorkerAccounts(cfg, w, id, i, move);
      case Straggle(id) =>
        NoStraggler(w.ops[id]);
        ReplaceAccounts(w, id, w.ops[id].(straggler := Nothing), w.upstream + {AccountOf(w.ops[id].row)});
    }
  }

  lemma NoStraggler(op: Op)
    ensures Kept(op, op.(straggler := Nothing))
  {
  }

  /** In every run of every configuration, nothing exists upstream that no operation names. */
  lemma {:induction false} UsersAreNamed(cfg: Config, events: seq<Event>)
    requires Run(cfg, events).Some?
    ensures Accounted(Run(cfg, events).value)
  {
    hide Next;
    if events != [] {
      UsersAreNamed(cfg, events[..|events| - 1]);
      NextAccounts(cfg, Run(cfg, events[..|events| - 1]).value, events[|events| - 1]);
    }
  }

  lemma NameGivesId(r: Row, token: string)
    requires OwnsIdentity(r) && r.username == USERNAME_PREFIX + token
    ensures r.id == OPERATION_PREFIX + token
  {
    assert r.username[3..] == r.id[4..] && (USERNAME_PREFIX + token)[3..] == token;
    assert r.id == r.id[..4] + r.id[4..];
  }

  /** So the user of a fresh token does not exist. */
  lemma FreshUser(w: World, token: string, host: string)
    requires Accounted(w) && |token| == TOKEN_LENGTH && OPERATION_PREFIX + token !in w.ops
    ensures Account(USERNAME_PREFIX + token, host) !in w.upstream
  {
    hide OwnsIdentity;
    forall id | id in w.ops
      ensures AccountOf(w.ops[id].row) != Account(USERNAME_PREFIX + token, host)
    {
      assert Mine(id, w.ops[id]);
      if w.ops[id].row.username == USERNAME_PREFIX + token {
        NameGivesId(w.ops[id].row, token);
      }
    }
  }

  // ------------------------------------------- once the grants are acknowledged

  /** The points a request can stand at after its grants were acknowledged: no cleanup, and no statement. */
  predicate Promoted(pc: Pc)
  {
    match pc
    case At(site) => site == MarkPending || site == ReleaseActivation
    case Reread(site, _, _) => site == MarkPending || site == ReleaseActivation
    case Activate(_) => true
    case Done => true
    case _ => false
  }

  /** The points of reconcilers and deprovisioners; they never grant. */
  predicate Joined(pc: Pc)
  {
    match pc
    case At(site) => JoinedSite(site)
    case Reread(site, _, _) => JoinedSite(site)
    case Renew(e) => e == ReconcileDrop || e == ManagedDrop
    case Renewing(e, _) => e == ReconcileDrop || e == ManagedDrop
    case Ready(e, _) => e == ReconcileDrop || e == ManagedDrop
    case Sent(e, _, _) => e == ReconcileDrop || e == ManagedDrop
    case _ => true
  }

  predicate JoinedSite(site: Site)
  {
    site in {ReserveFinish, ReconcileBegin, ReconcileFinish, CleanupFail, DropBegin, DropDefer, ReleaseActivation}
  }

  /** The request goes towards activation exactly when every grant was acknowledged. */
  predicate Decided(op: Op)
  {
    && |op.workers| >= 1
    && (op.granted ==> Promoted(op.workers[0].pc))
    && (Promoted(op.workers[0].pc) && op.workers[0].pc != Done ==> op.granted)
    && forall i | 1 <= i < |op.workers| :: Joined(op.workers[i].pc)
  }

  /** How a point of the request, or of one who joined, may be followed. */
  predicate GoesOn(pc: Pc, granted: bool, pc': Pc, granted': bool)
  {
    && pc != Done
    && (Joined(pc) ==> Joined(pc'))
    && (granted ==> granted')
    && (granted' && !granted ==> !Joined(pc) && Promoted(pc') && !Promoted(pc))
    && (Promoted(pc) ==> Promoted(pc'))
    && (Promoted(pc') && pc' != Done ==> Promoted(pc) || (granted' && !granted))
  }

  lemma WritesGoOn(site: Site, r: Row, written: nat, until: nat, granted: bool)
    ensures GoesOn(At(site), granted, Reread(site, written, until), granted)
    ensures GoesOn(At(site), granted, AfterFail(site), granted)
    ensures GoesOn(Reread(site, written, until), granted, AfterFail(site), granted)
    ensures GoesOn(Reread(site, written, until), granted, AfterOk(site, r), granted)
  {
    hide OwnsIdentity;
  }

  lemma RenewalsGoOn(e: Effect, start: nat, deadline: nat, granted: bool)
    ensures GoesOn(Renew(e), granted, Renewing(e, start), granted)
    ensures GoesOn(Renewing(e, start), granted, Ready(e, deadline), granted)
    ensures GoesOn(Renew(e), granted, AfterNotReady(e), granted) && GoesOn(Renewing(e, start), granted, AfterNotReady(e), granted)
    ensures GoesOn(Ready(e, deadline), granted, AfterNotReady(e), granted)
    ensures GoesOn(Ready(e, deadline), granted, Sent(e, deadline, false), granted)
    ensures GoesOn(Sent(e, deadline, false), granted, Sent(e, deadline, true), granted)
  {
  }

  lemma AnswersGoOn(e: Effect, deadline: nat, applied: bool, reply: Reply, r: Row, granted: bool)
    ensures GoesOn(Sent(e, deadline, applied), granted, AfterReply(e, reply, r), granted || (e.GrantUser? && reply == Packet(0)))
    ensures GoesOn(Ready(e, deadline), granted, AfterNotSent(e, r), granted)
    requires e.GrantUser? ==> !granted
  {
    hide OwnsIdentity;
  }

  predicate MovesOn(op: Op, i: nat, op': Op)
    requires i < |op.workers|
  {
    && |op'.workers| == |op.workers| && op'.workers == op.workers[i := op'.workers[i]]
    && GoesOn(op.workers[i].pc, op.granted, op'.workers[i].pc, op'.granted)
  }

  lemma MoveDecides(op: Op, i: nat, op': Op)
    requires Decided(op) && i < |op.workers| && MovesOn(op, i, op')
    ensures Decided(op')
  {
    hide Promoted, Joined;
    assert i != 0 ==> op'.workers[0] == op.workers[0];
    forall j | 1 <= j < |op'.workers|
      ensures Joined(op'.workers[j].pc)
    {
      if j != i {
        assert op'.workers[j] == op.workers[j];
      }
    }
  }

  lemma WriteMoves(cfg: Config, now: nat, op: Op, i: nat, move: Move)
    requires i < |op.workers| && (op.workers[i].pc.At? || op.workers[i].pc.Reread?) && WriteStep(cfg, now, op, i, move).Some?
    ensures MovesOn(op, i, WriteStep(cfg, now, op, i, move).value.op)
  {
    hide AfterOk, AfterFail, Transition, ChangeAt, GoesOn;
    var pc, op' := op.workers[i].pc, WriteStep(cfg, now, op, i, move).value.op;
    WritesGoOn(pc.site, op.row, if pc.At? then op'.row.revision else pc.written,
      if pc.At? then now + cfg.cleanupTimeout else pc.until, op.granted);
    if move.Divert? {
      DivertsGoOn(pc.site, op'.workers[i].pc, op.granted);
    }
  }

  lemma DivertsGoOn(site: Site, pc': Pc, granted: bool)
    requires (site == BeginCreate && pc' == At(DiscardReserved)) || (site == ReconcileBegin && pc' == At(CleanupFail))
             || (site == DropBegin && pc' == At(DropDefer))
    ensures GoesOn(At(site), granted, pc', granted)
  {
  }

  lemma RenewMoves(cfg: Config, now: nat, op: Op, i: nat, move: Move)
    requires i < |op.workers| && (op.workers[i].pc.Renew? || op.workers[i].pc.Renewing?) && RenewStep(cfg, now, op, i, move).Some?
    ensures MovesOn(op, i, RenewStep(cfg, now, op, i, move).value.op)
  {
    hide AfterNotReady, RenewRow, Timeout, GoesOn;
    var pc, pc' := op.workers[i].pc, RenewStep(cfg, now, op, i, move).value.op.workers[i].pc;
    RenewalsGoOn(pc.effect, if pc.Renewing? then pc.startedAt else now, if pc'.Ready? then pc'.deadline else 0, op.granted);
  }

  lemma EffectMoves(cfg: Config, now: nat, live: bool, op: Op, i: nat, move: Move)
    requires Decided(op) && i < |op.workers| && (op.workers[i].pc.Ready? || op.workers[i].pc.Sent?)
    requires EffectStep(cfg, now, live, op, i, move).Some?
    ensures MovesOn(op, i, EffectStep(cfg, now, live, op, i, move).value.op)
  {
    hide AfterNotReady, AfterReply, AfterNotSent, GoesOn;
    var pc, w := op.workers[i].pc, op.workers[i];
    RenewalsGoOn(pc.effect, now, pc.deadline, op.granted);
    assert i > 0 ==> Joined(pc);
    AnswersGoOn(pc.effect, pc.deadline, pc.Sent? && pc.applied, if move.Answer? then move.reply else ReadFailed, w.op, op.granted);
  }

  lemma FinishMoves(now: nat, op: Op, i: nat, move: Move)
    requires i < |op.workers| && (op.workers[i].pc.Activate? || op.workers[i].pc.Complete?) && FinishStep(now, op, i, move).Some?
    ensures MovesOn(op, i, FinishStep(now, op, i, move).value.op)
  {
    hide ActivateRow, CompleteDeprovisionRow;
  }

  lemma WorkerDecides(cfg: Config, now: nat, live: bool, op: Op, i: nat, move: Move)
    requires Decided(op) && i < |op.workers| && WorkerStep(cfg, now, live, op, i, move).Some?
    ensures Decided(WorkerStep(cfg, now, live, op, i, move).value.op)
  {
    hide Decided, MovesOn, WriteStep, RenewStep, EffectStep, FinishStep;
    match op.workers[i].pc {
      case At(_) => WriteMoves(cfg, now, op, i, move);
      case Reread(_, _, _) => WriteMoves(cfg, now, op, i, move);
      case Renew(_) => RenewMoves(cfg, now, op, i, move);
      case Renewing(_, _) => RenewMoves(cfg, now, op, i, move);
      case Ready(_, _) => EffectMoves(cfg, now, live, op, i, move);
      case Sent(_, _, _) => EffectMoves(cfg, now, live, op, i, move);
      case Activate(_) => FinishMoves(now, op, i, move);
      case Complete => FinishMoves(now, op, i, move);
    }
    MoveDecides(op, i, WorkerStep(cfg, now, live, op, i, move).value.op);
  }

  lemma JoinDecides(op: Op, row: Row)
    requires Decided(op)
    ensures Decided(Join(op, row, EnterReconcile(row))) && Decided(Join(op, row, EnterDeprovision(row)))
  {
    hide OwnsIdentity;
  }

  predicate AllDecided(w: World)
  {
    forall id | id in w.ops :: Decided(w.ops[id])
  }

  lemma NextDecides(cfg: Config, w: World, e: Event)
    requires AllDecided(w) && Next(cfg, w, e).Some?
    ensures AllDecided(Next(cfg, w, e).value)
  {
    hide Decided, WorkerStep, NewOp, Executable, ClaimRow, BeginDeprovisionRow, EnterReconcile, EnterDeprovision;
    match e {
      case Tick(delay) =>
      case Provision(token, host, holder) => NewDecided(cfg, token, host, holder, w.clock);
      case Claim(id, holder) =>
        JoinDecides(w.ops[id], ClaimRow(w.ops[id].row, FenceOf(w.ops[id].row), holder, cfg.lease, w.clock).value);
      case Deprovision(id, holder) =>
        JoinDecides(w.ops[id], BeginDeprovisionRow(w.ops[id].row, holder, cfg.lease, w.clock).value);
      case Work(id, i, move) => WorkerDecides(cfg, w.clock, Live(w, id), w.ops[id], i, move);
      case Straggle(id) => StraggleDecides(w.ops[id]);
    }
  }

  lemma NewDecided(cfg: Config, token: string, host: string, holder: Holder, now: nat)
    ensures Decided(NewOp(cfg, token, host, holder, now))
  {
  }

  lemma StraggleDecides(op: Op)
    requires Decided(op)
    ensures Decided(op.(straggler := Nothing))
  {
  }

  lemma {:induction false} RunDecides(cfg: Config, events: seq<Event>)
    requires Run(cfg, events).Some?
    ensures AllDecided(Run(cfg, events).value)
  {
    hide Next;
    if events != [] {
      RunDecides(cfg, events[..|events| - 1]);
      NextDecides(cfg, Run(cfg, events[..|events| - 1]).value, events[|events| - 1]);
    }
  }

  /** In every run of every configuration: acknowledged grants take the request to activation, and nothing else does. */
  lemma GrantsDecide(cfg: Config, events: seq<Event>, id: string)
    requires Run(cfg, events).Some? && id in Run(cfg, events).value.ops
    ensures var op := Run(cfg, events).value.ops[id];
            && |op.workers| >= 1
            && (op.granted ==> Promoted(op.workers[0].pc))
            && (Promoted(op.workers[0].pc) && op.workers[0].pc != Done ==> op.granted)
  {
    RunDecides(cfg, events);
    assert Decided(Run(cfg, events).value.ops[id]);
  }
}
