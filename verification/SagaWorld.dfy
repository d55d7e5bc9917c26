/**
 All runs of provisioning, reconciling and deprovisioning together. A step moves the
 clock, starts a worker, or lets one worker take one atomic step; any store call may
 fail, may fail after it has taken effect, and a worker that never moves again has
 crashed. Requests and reconcilers of any number of processes are workers here.
 */
module SagaWorld {
  import opened SagaStore
  import opened SagaProgram

  datatype Account = Account(username: string, host: string)

  /** A worker holds the row it was last handed and the point at which it stands. */
  datatype Worker = Worker(op: Row, pc: Pc)

  datatype Op = Op(
    row: Row,
    /** The local managed account exists. */
    account: bool,
    /** Every grant was acknowledged. */
    granted: bool,
    /** How many CREATE USER statements were sent. */
    creates: nat,
    /** The request that created the operation, then the later claimants in order. */
    workers: seq<Worker>,
    /** The deadline of a CREATE USER whose call has returned but which may still take effect. */
    straggler: Option<nat>)

  datatype World = World(clock: nat, ops: map<string, Op>, upstream: set<Account>)

  datatype Move =
    | Write | WriteFails | ReadBack | ReadFails
    | Divert
    | StartRenew | Cancelled
    | Renewed(remaining: nat) | RenewedUnseen | RenewFails
    | Expire | GiveUp | Send | Apply | Answer(reply: Reply)
    | Activated | ActivatedUnseen | ActivateFails
    | Completed | CompletedUnseen | CompleteFails

  datatype Event =
    | Tick(delay: nat)
    | Provision(token: string, host: string, holder: Holder)
    | Claim(id: string, holder: Holder)
    | Deprovision(id: string, holder: Holder)
    | Work(id: string, worker: nat, move: Move)
    | Straggle(id: string)

  /** What a step does upstream. */
  datatype Statement = NoStatement | CreateStatement | DropStatement

  datatype Moved = Moved(op: Op, statement: Statement)

  function AccountOf(r: Row): Account
  {
    Account(r.username, r.host)
  }

  function With(op: Op, i: nat, w: Worker): Op
    requires i < |op.workers|
  {
    op.(workers := op.workers[i := w])
  }

  function Goto(op: Op, i: nat, pc: Pc): Op
    requires i < |op.workers|
  {
    With(op, i, op.workers[i].(pc := pc))
  }

  /** A fenced write and, as a second statement, reading the row back. */
  function WriteStep(cfg: Config, now: nat, op: Op, i: nat, move: Move): Option<Moved>
    requires i < |op.workers|
    requires op.workers[i].pc.At? || op.workers[i].pc.Reread?
  {
    var w := op.workers[i];
    match w.pc
    case At(site) =>
      (match move
       case Write =>
         var written := Transition(op.row, FenceOf(w.op), ChangeAt(site, w.op.lastError), now);
         if written.Some? then
           Some(Moved(Goto(op.(row := written.value), i,
               Reread(site, written.value.revision, now + cfg.cleanupTimeout)), NoStatement))
         else Nothing
       case WriteFails => Some(Moved(Goto(op, i, AfterFail(site)), NoStatement))
       case Divert =>
         // The request was cancelled, or the administrator cannot be used.
         (match site
          case BeginCreate => Some(Moved(Goto(op, i, At(DiscardReserved)), NoStatement))
          case ReconcileBegin => Some(Moved(Goto(op, i, At(CleanupFail)), NoStatement))
          case DropBegin => Some(Moved(Goto(op, i, At(DropDefer)), NoStatement))
          case _ => Nothing)
       case _ => Nothing)
    case Reread(site, written, until) =>
      (match move
       case ReadBack =>
         if now < until && op.row.active && (cfg.returnsOwnWrite ==> op.row.revision == written) then
           Some(Moved(With(op, i, Worker(op.row, AfterOk(site, op.row))), NoStatement))
         else Nothing
       case ReadFails => Some(Moved(Goto(op, i, AfterFail(site)), NoStatement))
       case _ => Nothing)
  }

  /** Renewing the lease; the time allowed for the statement counts from before the renewal. */
  function RenewStep(cfg: Config, now: nat, op: Op, i: nat, move: Move): Option<Moved>
    requires i < |op.workers|
    requires op.workers[i].pc.Renew? || op.workers[i].pc.Renewing?
  {
    var w := op.workers[i];
    match w.pc
    case Renew(e) =>
      (match move
       case StartRenew => Some(Moved(Goto(op, i, Renewing(e, now)), NoStatement))
       case Cancelled => Some(Moved(Goto(op, i, AfterNotReady(e)), NoStatement))
       case _ => Nothing)
    case Renewing(e, start) =>
      var renewed := RenewRow(op.row, FenceOf(w.op), cfg.lease, now);
      (match move
       case Renewed(remaining) =>
         if renewed.Some? && 0 < remaining <= cfg.lease then
           var timeout := Timeout(cfg, remaining);
           if timeout.Some? && now < start + timeout.value then
             Some(Moved(With(op.(row := renewed.value), i, Worker(renewed.value, Ready(e, start + timeout.value))), NoStatement))
           else Some(Moved(Goto(op.(row := renewed.value), i, AfterNotReady(e)), NoStatement))
         else Nothing
       case RenewedUnseen =>
         if renewed.Some? then Some(Moved(Goto(op.(row := renewed.value), i, AfterNotReady(e)), NoStatement)) else Nothing
       case RenewFails => Some(Moved(Goto(op, i, AfterNotReady(e)), NoStatement))
       case _ => Nothing)
  }

  /** Sending one statement, its effect at the server, and its answer. `live`: the upstream user exists. */
  function EffectStep(cfg: Config, now: nat, live: bool, op: Op, i: nat, move: Move): Option<Moved>
    requires i < |op.workers|
    requires op.workers[i].pc.Ready? || op.workers[i].pc.Sent?
  {
    var w := op.workers[i];
    match w.pc
    case Ready(e, deadline) =>
      (match move
       // The deadline passed, or the caller's context was cancelled before.
       case Expire => Some(Moved(Goto(op, i, AfterNotReady(e)), NoStatement))
       case GiveUp => Some(Moved(Goto(op, i, AfterNotSent(e, w.op)), NoStatement))
       case Send =>
         if now < deadline then
           Some(Moved(Goto(op.(creates := if e.CreateUser? then op.creates + 1 else op.creates), i,
               Sent(e, deadline, false)), NoStatement))
         else Nothing
       case _ => Nothing)
    case Sent(e, deadline, applied) =>
      (match move
       case Apply =>
         if now < deadline && !applied then
           match e
           case CreateUser => if live then Nothing else Some(Moved(Goto(op, i, Sent(e, deadline, true)), CreateStatement))
           case GrantUser => if live then Some(Moved(Goto(op, i, Sent(e, deadline, true)), NoStatement)) else Nothing
           case _ => Some(Moved(Goto(op, i, Sent(e, deadline, true)), DropStatement))
         else Nothing
       case Answer(reply) =>
         if Honest(reply, applied) && reply != WriteFailed(0) then
           var answered := Goto(op, i, AfterReply(e, reply, w.op));
           Some(Moved(
             answered.(
               granted := op.granted || (e.GrantUser? && reply == Packet(0)),
               straggler := if cfg.lateEffects && e.CreateUser? && !applied
                   && reply != Packet(0xff) then Some(deadline) else op.straggler),
             NoStatement))
         else Nothing
       case _ => Nothing)
  }

  /** Turning the operation into a managed account, and retiring both. */
  function FinishStep(now: nat, op: Op, i: nat, move: Move): Option<Moved>
    requires i < |op.workers|
    requires op.workers[i].pc.Activate? || op.workers[i].pc.Complete?
  {
    var w := op.workers[i];
    match w.pc
    case Activate(attempt) =>
      var activated := ActivateRow(op.row, FenceOf(w.op), now);
      var again := if attempt + 1 < 2 then Activate(attempt + 1) else At(ReleaseActivation);
      (match move
       case Activated => if activated.Some?
           then Some(Moved(Goto(op.(row := activated.value, account := true), i, Done), NoStatement)) else Nothing
       case ActivatedUnseen => if activated.Some?
           then Some(Moved(Goto(op.(row := activated.value, account := true), i, again), NoStatement)) else Nothing
       case ActivateFails => Some(Moved(Goto(op, i, again), NoStatement))
       case _ => Nothing)
    case Complete =>
      var completed := CompleteDeprovisionRow(op.row, FenceOf(w.op), now);
      (match move
       case Completed => if completed.Some?
           && op.account then Some(Moved(Goto(op.(row := completed.value, account := false), i, Done), NoStatement)) else Nothing
       case CompletedUnseen => if completed.Some?
           && op.account then Some(Moved(Goto(op.(row := completed.value, account := false), i, At(DropDefer)),
               NoStatement)) else Nothing
       case CompleteFails => Some(Moved(Goto(op, i, At(DropDefer)), NoStatement))
       case _ => Nothing)
  }

  function WorkerStep(cfg: Config, now: nat, live: bool, op: Op, i: nat, move: Move): Option<Moved>
    requires i < |op.workers|
  {
    match op.workers[i].pc
    case At(_) => WriteStep(cfg, now, op, i, move)
    case Reread(_, _, _) => WriteStep(cfg, now, op, i, move)
    case Renew(_) => RenewStep(cfg, now, op, i, move)
    case Renewing(_, _) => RenewStep(cfg, now, op, i, move)
    case Ready(_, _) => EffectStep(cfg, now, live, op, i, move)
    case Sent(_, _, _) => EffectStep(cfg, now, live, op, i, move)
    case Activate(_) => FinishStep(now, op, i, move)
    case Complete => FinishStep(now, op, i, move)
    case Done => Nothing
  }

  /** The row a request stores before anything is done upstream. */
  function NewRow(cfg: Config, token: string, host: string, holder: Holder, now: nat): Row
  {
    Row(OPERATION_PREFIX + token, USERNAME_PREFIX + token, host, Reserved, NoCleanup, NoError, 0, Nothing,
        now, now, 1, Some(holder), Some(now + cfg.lease), true)
  }

  function NewOp(cfg: Config, token: string, host: string, holder: Holder, now: nat): Op
  {
    var row := NewRow(cfg, token, host, holder, now);
    Op(row, false, false, 0, [Worker(row, At(BeginCreate))], Nothing)
  }

  /** A worker joins by taking a lease that is free. */
  function Join(op: Op, row: Row, pc: Pc): Op
  {
    op.(row := row, workers := op.workers + [Worker(row, pc)])
  }

  /**
   The reconciler lists operations and claims them one by one, fenced by the row it listed.
   The claim goes through only if that row is still the stored one, and time only makes a
   row more executable, so listing and claiming are one step here.
   */
  function ClaimStep(cfg: Config, now: nat, op: Op, holder: Holder): Option<Op>
  {
    var claimed := ClaimRow(op.row, FenceOf(op.row), holder, cfg.lease, now);
    if Executable(op.row, cfg.staleAfter, now) && claimed.Some? then Some(Join(op, claimed.value, EnterReconcile(claimed.value)))
    else Nothing
  }

  function DeprovisionStep(cfg: Config, now: nat, op: Op, holder: Holder): Option<Op>
  {
    var begun := BeginDeprovisionRow(op.row, holder, cfg.lease, now);
    if op.account && begun.Some? then Some(Join(op, begun.value, EnterDeprovision(begun.value))) else Nothing
  }

  function Applied(upstream: set<Account>, a: Account, s: Statement): set<Account>
  {
    match s
    case NoStatement => upstream
    case CreateStatement => upstream + {a}
    case DropStatement => upstream - {a}
  }

  function Live(w: World, id: string): bool
    requires id in w.ops
  {
    AccountOf(w.ops[id].row) in w.upstream
  }

  /** One step of the whole system, if `e` can happen in `w`. */
  function Next(cfg: Config, w: World, e: Event): Option<World>
  {
    match e
    case Tick(delay) => Some(w.(clock := w.clock + delay))
    case Provision(token, host, holder) =>
      var id := OPERATION_PREFIX + token;
      if |token| == TOKEN_LENGTH && id !in w.ops then
        Some(w.(ops := w.ops[id := NewOp(cfg, token, host, holder, w.clock)]))
      else Nothing
    case Claim(id, holder) =>
      if id !in w.ops then Nothing else
      var op := ClaimStep(cfg, w.clock, w.ops[id], holder);
      if op.Some? then Some(w.(ops := w.ops[id := op.value])) else Nothing
    case Deprovision(id, holder) =>
      if id !in w.ops then Nothing else
      var op := DeprovisionStep(cfg, w.clock, w.ops[id], holder);
      if op.Some? then Some(w.(ops := w.ops[id := op.value])) else Nothing
    case Work(id, i, move) =>
      if id !in w.ops || i >= |w.ops[id].workers| then Nothing else
      var op := w.ops[id];
      var moved := WorkerStep(cfg, w.clock, Live(w, id), op, i, move);
      if moved.Some? then
        Some(w.(ops := w.ops[id := moved.value.op],
                upstream := Applied(w.upstream, AccountOf(op.workers[i].op), moved.value.statement)))
      else Nothing
    case Straggle(id) =>
      if id !in w.ops then Nothing else
      var op := w.ops[id];
      if op.straggler.Some? && w.clock < op.straggler.value then
        Some(w.(ops := w.ops[id := op.(straggler := Nothing)], upstream := w.upstream + {AccountOf(op.row)}))
      else Nothing
  }

  const EMPTY: World := World(0, map[], {})

  /** The world after a run, if every step of it can happen. */
  function Run(cfg: Config, events: seq<Event>): Option<World>
  {
    if events == [] then Some(EMPTY)
    else
      var before := Run(cfg, events[..|events| - 1]);
      if before.Some? then Next(cfg, before.value, events[|events| - 1]) else Nothing
  }

  /** The run can be continued by one more event. */
  lemma RunOnce(cfg: Config, events: seq<Event>, e: Event)
    ensures Run(cfg, events + [e]) == if Run(cfg, events).Some? then Next(cfg, Run(cfg, events).value, e) else Nothing
  {
    assert (events + [e])[..|events|] == events;
  }
}
