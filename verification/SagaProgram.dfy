/**
 The programs that drive an operation, as the points at which a worker can stand:
 before a fenced write, between a write and reading its result back, around a lease
 renewal, and around a statement sent to the upstream server.
 */
module SagaProgram {
  import opened SagaStore

  // ------------------------------------------------------------ the wire

  /** What the driver sees of one statement. */
  datatype Reply =
    | WriteFailed(written: nat)
    | ReadFailed
    | EmptyPacket
    | Packet(first: int)

  datatype StatementError = NotSent | OutcomeUncertain | Rejected

  /** The only errors a statement can end with. */
  function ExecError(reply: Reply): Option<StatementError>
  {
    match reply
    case WriteFailed(written) => if written == 0 then Some(NotSent) else Some(OutcomeUncertain)
    case ReadFailed => Some(OutcomeUncertain)
    case EmptyPacket => Some(OutcomeUncertain)
    case Packet(first) => if first == 0 then Nothing else if first == 0xff then Some(Rejected) else Some(OutcomeUncertain)
  }

  datatype Disposition = CreateNotSent | CreateNotCreated | CreateMayBeApplied | CreateApplied

  /** A reply is honest when it agrees with what the server did. */
  predicate Honest(reply: Reply, applied: bool)
  {
    && (reply == WriteFailed(0) ==> !applied)
    && (reply == Packet(0) ==> applied)
    && (reply == Packet(0xff) ==> !applied)
  }

  /**
   Runs the session setting and then CREATE USER. `replies[k]` is what statement k
   met; CREATE is only reached when the setting was accepted.
   */
  method RunCreateStatements(valid: bool, replies: seq<Reply>) returns (d: Disposition)
    requires |replies| == 2
    ensures d == CreateDisposition(valid, replies[0], replies[1])
  {
    if !valid {
      return CreateNotSent;
    }
    var index := 0;
    while index < |replies|
      invariant 0 <= index <= |replies|
      invariant forall k | 0 <= k < index :: replies[k] == Packet(0)
    {
      var err := ExecError(replies[index]);
      if err.Some? {
        if index == 0 {
          return CreateNotSent;
        }
        if err.value == OutcomeUncertain {
          return CreateMayBeApplied;
        }
        if err.value == NotSent {
          return CreateNotSent;
        }
        if err.value == Rejected {
          return CreateNotCreated;
        }
        return CreateNotSent;
      }
      index := index + 1;
    }
    d := CreateApplied;
  }

  function CreateDisposition(valid: bool, setting: Reply, create: Reply): Disposition
  {
    if !valid || setting != Packet(0) then CreateNotSent
    else if create == Packet(0) then CreateApplied
    else if create == Packet(0xff) then CreateNotCreated
    else if create == WriteFailed(0) then CreateNotSent
    else CreateMayBeApplied
  }

  /** Reporting that nothing was created is always true, and so is reporting that it was. */
  lemma DispositionIsHonest(valid: bool, setting: Reply, create: Reply, applied: bool)
    requires Honest(create, applied)
    requires applied ==> valid && setting == Packet(0)
    ensures CreateDisposition(valid, setting, create) in {CreateNotSent, CreateNotCreated} ==> !applied
    ensures CreateDisposition(valid, setting, create) == CreateApplied ==> applied
  {
  }

  // --------------------------------------------------- the side-effect window

  datatype Config = Config(
    lease: nat,
    cleanupTimeout: nat,
    staleAfter: nat,
    /** The store returns the row as it wrote it, rather than reading it back in a second statement. */
    returnsOwnWrite: bool,
    /**
     The server may still apply CREATE USER after the call that sent it has returned, up to its
     deadline. A late GRANT creates nothing, and a late DROP removes a user that was given up.
     */
    lateEffects: bool)
  {
    /** What the service's constructor makes sure of. */
    predicate Valid() { 0 < cleanupTimeout < lease && 0 < staleAfter }
  }

  /** The defaults the constructor fills in; durations are in nanoseconds. */
  function Configure(cleanupTimeout: int, lease: int, staleAfter: int, returnsOwnWrite: bool, lateEffects: bool): (cfg: Config)
    ensures cfg.Valid()
  {
    var second := 1_000_000_000;
    var c := if cleanupTimeout <= 0 then 10 * second else cleanupTimeout;
    var l := if lease <= c then 3 * c else lease;
    var s := if staleAfter <= 0 then 30 * second else staleAfter;
    Config(l, c, s, returnsOwnWrite, lateEffects)
  }

  /** Valid durations are taken as they are; 10, 30 and 30 seconds are taken when none are given. */
  lemma ConfiguredAsAsked(asked: Config)
    ensures asked.Valid() ==>
              Configure(asked.cleanupTimeout, asked.lease, asked.staleAfter, asked.returnsOwnWrite, asked.lateEffects) == asked
    ensures Configure(0, 0, 0, asked.returnsOwnWrite, asked.lateEffects) ==
            asked.(lease := 30_000_000_000, cleanupTimeout := 10_000_000_000, staleAfter := 30_000_000_000)
  {
  }

  /** How long a statement may run, given how much of the lease is left. */
  function Timeout(cfg: Config, remaining: int): (t: Option<int>)
    ensures t.Some? ==> 0 < t.value < remaining && t.value < cfg.lease
  {
    if remaining <= 1 || cfg.lease <= 1 then Nothing
    else
      var margin := if cfg.cleanupTimeout <= 0 || cfg.cleanupTimeout >= remaining then remaining / 4 else cfg.cleanupTimeout;
      var timeout := remaining - margin;
      if timeout <= 0 || timeout >= remaining then Nothing
      else if timeout >= cfg.lease then Some(cfg.lease - 1)
      else Some(timeout)
  }

  method SideEffectTimeout(cfg: Config, remaining: int) returns (timeout: int, ok: bool)
    ensures ok ==> 0 < timeout < remaining && timeout < cfg.lease
    ensures Timeout(cfg, remaining) == if ok then Some(timeout) else Nothing
    ensures cfg.Valid() && remaining >= 4 ==> ok
  {
    if remaining <= 1 || cfg.lease <= 1 {
      return 0, false;
    }
    var margin: int := cfg.cleanupTimeout;
    if margin <= 0 || margin >= remaining {
      margin := remaining / 4;
    }
    timeout := remaining - margin;
    if timeout <= 0 || timeout >= remaining {
      return 0, false;
    }
    if timeout >= cfg.lease {
      timeout := cfg.lease - 1;
    }
    ok := timeout > 0 && timeout < remaining && timeout < cfg.lease;
  }

  // -------------------------------------------------------- program points

  /** The calls that change the stage. */
  datatype Site =
    | DiscardReserved | BeginCreate | DiscardNotCreated | MarkUncertain
    | MarkCreated | MarkGranting | DeferGrant | MarkPending | ReleaseActivation
    | CleanupRequire(reason: ErrorCode) | CleanupBegin(reason: ErrorCode) | CleanupFinish(reason: ErrorCode)
    | CleanupFail
    | ReserveFinish | ReconcileBegin | ReconcileFinish
    | DropBegin | DropDefer

  datatype Effect = CreateUser | GrantUser | CleanupDrop(reason: ErrorCode) | ReconcileDrop | ManagedDrop

  predicate IsDrop(e: Effect)
  {
    e.CleanupDrop? || e.ReconcileDrop? || e.ManagedDrop?
  }

  datatype Pc =
    | At(site: Site)
    | Reread(site: Site, written: nat, until: nat)
    | Renew(effect: Effect)
    | Renewing(effect: Effect, startedAt: nat)
    | Ready(effect: Effect, deadline: nat)
    | Sent(effect: Effect, deadline: nat, applied: bool)
    | Activate(attempt: nat)
    | Complete
    | Done

  /** The write made at each site; the reconciler keeps the error its operation already carries. */
  function ChangeAt(site: Site, lastError: ErrorCode): Change
  {
    match site
    case DiscardReserved => Change(NotCreated, NoCleanup, NoError, false, true)
    case BeginCreate => Change(CreateStarted, NoCleanup, NoError, true, false)
    case DiscardNotCreated => Change(NotCreated, NoCleanup, NoError, false, true)
    case MarkUncertain => Change(CreateUncertain, Required, CreateOutcomeUncertain, false, false)
    case MarkCreated => Change(UpstreamCreated, NoCleanup, NoError, false, false)
    case MarkGranting => Change(GrantStarted, NoCleanup, NoError, false, false)
    case DeferGrant => Change(CleanupRequired, Required, GrantFailed, false, true)
    case MarkPending => Change(ActivationPending, NoCleanup, NoError, false, false)
    case ReleaseActivation => Change(ActivationPending, NoCleanup, ActivationFailed, true, true)
    case CleanupRequire(reason) => Change(CleanupRequired, Required, reason, false, false)
    case CleanupBegin(reason) => Change(CleanupInProgress, InProgress, reason, true, false)
    case CleanupFail => Change(CleanupRequired, Failed, CleanupFailed, false, true)
    case CleanupFinish(reason) => Change(NotCreated, NoCleanup, reason, false, true)
    case ReserveFinish => Change(NotCreated, NoCleanup, NoError, false, true)
    case ReconcileBegin => Change(CleanupInProgress, InProgress, lastError, true, false)
    case ReconcileFinish => Change(NotCreated, NoCleanup, lastError, false, true)
    case DropBegin => Change(DropStarted, InProgress, NoError, true, false)
    case DropDefer => Change(DropUncertain, Required, CleanupFailed, false, true)
  }

  /** Cleaning up starts with a check that the operation at hand names its own upstream user. */
  function EnterCleanup(op: Row, reason: ErrorCode): Pc
  {
    if OwnsIdentity(op) then At(CleanupRequire(reason)) else Done
  }

  function EnterDeprovision(op: Row): Pc
  {
    if !OwnsIdentity(op) then Done
    else if op.stage != DropStarted then At(DropBegin)
    else if op.cleanup == InProgress then Renew(ManagedDrop)
    else Done
  }

  predicate RequiresCleanup(s: Stage)
  {
    s in {CreateStarted, CreateUncertain, UpstreamCreated, GrantStarted, CleanupRequired, CleanupInProgress}
  }

  /** What a reconciler does with an operation it has claimed. */
  function EnterReconcile(op: Row): Pc
  {
    match op.stage
    case Reserved => At(ReserveFinish)
    case ActivationPending => Activate(0)
    case DeprovisionRequested => EnterDeprovision(op)
    case DropStarted => EnterDeprovision(op)
    case DropUncertain => EnterDeprovision(op)
    case s => if !RequiresCleanup(s) then Done else if OwnsIdentity(op) then At(ReconcileBegin) else At(CleanupFail)
  }

  /** Where a worker goes on when its write succeeded; `op` is the row it was handed. */
  function AfterOk(site: Site, op: Row): Pc
  {
    match site
    case BeginCreate => Renew(CreateUser)
    case MarkUncertain => EnterCleanup(op, CreateOutcomeUncertain)
    case MarkCreated => At(MarkGranting)
    case MarkGranting => Renew(GrantUser)
    case MarkPending => Activate(0)
    case CleanupRequire(reason) => At(CleanupBegin(reason))
    case CleanupBegin(reason) => Renew(CleanupDrop(reason))
    case ReconcileBegin => Renew(ReconcileDrop)
    case DropBegin => Renew(ManagedDrop)
    case _ => Done
  }

  /** Where it goes on when the write failed: the operation was then overwritten by the zero row. */
  function AfterFail(site: Site): Pc
  {
    match site
    case MarkCreated => EnterCleanup(ZERO, GrantFailed)
    case MarkGranting => EnterCleanup(ZERO, GrantFailed)
    case ReconcileFinish => At(CleanupFail)
    case _ => Done
  }

  /** A failed write leaves the cleanup to the reconciler: the zero row names no upstream user. */
  lemma FailedWriteStops(site: Site)
    ensures AfterFail(site) == if site == ReconcileFinish then At(CleanupFail) else Done
  {
  }

  /** The statement cannot be run: the lease was not renewed, or its window is too short. */
  function AfterNotReady(e: Effect): Pc
  {
    match e
    case CreateUser => Done
    case GrantUser => At(DeferGrant)
    case CleanupDrop(_) => Done
    case ReconcileDrop => Done
    case ManagedDrop => At(DropDefer)
  }

  function AfterCreate(d: Disposition): Pc
  {
    match d
    case CreateNotSent => At(DiscardNotCreated)
    case CreateNotCreated => At(DiscardNotCreated)
    case CreateMayBeApplied => At(MarkUncertain)
    case CreateApplied => At(MarkCreated)
  }

  /** The statement was answered with `reply`; for everything but CREATE only a plain acknowledgement counts. */
  function AfterReply(e: Effect, reply: Reply, op: Row): Pc
  {
    var ok := reply == Packet(0);
    match e
    case CreateUser => AfterCreate(CreateDisposition(true, Packet(0), reply))
    case GrantUser => if ok then At(MarkPending) else EnterCleanup(op, GrantFailed)
    case CleanupDrop(reason) => if ok then At(CleanupFinish(reason)) else At(CleanupFail)
    case ReconcileDrop => if ok then At(ReconcileFinish) else At(CleanupFail)
    case ManagedDrop => if ok then Complete else At(DropDefer)
  }

  /** The call failed before the statement was sent: no connection, or the session setting was refused. */
  function AfterNotSent(e: Effect, op: Row): Pc
  {
    match e
    case CreateUser => AfterCreate(CreateDisposition(true, ReadFailed, ReadFailed))
    case _ => AfterReply(e, ReadFailed, op)
  }
}
