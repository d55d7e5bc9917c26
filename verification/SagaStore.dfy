/**
 The stored provisioning operation and the writes the store accepts on it. Every
 write names the row it expects (a fence) and is refused if anything differs.
 */
module SagaStore {

  datatype Option<T> = Nothing | Some(value: T)

  datatype Stage =
    | Reserved
    | CreateStarted
    | CreateUncertain
    | UpstreamCreated
    | GrantStarted
    | ActivationPending
    | CleanupRequired
    | CleanupInProgress
    | NotCreated
    | ActiveManaged
    | DeprovisionRequested
    | DropStarted
    | DropUncertain

  datatype Cleanup = NoCleanup | Required | InProgress | Failed

  datatype ErrorCode = NoError | CreateOutcomeUncertain | GrantFailed | ActivationFailed | CleanupFailed

  /** Who holds the lease. */
  datatype Holder = Holder(owner: string, token: string)

  datatype Row = Row(
    id: string,
    username: string,
    host: string,
    stage: Stage,
    cleanup: Cleanup,
    lastError: ErrorCode,
    attempts: nat,
    lastAttempt: Option<nat>,
    createdAt: nat,
    updatedAt: nat,
    revision: nat,
    holder: Option<Holder>,
    expires: Option<nat>,
    active: bool)

  datatype Fence = Fence(id: string, stage: Stage, cleanup: Cleanup, revision: nat, holder: Option<Holder>)

  function FenceOf(r: Row): Fence
  {
    Fence(r.id, r.stage, r.cleanup, r.revision, r.holder)
  }

  /** The row a failed call hands back: every field at its zero value. */
  const ZERO: Row := Row("", "", "", Reserved, NoCleanup, NoError, 0, Nothing, 0, 0, 0, Nothing, Nothing, false)

  datatype Change = Change(stage: Stage, cleanup: Cleanup, lastError: ErrorCode, increment: bool, release: bool)

  predicate Matches(r: Row, f: Fence)
  {
    r.active && FenceOf(r) == f
  }

  predicate LeaseValid(r: Row, now: nat)
  {
    r.expires.Some? && r.expires.value > now
  }

  predicate LeaseFree(r: Row, now: nat)
  {
    r.expires.Nothing? || r.expires.value <= now
  }

  predicate CleanupSource(s: Stage)
  {
    s in {CreateStarted, CreateUncertain, UpstreamCreated, GrantStarted, CleanupRequired, CleanupInProgress}
  }

  /** Which stage may follow which, and with which cleanup status. */
  predicate ValidChange(from: Stage, to: Stage, cleanup: Cleanup)
  {
    match to
    case CreateStarted => from == Reserved && cleanup == NoCleanup
    case UpstreamCreated => from == CreateStarted && cleanup == NoCleanup
    case CreateUncertain => from == CreateStarted && cleanup == Required
    case GrantStarted => from == UpstreamCreated && cleanup == NoCleanup
    case ActivationPending => (from == GrantStarted || from == ActivationPending) && cleanup == NoCleanup
    case NotCreated => from in {Reserved, CreateStarted, CleanupInProgress, NotCreated} && cleanup == NoCleanup
    case DropStarted => (from == DeprovisionRequested || from == DropUncertain) && cleanup == InProgress
    case DropUncertain => from == DropStarted && cleanup == Required
    case CleanupRequired => CleanupSource(from) && (cleanup == Required || cleanup == Failed)
    case CleanupInProgress => CleanupSource(from) && cleanup == InProgress
    case _ => false
  }

  /** A fenced change of stage; it needs a lease that has not run out. */
  function Transition(r: Row, f: Fence, c: Change, now: nat): Option<Row>
  {
    if ValidChange(f.stage, c.stage, c.cleanup) && Matches(r, f) && LeaseValid(r, now) then
      Some(r.(
        stage := c.stage,
        cleanup := c.cleanup,
        lastError := c.lastError,
        attempts := if c.increment then r.attempts + 1 else r.attempts,
        lastAttempt := if c.increment then Some(now) else r.lastAttempt,
        updatedAt := now,
        revision := r.revision + 1,
        holder := if c.release then Nothing else r.holder,
        expires := if c.release then Nothing else r.expires))
    else Nothing
  }

  function Leased(r: Row, h: Holder, duration: nat, now: nat): Row
  {
    r.(holder := Some(h), expires := Some(now + duration), revision := r.revision + 1, updatedAt := now)
  }

  /** A claim takes over a lease that was released or has run out. */
  function ClaimRow(r: Row, f: Fence, h: Holder, duration: nat, now: nat): Option<Row>
  {
    if Matches(r, f) && LeaseFree(r, now) then Some(Leased(r, h, duration, now)) else Nothing
  }

  /** A renewal extends the lease the caller holds. */
  function RenewRow(r: Row, f: Fence, duration: nat, now: nat): Option<Row>
  {
    if f.holder.Some? && Matches(r, f) && LeaseValid(r, now) then Some(Leased(r, f.holder.value, duration, now)) else Nothing
  }

  /** The operation becomes a managed account and gives its lease back. */
  function ActivateRow(r: Row, f: Fence, now: nat): Option<Row>
  {
    if f.stage == ActivationPending && f.cleanup == NoCleanup && Matches(r, f) && LeaseValid(r, now) then
      Some(r.(stage := ActiveManaged, lastError := NoError, holder := Nothing, expires := Nothing,
              revision := r.revision + 1, updatedAt := now))
    else Nothing
  }

  function BeginDeprovisionRow(r: Row, h: Holder, duration: nat, now: nat): Option<Row>
  {
    if r.active && r.stage == ActiveManaged && r.cleanup == NoCleanup && LeaseFree(r, now) then
      Some(Leased(r, h, duration, now).(stage := DeprovisionRequested, cleanup := NoCleanup))
    else Nothing
  }

  /** The operation and its account are retired; the row keeps its stage but is no longer active. */
  function CompleteDeprovisionRow(r: Row, f: Fence, now: nat): Option<Row>
  {
    if f.stage == DropStarted && f.cleanup == InProgress && Matches(r, f) && LeaseValid(r, now) then
      Some(r.(active := false, updatedAt := now))
    else Nothing
  }

  /** What the reconciler's listing offers: the lease is free, and the last attempt is long enough ago. */
  predicate Executable(r: Row, staleAfter: nat, now: nat)
  {
    && r.active
    && LeaseFree(r, now)
    && match r.stage
       case ActivationPending => true
       case Reserved => r.createdAt + staleAfter <= now
       case NotCreated => false
       case ActiveManaged => false
       case _ => (if r.lastAttempt.Some? then r.lastAttempt.value else r.updatedAt) + staleAfter <= now
  }

  const OPERATION_PREFIX := "jmo_"
  const USERNAME_PREFIX := "jm_"
  const TOKEN_LENGTH: nat := 20

  /** Row and upstream user carry the same random token. */
  predicate OwnsIdentity(r: Row)
  {
    && |r.id| == 4 + TOKEN_LENGTH
    && r.id[..4] == OPERATION_PREFIX
    && r.username == USERNAME_PREFIX + r.id[4..]
  }

  /** Two operations never share an upstream user. */
  lemma IdentityIsInjective(a: Row, b: Row)
    requires OwnsIdentity(a) && OwnsIdentity(b) && a.username == b.username
    ensures a.id == b.id
  {
    assert a.username[3..] == a.id[4..] && b.username[3..] == b.id[4..];
    assert a.id == a.id[..4] + a.id[4..] && b.id == b.id[..4] + b.id[4..];
  }

  /** Every accepted write moves the revision on by one. */
  lemma WritesAdvanceRevision(r: Row, f: Fence, c: Change, h: Holder, duration: nat, now: nat)
    ensures Transition(r, f, c, now).Some? ==> f.revision == r.revision && Transition(r, f, c, now).value.revision == r.revision + 1
    ensures ClaimRow(r, f, h, duration, now).Some? ==>
        f.revision == r.revision && ClaimRow(r, f, h, duration, now).value.revision == r.revision + 1
    ensures RenewRow(r, f, duration, now).Some? ==>
        f.revision == r.revision && RenewRow(r, f, duration, now).value.revision == r.revision + 1
    ensures ActivateRow(r, f, now).Some? ==> f.revision == r.revision && ActivateRow(r, f, now).value.revision == r.revision + 1
  {
  }
}
