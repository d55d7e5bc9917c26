/**
 Where a request ends that works alone against a working store, for every way the upstream
 server can meet its three statements.
 */
module SagaOutcomes {
  import opened SagaStore
  import opened SagaProgram
  import opened SagaWorld
  import opened SagaRoutes
  import opened SagaProvisioning

  /** One statement: it was never sent, or the server applied it or not and something came back. */
  datatype Exchange = NotSent | Exchanged(applied: bool, reply: Reply)

  const ACKNOWLEDGED: Exchange := Exchanged(true, Packet(0))
  const REJECTED: Exchange := Exchanged(false, Packet(0xff))

  /** An acknowledgement means that it was applied, an error packet that it was not; no other answer means anything. */
  predicate Possible(x: Exchange)
  {
    x.Exchanged? ==>
      && (x.reply == Packet(0) ==> x.applied)
      && (x.reply == Packet(0xff) ==> !x.applied)
      && x.reply != WriteFailed(0)
  }

  predicate TookEffect(x: Exchange)
  {
    x.Exchanged? && x.applied
  }

  /** What the worker does not touch, over two stretches. */
  lemma LocalThen(a: World, b: World, c: World, id: string, i: nat)
    requires id in a.ops && i < |a.ops[id].workers| && Local(a, b, id, i)
    requires Local(b, c, id, i)
    ensures Local(a, c, id, i)
  {
    var acc := AccountOf(a.ops[id].row);
    forall x | x in c.upstream - {acc} || x in a.upstream - {acc}
      ensures x in c.upstream - {acc} && x in a.upstream - {acc}
    {
      assert x in b.upstream - {acc} <==> x in a.upstream - {acc};
      assert x in c.upstream - {acc} <==> x in b.upstream - {acc};
    }
  }

  /** Where the worker goes on after a statement that was met in this way. */
  function Onward(e: Effect, x: Exchange, r: Row): Pc
  {
    if x.NotSent? then AfterNotSent(e, r) else AfterReply(e, x.reply, r)
  }

  /** What the statement leaves upstream. */
  predicate LiveAfter(e: Effect, x: Exchange, before: bool)
  {
    if !TookEffect(x) then before else if e.CreateUser? then true else if e.GrantUser? then before else false
  }

  predicate GrantedAfter(e: Effect, x: Exchange, before: bool)
  {
    before || (e.GrantUser? && x == ACKNOWLEDGED)
  }

  /** A statement is sent and met. */
  lemma ExchangeIt(cfg: Config, run: seq<Event>, w: World, id: string, i: nat, e: Effect, deadline: nat, x: Exchange)
      returns (more: seq<Event>, w': World)
    requires Reaches(cfg, run, w) && Holds(w, id, i) && Possible(x)
    requires w.ops[id].workers[i].pc == Ready(e, deadline) && w.clock < deadline
    requires TookEffect(x) ==> (e.CreateUser? ==> !Live(w, id)) && (e.GrantUser? ==> Live(w, id))
    ensures Reaches(cfg, run + more, w') && OnlyBy(more, id, i) && Local(w, w', id, i) && Holds(w', id, i)
    ensures w'.ops[id].row == w.ops[id].row && w'.ops[id].account == w.ops[id].account
    ensures w'.ops[id].workers[i].pc == Onward(e, x, w.ops[id].row)
    ensures Live(w', id) == LiveAfter(e, x, Live(w, id)) && w'.ops[id].granted == GrantedAfter(e, x, w.ops[id].granted)
  {
    hide Reaches, Next, WorkerStep, OwnsIdentity, AfterReply, AfterNotSent;
    if x.NotSent? {
      w' := GiveItUp(cfg, run, w, id, i, e, deadline);
      more := [Work(id, i, GiveUp)];
    } else {
      var w1 := SendIt(cfg, run, w, id, i, e, deadline);
      var r1 := run + [Work(id, i, Send)];
      if x.applied {
        var w2 := ApplyIt(cfg, r1, w1, id, i, e, deadline);
        w' := AnswerIt(cfg, r1 + [Work(id, i, Apply)], w2, id, i, e, deadline, true, x.reply);
        more := [Work(id, i, Send), Work(id, i, Apply), Work(id, i, Answer(x.reply))];
        assert run + more == r1 + [Work(id, i, Apply)] + [Work(id, i, Answer(x.reply))];
        LocalThen(w, w1, w2, id, i);
        LocalThen(w, w2, w', id, i);
      } else {
        w' := AnswerIt(cfg, r1, w1, id, i, e, deadline, false, x.reply);
        more := [Work(id, i, Send), Work(id, i, Answer(x.reply))];
        assert run + more == r1 + [Work(id, i, Answer(x.reply))];
        LocalThen(w, w1, w', id, i);
      }
    }
  }

  lemma GiveItUp(cfg: Config, run: seq<Event>, w: World, id: string, i: nat, e: Effect, deadline: nat) returns (w': World)
    requires Reaches(cfg, run, w) && Holds(w, id, i) && w.ops[id].workers[i].pc == Ready(e, deadline)
    ensures Reaches(cfg, run + [Work(id, i, GiveUp)], w')
    ensures w' == w.(ops := w.ops[id := Goto(w.ops[id], i, AfterNotSent(e, w.ops[id].row))])
  {
    hide Reaches, Next, OwnsIdentity, AfterNotSent;
    w' := Step(cfg, run, w, id, i, GiveUp);
  }

  lemma ApplyIt(cfg: Config, run: seq<Event>, w: World, id: string, i: nat, e: Effect, deadline: nat) returns (w': World)
    requires Reaches(cfg, run, w) && Holds(w, id, i)
    requires w.ops[id].workers[i].pc == Sent(e, deadline, false) && w.clock < deadline
    requires (e.CreateUser? ==> !Live(w, id)) && (e.GrantUser? ==> Live(w, id))
    ensures Reaches(cfg, run + [Work(id, i, Apply)], w') && Local(w, w', id, i)
    ensures w'.ops[id] == Goto(w.ops[id], i, Sent(e, deadline, true)) && Live(w', id) == (e.CreateUser? || e.GrantUser?)
  {
    hide Reaches, Next, OwnsIdentity;
    w' := Step(cfg, run, w, id, i, Apply);
  }

  lemma AnswerIt(cfg: Config, run: seq<Event>, w: World, id: string, i: nat, e: Effect, deadline: nat, applied: bool, reply: Reply)
      returns (w': World)
    requires Reaches(cfg, run, w) && Holds(w, id, i) && Possible(Exchanged(applied, reply))
    requires w.ops[id].workers[i].pc == Sent(e, deadline, applied)
    ensures Reaches(cfg, run + [Work(id, i, Answer(reply))], w') && Local(w, w', id, i) && w'.upstream == w.upstream
    ensures w'.ops[id].row == w.ops[id].row && w'.ops[id].account == w.ops[id].account
    ensures w'.ops[id].workers[i] == w.ops[id].workers[i].(pc := AfterReply(e, reply, w.ops[id].row))
    ensures w'.ops[id].granted == (w.ops[id].granted || (e.GrantUser? && reply == Packet(0)))
  {
    hide Reaches, Next, OwnsIdentity, AfterReply;
    w' := Step(cfg, run, w, id, i, Answer(reply));
  }

  /** A renewal and a statement under it. */
  lemma RenewAndExchange(cfg: Config, run: seq<Event>, w: World, id: string, i: nat, e: Effect, x: Exchange)
      returns (more: seq<Event>, w': World)
    requires cfg.Valid() && Reaches(cfg, run, w) && Holds(w, id, i) && Possible(x) && w.ops[id].workers[i].pc == Renew(e)
    requires TookEffect(x) ==> (e.CreateUser? ==> !Live(w, id)) && (e.GrantUser? ==> Live(w, id))
    ensures Reaches(cfg, run + more, w') && OnlyBy(more, id, i) && Local(w, w', id, i) && Holds(w', id, i)
    ensures SameRow(w.ops[id].row, w'.ops[id].row) && w'.ops[id].account == w.ops[id].account
    ensures w'.ops[id].workers[i].pc == Onward(e, x, w'.ops[id].row)
    ensures Live(w', id) == LiveAfter(e, x, Live(w, id)) && w'.ops[id].granted == GrantedAfter(e, x, w.ops[id].granted)
  {
    hide Reaches, Next, WorkerStep, OwnsIdentity, Onward;
    var a, w1 := RenewInTime(cfg, run, w, id, i, e);
    var b, w2 := ExchangeIt(cfg, run + a, w1, id, i, e, w.clock + cfg.lease - cfg.cleanupTimeout, x);
    more, w' := a + b, w2;
    assert run + more == run + a + b;
    LocalThen(w, w1, w2, id, i);
  }

  /** The row up to its lease. */
  predicate SameRow(r: Row, r': Row)
  {
    && r'.id == r.id && r'.username == r.username && r'.host == r.host
    && r'.stage == r.stage && r'.cleanup == r.cleanup
  }

  lemma OwnsAfter(r: Row, r': Row)
    requires OwnsIdentity(r) && r'.id == r.id && r'.username == r.username
    ensures OwnsIdentity(r')
  {
  }

  // ------------------------------------------------------------------ stretches

  /** The request has stored its operation. */
  lemma Starts(cfg: Config, run: seq<Event>, w: World, token: string, host: string, holder: Holder) returns (w': World)
    requires cfg.Valid() && Reaches(cfg, run, w) && |token| == TOKEN_LENGTH && OPERATION_PREFIX + token !in w.ops
    ensures Reaches(cfg, run + [Provision(token, host, holder)], w')
    ensures w' == w.(ops := w.ops[OPERATION_PREFIX + token := NewOp(cfg, token, host, holder, w.clock)])
    ensures var id := OPERATION_PREFIX + token;
            && Holds(w', id, 0) && OwnsIdentity(w'.ops[id].row) && !Live(w', id)
            && AccountOf(w'.ops[id].row) == Account(USERNAME_PREFIX + token, host)
  {
    var id := OPERATION_PREFIX + token;
    UsersAreNamed(cfg, run);
    FreshUser(w, token, host);
    w' := Begin(cfg, run, w, token, host, holder);
    NewIsMine(cfg, token, host, holder, w.clock);
  }

  /** It has said so, and CREATE USER was met. */
  lemma Creates(cfg: Config, run: seq<Event>, w: World, id: string, x: Exchange) returns (more: seq<Event>, w': World)
    requires cfg.Valid() && Reaches(cfg, run, w) && Holds(w, id, 0) && Possible(x) && !Live(w, id)
    requires w.ops[id].workers[0].pc == At(BeginCreate) && w.ops[id].row.stage == Reserved
    ensures Reaches(cfg, run + more, w') && OnlyBy(more, id, 0) && Local(w, w', id, 0) && Holds(w', id, 0)
    ensures w'.ops[id].row.stage == CreateStarted
    ensures w'.ops[id].account == w.ops[id].account && w'.ops[id].granted == w.ops[id].granted
    ensures w'.ops[id].row.id == w.ops[id].row.id && Live(w', id) == TookEffect(x)
    ensures w'.ops[id].workers[0].pc == At(
              if x == ACKNOWLEDGED then MarkCreated else if x.NotSent? || x == REJECTED then DiscardNotCreated else MarkUncertain)
  {
    hide Reaches, Next, WorkerStep, OwnsIdentity;
    var a, w1 := WriteAndRead(cfg, run, w, id, 0, BeginCreate);
    var b, w2 := RenewAndExchange(cfg, run + a, w1, id, 0, CreateUser, x);
    more, w' := a + b, w2;
    assert run + more == run + a + b;
    LocalThen(w, w1, w2, id, 0);
  }

  /** The grants were met. */
  lemma Grants(cfg: Config, run: seq<Event>, w: World, id: string, x: Exchange) returns (more: seq<Event>, w': World)
    requires cfg.Valid() && Reaches(cfg, run, w) && Holds(w, id, 0) && Possible(x) && Live(w, id)
    requires w.ops[id].workers[0].pc == At(MarkCreated) && w.ops[id].row.stage == CreateStarted
    requires OwnsIdentity(w.ops[id].row) && !w.ops[id].granted
    ensures Reaches(cfg, run + more, w') && OnlyBy(more, id, 0) && Local(w, w', id, 0) && Holds(w', id, 0)
    ensures w'.ops[id].row.stage == GrantStarted && w'.ops[id].account == w.ops[id].account && Live(w', id)
    ensures w'.ops[id].granted == (x == ACKNOWLEDGED)
    ensures w'.ops[id].workers[0].pc == At(if x == ACKNOWLEDGED then MarkPending else CleanupRequire(GrantFailed))
  {
    hide Reaches, Next, WorkerStep, OwnsIdentity;
    var a, w1 := WriteTwice(cfg, run, w, id, MarkCreated, MarkGranting);
    var b, w2 := RenewAndExchange(cfg, run + a, w1, id, 0, GrantUser, x);
    OwnsAfter(w.ops[id].row, w2.ops[id].row);
    more, w' := a + b, w2;
    assert run + more == run + a + b;
    LocalThen(w, w1, w2, id, 0);
  }

  /** Two writes in a row. */
  lemma WriteTwice(cfg: Config, run: seq<Event>, w: World, id: string, first: Site, second: Site)
      returns (more: seq<Event>, w': World)
    requires cfg.Valid() && Reaches(cfg, run, w) && Holds(w, id, 0) && w.ops[id].workers[0].pc == At(first)
    requires var c := ChangeAt(first, w.ops[id].row.lastError); ValidChange(w.ops[id].row.stage, c.stage, c.cleanup) && !c.release
    requires forall r: Row :: AfterOk(first, r) == At(second)
    requires forall error: ErrorCode ::
        var c, d := ChangeAt(first, w.ops[id].row.lastError), ChangeAt(second, error);
        ValidChange(c.stage, d.stage, d.cleanup) && !d.release
    ensures Reaches(cfg, run + more, w') && OnlyBy(more, id, 0) && Local(w, w', id, 0) && Holds(w', id, 0)
    ensures w'.ops[id].account == w.ops[id].account && w'.ops[id].granted == w.ops[id].granted && w'.upstream == w.upstream
    ensures exists error: ErrorCode :: w'.ops[id].row.stage == ChangeAt(second, error).stage
    ensures w'.ops[id].row.id == w.ops[id].row.id && w'.ops[id].workers[0].pc == AfterOk(second, w'.ops[id].row)
  {
    hide Reaches, Next, WorkerStep, OwnsIdentity, ChangeAt, AfterOk, ValidChange;
    var a, w1 := WriteAndRead(cfg, run, w, id, 0, first);
    var b, w2 := WriteAndRead(cfg, run + a, w1, id, 0, second);
    more, w' := a + b, w2;
    assert run + more == run + a + b;
    LocalThen(w, w1, w2, id, 0);
  }

  /** Whether the account comes to be managed: two attempts are made, of which the first `failures` fail. */
  predicate Managed(op: Op, failures: nat)
  {
    if failures < 2 then op.row.stage == ActiveManaged && op.row.active && op.account
    else op.row.stage == ActivationPending && op.row.active && op.row.holder.Nothing? && !op.account
  }

  lemma Activates(cfg: Config, run: seq<Event>, w: World, id: string, failures: nat) returns (more: seq<Event>, w': World)
    requires cfg.Valid() && Reaches(cfg, run, w) && Holds(w, id, 0) && !w.ops[id].account && failures <= 2
    requires w.ops[id].workers[0].pc == At(MarkPending) && w.ops[id].row.stage == GrantStarted
    ensures Reaches(cfg, run + more, w') && OnlyBy(more, id, 0) && Local(w, w', id, 0)
    ensures Managed(w'.ops[id], failures) && w'.ops[id].granted == w.ops[id].granted && Live(w', id) == Live(w, id)
  {
    hide Reaches, Next, WorkerStep, OwnsIdentity;
    var a, w1 := WriteAndRead(cfg, run, w, id, 0, MarkPending);
    var b, w2 := Attempts(cfg, run + a, w1, id, 0, failures);
    more, w' := a + b, w2;
    assert run + more == run + a + b;
    LocalThen(w, w1, w2, id, 0);
  }

  /** From the attempt `k` on. */
  lemma {:induction false} Attempts(cfg: Config, run: seq<Event>, w: World, id: string, k: nat, failures: nat)
      returns (more: seq<Event>, w': World)
    requires Reaches(cfg, run, w) && Holds(w, id, 0) && !w.ops[id].account && k <= failures <= 2
    requires w.ops[id].workers[0].pc == (if k < 2 then Activate(k) else At(ReleaseActivation))
    requires w.ops[id].row.stage == ActivationPending && w.ops[id].row.cleanup == NoCleanup
    ensures Reaches(cfg, run + more, w') && OnlyBy(more, id, 0) && Local(w, w', id, 0) && w'.upstream == w.upstream
    ensures Managed(w'.ops[id], failures) && w'.ops[id].granted == w.ops[id].granted
    decreases failures - k
  {
    hide Reaches, Next, WorkerStep, OwnsIdentity;
    if k == 2 {
      w' := LetGo(cfg, run, w, id, 0, ReleaseActivation);
      more := [Work(id, 0, Write)];
    } else if k == failures {
      w' := ActivateOnce(cfg, run, w, id, k);
      more := [Work(id, 0, Activated)];
    } else {
      var w1 := ActivateMisses(cfg, run, w, id, k);
      var b, w2 := Attempts(cfg, run + [Work(id, 0, ActivateFails)], w1, id, k + 1, failures);
      more, w' := [Work(id, 0, ActivateFails)] + b, w2;
      assert run + more == run + [Work(id, 0, ActivateFails)] + b;
      LocalThen(w, w1, w2, id, 0);
    }
  }

  lemma ActivateOnce(cfg: Config, run: seq<Event>, w: World, id: string, k: nat) returns (w': World)
    requires Reaches(cfg, run, w) && Holds(w, id, 0) && w.ops[id].workers[0].pc == Activate(k)
    requires w.ops[id].row.stage == ActivationPending && w.ops[id].row.cleanup == NoCleanup
    ensures Reaches(cfg, run + [Work(id, 0, Activated)], w') && Local(w, w', id, 0) && w'.upstream == w.upstream
    ensures w'.ops[id].row.stage == ActiveManaged && w'.ops[id].row.active && w'.ops[id].account
    ensures w'.ops[id].granted == w.ops[id].granted
  {
    hide Reaches, Next, OwnsIdentity;
    w' := Step(cfg, run, w, id, 0, Activated);
  }

  lemma ActivateMisses(cfg: Config, run: seq<Event>, w: World, id: string, k: nat) returns (w': World)
    requires Reaches(cfg, run, w) && Holds(w, id, 0) && w.ops[id].workers[0].pc == Activate(k) && k < 2
    ensures Reaches(cfg, run + [Work(id, 0, ActivateFails)], w') && Local(w, w', id, 0) && w'.upstream == w.upstream
    ensures Holds(w', id, 0) && w'.ops[id].row == w.ops[id].row && w'.ops[id].account == w.ops[id].account
    ensures w'.ops[id].granted == w.ops[id].granted
    ensures w'.ops[id].workers[0].pc == if k + 1 < 2 then Activate(k + 1) else At(ReleaseActivation)
  {
    hide Reaches, Next, OwnsIdentity, ActivateRow;
    w' := Step(cfg, run, w, id, 0, ActivateFails);
  }

  /** A write that gives the lease back. */
  lemma LetGo(cfg: Config, run: seq<Event>, w: World, id: string, i: nat, site: Site) returns (w': World)
    requires Reaches(cfg, run, w) && Holds(w, id, i) && w.ops[id].workers[i].pc == At(site)
    requires var c := ChangeAt(site, w.ops[id].row.lastError);
             ValidChange(w.ops[id].row.stage, c.stage, c.cleanup) && c.release
    ensures Reaches(cfg, run + [Work(id, i, Write)], w') && Local(w, w', id, i) && w'.upstream == w.upstream
    ensures var c, op := ChangeAt(site, w.ops[id].row.lastError), w'.ops[id];
            && op.row.stage == c.stage && op.row.cleanup == c.cleanup && op.row.holder.Nothing? && op.row.active
            && op.account == w.ops[id].account && op.granted == w.ops[id].granted
  {
    hide Reaches, Next, OwnsIdentity, ChangeAt, ValidChange;
    w' := WriteIt(cfg, run, w, id, i, site);
  }

  /** Cleaning up begins. */
  lemma BeginsCleanup(cfg: Config, run: seq<Event>, w: World, id: string, reason: ErrorCode) returns (more: seq<Event>, w': World)
    requires cfg.Valid() && Reaches(cfg, run, w) && Holds(w, id, 0)
    requires w.ops[id].workers[0].pc == At(CleanupRequire(reason)) && CleanupSource(w.ops[id].row.stage)
    ensures Reaches(cfg, run + more, w') && OnlyBy(more, id, 0) && Local(w, w', id, 0) && Holds(w', id, 0)
    ensures w'.ops[id].account == w.ops[id].account && w'.ops[id].granted == w.ops[id].granted && w'.upstream == w.upstream
    ensures w'.ops[id].row.stage == CleanupInProgress && w'.ops[id].workers[0].pc == Renew(CleanupDrop(reason))
  {
    hide Reaches, Next, WorkerStep, OwnsIdentity;
    more, w' := WriteTwice(cfg, run, w, id, CleanupRequire(reason), CleanupBegin(reason));
  }

  /** Where a DROP USER that was met leads. */
  lemma DropLeadsTo(x: Exchange, reason: ErrorCode, r: Row)
    requires Possible(x)
    ensures Onward(CleanupDrop(reason), x, r) == At(if x == ACKNOWLEDGED then CleanupFinish(reason) else CleanupFail)
    ensures Onward(ReconcileDrop, x, r) == At(if x == ACKNOWLEDGED then ReconcileFinish else CleanupFail)
    ensures Onward(ManagedDrop, x, r) == if x == ACKNOWLEDGED then Complete else At(DropDefer)
  {
  }

  lemma SameLive(w: World, w': World, id: string, i: nat)
    requires id in w.ops && i < |w.ops[id].workers| && Local(w, w', id, i) && w'.upstream == w.upstream
    ensures Live(w', id) == Live(w, id)
  {
  }

  /** And ends with DROP USER acknowledged, or is left to a reconciler. */
  lemma EndsCleanup(cfg: Config, run: seq<Event>, w: World, id: string, reason: ErrorCode, x: Exchange)
      returns (more: seq<Event>, w': World)
    requires cfg.Valid() && Reaches(cfg, run, w) && Holds(w, id, 0) && Possible(x)
    requires w.ops[id].workers[0].pc == Renew(CleanupDrop(reason)) && w.ops[id].row.stage == CleanupInProgress
    ensures Reaches(cfg, run + more, w') && OnlyBy(more, id, 0) && Local(w, w', id, 0)
    ensures w'.ops[id].account == w.ops[id].account && Live(w', id) == (Live(w, id) && !TookEffect(x))
    ensures w'.ops[id].granted == w.ops[id].granted && CleanedUp(w'.ops[id].row, x)
  {
    hide Reaches, Next, WorkerStep, OwnsIdentity, Onward, Local;
    var c, w1 := RenewAndExchange(cfg, run, w, id, 0, CleanupDrop(reason), x);
    DropLeadsTo(x, reason, w1.ops[id].row);
    w' := LetGo(cfg, run + c, w1, id, 0, if x == ACKNOWLEDGED then CleanupFinish(reason) else CleanupFail);
    more := c + [Work(id, 0, Write)];
    assert run + more == run + c + [Work(id, 0, Write)];
    LocalThen(w, w1, w', id, 0);
    SameLive(w1, w', id, 0);
  }

  predicate CleanedUp(r: Row, drop: Exchange)
  {
    && r.active && r.holder.Nothing?
    && if drop == ACKNOWLEDGED then r.stage == NotCreated else r.stage == CleanupRequired && r.cleanup == Failed
  }

  lemma CleansUp(cfg: Config, run: seq<Event>, w: World, id: string, reason: ErrorCode, x: Exchange)
      returns (more: seq<Event>, w': World)
    requires cfg.Valid() && Reaches(cfg, run, w) && Holds(w, id, 0) && Possible(x)
    requires w.ops[id].workers[0].pc == At(CleanupRequire(reason)) && CleanupSource(w.ops[id].row.stage)
    ensures Reaches(cfg, run + more, w') && OnlyBy(more, id, 0) && Local(w, w', id, 0)
    ensures w'.ops[id].account == w.ops[id].account && Live(w', id) == (Live(w, id) && !TookEffect(x))
    ensures w'.ops[id].granted == w.ops[id].granted && CleanedUp(w'.ops[id].row, x)
  {
    hide Reaches, Next, WorkerStep, OwnsIdentity, CleanedUp;
    var a, w1 := BeginsCleanup(cfg, run, w, id, reason);
    var b, w2 := EndsCleanup(cfg, run + a, w1, id, reason, x);
    more, w' := a + b, w2;
    assert run + more == run + a + b;
    LocalThen(w, w1, w2, id, 0);
  }

  /** After an uncertain CREATE USER. */
  lemma CleansUpUncertain(cfg: Config, run: seq<Event>, w: World, id: string, x: Exchange) returns (more: seq<Event>, w': World)
    requires cfg.Valid() && Reaches(cfg, run, w) && Holds(w, id, 0) && Possible(x) && OwnsIdentity(w.ops[id].row)
    requires w.ops[id].workers[0].pc == At(MarkUncertain) && w.ops[id].row.stage == CreateStarted
    ensures Reaches(cfg, run + more, w') && OnlyBy(more, id, 0) && Local(w, w', id, 0)
    ensures w'.ops[id].account == w.ops[id].account && Live(w', id) == (Live(w, id) && !TookEffect(x))
    ensures w'.ops[id].granted == w.ops[id].granted && CleanedUp(w'.ops[id].row, x)
  {
    hide Reaches, Next, WorkerStep, OwnsIdentity, CleanedUp;
    var a, w1 := WriteAndRead(cfg, run, w, id, 0, MarkUncertain);
    OwnsAfter(w.ops[id].row, w1.ops[id].row);
    var b, w2 := CleansUp(cfg, run + a, w1, id, CreateOutcomeUncertain, x);
    more, w' := a + b, w2;
    assert run + more == run + a + b;
    LocalThen(w, w1, w2, id, 0);
  }

  // -------------------------------------------------------------------- results

  /** Where the three answers send the operation. */
  predicate EndsAs(op: Op, live: bool, create: Exchange, grant: Exchange, drop: Exchange, failures: nat)
  {
    if create == ACKNOWLEDGED && grant == ACKNOWLEDGED then
      Managed(op, failures) && op.granted && live
    else if create.NotSent? || create == REJECTED then
      op.row.stage == NotCreated && op.row.holder.Nothing? && !op.account && !op.granted && !live
    else
      && CleanedUp(op.row, drop) && !op.account && !op.granted
      && live == (TookEffect(create) && !TookEffect(drop))
  }

  /** From CREATE USER on. */
  lemma EndsFrom(cfg: Config, run: seq<Event>, w: World, id: string, create: Exchange, grant: Exchange, drop: Exchange,
      failures: nat)
      returns (more: seq<Event>, w': World)
    requires cfg.Valid() && Reaches(cfg, run, w) && Holds(w, id, 0) && OwnsIdentity(w.ops[id].row)
    requires Possible(create) && Possible(grant) && Possible(drop) && failures <= 2
    requires w.ops[id].row.stage == CreateStarted && !w.ops[id].account && !w.ops[id].granted && Live(w, id) == TookEffect(create)
    requires w.ops[id].workers[0].pc == At(
               if create == ACKNOWLEDGED then MarkCreated
               else if create.NotSent? || create == REJECTED then DiscardNotCreated else MarkUncertain)
    ensures Reaches(cfg, run + more, w') && OnlyBy(more, id, 0) && Local(w, w', id, 0)
    ensures EndsAs(w'.ops[id], Live(w', id), create, grant, drop, failures)
  {
    hide Reaches, Next, WorkerStep, OwnsIdentity, CleanedUp, Managed;
    if create == ACKNOWLEDGED {
      var a, w1 := Grants(cfg, run, w, id, grant);
      var b, w2;
      if grant == ACKNOWLEDGED {
        b, w2 := Activates(cfg, run + a, w1, id, failures);
      } else {
        b, w2 := CleansUp(cfg, run + a, w1, id, GrantFailed, drop);
      }
      more, w' := a + b, w2;
      assert run + more == run + a + b;
      LocalThen(w, w1, w2, id, 0);
    } else if create.NotSent? || create == REJECTED {
      w' := LetGo(cfg, run, w, id, 0, DiscardNotCreated);
      more := [Work(id, 0, Write)];
    } else {
      more, w' := CleansUpUncertain(cfg, run, w, id, drop);
    }
  }

  /** What a provisioning leaves alone: other operations, other users, and the clock. */
  predicate OnlyNew(w: World, w': World, id: string, a: Account)
  {
    && id !in w.ops && w'.clock == w.clock
    && w'.ops.Keys == w.ops.Keys + {id} && (forall k | k in w.ops :: w'.ops[k] == w.ops[k])
    && AccountOf(w'.ops[id].row) == a
    && w'.upstream - {a} == w.upstream - {a} && a !in w.upstream
  }

  /**
   From every reachable world of every configuration, a request with a fresh token that works alone
   ends where the answers send it: CREATE and GRANT acknowledged, the user is live and granted, and the
   account managed unless both attempts fail; CREATE surely not applied, nothing was created; otherwise
   the user is dropped, or left to a reconciler.
   */
  lemma RequestEnds(cfg: Config, run: seq<Event>, w: World, token: string, host: string, holder: Holder,
      create: Exchange, grant: Exchange, drop: Exchange, failures: nat)
      returns (steps: seq<Event>, w': World)
    requires cfg.Valid() && Reaches(cfg, run, w) && |token| == 20 && "jmo_" + token !in w.ops
    requires Possible(create) && Possible(grant) && Possible(drop) && failures <= 2
    ensures Reaches(cfg, run + [Provision(token, host, holder)] + steps, w') && OnlyBy(steps, "jmo_" + token, 0)
    ensures OnlyNew(w, w', "jmo_" + token, Account("jm_" + token, host))
    ensures EndsAs(w'.ops["jmo_" + token], Live(w', "jmo_" + token), create, grant, drop, failures)
  {
    hide Reaches, Next, WorkerStep, OwnsIdentity, EndsAs;
    var id := "jmo_" + token;
    var w1 := Starts(cfg, run, w, token, host, holder);
    var r1 := run + [Provision(token, host, holder)];
    var a, w2 := Creates(cfg, r1, w1, id, create);
    OwnsAfter(w1.ops[id].row, w2.ops[id].row);
    var b, w3 := EndsFrom(cfg, r1 + a, w2, id, create, grant, drop, failures);
    steps, w' := a + b, w3;
    assert r1 + steps == r1 + a + b;
    LocalThen(w1, w2, w3, id, 0);
  }

  /** A request that is cancelled before CREATE USER leaves nothing behind. */
  lemma RequestIsCancelled(cfg: Config, run: seq<Event>, w: World, token: string, host: string, holder: Holder)
      returns (steps: seq<Event>, w': World)
    requires cfg.Valid() && Reaches(cfg, run, w) && |token| == 20 && "jmo_" + token !in w.ops
    ensures Reaches(cfg, run + [Provision(token, host, holder)] + steps, w') && OnlyBy(steps, "jmo_" + token, 0)
    ensures OnlyNew(w, w', "jmo_" + token, Account("jm_" + token, host)) && w'.upstream == w.upstream
    ensures var op := w'.ops["jmo_" + token];
            op.row.stage == NotCreated && op.row.holder.Nothing? && !op.account && !op.granted
  {
    hide Reaches, Next, WorkerStep, OwnsIdentity;
    var id := "jmo_" + token;
    var w1 := Starts(cfg, run, w, token, host, holder);
    var r1 := run + [Provision(token, host, holder)];
    var w2 := TurnsAway(cfg, r1, w1, id);
    w' := LetGo(cfg, r1 + [Work(id, 0, Divert)], w2, id, 0, DiscardReserved);
    steps := [Work(id, 0, Divert), Work(id, 0, Write)];
    assert r1 + steps == r1 + [Work(id, 0, Divert)] + [Work(id, 0, Write)];
    LocalThen(w1, w2, w', id, 0);
  }

  lemma TurnsAway(cfg: Config, run: seq<Event>, w: World, id: string) returns (w': World)
    requires Reaches(cfg, run, w) && Holds(w, id, 0) && w.ops[id].workers[0].pc == At(BeginCreate)
    ensures Reaches(cfg, run + [Work(id, 0, Divert)], w') && Local(w, w', id, 0) && w'.upstream == w.upstream && Holds(w', id, 0)
    ensures w'.ops[id].row == w.ops[id].row && w'.ops[id].account == w.ops[id].account && w'.ops[id].granted == w.ops[id].granted
    ensures w'.ops[id].workers[0].pc == At(DiscardReserved)
  {
    hide Reaches, Next, OwnsIdentity;
    w' := Step(cfg, run, w, id, 0, Divert);
  }

  /** So a provisioning can succeed, at once, from every reachable world. */
  lemma RequestSucceeds(cfg: Config, run: seq<Event>, w: World, token: string, host: string, holder: Holder)
      returns (steps: seq<Event>, w': World)
    requires cfg.Valid() && Reaches(cfg, run, w) && |token| == 20 && "jmo_" + token !in w.ops
    ensures Reaches(cfg, run + [Provision(token, host, holder)] + steps, w') && OnlyBy(steps, "jmo_" + token, 0)
    ensures "jmo_" + token in w'.ops && var op := w'.ops["jmo_" + token];
            op.row.stage == ActiveManaged && op.row.active && op.account && op.granted
    ensures w'.upstream == w.upstream + {Account("jm_" + token, host)}
  {
    hide Reaches, Next, WorkerStep, OwnsIdentity;
    steps, w' := RequestEnds(cfg, run, w, token, host, holder, ACKNOWLEDGED, ACKNOWLEDGED, REJECTED, 0);
    OneMore(w.upstream, w'.upstream, Account("jm_" + token, host));
  }

  lemma OneMore(s: set<Account>, s': set<Account>, a: Account)
    requires s' - {a} == s - {a} && a in s'
    ensures s' == s + {a}
  {
    forall x
      ensures x in s' <==> x in s + {a}
    {
      assert x in s' - {a} <==> x in s - {a};
    }
  }
}
