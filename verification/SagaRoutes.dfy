/**
 Building runs: each lemma extends a run by what one worker does when nothing goes wrong.
 */
module SagaRoutes {
  import opened SagaStore
  import opened SagaProgram
  import opened SagaWorld

  predicate Reaches(cfg: Config, run: seq<Event>, w: World)
  {
    Run(cfg, run) == Some(w)
  }

  /** The run goes on with steps of one worker only. */
  predicate OnlyBy(more: seq<Event>, id: string, i: nat)
  {
    forall k | 0 <= k < |more| :: more[k].Work? && more[k].id == id && more[k].worker == i
  }

  lemma Extend(cfg: Config, run: seq<Event>, w: World, e: Event) returns (w': World)
    requires Reaches(cfg, run, w) && Next(cfg, w, e).Some?
    ensures w' == Next(cfg, w, e).value && Reaches(cfg, run + [e], w')
  {
    w' := Next(cfg, w, e).value;
    RunOnce(cfg, run, e);
  }

  lemma Wait(cfg: Config, run: seq<Event>, w: World, delay: nat) returns (w': World)
    requires Reaches(cfg, run, w)
    ensures w' == w.(clock := w.clock + delay) && Reaches(cfg, run + [Tick(delay)], w')
  {
    hide Reaches;
    w' := Extend(cfg, run, w, Tick(delay));
  }

  lemma Begin(cfg: Config, run: seq<Event>, w: World, token: string, host: string, holder: Holder) returns (w': World)
    requires Reaches(cfg, run, w) && |token| == TOKEN_LENGTH && OPERATION_PREFIX + token !in w.ops
    ensures w' == w.(ops := w.ops[OPERATION_PREFIX + token := NewOp(cfg, token, host, holder, w.clock)])
    ensures Reaches(cfg, run + [Provision(token, host, holder)], w')
  {
    hide Reaches, NewOp;
    w' := Extend(cfg, run, w, Provision(token, host, holder));
  }

  lemma ClaimNow(cfg: Config, run: seq<Event>, w: World, id: string, holder: Holder) returns (w': World)
    requires Reaches(cfg, run, w) && id in w.ops && ClaimStep(cfg, w.clock, w.ops[id], holder).Some?
    ensures w' == w.(ops := w.ops[id := ClaimStep(cfg, w.clock, w.ops[id], holder).value])
    ensures Reaches(cfg, run + [Claim(id, holder)], w')
  {
    hide Reaches, ClaimStep;
    w' := Extend(cfg, run, w, Claim(id, holder));
  }

  /** Worker i of operation id makes a move. */
  lemma Step(cfg: Config, run: seq<Event>, w: World, id: string, i: nat, move: Move) returns (w': World)
    requires Reaches(cfg, run, w) && id in w.ops && i < |w.ops[id].workers|
    requires WorkerStep(cfg, w.clock, Live(w, id), w.ops[id], i, move).Some?
    ensures Reaches(cfg, run + [Work(id, i, move)], w')
    ensures var m := WorkerStep(cfg, w.clock, Live(w, id), w.ops[id], i, move).value;
            && w'.clock == w.clock && w'.ops == w.ops[id := m.op]
            && w'.upstream == Applied(w.upstream, AccountOf(w.ops[id].workers[i].op), m.statement)
  {
    hide WorkerStep;
    w' := Extend(cfg, run, w, Work(id, i, move));
  }

  /** What a worker's steps leave alone: the clock, other operations, other workers, other users. */
  predicate Local(w: World, w': World, id: string, i: nat)
    requires id in w.ops && i < |w.ops[id].workers|
  {
    && w'.clock == w.clock
    && w'.ops.Keys == w.ops.Keys
    && (forall k | k in w.ops && k != id :: w'.ops[k] == w.ops[k])
    && |w'.ops[id].workers| == |w.ops[id].workers|
    && (forall k | 0 <= k < |w.ops[id].workers| && k != i :: w'.ops[id].workers[k] == w.ops[id].workers[k])
    && AccountOf(w'.ops[id].row) == AccountOf(w.ops[id].row)
    && w'.upstream - {AccountOf(w.ops[id].row)} == w.upstream - {AccountOf(w.ops[id].row)}
  }

  /** The worker holds the stored row under a lease good for now. */
  predicate Holds(w: World, id: string, i: nat)
  {
    && id in w.ops && i < |w.ops[id].workers|
    && w.ops[id].workers[i].op == w.ops[id].row
    && w.ops[id].row.active
    && w.ops[id].row.holder.Some?
    && LeaseValid(w.ops[id].row, w.clock)
  }

  predicate SameUser(w: World, w': World, id: string)
    requires id in w.ops && id in w'.ops
  {
    && w'.upstream == w.upstream
    && w'.ops[id].granted == w.ops[id].granted && w'.ops[id].creates == w.ops[id].creates
  }

  lemma WriteIt(cfg: Config, run: seq<Event>, w: World, id: string, i: nat, site: Site) returns (w': World)
    requires Reaches(cfg, run, w) && Holds(w, id, i) && w.ops[id].workers[i].pc == At(site)
    requires Transition(w.ops[id].row, FenceOf(w.ops[id].row), ChangeAt(site, w.ops[id].row.lastError), w.clock).Some?
    ensures Reaches(cfg, run + [Work(id, i, Write)], w')
    ensures var row := Transition(w.ops[id].row, FenceOf(w.ops[id].row), ChangeAt(site, w.ops[id].row.lastError), w.clock).value;
            w' == w.(ops := w.ops[id := Goto(w.ops[id].(row := row), i, Reread(site, row.revision, w.clock + cfg.cleanupTimeout))])
  {
    hide Reaches, Next, Transition, ChangeAt, OwnsIdentity;
    w' := Step(cfg, run, w, id, i, Write);
  }

  lemma ReadIt(cfg: Config, run: seq<Event>, w: World, id: string, i: nat) returns (w': World)
    requires Reaches(cfg, run, w) && id in w.ops && i < |w.ops[id].workers| && w.ops[id].row.active
    requires var pc := w.ops[id].workers[i].pc;
        pc.Reread? && w.clock < pc.until && (cfg.returnsOwnWrite ==> w.ops[id].row.revision == pc.written)
    ensures Reaches(cfg, run + [Work(id, i, ReadBack)], w')
    ensures w' == w.(ops := w.ops[id := With(w.ops[id], i,
        Worker(w.ops[id].row, AfterOk(w.ops[id].workers[i].pc.site, w.ops[id].row)))])
  {
    hide Reaches, Next, AfterOk, OwnsIdentity;
    w' := Step(cfg, run, w, id, i, ReadBack);
  }

  /** A write that is read back at once. */
  lemma WriteAndRead(cfg: Config, run: seq<Event>, w: World, id: string, i: nat, site: Site) returns (more: seq<Event>, w': World)
    requires cfg.Valid() && Reaches(cfg, run, w) && Holds(w, id, i) && w.ops[id].workers[i].pc == At(site)
    requires var c := ChangeAt(site, w.ops[id].row.lastError);
             ValidChange(w.ops[id].row.stage, c.stage, c.cleanup) && !c.release
    ensures Reaches(cfg, run + more, w') && OnlyBy(more, id, i)
    ensures Local(w, w', id, i) && SameUser(w, w', id) && w'.ops[id].account == w.ops[id].account
    ensures var c := ChangeAt(site, w.ops[id].row.lastError);
            && Holds(w', id, i)
            && Transition(w.ops[id].row, FenceOf(w.ops[id].row), c, w.clock) == Some(w'.ops[id].row)
            && w'.ops[id].workers[i].pc == AfterOk(site, w'.ops[id].row)
            && w'.ops[id].straggler == w.ops[id].straggler
  {
    hide Reaches, Next, WorkerStep, AfterOk, ChangeAt, OwnsIdentity, ValidChange;
    var w1 := WriteIt(cfg, run, w, id, i, site);
    w' := ReadIt(cfg, run + [Work(id, i, Write)], w1, id, i);
    more := [Work(id, i, Write), Work(id, i, ReadBack)];
    assert run + more == run + [Work(id, i, Write)] + [Work(id, i, ReadBack)];
  }

  /** A fresh lease leaves everything but the cleanup timeout for the statement. */
  lemma FullTimeout(cfg: Config)
    requires cfg.Valid()
    ensures Timeout(cfg, cfg.lease) == Some(cfg.lease - cfg.cleanupTimeout)
  {
  }

  lemma StartToRenew(cfg: Config, run: seq<Event>, w: World, id: string, i: nat, e: Effect) returns (w': World)
    requires Reaches(cfg, run, w) && id in w.ops && i < |w.ops[id].workers| && w.ops[id].workers[i].pc == Renew(e)
    ensures Reaches(cfg, run + [Work(id, i, StartRenew)], w')
    ensures w' == w.(ops := w.ops[id := Goto(w.ops[id], i, Renewing(e, w.clock))])
  {
    hide Reaches, Next, OwnsIdentity, Timeout;
    w' := Step(cfg, run, w, id, i, StartRenew);
  }

  lemma RenewFully(cfg: Config, run: seq<Event>, w: World, id: string, i: nat, e: Effect) returns (w': World)
    requires cfg.Valid() && Reaches(cfg, run, w) && Holds(w, id, i) && w.ops[id].workers[i].pc == Renewing(e, w.clock)
    ensures Reaches(cfg, run + [Work(id, i, Renewed(cfg.lease))], w')
    ensures var row := Leased(w.ops[id].row, w.ops[id].row.holder.value, cfg.lease, w.clock);
            w' == w.(ops := w.ops[id := With(w.ops[id].(row := row), i,
                Worker(row, Ready(e, w.clock + cfg.lease - cfg.cleanupTimeout)))])
  {
    hide Reaches, Next, OwnsIdentity, Timeout;
    FullTimeout(cfg);
    w' := Step(cfg, run, w, id, i, Renewed(cfg.lease));
  }

  /** A renewal that leaves time for a statement. */
  lemma RenewInTime(cfg: Config, run: seq<Event>, w: World, id: string, i: nat, e: Effect) returns (more: seq<Event>, w': World)
    requires cfg.Valid() && Reaches(cfg, run, w) && Holds(w, id, i) && w.ops[id].workers[i].pc == Renew(e)
    ensures Reaches(cfg, run + more, w') && OnlyBy(more, id, i)
    ensures Local(w, w', id, i) && SameUser(w, w', id) && w'.ops[id].account == w.ops[id].account
    ensures Holds(w', id, i) && w'.ops[id].workers[i].pc == Ready(e, w.clock + cfg.lease - cfg.cleanupTimeout)
    ensures w'.ops[id].row == Leased(w.ops[id].row, w.ops[id].row.holder.value, cfg.lease, w.clock)
    ensures w'.ops[id].straggler == w.ops[id].straggler
  {
    hide Reaches, Next, WorkerStep;
    var w1 := StartToRenew(cfg, run, w, id, i, e);
    w' := RenewFully(cfg, run + [Work(id, i, StartRenew)], w1, id, i, e);
    more := [Work(id, i, StartRenew), Work(id, i, Renewed(cfg.lease))];
    assert run + more == run + [Work(id, i, StartRenew)] + [Work(id, i, Renewed(cfg.lease))];
  }

  /** A statement is sent. */
  lemma SendIt(cfg: Config, run: seq<Event>, w: World, id: string, i: nat, e: Effect, deadline: nat) returns (w': World)
    requires Reaches(cfg, run, w) && Holds(w, id, i) && w.ops[id].workers[i].pc == Ready(e, deadline) && w.clock < deadline
    ensures Reaches(cfg, run + [Work(id, i, Send)], w') && Local(w, w', id, i) && w'.upstream == w.upstream
    ensures w'.ops[id] == Goto(w.ops[id].(creates := if e.CreateUser? then w.ops[id].creates + 1
        else w.ops[id].creates), i, Sent(e, deadline, false))
  {
    hide Reaches, Next, OwnsIdentity;
    w' := Step(cfg, run, w, id, i, Send);
  }

  lemma DropApplies(cfg: Config, run: seq<Event>, w: World, id: string, i: nat, e: Effect, deadline: nat) returns (w': World)
    requires Reaches(cfg, run, w) && Holds(w, id, i) && IsDrop(e) && w.ops[id].workers[i].pc == Sent(e, deadline, false)
        && w.clock < deadline
    ensures Reaches(cfg, run + [Work(id, i, Apply)], w')
    ensures w' == w.(ops := w.ops[id := Goto(w.ops[id], i, Sent(e, deadline, true))],
        upstream := w.upstream - {AccountOf(w.ops[id].row)})
  {
    hide Reaches, Next, OwnsIdentity, AfterReply;
    w' := Step(cfg, run, w, id, i, Apply);
  }

  lemma DropAnswered(cfg: Config, run: seq<Event>, w: World, id: string, i: nat, e: Effect, deadline: nat) returns (w': World)
    requires Reaches(cfg, run, w) && Holds(w, id, i) && IsDrop(e) && w.ops[id].workers[i].pc == Sent(e, deadline, true)
    ensures Reaches(cfg, run + [Work(id, i, Answer(Packet(0)))], w')
    ensures w' == w.(ops := w.ops[id := Goto(w.ops[id], i, AfterReply(e, Packet(0), w.ops[id].row))])
  {
    hide Reaches, Next, OwnsIdentity, AfterReply;
    w' := Step(cfg, run, w, id, i, Answer(Packet(0)));
  }

  /** DROP USER is sent, takes effect and is acknowledged. */
  lemma DropIt(cfg: Config, run: seq<Event>, w: World, id: string, i: nat, e: Effect, deadline: nat)
      returns (more: seq<Event>, w': World)
    requires Reaches(cfg, run, w) && Holds(w, id, i) && IsDrop(e) && w.ops[id].workers[i].pc == Ready(e, deadline)
        && w.clock < deadline
    ensures Reaches(cfg, run + more, w') && OnlyBy(more, id, i)
    ensures Local(w, w', id, i) && Holds(w', id, i)
    ensures w'.ops[id].row == w.ops[id].row && w'.ops[id].account == w.ops[id].account && !Live(w', id)
    ensures w'.ops[id].straggler == w.ops[id].straggler && w'.ops[id].creates == w.ops[id].creates
    ensures w'.ops[id].workers[i].pc == AfterReply(e, Packet(0), w.ops[id].row)
  {
    hide Reaches, Next, WorkerStep, OwnsIdentity, AfterReply;
    var w1 := SendIt(cfg, run, w, id, i, e, deadline);
    var w2 := DropApplies(cfg, run + [Work(id, i, Send)], w1, id, i, e, deadline);
    w' := DropAnswered(cfg, run + [Work(id, i, Send)] + [Work(id, i, Apply)], w2, id, i, e, deadline);
    more := [Work(id, i, Send), Work(id, i, Apply), Work(id, i, Answer(Packet(0)))];
    assert run + more == run + [Work(id, i, Send)] + [Work(id, i, Apply)] + [Work(id, i, Answer(Packet(0)))];
  }
}
