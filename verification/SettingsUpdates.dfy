/**
 Which updates of the system settings are stored. The bounds, and the changes that ask for
 confirmation, are written out here, apart from the protocol.
 */
module SettingsUpdates {
  import opened Strings
  import opened SystemSettings

  /** Settings that this process may store. */
  predicate InBounds(s: Settings, available: set<string>)
  {
    && (s.gatewayMode == "unified" || s.gatewayMode == "independent") && s.gatewayMode in available
    && (s.clientTlsMode == "required" || s.clientTlsMode == "optional")
    && 1 <= s.webRdpTimeout <= 300
    && 1 <= s.retentionDays <= 3650
    && 0 <= s.maxReplayBytes
    && 1 <= s.cleanupBatch <= 1000
    && 65536 <= s.maxClientMessage <= 268435456
    && 4096 <= s.previewBytes <= 1048576
  }

  /** Nothing that protects is given up: what is recorded, kept, redacted, encrypted and asked for. */
  predicate Protects(a: Settings, b: Settings)
  {
    && (a.clientTlsMode == "required" ==> b.clientTlsMode != "optional")
    && (a.loginCaptcha ==> b.loginCaptcha)
    && (b.webRdpUnrecorded ==> a.webRdpUnrecorded)
    && (a.recording ==> b.recording)
    && (b.recordInput ==> a.recordInput)
    && (a.recordCommands ==> b.recordCommands)
    && a.retentionDays <= b.retentionDays
    && (a.maxReplayBytes == 0 ==> b.maxReplayBytes <= 0)
    && (a.maxReplayBytes > 0 ==> b.maxReplayBytes <= 0 || a.maxReplayBytes <= b.maxReplayBytes)
    && a.maxClientMessage == b.maxClientMessage
    && (a.sshRedaction ==> b.sshRedaction)
    && (a.databaseRedaction ==> b.databaseRedaction)
    && b.previewBytes <= a.previewBytes
  }

  lemma RiskyExactlyWhen(a: Settings, b: Settings)
    ensures Risky(a, b) <==> !Protects(a, b)
  {
  }

  /** The preview size an update without one takes. */
  function WithPreview(s: Settings): Settings
  {
    s.(previewBytes := if s.previewBytes == 0 then 65536 else s.previewBytes)
  }

  lemma AcceptableExactlyWhen(s: Settings, available: set<string>)
    ensures Acceptable(s, available) <==> InBounds(WithPreview(s), available)
  {
  }

  lemma CompletedHasPreview(u: Update)
    ensures Completed(u) == u.(settings := WithPreview(u.settings))
  {
  }

  /** What a stored row means is what was accepted. */
  lemma StoredMeansAccepted(s: Settings, available: set<string>)
    requires Acceptable(s, available)
    ensures FromModel(s) == WithPreview(s) && InBounds(FromModel(s), available)
  {
    hide Trim;
    AcceptableExactlyWhen(s, available);
    ModesAreTrimmed();
  }

  /** A row without modes or preview size means the defaults. */
  lemma MissingMeansDefault(s: Settings)
    ensures Trim(s.gatewayMode) == "" ==> FromModel(s).gatewayMode == "unified"
    ensures Trim(s.clientTlsMode) == "" ==> FromModel(s).clientTlsMode == "optional"
    ensures s.previewBytes == 0 ==> FromModel(s).previewBytes == 65536
  {
    hide Trim;
  }

  lemma ProtectsOn(a: Settings, b: Settings, c: Settings, available: set<string>)
    requires Protects(a, b) && Protects(b, c) && InBounds(b, available)
    ensures Protects(a, c)
  {
  }

  // ------------------------------------------------------------------- invariants

  predicate ThreadBounded(available: set<string>, t: Thread)
  {
    match t
    case Booting(baseline) => Acceptable(baseline, available)
    case Loading(u) => Acceptable(u.settings, available)
    case Writing(u, _) => Acceptable(u.settings, available)
    case _ => true
  }

  predicate Bounded(cfg: Config, w: World)
  {
    && (forall k | 0 <= k < |w.history| :: Acceptable(w.history[k], cfg.available))
    && (forall i | 0 <= i < |w.threads| :: ThreadBounded(cfg.available, w.threads[i]))
  }

  /** A thread whose update was not confirmed, and protects what it was compared with. */
  predicate ThreadCautious(t: Thread)
  {
    match t
    case Loading(u) => !u.confirmRisk
    case Writing(u, before) => !u.confirmRisk && Protects(before, u.settings)
    case _ => true
  }

  /** No revision gives up what the one before it protects. */
  predicate Chained(history: seq<Settings>)
  {
    forall k | 1 <= k < |history| :: Protects(FromModel(history[k - 1]), FromModel(history[k]))
  }

  predicate Cautious(w: World)
  {
    && Chained(w.history)
    && (forall i | 0 <= i < |w.threads| :: ThreadCautious(w.threads[i]))
  }

  predicate Compared(w: World, u: Update, t: Thread)
  {
    && t.Writing? && w.row.Some? && t.update == u && t.before == FromModel(w.row.value.settings)
    && (u.confirmRisk || !Risky(t.before, u.settings))
  }

  /** What a thread may do next, with the history it leaves. */
  predicate MovesTo(w: World, t: Thread, t': Thread, history: seq<Settings>)
  {
    match t
    case Booting(baseline) =>
      (t'.Prepared? || t'.Finished?) && history == (if w.row.Some? then w.history else [baseline])
    case Loading(u) =>
      (t'.Finished? || Compared(w, u, t')) && history == w.history
    case Writing(u, before) =>
      && (t'.Written? || t'.Finished?)
      && history == (if w.row.Some? && w.row.value.revision == u.expected then w.history + [u.settings] else w.history)
    case _ => !t'.Booting? && !t'.Loading? && !t'.Writing? && history == w.history
  }

  lemma Steps(cfg: Config, w: World, i: nat)
    requires i < |w.threads|
    ensures var w' := StepThread(cfg, w, i);
            |w'.threads| == |w.threads| && w'.threads == w.threads[i := w'.threads[i]]
            && MovesTo(w, w.threads[i], w'.threads[i], w'.history)
  {
    hide Acceptable, FromModel, ChangedFields, Risky, HotReloadable;
    match w.threads[i] {
      case Booting(_) => BootingSteps(cfg, w, i);
      case Writing(_, _) => WritingSteps(cfg, w, i);
      case Prepared(_, _) => PreparedSteps(cfg, w, i);
      case _ =>
    }
  }

  lemma BootingSteps(cfg: Config, w: World, i: nat)
    requires i < |w.threads| && w.threads[i].Booting?
    ensures var w' := StepThread(cfg, w, i);
            |w'.threads| == |w.threads| && w'.threads == w.threads[i := w'.threads[i]]
            && MovesTo(w, w.threads[i], w'.threads[i], w'.history)
  {
    hide Acceptable, FromModel;
  }

  lemma WritingSteps(cfg: Config, w: World, i: nat)
    requires i < |w.threads| && w.threads[i].Writing?
    ensures var w' := StepThread(cfg, w, i);
            |w'.threads| == |w.threads| && w'.threads == w.threads[i := w'.threads[i]]
            && MovesTo(w, w.threads[i], w'.threads[i], w'.history)
  {
    hide ChangedFields, HotReloadable;
  }

  lemma PreparedSteps(cfg: Config, w: World, i: nat)
    requires i < |w.threads| && w.threads[i].Prepared?
    ensures var w' := StepThread(cfg, w, i);
            |w'.threads| == |w.threads| && w'.threads == w.threads[i := w'.threads[i]]
            && MovesTo(w, w.threads[i], w'.threads[i], w'.history)
  {
    hide FromModel;
  }

  lemma StepBounded(cfg: Config, w: World, i: nat)
    requires Bounded(cfg, w) && i < |w.threads|
    ensures Bounded(cfg, StepThread(cfg, w, i))
  {
    hide Acceptable, StepThread;
    var w' := StepThread(cfg, w, i);
    Steps(cfg, w, i);
    assert ThreadBounded(cfg.available, w.threads[i]);
  }

  lemma NextBounded(cfg: Config, w: World, e: Event)
    requires Bounded(cfg, w) && Next(cfg, w, e).Some? && !e.Elsewhere?
    ensures Bounded(cfg, Next(cfg, w, e).value)
  {
    hide Acceptable, StepThread;
    match e {
      case Boot(_) =>
      case Ask(_) =>
      case Step(i) => StepBounded(cfg, w, i);
      case Fail(_) =>
    }
  }

  predicate Alone(events: seq<Event>)
  {
    forall k | 0 <= k < |events| :: !events[k].Elsewhere?
  }

  predicate Unconfirmed(events: seq<Event>)
  {
    forall k | 0 <= k < |events| :: events[k].Ask? ==> !events[k].update.confirmRisk
  }

  lemma {:induction false} RunBounded(cfg: Config, s: Settings, events: seq<Event>)
    requires Run(cfg, s, events).Some? && Alone(events)
    ensures Bounded(cfg, Run(cfg, s, events).value)
  {
    hide Next, Bounded;
    if events == [] {
      StartBounded(cfg, s);
    } else {
      RunBounded(cfg, s, events[..|events| - 1]);
      NextBounded(cfg, Run(cfg, s, events[..|events| - 1]).value, events[|events| - 1]);
    }
  }

  lemma StartBounded(cfg: Config, s: Settings)
    ensures Bounded(cfg, Start(s)) && Cautious(Start(s))
  {
  }

  lemma ChainGoesOn(history: seq<Settings>, s: Settings)
    requires Chained(history) && history != [] && Protects(FromModel(history[|history| - 1]), FromModel(s))
    ensures Chained(history + [s])
  {
    hide FromModel, Protects;
    var h := history + [s];
    forall k | 1 <= k < |h|
      ensures Protects(FromModel(h[k - 1]), FromModel(h[k]))
    {
      assert k < |history| ==> h[k] == history[k];
      assert h[k - 1] == history[k - 1];
    }
  }

  lemma StepCautious(cfg: Config, w: World, i: nat)
    requires Cautious(w) && Inv(w) && i < |w.threads|
    ensures Cautious(StepThread(cfg, w, i))
  {
    hide FromModel, Risky, Protects, Inv, StepThread, Chained;
    var w', t := StepThread(cfg, w, i), w.threads[i];
    Steps(cfg, w, i);
    assert ThreadCautious(t);
    ThreadsOk(w, i);
    if w'.threads[i].Writing? {
      RiskyExactlyWhen(w'.threads[i].before, w'.threads[i].update.settings);
    }
    if w'.history != w.history {
      HistoryCautious(w, t, w'.history);
    }
  }

  lemma HistoryCautious(w: World, t: Thread, history: seq<Settings>)
    requires Cautious(w) && Inv(w) && ThreadOk(w.history, t) && ThreadCautious(t)
    requires
      || (t.Booting? && history == [t.baseline])
      || (t.Writing? && w.row.Some? && w.row.value.revision == t.update.expected && history == w.history + [t.update.settings])
    ensures Chained(history)
  {
    hide FromModel, Protects;
    if t.Writing? {
      ChainGoesOn(w.history, t.update.settings);
    }
  }

  lemma NextCautious(cfg: Config, w: World, e: Event)
    requires Cautious(w) && Inv(w) && Next(cfg, w, e).Some? && !e.Elsewhere? && (e.Ask? ==> !e.update.confirmRisk)
    ensures Cautious(Next(cfg, w, e).value)
  {
    hide Acceptable, StepThread, Inv, Protects, FromModel;
    match e {
      case Boot(_) =>
      case Ask(_) =>
      case Step(i) => StepCautious(cfg, w, i);
      case Fail(_) =>
    }
  }

  lemma {:induction false} RunCautious(cfg: Config, s: Settings, events: seq<Event>)
    requires Run(cfg, s, events).Some? && Alone(events) && Unconfirmed(events)
    ensures Cautious(Run(cfg, s, events).value)
  {
    hide Next, Cautious, Inv;
    if events == [] {
      StartBounded(cfg, s);
    } else {
      RunCautious(cfg, s, events[..|events| - 1]);
      RunKeeps(cfg, s, events[..|events| - 1]);
      NextCautious(cfg, Run(cfg, s, events[..|events| - 1]).value, events[|events| - 1]);
    }
  }

  // ---------------------------------------------------------------------- results

  /** In every run without other writers, every stored revision is within the bounds. */
  lemma StoredIsInBounds(cfg: Config, s: Settings, events: seq<Event>, k: nat)
    requires Run(cfg, s, events).Some? && Alone(events) && k < |Run(cfg, s, events).value.history|
    ensures InBounds(FromModel(Run(cfg, s, events).value.history[k]), cfg.available)
  {
    hide Acceptable, FromModel, InBounds;
    RunBounded(cfg, s, events);
    StoredMeansAccepted(Run(cfg, s, events).value.history[k], cfg.available);
  }

  /** In every such run in which no update is confirmed, no later revision gives up what an earlier one protects. */
  lemma {:induction false} UnconfirmedProtects(cfg: Config, s: Settings, events: seq<Event>, j: nat, k: nat)
    requires Run(cfg, s, events).Some? && Alone(events) && Unconfirmed(events)
    requires j < k < |Run(cfg, s, events).value.history|
    ensures var h := Run(cfg, s, events).value.history; Protects(FromModel(h[j]), FromModel(h[k]))
    decreases k
  {
    hide Protects, FromModel, InBounds, Run;
    RunCautious(cfg, s, events);
    var h := Run(cfg, s, events).value.history;
    assert Protects(FromModel(h[k - 1]), FromModel(h[k]));
    if j < k - 1 {
      UnconfirmedProtects(cfg, s, events, j, k - 1);
      StoredIsInBounds(cfg, s, events, k - 1);
      ProtectsOn(FromModel(h[j]), FromModel(h[k - 1]), FromModel(h[k]), cfg.available);
    }
  }

  lemma RunThen(cfg: Config, s: Settings, events: seq<Event>, w: World, e: Event)
    requires Run(cfg, s, events) == Some(w)
    ensures Run(cfg, s, events + [e]) == Next(cfg, w, e)
  {
    assert (events + [e])[..|events|] == events;
  }

  /** The update is of the stored revision, changes something, and is confirmed or gives nothing up. */
  predicate Stores(w: World, u: Update)
    requires w.row.Some?
  {
    && u.expected == w.row.value.revision
    && WithPreview(u.settings) != FromModel(w.row.value.settings)
    && (u.confirmRisk || Protects(FromModel(w.row.value.settings), WithPreview(u.settings)))
  }

  /**
   An update that nobody interferes with is taken up if and only if its settings are within the bounds and
   it names a revision; then it is stored, and exactly it, if and only if `Stores` says so.
   */
  lemma StoredExactlyWhen(cfg: Config, s: Settings, events: seq<Event>, w: World, u: Update)
    requires Run(cfg, s, events) == Some(w) && w.bootstrapped && w.row.Some?
    ensures Next(cfg, w, Ask(u)).Some? <==> InBounds(WithPreview(u.settings), cfg.available) && u.expected >= 1
    ensures Next(cfg, w, Ask(u)).Some? ==>
              var i := |w.threads|;
              var after := Run(cfg, s, events + [Ask(u)] + [Step(i)] + [Step(i)]);
              && after.Some? && after.value.row.Some? && after.value.effective == w.effective
              && after.value.history == (if Stores(w, u) then w.history + [WithPreview(u.settings)] else w.history)
              && (after.value.row.value.settings, after.value.row.value.revision) ==
                 (if Stores(w, u) then (WithPreview(u.settings), w.row.value.revision + 1)
                  else (w.row.value.settings, w.row.value.revision))
  {
    hide Run, FromModel, ChangedFields, Risky, HotReloadable, Protects, Acceptable, InBounds;
    AcceptableExactlyWhen(u.settings, cfg.available);
    AcceptableExactlyWhen(WithPreview(u.settings), cfg.available);
    CompletedHasPreview(u);
    if Next(cfg, w, Ask(u)).Some? {
      var i := |w.threads|;
      var before, next := FromModel(w.row.value.settings), WithPreview(u.settings);
      var w1 := Next(cfg, w, Ask(u)).value;
      RunThen(cfg, s, events, w, Ask(u));
      var w2 := Next(cfg, w1, Step(i)).value;
      RunThen(cfg, s, events + [Ask(u)], w1, Step(i));
      RunThen(cfg, s, events + [Ask(u)] + [Step(i)], w2, Step(i));
      ChangedFieldsAreExact(before, next);
      RiskyExactlyWhen(before, next);
    }
  }
}
