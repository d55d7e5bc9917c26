/**
 The revisioned system settings: one stored row with a revision number, a history that is
 only appended to, and in each process a published pair of effective settings and revision.
 Bootstraps and updates interleave at every call to the store and at every publication.
 */
module SystemSettings {
  import opened Strings

  datatype Option<T> = Nothing | Some(value: T)

  datatype Settings = Settings(
    gatewayMode: string,
    clientTlsMode: string,
    loginCaptcha: bool,
    webRdp: bool,
    webRdpTimeout: int,
    webRdpUnrecorded: bool,
    recording: bool,
    recordInput: bool,
    recordCommands: bool,
    retentionDays: int,
    maxReplayBytes: int,
    cleanupBatch: int,
    maxClientMessage: int,
    sshRedaction: bool,
    databaseRedaction: bool,
    previewBytes: int)

  const UNIFIED := "unified"
  const INDEPENDENT := "independent"
  const REQUIRED := "required"
  const OPTIONAL := "optional"
  const DEFAULT_PREVIEW := 65536

  /** What a stored row means; missing modes and preview size take their defaults. */
  function FromModel(s: Settings): Settings
  {
    s.(gatewayMode := if Trim(s.gatewayMode) == "" then UNIFIED else Trim(s.gatewayMode),
       clientTlsMode := if Trim(s.clientTlsMode) == "" then OPTIONAL else Trim(s.clientTlsMode),
       previewBytes := if s.previewBytes == 0 then DEFAULT_PREVIEW else s.previewBytes)
  }

  /** What the service accepts; `available` are the gateway modes this process can run. */
  predicate Acceptable(s: Settings, available: set<string>)
  {
    var preview := if s.previewBytes == 0 then DEFAULT_PREVIEW else s.previewBytes;
    && (s.gatewayMode == UNIFIED || s.gatewayMode == INDEPENDENT)
    && (s.clientTlsMode == REQUIRED || s.clientTlsMode == OPTIONAL)
    && 1 <= s.webRdpTimeout <= 300
    && 1 <= s.retentionDays <= 3650
    && 0 <= s.maxReplayBytes
    && 1 <= s.cleanupBatch <= 1000
    && 65536 <= s.maxClientMessage <= 268435456
    && 4096 <= preview <= 1048576
    && s.gatewayMode in available
  }

  /** Acceptable settings with a preview size mean themselves. */
  lemma AcceptableMeansItself(s: Settings, available: set<string>)
    requires Acceptable(s, available) && s.previewBytes != 0
    ensures FromModel(s) == s
  {
    hide Trim;
    ModesAreTrimmed();
  }

  lemma ModesAreTrimmed()
    ensures Trim(UNIFIED) == UNIFIED && Trim(INDEPENDENT) == INDEPENDENT && Trim(REQUIRED) == REQUIRED && Trim(OPTIONAL) == OPTIONAL
  {
    hide Trim;
    TrimKeeps(UNIFIED);
    TrimKeeps(INDEPENDENT);
    TrimKeeps(REQUIRED);
    TrimKeeps(OPTIONAL);
  }

  // ---------------------------------------------------------- changes and risks

  datatype Field =
    | GatewayMode | ClientTlsMode | LoginCaptcha | WebRdp | WebRdpTimeout | WebRdpUnrecorded | Recording | RecordInput
    | RecordCommands | RetentionDays | MaxReplayBytes | CleanupBatch | MaxClientMessage | SshRedaction | DatabaseRedaction
    | PreviewBytes

  predicate Differs(a: Settings, b: Settings, f: Field)
  {
    match f
    case GatewayMode => a.gatewayMode != b.gatewayMode
    case ClientTlsMode => a.clientTlsMode != b.clientTlsMode
    case LoginCaptcha => a.loginCaptcha != b.loginCaptcha
    case WebRdp => a.webRdp != b.webRdp
    case WebRdpTimeout => a.webRdpTimeout != b.webRdpTimeout
    case WebRdpUnrecorded => a.webRdpUnrecorded != b.webRdpUnrecorded
    case Recording => a.recording != b.recording
    case RecordInput => a.recordInput != b.recordInput
    case RecordCommands => a.recordCommands != b.recordCommands
    case RetentionDays => a.retentionDays != b.retentionDays
    case MaxReplayBytes => a.maxReplayBytes != b.maxReplayBytes
    case CleanupBatch => a.cleanupBatch != b.cleanupBatch
    case MaxClientMessage => a.maxClientMessage != b.maxClientMessage
    case SshRedaction => a.sshRedaction != b.sshRedaction
    case DatabaseRedaction => a.databaseRedaction != b.databaseRedaction
    case PreviewBytes => a.previewBytes != b.previewBytes
  }

  /** The fields in the order they are compared. */
  const FIELDS: seq<Field> :=
    [GatewayMode, ClientTlsMode, LoginCaptcha, WebRdp, WebRdpTimeout, WebRdpUnrecorded, Recording, RecordInput,
     RecordCommands, RetentionDays, MaxReplayBytes, CleanupBatch, MaxClientMessage, SshRedaction, DatabaseRedaction, PreviewBytes]

  function Differing(a: Settings, b: Settings, fields: seq<Field>): (changed: seq<Field>)
    ensures forall f :: f in changed <==> f in fields && Differs(a, b, f)
  {
    if fields == [] then [] else (if Differs(a, b, fields[0]) then [fields[0]] else []) + Differing(a, b, fields[1..])
  }

  function ChangedFields(a: Settings, b: Settings): seq<Field>
  {
    Differing(a, b, FIELDS)
  }

  lemma AllFields(f: Field)
    ensures f in FIELDS
  {
    assert FIELDS[0] == GatewayMode && FIELDS[1] == ClientTlsMode && FIELDS[2] == LoginCaptcha && FIELDS[3] == WebRdp;
    assert FIELDS[4] == WebRdpTimeout && FIELDS[5] == WebRdpUnrecorded && FIELDS[6] == Recording && FIELDS[7] == RecordInput;
    assert FIELDS[8] == RecordCommands && FIELDS[9] == RetentionDays && FIELDS[10] == MaxReplayBytes && FIELDS[11] == CleanupBatch;
    assert FIELDS[12] == MaxClientMessage && FIELDS[13] == SshRedaction && FIELDS[14] == DatabaseRedaction
        && FIELDS[15] == PreviewBytes;
  }

  /** Changes that take effect without a restart. */
  predicate HotReloadable(fields: seq<Field>)
  {
    fields != [] && forall f | f in fields :: f == LoginCaptcha
  }

  /** Everything but the one field that may change at run time. */
  predicate SameCold(a: Settings, b: Settings)
  {
    a == b.(loginCaptcha := a.loginCaptcha)
  }

  lemma SameColdIsEquivalence(a: Settings, b: Settings, c: Settings)
    ensures SameCold(a, b) ==> SameCold(b, a)
    ensures SameCold(a, b) && SameCold(b, c) ==> SameCold(a, c)
  {
  }

  /** A field is listed exactly when it differs; so a hot change is a change of that field alone. */
  lemma ChangedFieldsAreExact(a: Settings, b: Settings)
    ensures ChangedFields(a, b) == [] <==> a == b
    ensures HotReloadable(ChangedFields(a, b)) <==> SameCold(a, b) && a != b
  {
    hide Differing, Differs;
    forall f
      ensures f in ChangedFields(a, b) <==> Differs(a, b, f)
    {
      AllFields(f);
    }
    var fs := ChangedFields(a, b);
    if fs != [] {
      assert fs[0] in fs;
      DiffersInDeed(a, b, fs[0]);
    }
    if !SameCold(a, b) {
      var f := ColdDifference(a, b);
      assert f in fs;
    } else {
      forall f | f in fs
        ensures f == LoginCaptcha
      {
        DiffersInDeed(a, b, f);
      }
      if a != b {
        OnlyCaptcha(a, b);
        assert LoginCaptcha in fs;
      }
    }
  }

  lemma DiffersInDeed(a: Settings, b: Settings, f: Field)
    requires Differs(a, b, f)
    ensures a != b && (SameCold(a, b) ==> f == LoginCaptcha)
  {
  }

  lemma ColdDifference(a: Settings, b: Settings) returns (f: Field)
    requires !SameCold(a, b)
    ensures Differs(a, b, f) && f != LoginCaptcha
  {
    f := if a.gatewayMode != b.gatewayMode then GatewayMode
         else if a.clientTlsMode != b.clientTlsMode then ClientTlsMode
         else if a.webRdp != b.webRdp then WebRdp
         else if a.webRdpTimeout != b.webRdpTimeout then WebRdpTimeout
         else if a.webRdpUnrecorded != b.webRdpUnrecorded then WebRdpUnrecorded
         else if a.recording != b.recording then Recording
         else if a.recordInput != b.recordInput then RecordInput
         else if a.recordCommands != b.recordCommands then RecordCommands
         else if a.retentionDays != b.retentionDays then RetentionDays
         else if a.maxReplayBytes != b.maxReplayBytes then MaxReplayBytes
         else if a.cleanupBatch != b.cleanupBatch then CleanupBatch
         else if a.maxClientMessage != b.maxClientMessage then MaxClientMessage
         else if a.sshRedaction != b.sshRedaction then SshRedaction
         else if a.databaseRedaction != b.databaseRedaction then DatabaseRedaction
         else PreviewBytes;
  }

  lemma OnlyCaptcha(a: Settings, b: Settings)
    requires SameCold(a, b) && a != b
    ensures Differs(a, b, LoginCaptcha)
  {
  }

  /** Some change asks for confirmation. */
  predicate Risky(a: Settings, b: Settings)
  {
    || (a.clientTlsMode == REQUIRED && b.clientTlsMode == OPTIONAL)
    || (a.loginCaptcha && !b.loginCaptcha)
    || (!a.webRdpUnrecorded && b.webRdpUnrecorded)
    || (a.recording && !b.recording)
    || (!a.recordInput && b.recordInput)
    || (a.recordCommands && !b.recordCommands)
    || b.retentionDays < a.retentionDays
    || (a.maxReplayBytes == 0 && b.maxReplayBytes > 0)
        || (a.maxReplayBytes > 0 && b.maxReplayBytes > 0 && b.maxReplayBytes < a.maxReplayBytes)
    || a.maxClientMessage != b.maxClientMessage
    || (a.sshRedaction && !b.sshRedaction)
    || (a.databaseRedaction && !b.databaseRedaction)
    || b.previewBytes > a.previewBytes
  }

  // ------------------------------------------------------------------ protocol

  datatype Row = Row(settings: Settings, revision: nat, applied: nat)

  datatype Update = Update(settings: Settings, expected: int, confirmRisk: bool)

  /** Where a call stands between two accesses to shared state. */
  datatype Thread =
    | Booting(baseline: Settings)
    | Prepared(settings: Settings, revision: nat)
    | Booted(settings: Settings, revision: nat)
    | Loading(update: Update)
    | Writing(update: Update, before: Settings)
    | Written(settings: Settings, revision: nat)
    | Applied(settings: Settings, revision: nat)
    | Marked(settings: Settings, revision: nat)
    | Finished

  datatype World = World(
    row: Option<Row>,
    /** The settings of revision 1, 2, ... as stored. */
    history: seq<Settings>,
    effective: Settings,
    effectiveRevision: nat,
    bootstrapped: bool,
    /** The captcha switch as the running server was last given it, and the revision it came from. */
    given: bool,
    givenRevision: nat,
    threads: seq<Thread>)

  datatype Event =
    | Boot(baseline: Settings)
    | Ask(update: Update)
    | Step(i: nat)
    | Fail(i: nat)
    /** Another process writes a revision. */
    | Elsewhere(settings: Settings)

  datatype Config = Config(available: set<string>, hasAppliers: bool)

  function Goto(w: World, i: nat, t: Thread): World
    requires i < |w.threads|
  {
    w.(threads := w.threads[i := t])
  }

  function Append(w: World, s: Settings): World
    requires w.row.Some?
  {
    w.(row := Some(Row(s, w.row.value.revision + 1, w.row.value.applied)), history := w.history + [s])
  }

  /** Marking a revision applied succeeds only while it is the stored one. */
  function Mark(w: World, revision: nat): Option<World>
  {
    if w.row.Some? && w.row.value.revision == revision then Some(w.(row := Some(w.row.value.(applied := revision)))) else Nothing
  }

  function StepThread(cfg: Config, w: World, i: nat): World
    requires i < |w.threads|
  {
    match w.threads[i]
    case Booting(baseline) =>
      var w1 := if w.row.Some? then w else w.(row := Some(Row(baseline, 1, 0)), history := [baseline]);
      var prepared := FromModel(w1.row.value.settings);
      if Acceptable(prepared, cfg.available) then Goto(w1, i, Prepared(prepared, w1.row.value.revision)) else Goto(w1, i, Finished)
    case Prepared(settings, revision) =>
      var marked := Mark(w, revision);
      if marked.Some? && FromModel(marked.value.row.value.settings) == settings
          then Goto(marked.value, i, Booted(settings, revision))
      else Goto(if marked.Some? then marked.value else w, i, Finished)
    case Booted(settings, revision) =>
      // The server is set up from what is published here.
      Goto(w.(effective := settings, effectiveRevision := revision, bootstrapped := true,
              given := settings.loginCaptcha, givenRevision := revision), i, Finished)
    case Loading(u) =>
      if w.row.Nothing? || w.row.value.revision != u.expected then Goto(w, i, Finished)
      else
        var before := FromModel(w.row.value.settings);
        if ChangedFields(before, u.settings) == [] || (Risky(before, u.settings) && !u.confirmRisk) then Goto(w, i, Finished)
        else Goto(w, i, Writing(u, before))
    case Writing(u, before) =>
      if w.row.Some? && w.row.value.revision == u.expected then
        var w1 := Append(w, u.settings);
        if HotReloadable(ChangedFields(before, u.settings))
            && cfg.hasAppliers then Goto(w1, i, Written(u.settings, w1.row.value.revision))
        else Goto(w1, i, Finished)
      else Goto(w, i, Finished)
    case Written(settings, revision) =>
      Goto(w.(given := settings.loginCaptcha, givenRevision := revision), i, Applied(settings, revision))
    case Applied(settings, revision) =>
      var marked := Mark(w, revision);
      if marked.Some? then Goto(marked.value, i, Marked(settings, revision)) else Goto(w, i, Finished)
    case Marked(settings, revision) =>
      Goto(w.(effective := settings, effectiveRevision := revision), i, Finished)
    case Finished => w
  }

  /** An update without a preview size takes the default. */
  function Completed(u: Update): Update
  {
    u.(settings := u.settings.(previewBytes := if u.settings.previewBytes == 0 then DEFAULT_PREVIEW else u.settings.previewBytes))
  }

  function Next(cfg: Config, w: World, e: Event): Option<World>
  {
    match e
    case Boot(baseline) =>
      if Acceptable(baseline, cfg.available) then Some(w.(threads := w.threads + [Booting(baseline)])) else Nothing
    case Ask(u) =>
      if w.bootstrapped && Acceptable(Completed(u).settings, cfg.available) && u.expected >= 1 then
        Some(w.(threads := w.threads + [Loading(Completed(u))]))
      else Nothing
    case Step(i) => if i < |w.threads| then Some(StepThread(cfg, w, i)) else Nothing
    case Fail(i) => if i < |w.threads| then Some(Goto(w, i, Finished)) else Nothing
    case Elsewhere(s) => if w.row.Some? then Some(Append(w, s)) else Nothing
  }

  function Start(s: Settings): World
  {
    World(Nothing, [], s, 0, false, s.loginCaptcha, 0, [])
  }

  function Run(cfg: Config, s: Settings, events: seq<Event>): Option<World>
  {
    if events == [] then Some(Start(s))
    else
      var before := Run(cfg, s, events[..|events| - 1]);
      if before.Some? then Next(cfg, before.value, events[|events| - 1]) else Nothing
  }

  // ----------------------------------------------------------------- invariant

  predicate Entry(history: seq<Settings>, s: Settings, revision: nat)
  {
    1 <= revision <= |history| && FromModel(history[revision - 1]) == s
  }

  predicate ThreadOk(history: seq<Settings>, t: Thread)
  {
    match t
    case Booting(_) => true
    case Prepared(s, n) => Entry(history, s, n)
    case Booted(s, n) => Entry(history, s, n)
    case Loading(u) => FromModel(u.settings) == u.settings && u.expected >= 1
    case Writing(u, before) => FromModel(u.settings) == u.settings && u.expected >= 1 && Entry(history, before, u.expected)
    case Written(s, n) => Entry(history, s, n) && HotEntry(history, s, n)
    case Applied(s, n) => Entry(history, s, n) && HotEntry(history, s, n)
    case Marked(s, n) => Entry(history, s, n) && HotEntry(history, s, n)
    case Finished => true
  }

  /** The revision differs from the one before it in the run-time field, and in that alone. */
  predicate HotEntry(history: seq<Settings>, s: Settings, n: nat)
  {
    2 <= n <= |history| && SameCold(FromModel(history[n - 2]), s) && FromModel(history[n - 2]) != s
  }

  /** The captcha switch of a revision. */
  predicate Switch(history: seq<Settings>, on: bool, n: nat)
  {
    1 <= n <= |history| && FromModel(history[n - 1]).loginCaptcha == on
  }

  predicate Inv(w: World)
  {
    && (if w.row.Some? then w.row.value.revision == |w.history| >= 1
        && w.row.value.settings == w.history[|w.history| - 1] else w.history == [])
    && (w.bootstrapped ==> Entry(w.history, w.effective, w.effectiveRevision))
    && (w.bootstrapped ==> Switch(w.history, w.given, w.givenRevision))
    && w.effectiveRevision <= |w.history|
    && forall i | 0 <= i < |w.threads| :: ThreadOk(w.history, w.threads[i])
  }

  /** The history is only appended to, so what was an entry stays one. */
  lemma EntriesStay(history: seq<Settings>, more: seq<Settings>, t: Thread)
    requires ThreadOk(history, t)
    ensures ThreadOk(history + more, t)
  {
  }

  lemma AppendKeeps(w: World, s: Settings)
    requires Inv(w) && w.row.Some?
    ensures Inv(Append(w, s)) && Entry(Append(w, s).history, FromModel(s), |w.history| + 1)
  {
    hide ThreadOk, FromModel;
    forall i | 0 <= i < |w.threads|
      ensures ThreadOk(w.history + [s], w.threads[i])
    {
      EntriesStay(w.history, [s], w.threads[i]);
    }
  }

  lemma GotoKeeps(w: World, i: nat, t: Thread)
    requires Inv(w) && i < |w.threads| && ThreadOk(w.history, t)
    ensures Inv(Goto(w, i, t))
  {
    hide ThreadOk, FromModel;
  }

  lemma StepKeeps(cfg: Config, w: World, i: nat)
    requires Inv(w) && i < |w.threads|
    ensures Inv(StepThread(cfg, w, i)) && w.history <= StepThread(cfg, w, i).history
  {
    hide FromModel, Acceptable, Risky, ChangedFields, HotReloadable, SameCold, Inv;
    var t := w.threads[i];
    ThreadsOk(w, i);
    match t {
      case Booting(baseline) => BootingKeeps(cfg, w, i);
      case Prepared(s, n) => MarkKeeps(w, n); PreparedKeeps(cfg, w, i);
      case Booted(s, n) => BootKeeps(w, i, s, n);
      case Loading(u) => LoadingKeeps(cfg, w, i);
      case Writing(u, before) => WritingKeeps(cfg, w, i);
      case Written(s, n) => GiveKeeps(w, i, s, n);
      case Applied(s, n) => AppliedKeeps(cfg, w, i);
      case Marked(s, n) => PublishKeeps(w, i, s, n);
      case Finished =>
    }
  }

  lemma ThreadsOk(w: World, i: nat)
    requires Inv(w) && i < |w.threads|
    ensures ThreadOk(w.history, w.threads[i])
  {
  }

  lemma BootingKeeps(cfg: Config, w: World, i: nat)
    requires Inv(w) && i < |w.threads| && w.threads[i].Booting?
    ensures Inv(StepThread(cfg, w, i)) && w.history <= StepThread(cfg, w, i).history
  {
    hide FromModel, Acceptable;
    var baseline := w.threads[i].baseline;
    if w.row.Nothing? {
      forall j | 0 <= j < |w.threads|
        ensures ThreadOk([baseline], w.threads[j])
      {
        EntriesStay([], [baseline], w.threads[j]);
      }
    }
  }

  lemma MarkKeeps(w: World, n: nat)
    requires Inv(w)
    ensures Mark(w, n).Some? ==>
        Inv(Mark(w, n).value) && Mark(w, n).value.history == w.history && Mark(w, n).value.threads == w.threads
  {
    hide FromModel;
  }

  lemma PreparedKeeps(cfg: Config, w: World, i: nat)
    requires Inv(w) && i < |w.threads| && w.threads[i].Prepared?
    ensures Inv(StepThread(cfg, w, i)) && w.history <= StepThread(cfg, w, i).history
  {
    hide FromModel;
    assert ThreadOk(w.history, w.threads[i]);
  }

  lemma PublishKeeps(w: World, i: nat, s: Settings, n: nat)
    requires Inv(w) && i < |w.threads| && Entry(w.history, s, n)
    ensures Inv(Goto(w.(effective := s, effectiveRevision := n), i, Finished))
  {
    hide FromModel;
  }

  lemma BootKeeps(w: World, i: nat, s: Settings, n: nat)
    requires Inv(w) && i < |w.threads| && Entry(w.history, s, n)
    ensures Inv(Goto(w.(effective := s, effectiveRevision := n, bootstrapped := true,
                        given := s.loginCaptcha, givenRevision := n), i, Finished))
  {
    hide FromModel;
  }

  lemma GiveKeeps(w: World, i: nat, s: Settings, n: nat)
    requires Inv(w) && i < |w.threads| && Entry(w.history, s, n) && HotEntry(w.history, s, n)
    ensures Inv(Goto(w.(given := s.loginCaptcha, givenRevision := n), i, Applied(s, n)))
  {
    hide FromModel, SameCold;
  }

  lemma LoadingKeeps(cfg: Config, w: World, i: nat)
    requires Inv(w) && i < |w.threads| && w.threads[i].Loading?
    ensures Inv(StepThread(cfg, w, i)) && w.history <= StepThread(cfg, w, i).history
  {
    hide FromModel, ChangedFields, Risky;
    assert ThreadOk(w.history, w.threads[i]);
  }

  lemma WritingKeeps(cfg: Config, w: World, i: nat)
    requires Inv(w) && i < |w.threads| && w.threads[i].Writing?
    ensures Inv(StepThread(cfg, w, i)) && w.history <= StepThread(cfg, w, i).history
  {
    hide FromModel, ChangedFields, HotReloadable, SameCold;
    var u, before := w.threads[i].update, w.threads[i].before;
    assert ThreadOk(w.history, w.threads[i]);
    if w.row.Some? && w.row.value.revision == u.expected {
      AppendKeeps(w, u.settings);
      ChangedFieldsAreExact(before, u.settings);
    }
  }

  lemma AppliedKeeps(cfg: Config, w: World, i: nat)
    requires Inv(w) && i < |w.threads| && w.threads[i].Applied?
    ensures Inv(StepThread(cfg, w, i)) && w.history <= StepThread(cfg, w, i).history
  {
    hide FromModel, SameCold;
    assert ThreadOk(w.history, w.threads[i]);
  }

  lemma NextKeeps(cfg: Config, w: World, e: Event)
    requires Inv(w) && Next(cfg, w, e).Some?
    ensures Inv(Next(cfg, w, e).value) && w.history <= Next(cfg, w, e).value.history
  {
    hide FromModel, StepThread;
    match e {
      case Boot(_) =>
      case Ask(u) =>
        AcceptableMeansItself(Completed(u).settings, cfg.available);
      case Step(i) => StepKeeps(cfg, w, i);
      case Fail(i) => GotoKeeps(w, i, Finished);
      case Elsewhere(s) => AppendKeeps(w, s);
    }
  }

  lemma {:induction false} RunKeeps(cfg: Config, s: Settings, events: seq<Event>)
    requires Run(cfg, s, events).Some?
    ensures Inv(Run(cfg, s, events).value)
  {
    if events != [] {
      RunKeeps(cfg, s, events[..|events| - 1]);
      NextKeeps(cfg, Run(cfg, s, events[..|events| - 1]).value, events[|events| - 1]);
    }
  }

  // ------------------------------------------------------------------- results

  /** In every interleaving, what is in effect is an entry of the history, under its number. */
  lemma EffectiveIsARevision(cfg: Config, s: Settings, events: seq<Event>)
    requires Run(cfg, s, events).Some? && Run(cfg, s, events).value.bootstrapped
    ensures var w := Run(cfg, s, events).value; Entry(w.history, w.effective, w.effectiveRevision)
  {
    RunKeeps(cfg, s, events);
  }

  lemma {:induction false} HistoryIsKept(cfg: Config, s: Settings, events: seq<Event>, more: seq<Event>)
    requires Run(cfg, s, events + more).Some?
    ensures Run(cfg, s, events).Some? && Run(cfg, s, events).value.history <= Run(cfg, s, events + more).value.history
    decreases |more|
  {
    if more == [] {
      assert events + more == events;
    } else {
      var n := |more| - 1;
      var all := events + more;
      assert all[..|all| - 1] == events + more[..n];
      HistoryIsKept(cfg, s, events, more[..n]);
      RunKeeps(cfg, s, events + more[..n]);
      NextKeeps(cfg, Run(cfg, s, events + more[..n]).value, all[|all| - 1]);
    }
  }

  /**
   So when no restart is reported pending the desired settings are in effect: the row may have been
   loaded at any time before the effective pair is read.
   */
  lemma NoRestartPending(cfg: Config, s: Settings, events: seq<Event>, more: seq<Event>)
    requires Run(cfg, s, events + more).Some? && Run(cfg, s, events).Some? && Run(cfg, s, events).value.row.Some?
    requires var loaded, w := Run(cfg, s, events).value.row.value, Run(cfg, s, events + more).value;
             w.bootstrapped && loaded.revision == w.effectiveRevision
    ensures var loaded, w := Run(cfg, s, events).value.row.value, Run(cfg, s, events + more).value;
            w.effective == FromModel(loaded.settings)
  {
    hide FromModel, Next, Run;
    RunKeeps(cfg, s, events);
    RunKeeps(cfg, s, events + more);
    HistoryIsKept(cfg, s, events, more);
  }

  // ------------------------------------------------------------ going back

  predicate Publishes(w: World, e: Event)
  {
    e.Step? && e.i < |w.threads| && (w.threads[e.i].Booted? || w.threads[e.i].Marked?)
  }

  /** The guard a publication lacks: what it publishes is not older than what is in effect. */
  predicate Guarded(w: World, e: Event)
  {
    Publishes(w, e) ==> w.effectiveRevision <= w.threads[e.i].revision
  }

  predicate AllGuarded(cfg: Config, s: Settings, events: seq<Event>)
  {
    events == [] ||
    var init := events[..|events| - 1];
    AllGuarded(cfg, s, init) && Run(cfg, s, init).Some? && Guarded(Run(cfg, s, init).value, events[|events| - 1])
  }

  /** The revision in effect after the first k events. */
  function RevisionAt(cfg: Config, s: Settings, events: seq<Event>, k: nat): nat
    requires k <= |events|
  {
    if Run(cfg, s, events[..k]).Some? then Run(cfg, s, events[..k]).value.effectiveRevision else 0
  }

  /** It never goes down in the course of the run. */
  predicate OnlyUp(cfg: Config, s: Settings, events: seq<Event>)
  {
    forall j, k | 0 <= j <= k <= |events| :: RevisionAt(cfg, s, events, j) <= RevisionAt(cfg, s, events, k)
  }

  lemma StepForwardExactlyWhen(cfg: Config, w: World, e: Event)
    requires Next(cfg, w, e).Some?
    ensures w.effectiveRevision <= Next(cfg, w, e).value.effectiveRevision <==> Guarded(w, e)
    ensures !Publishes(w, e) ==> Next(cfg, w, e).value.effectiveRevision == w.effectiveRevision
  {
    hide FromModel, Acceptable, ChangedFields, HotReloadable, Risky;
  }

  lemma RevisionOfPrefix(cfg: Config, s: Settings, events: seq<Event>, m: nat, k: nat)
    requires k <= m <= |events|
    ensures RevisionAt(cfg, s, events[..m], k) == RevisionAt(cfg, s, events, k)
  {
    assert events[..m][..k] == events[..k];
  }

  /** In every run the revision in effect only goes up if and only if every publication meets the guard. */
  lemma {:induction false} OnlyUpExactlyWhen(cfg: Config, s: Settings, events: seq<Event>)
    requires Run(cfg, s, events).Some?
    ensures OnlyUp(cfg, s, events) <==> AllGuarded(cfg, s, events)
  {
    hide Next, Guarded, RevisionAt;
    if events != [] {
      var n := |events| - 1;
      var init := events[..n];
      OnlyUpExactlyWhen(cfg, s, init);
      StepForwardExactlyWhen(cfg, Run(cfg, s, init).value, events[n]);
      LastTwo(cfg, s, events);
      forall k | 0 <= k <= n
        ensures RevisionAt(cfg, s, init, k) == RevisionAt(cfg, s, events, k)
      {
        RevisionOfPrefix(cfg, s, events, n, k);
      }
      if OnlyUp(cfg, s, events) {
        assert RevisionAt(cfg, s, events, n) <= RevisionAt(cfg, s, events, n + 1);
      }
    }
  }

  lemma LastTwo(cfg: Config, s: Settings, events: seq<Event>)
    requires Run(cfg, s, events).Some? && events != []
    ensures Run(cfg, s, events[..|events| - 1]).Some?
    ensures RevisionAt(cfg, s, events, |events|) == Run(cfg, s, events).value.effectiveRevision
    ensures RevisionAt(cfg, s, events, |events| - 1) == Run(cfg, s, events[..|events| - 1]).value.effectiveRevision
  {
    assert events[..|events|] == events;
  }

  /** The call is about to publish, and no later revision has been stored since it was marked. */
  predicate Timely(w: World, e: Event)
  {
    Publishes(w, e) ==> w.row.Some? && w.threads[e.i].revision == w.row.value.revision
  }

  predicate AllTimely(cfg: Config, s: Settings, events: seq<Event>)
  {
    events == [] ||
    var init := events[..|events| - 1];
    AllTimely(cfg, s, init) && Run(cfg, s, init).Some? && Timely(Run(cfg, s, init).value, events[|events| - 1])
  }

  lemma {:induction false} TimelyIsGuarded(cfg: Config, s: Settings, events: seq<Event>)
    requires Run(cfg, s, events).Some? && AllTimely(cfg, s, events)
    ensures AllGuarded(cfg, s, events)
  {
    hide Next;
    if events != [] {
      TimelyIsGuarded(cfg, s, events[..|events| - 1]);
      RunKeeps(cfg, s, events[..|events| - 1]);
    }
  }

  /** So while publications are not overtaken by a later stored revision, the revision in effect only goes up. */
  lemma NeverGoesBack(cfg: Config, s: Settings, events: seq<Event>)
    requires Run(cfg, s, events).Some? && AllTimely(cfg, s, events)
    ensures OnlyUp(cfg, s, events)
  {
    TimelyIsGuarded(cfg, s, events);
    OnlyUpExactlyWhen(cfg, s, events);
  }

  // ------------------------------------------------- what the server was given

  /**
   In every interleaving the running server has the switch of some stored revision, and it has the
   switch that is in effect exactly when that revision and the effective one agree on it.
   */
  lemma ServerAgreesExactlyWhen(cfg: Config, s: Settings, events: seq<Event>)
    requires Run(cfg, s, events).Some? && Run(cfg, s, events).value.bootstrapped
    ensures var w := Run(cfg, s, events).value;
            && Switch(w.history, w.given, w.givenRevision) && 1 <= w.effectiveRevision <= |w.history|
            && (w.given == w.effective.loginCaptcha <==>
                FromModel(w.history[w.givenRevision - 1]).loginCaptcha ==
                FromModel(w.history[w.effectiveRevision - 1]).loginCaptcha)
  {
    hide FromModel, Next, Run;
    RunKeeps(cfg, s, events);
  }

  /**
   A hot reload that has reached the server and then is not published leaves the server with its switch.
   That is the switch in effect exactly when the effective settings had it already; when they are the
   ones the update was made from, they never have.
   */
  lemma UnpublishedExactlyWhen(cfg: Config, s: Settings, events: seq<Event>, w: World, i: nat)
    requires Run(cfg, s, events) == Some(w) && w.bootstrapped
    requires i < |w.threads| && w.threads[i].Applied? && w.givenRevision == w.threads[i].revision
    ensures var t, w' := w.threads[i], Goto(w, i, Finished);
            && Next(cfg, w, Fail(i)) == Some(w') && Switch(w.history, w'.given, t.revision)
            && (w'.given == w'.effective.loginCaptcha <==> w.effective.loginCaptcha == t.settings.loginCaptcha)
            && (w.effectiveRevision == t.revision - 1 ==> w'.given != w'.effective.loginCaptcha)
    ensures w.row.Some? && w.row.value.revision != w.threads[i].revision ==> StepThread(cfg, w, i) == Goto(w, i, Finished)
  {
    hide FromModel, Run;
    RunKeeps(cfg, s, events);
    ThreadsOk(w, i);
  }

  /**
   A hot reload publishes a whole revision. It leaves every other field in effect as it was
   exactly when those fields already agreed with the settings the update was made from.
   */
  lemma HotReloadKeepsTheRestExactlyWhen(cfg: Config, s: Settings, events: seq<Event>, i: nat)
    requires Run(cfg, s, events).Some?
    requires var w := Run(cfg, s, events).value; i < |w.threads| && w.threads[i].Marked?
    ensures var w := Run(cfg, s, events).value; var n := w.threads[i].revision;
            && 2 <= n <= |w.history|
            && (SameCold(w.effective, StepThread(cfg, w, i).effective) <==> SameCold(w.effective, FromModel(w.history[n - 2])))
            && (w.bootstrapped && w.effectiveRevision == n - 1 ==> SameCold(w.effective, StepThread(cfg, w, i).effective))
  {
    hide FromModel, Next, Run, SameCold;
    RunKeeps(cfg, s, events);
    var w := Run(cfg, s, events).value;
    ThreadsOk(w, i);
    var n := w.threads[i].revision;
    SameColdIsEquivalence(FromModel(w.history[n - 2]), w.threads[i].settings, w.effective);
    SameColdIsEquivalence(w.effective, FromModel(w.history[n - 2]), w.threads[i].settings);
    SameColdIsEquivalence(w.effective, w.threads[i].settings, FromModel(w.history[n - 2]));
  }

  // With a restart pending, a hot reload lets the waiting change through.

  const BASE: Settings := Settings(UNIFIED, OPTIONAL, false, false, 10, false, false, false, false, 30, 0, 100, 1048576,
      true, true, 65536)
  const COLD: Settings := BASE.(webRdp := true)
  const HOT: Settings := COLD.(loginCaptcha := true)

  lemma Extend(cfg: Config, events: seq<Event>, w: World, e: Event) returns (w': World)
    requires Run(cfg, BASE, events) == Some(w) && Next(cfg, w, e).Some?
    ensures w' == Next(cfg, w, e).value && Run(cfg, BASE, events + [e]) == Some(w')
  {
    w' := Next(cfg, w, e).value;
    assert (events + [e])[..|events|] == events;
  }

  lemma BaseMeansItself(cfg: Config)
    requires UNIFIED in cfg.available
    ensures forall s | s == BASE || s == COLD || s == HOT ::
        Acceptable(s, cfg.available) && FromModel(s) == s && Completed(Update(s, 1, true)).settings == s
  {
    hide FromModel;
    AcceptableMeansItself(BASE, cfg.available);
    AcceptableMeansItself(COLD, cfg.available);
    AcceptableMeansItself(HOT, cfg.available);
  }

  /** The process starts on the base settings. */
  lemma StartUp(cfg: Config) returns (events: seq<Event>, w: World)
    requires UNIFIED in cfg.available
    ensures Run(cfg, BASE, events) == Some(w)
    ensures w == World(Some(Row(BASE, 1, 1)), [BASE], BASE, 1, true, false, 1, [Finished])
  {
    hide Run, FromModel, Acceptable;
    BaseMeansItself(cfg);
    RunNothing(cfg);
    var w1 := Extend(cfg, [], Start(BASE), Boot(BASE));
    var w2 := Extend(cfg, [] + [Boot(BASE)], w1, Step(0));
    var w3 := Extend(cfg, [] + [Boot(BASE)] + [Step(0)], w2, Step(0));
    w := Extend(cfg, [] + [Boot(BASE)] + [Step(0)] + [Step(0)], w3, Step(0));
    events := [] + [Boot(BASE)] + [Step(0)] + [Step(0)] + [Step(0)];
  }

  lemma RunNothing(cfg: Config)
    ensures Run(cfg, BASE, []) == Some(Start(BASE))
  {
  }

  /** A change that needs a restart is stored. */
  lemma ChangeCold(cfg: Config) returns (events: seq<Event>, w: World)
    requires UNIFIED in cfg.available
    ensures Run(cfg, BASE, events) == Some(w)
    ensures w == World(Some(Row(COLD, 2, 1)), [BASE, COLD], BASE, 1, true, false, 1, [Finished, Finished])
  {
    hide Run, FromModel, Acceptable, ChangedFields, HotReloadable;
    BaseMeansItself(cfg);
    var es, w0 := StartUp(cfg);
    ChangedFieldsAreExact(BASE, COLD);
    var w1 := Extend(cfg, es, w0, Ask(Update(COLD, 1, true)));
    var w2 := Extend(cfg, es + [Ask(Update(COLD, 1, true))], w1, Step(1));
    w := Extend(cfg, es + [Ask(Update(COLD, 1, true))] + [Step(1)], w2, Step(1));
    events := es + [Ask(Update(COLD, 1, true))] + [Step(1)] + [Step(1)];
  }

  /** Then a change of the captcha alone puts it into effect, without a restart. */
  lemma HotReloadLetsColdThrough(cfg: Config) returns (events: seq<Event>, w: World, w': World)
    requires UNIFIED in cfg.available && cfg.hasAppliers
    ensures Run(cfg, BASE, events) == Some(w) && Run(cfg, BASE, events + [Step(2)]) == Some(w')
    ensures w.effective == BASE && w.threads[2].Marked? && w'.effective == HOT && w'.effective.webRdp != w.effective.webRdp
  {
    hide Run, FromModel, Acceptable, ChangedFields, HotReloadable;
    BaseMeansItself(cfg);
    var es, w0 := ChangeCold(cfg);
    ChangedFieldsAreExact(COLD, HOT);
    var ask := Ask(Update(HOT, 2, true));
    var w1 := Extend(cfg, es, w0, ask);
    var w2 := Extend(cfg, es + [ask], w1, Step(2));
    var w3 := Extend(cfg, es + [ask] + [Step(2)], w2, Step(2));
    var w4 := Extend(cfg, es + [ask] + [Step(2)] + [Step(2)], w3, Step(2));
    w := Extend(cfg, es + [ask] + [Step(2)] + [Step(2)] + [Step(2)], w4, Step(2));
    events := es + [ask] + [Step(2)] + [Step(2)] + [Step(2)] + [Step(2)];
    w' := Extend(cfg, events, w, Step(2));
  }

  // An overtaken publication goes back.

  const ON: Settings := BASE.(loginCaptcha := true)

  lemma OnMeansItself(cfg: Config)
    requires UNIFIED in cfg.available
    ensures Acceptable(ON, cfg.available) && FromModel(ON) == ON && Completed(Update(ON, 1, true)) == Update(ON, 1, true)
    ensures Acceptable(BASE, cfg.available) && FromModel(BASE) == BASE && Completed(Update(BASE, 2, true)) == Update(BASE, 2, true)
  {
    hide FromModel;
    AcceptableMeansItself(ON, cfg.available);
    AcceptableMeansItself(BASE, cfg.available);
  }

  /** The captcha is switched on, and the server has been given revision 2. */
  lemma GiveOn(cfg: Config) returns (events: seq<Event>, w: World)
    requires UNIFIED in cfg.available && cfg.hasAppliers
    ensures Run(cfg, BASE, events) == Some(w)
    ensures w == World(Some(Row(ON, 2, 1)), [BASE, ON], BASE, 1, true, true, 2, [Finished, Applied(ON, 2)])
  {
    hide Run, FromModel, Acceptable, ChangedFields, HotReloadable;
    OnMeansItself(cfg);
    var es, w0 := StartUp(cfg);
    ChangedFieldsAreExact(BASE, ON);
    var ask := Ask(Update(ON, 1, true));
    var w1 := Extend(cfg, es, w0, ask);
    var w2 := Extend(cfg, es + [ask], w1, Step(1));
    var w3 := Extend(cfg, es + [ask] + [Step(1)], w2, Step(1));
    w := Extend(cfg, es + [ask] + [Step(1)] + [Step(1)], w3, Step(1));
    events := es + [ask] + [Step(1)] + [Step(1)] + [Step(1)];
  }

  /** Marking fails, or another process has stored a revision: nothing is under way any more, and the two stay apart. */
  lemma ServerLeftBehind(cfg: Config) returns (events: seq<Event>, w: World)
    requires UNIFIED in cfg.available && cfg.hasAppliers
    ensures Run(cfg, BASE, events) == Some(w)
    ensures w.threads == [Finished, Finished] && w.given && !w.effective.loginCaptcha && w.effectiveRevision == 1
  {
    hide Run, FromModel, Acceptable, ChangedFields, HotReloadable;
    var es, w0 := GiveOn(cfg);
    w := Extend(cfg, es, w0, Fail(1));
    events := es + [Fail(1)];
  }

  /** It is about to be published as revision 2. */
  lemma SwitchOn(cfg: Config) returns (events: seq<Event>, w: World)
    requires UNIFIED in cfg.available && cfg.hasAppliers
    ensures Run(cfg, BASE, events) == Some(w)
    ensures w == World(Some(Row(ON, 2, 2)), [BASE, ON], BASE, 1, true, true, 2, [Finished, Marked(ON, 2)])
  {
    hide Run, FromModel, Acceptable, ChangedFields, HotReloadable;
    var es, w0 := GiveOn(cfg);
    w := Extend(cfg, es, w0, Step(1));
    events := es + [Step(1)];
  }

  /** A revision stored meanwhile does no harm: what is published is still newer than what was in effect. */
  lemma OvertakenGoesForward(cfg: Config) returns (events: seq<Event>, w: World, w': World)
    requires UNIFIED in cfg.available && cfg.hasAppliers
    ensures Run(cfg, BASE, events) == Some(w) && Run(cfg, BASE, events + [Step(1)]) == Some(w')
    ensures !Timely(w, Step(1)) && w.effectiveRevision == 1 && w'.effectiveRevision == 2
  {
    hide Run, FromModel, Acceptable, ChangedFields, HotReloadable;
    var es, w0 := SwitchOn(cfg);
    w := Extend(cfg, es, w0, Elsewhere(BASE));
    events := es + [Elsewhere(BASE)];
    w' := Extend(cfg, events, w, Step(1));
  }

  /** It is switched off again and published as revision 3; then revision 2 is published over it. */
  lemma RevisionGoesBack(cfg: Config) returns (events: seq<Event>, w: World, w': World)
    requires UNIFIED in cfg.available && cfg.hasAppliers
    ensures Run(cfg, BASE, events) == Some(w) && Run(cfg, BASE, events + [Step(1)]) == Some(w')
    ensures w.effectiveRevision == 3 && w'.effectiveRevision == 2 && w'.effective == ON
    ensures !OnlyUp(cfg, BASE, events + [Step(1)])
  {
    hide Run, FromModel, Acceptable, ChangedFields, HotReloadable, OnlyUp;
    OnMeansItself(cfg);
    var es, w0 := SwitchOn(cfg);
    ChangedFieldsAreExact(ON, BASE);
    var ask := Ask(Update(BASE, 2, true));
    var w1 := Extend(cfg, es, w0, ask);
    var r1 := es + [ask];
    var w2 := Extend(cfg, r1, w1, Step(2));
    var w3 := Extend(cfg, r1 + [Step(2)], w2, Step(2));
    var r3 := r1 + [Step(2)] + [Step(2)];
    var w4 := Extend(cfg, r3, w3, Step(2));
    var w5 := Extend(cfg, r3 + [Step(2)], w4, Step(2));
    events := r3 + [Step(2)] + [Step(2)];
    w := Extend(cfg, events, w5, Step(2));
    events := events + [Step(2)];
    w' := Extend(cfg, events, w, Step(1));
    WentBack(cfg, events, Step(1));
  }

  lemma WentBack(cfg: Config, events: seq<Event>, e: Event)
    requires Run(cfg, BASE, events).Some? && Run(cfg, BASE, events + [e]).Some?
    requires Run(cfg, BASE, events + [e]).value.effectiveRevision < Run(cfg, BASE, events).value.effectiveRevision
    ensures !OnlyUp(cfg, BASE, events + [e])
  {
    hide Run;
    var all, n := events + [e], |events|;
    assert all[..n] == events && all[..n + 1] == all;
    assert RevisionAt(cfg, BASE, all, n + 1) < RevisionAt(cfg, BASE, all, n);
  }
}
