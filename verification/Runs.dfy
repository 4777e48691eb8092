/** Whole runs of the governor: what holds in every state it can reach. */
module Runs {
  import opened Words
  import opened Outcomes
  import opened Model
  import opened Codec
  import opened StateCodec
  import opened Collisions
  import opened Detect
  import opened Ranking
  import opened Authority
  import opened Classifier
  import opened Mitigate
  import opened Lifecycle
  import opened Governance
  import opened Safety

  // ----- Runs -----

  /** One call on the governor.  A restored state is the snapshot of another run, as taken or as the durable store
      gives it back after a crash. */
  datatype Op =
    | Configure(policy: Policy, now: int)
    | Bind(binding: Binding, leaseExpiry: int)
    | Window(bundle: Bundle)
    | Restoring(snapshot: Run, recovered: bool)
    | Resetting
    | Retiring(id: nat, now: int)
    | Stopping(now: int)

  datatype Run = Start(config: Config) | Then(before: Run, op: Op)

  /** Every governor of the run is constructed with a valid policy. */
  predicate WellFounded(r: Run) {
    match r
    case Start(config) => config.policy.Valid()
    case Then(before, op) => WellFounded(before) && (op.Restoring? ==> WellFounded(op.snapshot))
  }

  function Restorable(s: GovernorState, recovered: bool): GovernorState { if recovered then Recovered(s) else s }

  function Apply(g: Gov, op: Op, snapshot: GovernorState): Gov
    requires Shaped(g)
  {
    match op
    case Configure(p, now) => ConfigurePolicy(g, p, now).0
    case Bind(b, expiry) => BindAuthority(g, b, expiry).0
    case Window(b) => Evaluate(g, b).0
    case Restoring(_, recovered) => RestoreState(g, Restorable(snapshot, recovered)).0
    case Resetting => Reset(g)
    case Retiring(id, now) => Retire(g, id, now).0
    case Stopping(now) => Shutdown(g, now).0
  }

  /** The state a run arrives at. */
  ghost function At(r: Run): (g: Gov)
    requires WellFounded(r)
    ensures Sound(g) && Shaped(g)
    decreases r
  {
    match r
    case Start(config) =>
      InitialIsSound(config);
      SoundIsShaped(Initial(config));
      Initial(config)
    case Then(before, op) =>
      var g := At(before);
      var snapshot := if op.Restoring? then At(op.snapshot).state else g.state;
      OpIsSound(g, op, snapshot);
      SoundIsShaped(Apply(g, op, snapshot));
      Apply(g, op, snapshot)
  }

  lemma OpIsSound(g: Gov, op: Op, snapshot: GovernorState)
    requires Sound(g) && Shaped(g) && Sane(snapshot)
    ensures Sound(Apply(g, op, snapshot))
  {
    hide Sound, Sane, ConfigurePolicy, BindAuthority, Evaluate, RestoreState, Retire, Shutdown, Recovered, Initial;
    match op
    case Configure(p, now) => ConfigureIsSound(g, p, now);
    case Bind(b, expiry) => BindIsSound(g, b, expiry);
    case Window(b) => EvaluateIsSound(g, b);
    case Restoring(_, recovered) =>
      RecoveredIsSane(snapshot);
      RestoreIsSound(g, Restorable(snapshot, recovered));
    case Resetting =>
      PolicyStaysValid(g);
      InitialIsSound(g.config);
    case Retiring(id, now) => RetireIsSound(g, id, now);
    case Stopping(now) => ShutdownIsSound(g, now);
  }

  lemma BindIsSound(g: Gov, b: Binding, expiry: int)
    requires Sound(g)
    ensures Sound(BindAuthority(g, b, expiry).0)
  {
    hide Policy.Valid, SaneTable;
  }

  lemma PolicyStaysValid(g: Gov)
    requires Sound(g)
    ensures g.config.policy.Valid()
  {}

  lemma ApplyWindow(g: Gov, op: Op, snapshot: GovernorState)
    requires Shaped(g) && op.Window?
    ensures Apply(g, op, snapshot) == Evaluate(g, op.bundle).0
  {
    hide Evaluate;
  }

  lemma SoundIsSane(g: Gov)
    requires Sound(g)
    ensures Sane(g.state)
  {}

  /** THE TABLE.  In every reachable state, restored ones included: at most one live intervention; identities nonzero,
      pairwise distinct and below the next one; every record live or over; the bounds of the codec respected. */
  lemma ReachableTablesAreSane(r: Run)
    requires WellFounded(r)
    ensures var s := At(r).state;
      && (forall i, j | 0 <= i < |s.interventions| && 0 <= j < |s.interventions|
                        && s.interventions[i].Live() && s.interventions[j].Live() :: i == j)
      && (forall i | 0 <= i < |s.interventions| :: 0 < s.interventions[i].id < s.nextInterventionGeneration)
      && (forall i, j | 0 <= i < j < |s.interventions| :: s.interventions[i].id != s.interventions[j].id)
      && (forall i | 0 <= i < |s.interventions| :: s.interventions[i].Live() || IsTerminalState(s.interventions[i].state))
      && s.Valid()
  {
    hide At;
  }

  // ----- The codec holds every reachable state -----

  predicate Word(v: nat) { v <= MAX_U64 }

  predicate Counter(v: nat) { v < 0x1_0000_0000 }

  predicate Time(v: int) { -0x8000_0000_0000_0000 <= v < 0x8000_0000_0000_0000 }

  predicate OriginFits(o: Origin) {
    Word(o.event) && Word(o.eventGeneration) && Word(o.destination) && Word(o.destinationGeneration)
    && Word(o.window) && Word(o.windowGeneration)
  }

  predicate BindingFits(b: Binding) { Word(b.epoch) && Word(b.boot) && Word(b.worker) && Word(b.lease) }

  predicate RefFits(p: PolicyRef) { Word(p.id) && Word(p.generation) }

  predicate IdentityFits(i: SenderIdentity) { Word(i.sender) && Word(i.incarnation) && Word(i.flow) }

  predicate IntentFits(i: MitigationIntent) {
    && Word(i.intervention) && Word(i.generation) && OriginFits(i.origin) && RefFits(i.policy) && BindingFits(i.binding)
    && Time(i.issuedAt) && Time(i.expiresAt) && Time(i.duration) && Word(i.queue) && Word(i.resource)
    && forall k | 0 <= k < |i.penalized| :: IdentityFits(i.penalized[k])
  }

  predicate RecordFits(r: Intervention) {
    && Word(r.id) && Word(r.generation) && Word(r.destination) && Word(r.destinationGeneration) && Word(r.window)
    && Word(r.windowGeneration) && BindingFits(r.binding) && RefFits(r.policy) && Time(r.createdAt) && Time(r.updatedAt)
    && Time(r.expiresAt) && Time(r.lastRelaxedAt) && Counter(r.relaxSteps) && Counter(r.continueSteps) && IntentFits(r.intent)
  }

  predicate WindowFits(w: WindowRecord) {
    Word(w.window) && Word(w.windowGeneration) && Time(w.start) && Time(w.end)
  }

  /** Identities, generations and the counters of evaluations fit 64 bits, times 64 bits with a sign, and the counters of
      steps and restores 32 bits.  Nothing is said of streaks, populations, ratios, rates, slots, codes and flags. */
  predicate NumbersFit(s: GovernorState) {
    && Word(s.generation) && Word(s.destination) && Word(s.destinationGeneration) && Word(s.boot) && Word(s.epoch)
    && RefFits(s.policy) && Time(s.lastEvaluation) && Word(s.evaluationCount) && Word(s.refusalCount)
    && Word(s.interventionCount) && Word(s.nextInterventionGeneration) && Counter(s.restoreCount)
    && Time(s.recovery.since) && Word(s.lastSequenceBoot)
    && (forall i | 0 <= i < |s.lastSequence| :: Word(s.lastSequence[i]))
    && (forall i | 0 <= i < |s.history| :: WindowFits(s.history[i]))
    && forall i | 0 <= i < |s.interventions| :: RecordFits(s.interventions[i])
  }

  // ----- Streaks and populations -----

  /** Streaks stay below their caps, and windows name no more senders than are looked at. */
  predicate Capped(s: GovernorState) {
    Counter(s.incidentStreak) && Counter(s.cleanStreak) && Counter(s.recovery.cleanWindows)
    && Counter(s.recovery.incidentWindows) && forall i | 0 <= i < |s.history| :: s.history[i].activeSenders <= MAX_SENDERS
  }

  lemma {:induction false} FewAreActive(p: Policy, rows: seq<Sender>)
    ensures TallyOf(p, rows).activeSenders <= |rows|
    decreases |rows|
  {
    hide IsProtected;
    if rows != [] { FewAreActive(p, rows[..|rows| - 1]); }
  }

  lemma WindowsAreSmall(g: Gov, b: Bundle)
    requires Shaped(g)
    ensures RecordOf(b, Verdict(g, b)).activeSenders <= MAX_SENDERS
  {
    hide TallyOf, SynchronizationOf, Check, Instantaneous, Effective, SeverityOf, Ranked, Collided, RatioBp, Worst;
    FewAreActive(g.config.policy, Rows(b));
  }

  lemma CountingIsCapped(g: Gov, b: Bundle)
    requires Shaped(g) && Capped(g.state)
    ensures Capped(Listened(g, b))
  {
    hide Verdict, Advanced;
  }

  lemma TrimmingIsCapped(h: seq<WindowRecord>, w: WindowRecord, limit: nat)
    requires (forall i | 0 <= i < |h| :: h[i].activeSenders <= MAX_SENDERS) && w.activeSenders <= MAX_SENDERS
    ensures forall i | 0 <= i < |TrimHistory(h + [w], limit)| :: TrimHistory(h + [w], limit)[i].activeSenders <= MAX_SENDERS
  {}

  lemma WindowIsCapped(g: Gov, b: Bundle)
    requires Shaped(g) && Capped(g.state)
    ensures Capped(Evaluate(g, b).0.state)
  {
    hide Verdict, Listened, EffectOf, SynthesisOf, RequestFor, Gate, Check, LiveFence, TrimInterventions, TrimHistory, RecordOf,
      AnyRevalidating, FencedRecord;
    CountingIsCapped(g, b);
    ListeningKeeps(g, b);
    WindowsAreSmall(g, b);
    TrimmingIsCapped(g.state.history, RecordOf(b, Verdict(g, b)), g.config.maxHistory);
  }

  lemma OtherOpsAreCapped(g: Gov, op: Op, snapshot: GovernorState)
    requires Shaped(g) && !op.Window? && Capped(g.state) && Capped(snapshot)
    ensures Capped(Apply(g, op, snapshot).state)
  {
    hide Policy.Valid, Reconfigured, Restored, Revalidated, ShutDown, Transition, Forced;
  }

  lemma {:induction false} ReachableStatesAreCapped(r: Run)
    requires WellFounded(r)
    ensures Capped(At(r).state)
    decreases r
  {
    hide Apply, Sound, Capped;
    if r.Start? {
      NothingIsCapped(r.config);
    } else {
      ReachableStatesAreCapped(r.before);
      var g := At(r.before);
      if r.op.Window? {
        ApplyWindow(g, r.op, g.state);
        WindowIsCapped(g, r.op.bundle);
      } else {
        if r.op.Restoring? { ReachableStatesAreCapped(r.op.snapshot); }
        OtherOpsAreCapped(g, r.op, if r.op.Restoring? then At(r.op.snapshot).state else g.state);
      }
    }
  }

  lemma NothingIsCapped(config: Config)
    ensures Capped(Initial(config).state)
  {}

  // ----- Storing -----

  lemma FlagsFit(i: MitigationIntent)
    ensures IntentFlags(i) < 64
  {
    var flags := [i.bounded, i.clamped, i.insufficient, i.escalating, i.relaxesPrior, i.continuesPrior];
    assert FlagWord(flags[6..]) == 0;
    assert FlagWord(flags[5..]) < 2;
    assert FlagWord(flags[4..]) < 4;
    assert FlagWord(flags[3..]) < 8;
    assert FlagWord(flags[2..]) < 16;
    assert FlagWord(flags[1..]) < 32;
  }

  lemma IntentHeadIsStorable(i: MitigationIntent)
    requires IntentFits(i)
    ensures FitsRun(INTENT_HEAD, IntentHead(i))
  {
    forall k | 0 <= k < |INTENT_HEAD| ensures Fits(INTENT_HEAD[k], IntentHead(i)[k]) {}
  }

  lemma IntentTailIsStorable(i: MitigationIntent)
    requires IntentFits(i)
    ensures FitsRun(INTENT_TAIL, IntentTail(i)) && FitsItems(IDENTITY, Identities(i.penalized))
  {
    hide IntentFlags;
    FlagsFit(i);
    forall k | 0 <= k < |INTENT_TAIL| ensures Fits(INTENT_TAIL[k], IntentTail(i)[k]) {}
    forall k | 0 <= k < |i.penalized| ensures FitsRun(IDENTITY, Identities(i.penalized)[k]) {
      assert IdentityFits(i.penalized[k]);
    }
  }

  lemma RecordHeadIsStorable(r: Intervention)
    requires RecordFits(r)
    ensures FitsRun(RECORD_HEAD, RecordHead(r))
  {
    forall k | 0 <= k < |RECORD_HEAD| ensures Fits(RECORD_HEAD[k], RecordHead(r)[k]) {}
  }

  lemma RecordIsStorable(r: Intervention)
    requires RecordFits(r) && SaneRecord(r)
    ensures Storable(r)
  {
    hide FitsRun, FitsItems, IntentFits, IntentHead, IntentTail, RecordHead, Identities;
    IntentHeadIsStorable(r.intent);
    IntentTailIsStorable(r.intent);
    RecordHeadIsStorable(r);
  }

  lemma HeadIsStorable(s: GovernorState)
    requires NumbersFit(s) && Capped(s) && s.nextInterventionGeneration >= 1
    ensures FitsRun(STATE_HEAD, StateHead(s))
  {
    hide WindowFits, RecordFits;
    forall k | 0 <= k < |STATE_HEAD| ensures Fits(STATE_HEAD[k], StateHead(s)[k]) {}
  }

  lemma TrackingIsStorable(s: GovernorState)
    requires NumbersFit(s) && Capped(s) && |s.lastSequence| == CLASSES
    ensures FitsRun(TRACKING, Tracking(s))
  {
    hide WindowFits, RecordFits;
    forall k | 0 <= k < |TRACKING| ensures Fits(TRACKING[k], Tracking(s)[k]) {}
  }

  lemma WindowIsStorable(w: WindowRecord)
    requires WindowFits(w) && w.activeSenders <= MAX_SENDERS
    ensures FitsRun(HISTORY, WindowItem(w))
  {}

  lemma HistoryIsStorable(ws: seq<WindowRecord>)
    requires forall i | 0 <= i < |ws| :: WindowFits(ws[i]) && ws[i].activeSenders <= MAX_SENDERS
    ensures FitsItems(HISTORY, Windows(ws))
  {
    hide WindowFits, FitsRun, WindowItem;
    forall i | 0 <= i < |ws| ensures FitsRun(HISTORY, Windows(ws)[i]) { WindowIsStorable(ws[i]); }
  }

  lemma SoundIsStorable(g: Gov)
    requires Sound(g) && NumbersFit(g.state) && Capped(g.state)
    ensures StorableState(g.state)
  {
    hide FitsRun, FitsItems, StateHead, Tracking, Windows, RecordFits, WindowFits, SaneRecord, Storable, Policy.Valid;
    var s := g.state;
    HeadIsStorable(s);
    TrackingIsStorable(s);
    HistoryIsStorable(s.history);
    forall i | 0 <= i < |s.interventions| ensures Storable(s.interventions[i]) { RecordIsStorable(s.interventions[i]); }
    BoundedRecords(s);
  }

  lemma BoundedRecords(s: GovernorState)
    requires Sane(s)
    ensures s.Valid()
  {}

  /** Every reachable state whose identities, times and counters fit their fields is stored and read back exactly. */
  lemma ReachableStatesRoundTrip(r: Run, rest: seq<byte>)
    requires WellFounded(r) && NumbersFit(At(r).state)
    ensures DecodeState(EncodeState(At(r).state) + rest) == Ok(At(r).state)
  {
    hide At, NumbersFit, Capped, StorableState, DecodeState, EncodeState, Sound;
    var g := At(r);
    ReachableStatesAreCapped(r);
    SoundIsStorable(g);
    StateRoundTrip(g.state, rest);
  }
}
