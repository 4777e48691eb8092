/** The governor as a function of its state: one definition for each public operation. */
module Governance {
  import opened Outcomes
  import opened Model
  import opened Sorting
  import opened Collisions
  import opened Detect
  import opened Authority
  import opened Classifier
  import opened Mitigate
  import opened Lifecycle

  datatype Config = Config(policy: Policy, destination: nat, destinationGeneration: nat, binding: Binding,
                           leaseExpiry: int, maxHistory: nat)

  datatype Gov = Gov(config: Config, state: GovernorState, accepting: bool)

  datatype DecisionOutcome =
    | OutcomeRefused | NoAction | InterventionIssued | InterventionContinued | InterventionRelaxed
    | InterventionRetired | InterventionFenced

  datatype Decision = Decision(outcome: DecisionOutcome, decidedAt: int, stateGeneration: nat, kind: IncidentKind,
                               severity: Severity, refusal: RefusalReason, intervention: nat,
                               interventionState: InterventionState, intent: MitigationIntent, authorized: bool)

  /** The arrays of the program have one entry for each evidence class. */
  predicate Shaped(g: Gov) {
    |g.state.lastSequence| == CLASSES && |g.config.policy.authority.requiredClasses| == CLASSES
  }

  // ----- The table of interventions -----

  /** The index of the first live record; the length of the table when there is none. */
  function FirstLive(rs: seq<Intervention>): (w: nat)
    ensures w <= |rs| && (w < |rs| ==> rs[w].Live())
    ensures forall i | 0 <= i < w :: !rs[i].Live()
    decreases |rs|
  {
    if rs == [] then 0
    else
      var w := FirstLive(rs[..|rs| - 1]);
      if w < |rs| - 1 then w else if rs[|rs| - 1].Live() then |rs| - 1 else |rs|
  }

  predicate HasLive(rs: seq<Intervention>) { FirstLive(rs) < |rs| }

  function TrimHistory(h: seq<WindowRecord>, limit: nat): seq<WindowRecord> {
    if limit == 0 then []
    else
      var kept := if |h| > limit then h[|h| - limit..] else h;
      if |kept| > MAX_HISTORY then kept[|kept| - MAX_HISTORY..] else kept
  }

  function IsLive(): Intervention -> bool { (i: Intervention) => i.Live() }

  /** The last records that are not live, newest first, at most so many. */
  function Recent(rs: seq<Intervention>, room: nat): (r: seq<Intervention>)
    ensures |r| <= room
    decreases |rs|
  {
    if rs == [] || room == 0 then []
    else
      var front, last := rs[..|rs| - 1], rs[|rs| - 1];
      if last.Live() then Recent(front, room) else [last] + Recent(front, room - 1)
  }

  /** Over the bound, the live records are kept first and then the newest others, newest first. */
  function TrimInterventions(rs: seq<Intervention>): seq<Intervention> {
    if |rs| <= MAX_INTERVENTIONS then rs
    else
      var live := Selected(IsLive(), rs);
      live + Recent(rs, if |live| < MAX_INTERVENTIONS then MAX_INTERVENTIONS - |live| else 0)
  }

  // ----- Configuration and authority -----

  function Bound(config: Config, s: GovernorState): GovernorState {
    s.(destination := config.destination, destinationGeneration := config.destinationGeneration,
       policy := config.policy.ref, epoch := config.binding.epoch, boot := config.binding.boot)
  }

  function Initial(config: Config): Gov { Gov(config, Bound(config, EMPTY_STATE), true) }

  function Reconfigured(rs: seq<Intervention>, ref: PolicyRef, now: int): (r: seq<Intervention>)
    ensures |r| == |rs|
    ensures forall i | 0 <= i < |rs| ::
      r[i] == if rs[i].Live() then Forced(rs[i].(policy := ref), Revalidating, now) else rs[i]
    decreases |rs|
  {
    if rs == [] then []
    else
      var last := rs[|rs| - 1];
      Reconfigured(rs[..|rs| - 1], ref, now) + [if last.Live() then Forced(last.(policy := ref), Revalidating, now) else last]
  }

  /** An invalid policy changes nothing.  A new id or generation sends the live records to revalidation. */
  function ConfigurePolicy(g: Gov, p: Policy, now: int): (Gov, bool) {
    if !p.Valid() then (g, false)
    else
      var changed := g.state.policy != p.ref;
      var s := if !changed then g.state
               else g.state.(interventions := Reconfigured(g.state.interventions, p.ref, now), requiresRevalidation := true);
      (g.(config := g.config.(policy := p), state := s.(policy := p.ref)), true)
  }

  function BindAuthority(g: Gov, b: Binding, leaseExpiry: int): (Gov, bool) {
    if b.epoch == 0 || b.boot == 0 || b.worker == 0 || b.lease == 0 || leaseExpiry == 0 then (g, false)
    else (g.(config := g.config.(binding := b, leaseExpiry := leaseExpiry),
             state := g.state.(epoch := b.epoch, boot := b.boot)), true)
  }

  function Unbound(config: Config): Config { config.(binding := UNBOUND, leaseExpiry := 0) }

  function Restored(rs: seq<Intervention>, at: int): (r: seq<Intervention>)
    ensures |r| == |rs|
    ensures forall i | 0 <= i < |rs| ::
      r[i] == if rs[i].Live() then rs[i].(state := Revalidating, updatedAt := at) else rs[i]
    decreases |rs|
  {
    if rs == [] then []
    else
      var last := rs[|rs| - 1];
      Restored(rs[..|rs| - 1], at) + [if last.Live() then last.(state := Revalidating, updatedAt := at) else last]
  }

  /** Restoring replaces the whole state, drops the authority, and revives nothing. */
  function RestoreState(g: Gov, s: GovernorState): (Gov, bool) {
    if !s.Valid() then (g, false)
    else
      (g.(config := Unbound(g.config),
          state := s.(epoch := 0, boot := 0, recovery := NO_RECOVERY, incidentStreak := 0, cleanStreak := 0,
                      requiresRevalidation := true, restoredFromDurable := true, restoreCount := s.restoreCount + 1,
                      interventions := Restored(s.interventions, s.lastEvaluation), generation := s.generation + 1)), true)
  }

  function Reset(g: Gov): Gov { Initial(g.config) }

  function IndexOf(rs: seq<Intervention>, id: nat): (w: nat)
    ensures w <= |rs| && (w < |rs| ==> rs[w].id == id)
    ensures forall i | 0 <= i < w :: rs[i].id != id
    decreases |rs|
  {
    if rs == [] then 0
    else
      var w := IndexOf(rs[..|rs| - 1], id);
      if w < |rs| - 1 then w else if rs[|rs| - 1].id == id then |rs| - 1 else |rs|
  }

  function Retire(g: Gov, id: nat, now: int): (Gov, Outcome<()>) {
    var rs := g.state.interventions;
    var w := IndexOf(rs, id);
    if w == |rs| then (g, Err(NotFound))
    else if IsTerminalState(rs[w].state) then (g, Err(IllegalTransition))
    else
      var moved := Transition(rs[w], InterventionState.Retired, now);
      if moved.Err? then (g, Err(moved.code))
      else (g.(state := g.state.(interventions := rs[w := moved.value], generation := g.state.generation + 1)), Ok(()))
  }

  function ShutDown(rs: seq<Intervention>, now: int): (r: seq<Intervention>)
    ensures |r| == |rs|
    ensures forall i | 0 <= i < |rs| ::
      r[i] == if rs[i].Live() then Forced(rs[i], InterventionState.Retired, now) else rs[i]
    decreases |rs|
  {
    if rs == [] then []
    else
      var last := rs[|rs| - 1];
      ShutDown(rs[..|rs| - 1], now) + [if last.Live() then Forced(last, InterventionState.Retired, now) else last]
  }

  /** Shutting down retires every live record; the result counts them. */
  function Shutdown(g: Gov, now: int): (Gov, nat) {
    (g.(accepting := false,
        state := g.state.(interventions := ShutDown(g.state.interventions, now), recovery := NO_RECOVERY,
                          incidentStreak := 0, cleanStreak := 0, generation := g.state.generation + 1)),
     |Selected(IsLive(), g.state.interventions)|)
  }

  // ----- Evaluation: refusals -----

  /** The checks of the bundle against the governor's own state and authority, in order. */
  function Gate(g: Gov, b: Bundle): RefusalReason {
    var k := g.config;
    if !g.accepting then PolicyDisabled
    else if k.binding.epoch == 0 || k.binding.boot == 0 || k.binding.lease == 0 then LeaseMissing
    else if !b.StructurallyValid() then MalformedBundle
    else if k.destination != 0 && b.origin.destination != k.destination then DestinationMismatch
    else if g.state.destinationGeneration != 0 && b.origin.destinationGeneration != 0
            && b.origin.destinationGeneration < g.state.destinationGeneration then StaleEvidence
    else if b.policyStamp.state == Contradictory then PolicyGenerationMismatch
    else if b.binding.epoch == 0 || b.binding.epoch != k.binding.epoch then EpochMismatch
    else if b.binding.boot == 0 || b.binding.boot != k.binding.boot then BootMismatch
    else if k.binding.worker != 0 && b.binding.worker != 0 && b.binding.worker != k.binding.worker then EpochMismatch
    else if b.binding.lease == 0 || b.binding.lease != k.binding.lease then LeaseMissing
    else if k.leaseExpiry != 0 && b.now > k.leaseExpiry then LeaseExpired
    else NoRefusal
  }

  predicate SameSource(s: GovernorState, b: Bundle) {
    s.lastSequenceBoot != 0 && b.binding.boot != 0 && s.lastSequenceBoot == b.binding.boot
  }

  /** The sequences the bundle is compared with: those of its own boot, or none. */
  function Reference(s: GovernorState, b: Bundle): seq<nat> {
    if SameSource(s, b) then s.lastSequence else NO_SEQUENCES
  }

  function Denial(g: Gov, b: Bundle): RefusalReason
    requires Shaped(g)
  {
    var gate := Gate(g, b);
    if gate != NoRefusal then gate else Check(b, g.config.policy, Reference(g.state, b)).reason
  }

  predicate Admits(g: Gov, b: Bundle)
    requires Shaped(g)
  {
    Denial(g, b) == NoRefusal
  }

  function Instant(s: GovernorState, b: Bundle): int { if b.now != 0 then b.now else s.lastEvaluation }

  function Refuse(g: Gov, b: Bundle, reason: RefusalReason): (Gov, Decision) {
    var s := g.state.(refusalCount := g.state.refusalCount + 1, generation := g.state.generation + 1);
    (g.(state := s),
     Decision(OutcomeRefused, Instant(g.state, b), s.generation, UnknownKind, NoSeverity, reason, 0,
              InterventionState.Retired, EMPTY_INTENT, false))
  }

  // ----- Evaluation: an accepted window -----

  /** The accepted sequences after a bundle: the higher of the old and the new one in each class. */
  function Advanced(last: seq<nat>, b: Bundle, n: nat): (r: seq<nat>)
    requires n <= |last| == CLASSES
    ensures |r| == CLASSES
    ensures forall i | 0 <= i < CLASSES :: r[i] == if i < n then Max(last[i], b.StampOf(ClassAt(i)).sequence) else last[i]
  {
    if n == 0 then last
    else Advanced(last, b, n - 1)[n - 1 := Max(last[n - 1], b.StampOf(ClassAt(n - 1)).sequence)]
  }

  function Heard(s: GovernorState, b: Bundle): GovernorState
    requires |s.lastSequence| == CLASSES
  {
    s.(lastSequence := Advanced(Reference(s, b), b, CLASSES), lastSequenceBoot := b.binding.boot)
  }

  function ContextOf(s: GovernorState): Context {
    Context(if s.history == [] then UnknownKind else s.history[|s.history| - 1].kind, s.incidentStreak, s.cleanStreak)
  }

  /** With a live intervention, a return to ordinary traffic is a recovery, unless hysteresis holds the window. */
  function AsRecovery(c: Classification, live: bool): Classification {
    if live && c.authoritative && !c.held && !IsIncident(c.kind) then c.(kind := Recovery) else c
  }

  function Verdict(g: Gov, b: Bundle): Classification
    requires Shaped(g)
  {
    AsRecovery(ClassifyWindow(b, g.config.policy, Collided(Rows(b)), ContextOf(g.state)), HasLive(g.state.interventions))
  }

  /** Streaks and recovery accounting after a window. */
  function Counted(s: GovernorState, c: Classification, p: Policy, b: Bundle, now: int): GovernorState {
    if IsIncident(c.instantaneous) then
      s.(incidentStreak := Min(s.incidentStreak + 1, p.hysteresis.maxIncidentWindows), cleanStreak := 0, recovery := NO_RECOVERY)
    else
      var clean := Min(s.cleanStreak + 1, p.hysteresis.maxCleanWindows);
      var t := s.(cleanStreak := clean, incidentStreak := 0);
      if !HasLive(s.interventions) then t
      else
        t.(recovery := s.recovery.(tracking := true, since := if s.recovery.since == 0 then now else s.recovery.since,
                                   cleanWindows := clean,
                                   dropsDuringRecovery := SaturatingAdd(s.recovery.dropsDuringRecovery, c.metrics.dropEvents),
                                   capacityRevalidated := b.capacityStamp.state == Present))
  }

  /** The state an accepted window leaves before it acts on interventions. */
  function Listened(g: Gov, b: Bundle): GovernorState
    requires Shaped(g)
  {
    Counted(Heard(g.state, b), Verdict(g, b), g.config.policy, b, b.now)
  }

  // ----- Evaluation: what happens to the live record -----

  function FencedRecord(live: Intervention): Intervention { Forced(live, InterventionState.Fenced, live.updatedAt) }

  predicate HeldByHysteresis(live: Intervention, c: Classification) {
    c.held && c.authoritative && IsIncident(c.kind) && (live.state.Active? || live.state.Relaxing?)
  }

  function HeldRecord(live: Intervention, now: int): Intervention {
    live.(expiresAt := now + live.intent.duration, intent := live.intent.(expiresAt := now + live.intent.duration),
          updatedAt := now, continueSteps := live.continueSteps + 1)
  }

  function CreatedRecord(s: Synthesis, b: Bundle, ref: PolicyRef, now: int): Intervention {
    Intervention(s.intent.intervention, s.intent.generation, b.origin.destination, b.origin.destinationGeneration,
                 b.origin.window, b.origin.windowGeneration, Active, s.intent, b.binding, ref,
                 now, now, s.intent.expiresAt, 0, s.intent.reductionBp, 0, 0, NoRefusal, [])
  }

  /** A fresh intent takes the place of the record's own; a revalidated record starts a new generation. */
  function ContinuedRecord(live: Intervention, s: Synthesis, now: int): Intervention {
    var moved :=
      if live.state.Revalidating? then Forced(live, Active, now).(generation := live.generation + 1)
      else if live.state.Relaxing? then Forced(live, Active, now)
      else live;
    moved.(intent := s.intent.(generation := moved.generation), appliedReductionBp := s.intent.reductionBp,
           expiresAt := s.intent.expiresAt, updatedAt := now, continueSteps := moved.continueSteps + 1)
  }

  function RecoveredRecord(live: Intervention, s: Synthesis, now: int): Intervention {
    Forced(Forced(live, Relaxing, now), InterventionState.Retired, now).(updatedAt := now, intent := s.intent)
  }

  function RelaxedRecord(live: Intervention, s: Synthesis, now: int): Intervention {
    var moved := if live.state.Active? then Forced(live, Relaxing, now) else live;
    moved.(intent := s.intent, appliedReductionBp := s.intent.reductionBp, expiresAt := s.intent.expiresAt, updatedAt := now)
  }

  function DroppedRecord(live: Intervention, now: int): Intervention {
    Forced(live, InterventionState.Retired, now).(updatedAt := now)
  }

  /** What a window does to the table, and what the decision says about it. */
  datatype Effect = Effect(records: seq<Intervention>, issued: bool, outcome: DecisionOutcome, refusal: RefusalReason,
                           intervention: nat, state: InterventionState, intent: MitigationIntent, authorized: bool)

  function RequestFor(g: Gov, b: Bundle, c: Classification): SynthesisRequest {
    var rs, next := g.state.interventions, g.state.nextInterventionGeneration;
    var w := FirstLive(rs);
    if w == |rs| then SynthesisRequest(b, g.config.policy, c, NoRefusal, next, next, b.now, None, 0)
    else SynthesisRequest(b, g.config.policy, c, NoRefusal, rs[w].id, rs[w].generation, b.now, Some(rs[w].intent), 0)
  }

  function WithoutLive(rs: seq<Intervention>, b: Bundle, c: Classification, s: Synthesis, ref: PolicyRef): Effect {
    if IsIncident(c.kind) && s.authorized && s.intent.IsActive() then
      var created := CreatedRecord(s, b, ref, b.now);
      Effect(rs + [created], true, InterventionIssued, NoRefusal, created.id, Active, created.intent, true)
    else Effect(rs, false, NoAction, s.refusal, 0, InterventionState.Retired, s.intent, s.authorized)
  }

  function WithLive(rs: seq<Intervention>, w: nat, b: Bundle, c: Classification, s: Synthesis): Effect
    requires w < |rs|
  {
    var live := rs[w];
    if IsIncident(c.kind) && s.authorized && s.intent.IsActive() then
      var r := ContinuedRecord(live, s, b.now);
      Effect(rs[w := r], false, InterventionContinued, NoRefusal, r.id, r.state, r.intent, true)
    else if c.kind == Recovery && s.authorized && !s.intent.IsActive() then
      var r := RecoveredRecord(live, s, b.now);
      Effect(rs[w := r], false, InterventionRetired, NoRefusal, r.id, r.state, s.intent, true)
    else if c.kind == Recovery && s.authorized then
      var r := RelaxedRecord(live, s, b.now);
      Effect(rs[w := r], false, InterventionRelaxed, NoRefusal, r.id, r.state, s.intent, true)
    else if c.kind != Recovery && !IsIncident(c.kind) && c.authoritative && live.state.Revalidating? then
      var r := DroppedRecord(live, b.now);
      Effect(rs[w := r], false, InterventionRetired, s.refusal, r.id, r.state, s.intent, s.authorized)
    else Effect(rs, false, NoAction, s.refusal, live.id, live.state, s.intent, s.authorized)
  }

  /** The effect of an accepted window whose live record, if any, is not fenced. */
  function EffectOf(g: Gov, b: Bundle, c: Classification, s: Synthesis): Effect {
    var rs := g.state.interventions;
    var w := FirstLive(rs);
    if w == |rs| then WithoutLive(rs, b, c, s, g.config.policy.ref)
    else if HeldByHysteresis(rs[w], c) then
      var r := HeldRecord(rs[w], b.now);
      Effect(rs[w := r], false, InterventionContinued, NoRefusal, r.id, r.state, r.intent, true)
    else WithLive(rs, w, b, c, s)
  }

  function RecordOf(b: Bundle, c: Classification): WindowRecord {
    WindowRecord(b.origin.window, b.origin.windowGeneration, b.windowStart, b.windowEnd, c.kind, c.severity,
                 c.metrics.oversubscriptionBp, c.metrics.queuePressureBp, c.metrics.activeSenders, c.authoritative)
  }

  predicate AnyRevalidating(rs: seq<Intervention>) { exists i | 0 <= i < |rs| :: rs[i].state.Revalidating? }

  function Recorded(s: GovernorState, e: Effect, b: Bundle, c: Classification, maxHistory: nat): GovernorState {
    s.(interventions := TrimInterventions(e.records),
       nextInterventionGeneration := s.nextInterventionGeneration + (if e.issued then 1 else 0),
       interventionCount := s.interventionCount + (if e.issued then 1 else 0),
       history := TrimHistory(s.history + [RecordOf(b, c)], maxHistory),
       destinationGeneration := Max(s.destinationGeneration, b.origin.destinationGeneration),
       lastEvaluation := b.now, evaluationCount := s.evaluationCount + 1, generation := s.generation + 1,
       requiresRevalidation := AnyRevalidating(e.records))
  }

  /** A fenced window ends at the fence: nothing is recorded in the history. */
  function Fence(s: GovernorState, w: nat, now: int): GovernorState
    requires w < |s.interventions|
  {
    s.(interventions := s.interventions[w := FencedRecord(s.interventions[w])], generation := s.generation + 1,
       lastEvaluation := now, evaluationCount := s.evaluationCount + 1, requiresRevalidation := true)
  }

  /** The reason the first live record is fenced; NoRefusal without one. */
  function LiveFence(g: Gov, b: Bundle): RefusalReason {
    var rs := g.state.interventions;
    var w := FirstLive(rs);
    if w == |rs| then NoRefusal else FenceReason(rs[w], g.config.binding, g.config.leaseExpiry, b.now)
  }

  function Act(g: Gov, b: Bundle): (Gov, Decision)
    requires Shaped(g)
  {
    var c, s := Verdict(g, b), Listened(g, b);
    var w, fence := FirstLive(g.state.interventions), LiveFence(g, b);
    if fence != NoRefusal then
      var t := Fence(s, w, b.now);
      (g.(state := t),
       Decision(InterventionFenced, b.now, t.generation, c.kind, c.severity, fence, t.interventions[w].id,
                InterventionState.Fenced, EMPTY_INTENT, false))
    else
      var e := EffectOf(g, b, c, SynthesisOf(RequestFor(g, b, c)));
      var t := Recorded(s, e, b, c, g.config.maxHistory);
      (g.(state := t),
       Decision(e.outcome, b.now, t.generation, c.kind, c.severity, e.refusal, e.intervention, e.state, e.intent, e.authorized))
  }

  /** One evaluation. */
  function Evaluate(g: Gov, b: Bundle): (Gov, Decision)
    requires Shaped(g)
  {
    if !Admits(g, b) then Refuse(g, b, Denial(g, b)) else Act(g, b)
  }

  /** Taking in the sequences and streaks of a window leaves the table and the history alone. */
  lemma ListeningKeeps(g: Gov, b: Bundle)
    requires Shaped(g)
    ensures var s := Listened(g, b);
      s.interventions == g.state.interventions && s.history == g.state.history
      && s.nextInterventionGeneration == g.state.nextInterventionGeneration
    ensures Heard(g.state, b).interventions == g.state.interventions && Heard(g.state, b).history == g.state.history
    ensures Heard(g.state, b).nextInterventionGeneration == g.state.nextInterventionGeneration
    ensures Heard(g.state, b).cleanStreak == g.state.cleanStreak
  {
    hide ClassifyWindow, Collided, Advanced;
  }
}
