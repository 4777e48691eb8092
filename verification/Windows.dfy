/** What one window leaves behind: counters, sequences, history, the table, and a decision that agrees with them. */
module Windows {
  import opened Outcomes
  import opened Model
  import opened Sorting
  import opened Collisions
  import opened Detect
  import opened Ranking
  import opened Authority
  import opened Classifier
  import opened Mitigate
  import opened Mitigation
  import opened Lifecycle
  import opened Governance
  import opened Safety
  import opened Runs
  import opened Dwell
  import opened Transitions
  import opened Authorities
  import opened Plans
  import opened Verdicts

  // ----- Books -----

  /** A refused window changes two counters, and its decision says why. */
  lemma RefusedWindow(g: Gov, b: Bundle)
    requires Shaped(g) && !Admits(g, b)
    ensures var (h, d) := Evaluate(g, b);
      && h == g.(state := g.state.(refusalCount := g.state.refusalCount + 1, generation := g.state.generation + 1))
      && d.outcome == OutcomeRefused && !d.authorized && d.refusal == Denial(g, b) != NoRefusal && d.intent == EMPTY_INTENT
      && d.decidedAt == (if b.now != 0 then b.now else g.state.lastEvaluation) && d.stateGeneration == h.state.generation
      && d.kind == UnknownKind && d.severity == NoSeverity
  {
    hide Gate, Check;
  }

  /** What every window that is not refused does to the counters. */
  predicate Books(s: GovernorState, t: GovernorState, b: Bundle) {
    && t.lastEvaluation == b.now && t.evaluationCount == s.evaluationCount + 1 && t.generation == s.generation + 1
    && t.refusalCount == s.refusalCount && t.destination == s.destination && t.policy == s.policy && t.boot == s.boot
    && t.epoch == s.epoch && t.restoredFromDurable == s.restoredFromDurable && t.restoreCount == s.restoreCount
  }

  lemma ListeningBooks(g: Gov, b: Bundle)
    requires Shaped(g)
    ensures var s, t := g.state, Listened(g, b);
      && t.evaluationCount == s.evaluationCount && t.generation == s.generation && t.refusalCount == s.refusalCount
      && t.destination == s.destination && t.policy == s.policy && t.boot == s.boot && t.epoch == s.epoch
      && t.restoredFromDurable == s.restoredFromDurable && t.restoreCount == s.restoreCount
      && t.destinationGeneration == s.destinationGeneration && t.interventionCount == s.interventionCount
      && t.nextInterventionGeneration == s.nextInterventionGeneration
      && t.interventions == s.interventions && t.history == s.history
  {
    hide Verdict, Advanced;
  }

  /** A fenced window keeps the history, the generation and the numbering; its decision names the record and the reason. */
  lemma FencedWindow(g: Gov, b: Bundle)
    requires Shaped(g) && Admits(g, b) && LiveFence(g, b) != NoRefusal
    ensures var (h, d) := Evaluate(g, b);
      && Books(g.state, h.state, b) && h.config == g.config && h.accepting == g.accepting
      && h.state.history == g.state.history && h.state.destinationGeneration == g.state.destinationGeneration
      && h.state.nextInterventionGeneration == g.state.nextInterventionGeneration
      && h.state.interventionCount == g.state.interventionCount && h.state.requiresRevalidation
    ensures var (h, d, w) := (Evaluate(g, b).0, Evaluate(g, b).1, FirstLive(g.state.interventions));
      && w < |g.state.interventions|
      && h.state.interventions == g.state.interventions[w := g.state.interventions[w].(state := InterventionState.Fenced)]
      && d.outcome == InterventionFenced && !d.authorized && d.refusal == LiveFence(g, b) && d.intent == EMPTY_INTENT
      && d.intervention == g.state.interventions[w].id && d.interventionState == InterventionState.Fenced
      && d.decidedAt == b.now && d.stateGeneration == h.state.generation
      && d.kind == Verdict(g, b).kind && d.severity == Verdict(g, b).severity
  {
    hide Verdict, Admits, Listened, FenceReason;
    ListeningBooks(g, b);
  }

  /** A recorded window raises the generation to the bundle's when that is newer, and numbers only what it issues. */
  lemma RecordedWindow(g: Gov, b: Bundle)
    requires Shaped(g) && Records(g, b)
    ensures var (h, d) := Evaluate(g, b);
      && Books(g.state, h.state, b) && h.config == g.config && h.accepting == g.accepting
      && h.state.destinationGeneration == Max(g.state.destinationGeneration, b.origin.destinationGeneration)
      && d.decidedAt == b.now && d.stateGeneration == h.state.generation
      && d.kind == Verdict(g, b).kind && d.severity == Verdict(g, b).severity
    ensures var (h, d) := Evaluate(g, b);
      var issued := if d.outcome == InterventionIssued then 1 else 0;
      h.state.nextInterventionGeneration == g.state.nextInterventionGeneration + issued
      && h.state.interventionCount == g.state.interventionCount + issued
  {
    hide Verdict, Admits, Listened, LiveFence, SynthesisOf, RequestFor, HeldByHysteresis, TrimInterventions, TrimHistory;
    ListeningBooks(g, b);
  }

  // ----- Destination generations -----

  lemma {:induction false} GenerationOnlyGrows(from: Run, later: Run)
    requires WellFounded(from) && WellFounded(later) && KeepsTable(from, later)
    ensures At(later).state.destinationGeneration >= At(from).state.destinationGeneration
    decreases later
  {
    hide Apply, Sound, Admits, Evaluate;
    if from != later {
      GenerationOnlyGrows(from, later.before);
      var g := At(later.before);
      if later.op.Window? {
        ApplyWindow(g, later.op, g.state);
        WindowKeepsGeneration(g, later.op.bundle);
      } else {
        OtherOpsKeepGeneration(g, later.op, g.state);
      }
    }
  }

  lemma WindowKeepsGeneration(g: Gov, b: Bundle)
    requires Shaped(g)
    ensures Evaluate(g, b).0.state.destinationGeneration >= g.state.destinationGeneration
  {
    hide Evaluate, Admits, LiveFence;
    if !Admits(g, b) {
      RefusedWindow(g, b);
    } else if LiveFence(g, b) != NoRefusal {
      FencedWindow(g, b);
    } else {
      RecordedWindow(g, b);
    }
  }

  lemma OtherOpsKeepGeneration(g: Gov, op: Op, snapshot: GovernorState)
    requires Shaped(g) && !op.Window? && !op.Restoring? && !op.Resetting?
    ensures Apply(g, op, snapshot).state.destinationGeneration == g.state.destinationGeneration
  {
    hide Policy.Valid, Reconfigured, ShutDown, Transition;
  }

  lemma OlderIsRefused(g: Gov, b: Bundle)
    requires Shaped(g) && 0 < b.origin.destinationGeneration < g.state.destinationGeneration
    ensures Evaluate(g, b).1.outcome == OutcomeRefused
    ensures Bearable(g, b) ==> Evaluate(g, b).1.refusal == StaleEvidence
  {
    hide Act, Check;
  }

  /** The governor accepts and is bound, and the bundle is well formed and about its destination. */
  predicate Bearable(g: Gov, b: Bundle) {
    g.accepting && g.config.binding.epoch != 0 && g.config.binding.boot != 0 && g.config.binding.lease != 0
    && b.StructurallyValid() && (g.config.destination == 0 || b.origin.destination == g.config.destination)
  }

  /** GENERATIONS.  After a window of some generation of the destination is recorded, every bundle of an earlier generation
      is refused, as stale, at every later point until the state is reset or restored. */
  lemma OlderGenerationsAreRefused(before: Run, first: Bundle, later: Run, second: Bundle)
    requires WellFounded(before) && WellFounded(later) && Records(At(before), first)
    requires KeepsTable(Then(before, Window(first)), later)
    requires 0 < second.origin.destinationGeneration < first.origin.destinationGeneration
    ensures Evaluate(At(later), second).1.outcome == OutcomeRefused
    ensures Bearable(At(later), second) ==> Evaluate(At(later), second).1.refusal == StaleEvidence
  {
    hide Evaluate, Records, Sound, Bearable;
    var g := At(before);
    ApplyWindow(g, Window(first), g.state);
    RecordedWindow(g, first);
    GenerationOnlyGrows(Then(before, Window(first)), later);
    OlderIsRefused(At(later), second);
  }

  // ----- Sequences and streaks -----

  /** The accepted sequences after a window that is not refused: the higher of the bundle's and those of the same boot. */
  lemma SequencesAdvance(g: Gov, b: Bundle)
    requires Shaped(g) && Admits(g, b)
    ensures var s, t := g.state, Evaluate(g, b).0.state;
      && |t.lastSequence| == CLASSES && t.lastSequenceBoot == b.binding.boot
      && forall i | 0 <= i < CLASSES ::
           t.lastSequence[i] == Max(if s.lastSequenceBoot == b.binding.boot then s.lastSequence[i] else 0,
                                    b.StampOf(ClassAt(i)).sequence)
  {
    hide ClassifyWindow, EffectOf, SynthesisOf, Check, FenceReason, TrimInterventions, Collided, Verdict, Advanced;
    GateBinds(g, b);
  }

  /** The streaks after a window that is not refused, and what is tracked about a live intervention while it is clean. */
  lemma StreaksCount(g: Gov, b: Bundle)
    requires Shaped(g) && Admits(g, b)
    ensures var s, t, h, m := g.state, Evaluate(g, b).0.state, g.config.policy.hysteresis, Verdict(g, b).metrics;
      if IsIncident(Verdict(g, b).instantaneous) then
        t.incidentStreak == Min(s.incidentStreak + 1, h.maxIncidentWindows) && t.cleanStreak == 0
        && t.recovery == RecoveryTracker(false, 0, 0, 0, 0, false)
      else
        && t.cleanStreak == Min(s.cleanStreak + 1, h.maxCleanWindows) && t.incidentStreak == 0
        && t.recovery == if !HasLive(s.interventions) then s.recovery
           else RecoveryTracker(true, if s.recovery.since != 0 then s.recovery.since else b.now, t.cleanStreak,
                                s.recovery.incidentWindows, Saturated(s.recovery.dropsDuringRecovery + m.dropEvents),
                                b.capacityStamp.state == Present)
  {
    hide EffectOf, SynthesisOf, FenceReason, TrimInterventions, Verdict, Advanced, Admits;
  }

  // ----- History -----

  /** Trimming keeps the newest windows, as many as the limit and the codec allow. */
  lemma HistoryKeepsTheNewest(h: seq<WindowRecord>, limit: nat)
    ensures var n := Min(|h|, Min(limit, MAX_HISTORY)); TrimHistory(h, limit) == h[|h| - n..]
  {}

  /** A recorded window is remembered by its measures: what its rows demand, how full its queues are, and who is active. */
  lemma RecordedHistoryIs(g: Gov, b: Bundle)
    requires Shaped(g) && Records(g, b)
    ensures var (h, c) := (Evaluate(g, b).0.state.history, Verdict(g, b));
      var all := g.state.history + [WindowRecord(b.origin.window, b.origin.windowGeneration, b.windowStart, b.windowEnd, c.kind,
        c.severity, DemandBp(b), FillingBp(b, g.config.policy), |Selected(Usable(), b.senders)|, true)];
      h == all[|all| - Min(|all|, Min(g.config.maxHistory, MAX_HISTORY))..]
  {
    hide Admits, LiveFence, Verdict, Evaluate, DemandBp, FillingBp, Selected, Usable, TrimHistory, ContextOf;
    RecordedHistory(g, b);
    VerdictMeasures(g, b);
    var all := g.state.history + [RecordOf(b, Verdict(g, b))];
    HistoryKeepsTheNewest(all, g.config.maxHistory);
  }

  lemma VerdictMeasures(g: Gov, b: Bundle)
    requires Shaped(g) && Admits(g, b)
    ensures var c, m := Verdict(g, b), MetricsOf(b, g.config.policy);
      c.authoritative && c.metrics == m && c.metrics.oversubscriptionBp == DemandBp(b)
      && c.metrics.queuePressureBp == FillingBp(b, g.config.policy)
      && c.metrics.activeSenders == |Selected(Usable(), b.senders)| && |b.senders| <= MAX_SENDERS
  {
    hide MetricsOf, ClassifyWindow, Check, Collided, DemandBp, Selected, Usable, Gate;
    AcceptedStandsAlone(g, b);
    SeverityExactlyWhen(b, g.config.policy, ContextOf(g.state));
    AcceptedIsAuthoritative(g, b);
    WindowIsMeasured(b, g.config.policy);
  }

  /** An admitted bundle is well formed, and passes the authority check also without history. */
  lemma AcceptedStandsAlone(g: Gov, b: Bundle)
    requires Shaped(g) && Admits(g, b)
    ensures Check(b, g.config.policy, NO_SEQUENCES).reason == NoRefusal && |b.senders| <= MAX_SENDERS
  {
    hide States, FirstDenial;
    AuthorityWithoutHistory(b, g.config.policy, Reference(g.state, b));
  }

  // ----- The verdict -----

  /** The kind of the last window on record. */
  function Before(s: GovernorState): IncidentKind { if s.history == [] then UnknownKind else s.history[|s.history| - 1].kind }

  /** The window shows less than the last one, and not for long enough. */
  predicate Dwelling(g: Gov, now: IncidentKind) {
    Below(now, Before(g.state)) && g.state.cleanStreak + 1 < g.config.policy.hysteresis.minDwellWindows
  }

  /** THE VERDICT.  A window that shows less than the last one counts as the last one until the dwell is met, and then as a
      recovery after an active incast, unless it shows a risk; with an intervention live any other window that is no incident
      counts as a recovery too, and the rest as what they show. */
  lemma VerdictExactlyWhen(g: Gov, b: Bundle)
    requires Shaped(g) && Admits(g, b)
    ensures var (c, now) := (Verdict(g, b), Verdict(g, b).instantaneous);
      var stepped := Below(now, Before(g.state)) && !Dwelling(g, now) && Before(g.state) == ActiveIncast
                     && now != SynchronizedIncastRisk;
      && c.kind == (if Dwelling(g, now) then Before(g.state)
                    else if stepped || (HasLive(g.state.interventions) && !IsIncident(now)) then Recovery
                    else now)
      && (c.held <==> Dwelling(g, now) || stepped) && c.authoritative
  {
    hide ClassifyWindow, Gate, States, FirstDenial, Collided, Below;
    AcceptedStandsAlone(g, b);
    AcceptedIsAuthoritative(g, b);
    HeldExactlyWhen(b, g.config.policy, ContextOf(g.state));
  }

  /** HOLDING.  Hysteresis holds a live intervention exactly when it is running, the last window was an incident, and this one
      shows less and not for long enough; a record that awaits revalidation is never held. */
  lemma HoldingExactlyWhen(g: Gov, b: Bundle)
    requires Shaped(g) && Admits(g, b) && HasLive(g.state.interventions)
    ensures var live := LiveRecord(g.state.interventions);
      HeldByHysteresis(live, Verdict(g, b)) <==>
        (live.state == Active || live.state == Relaxing) && IsIncident(Before(g.state))
        && Dwelling(g, Verdict(g, b).instantaneous)
  {
    hide Verdict, Admits, Below;
    VerdictExactlyWhen(g, b);
  }

  // ----- Outcomes -----

  function SynthesizedFor(g: Gov, b: Bundle): Synthesis
    requires Shaped(g)
  {
    SynthesisOf(RequestFor(g, b, Verdict(g, b)))
  }

  lemma ComposedIsActive(r: SynthesisRequest)
    requires Composes(r) && SynthesisOf(r).authorized
    ensures SynthesisOf(r).intent.IsActive()
  {
    hide RequiredReduction, PoolOf, NeededBp, ApplyBp, RatioBp, Worst, PlannedDuration, ClampBp, Headroom;
  }

  lemma IncidentIsComposed(g: Gov, b: Bundle)
    requires Sound(g) && Shaped(g) && Admits(g, b) && IsIncident(Verdict(g, b).kind)
    ensures Composes(RequestFor(g, b, Verdict(g, b)))
  {
    hide Verdict, Gate, States, FirstDenial, SaneTable;
  }

  /** OUTCOMES.  A recorded window issues an intervention exactly when none is live and an incident gets an intent; it
      continues the live one exactly when hysteresis holds it or an incident gets an intent; otherwise it relaxes or ends
      one, or does nothing. */
  lemma OutcomeExactlyWhen(g: Gov, b: Bundle)
    requires Sound(g) && Shaped(g) && Records(g, b)
    ensures var (d, c, live) := (Evaluate(g, b).1, Verdict(g, b), HasLive(g.state.interventions));
      var answered := IsIncident(c.kind) && SynthesizedFor(g, b).authorized;
      && (d.outcome == InterventionIssued <==> !live && answered)
      && (d.outcome == InterventionContinued <==>
            live && (answered || HeldByHysteresis(g.state.interventions[FirstLive(g.state.interventions)], c)))
      && d.outcome != OutcomeRefused && d.outcome != InterventionFenced
  {
    hide Verdict, Admits, LiveFence, SynthesisOf, RequestFor, HeldByHysteresis, Listened, TrimInterventions, TrimHistory, Sound,
      Composes, HeldRecord, ContinuedRecord, RelaxedRecord, RecoveredRecord, DroppedRecord, CreatedRecord;
    if IsIncident(Verdict(g, b).kind) {
      IncidentIsComposed(g, b);
      if SynthesizedFor(g, b).authorized { ComposedIsActive(RequestFor(g, b, Verdict(g, b))); }
    }
  }

  /** What becomes of a live intervention that is neither continued nor held: it is relaxed or ended exactly when a recovery
      is authorized, also ended when it awaits revalidation and the window is calm without being a recovery, and left alone
      otherwise. */
  lemma EndedExactlyWhen(g: Gov, b: Bundle)
    requires Sound(g) && Shaped(g) && Records(g, b) && HasLive(g.state.interventions)
    requires Evaluate(g, b).1.outcome != InterventionContinued
    ensures var (d, c, live) := (Evaluate(g, b).1, Verdict(g, b), g.state.interventions[FirstLive(g.state.interventions)]);
      var relaxes := c.kind == Recovery && SynthesizedFor(g, b).authorized;
      var dropped := c.kind != Recovery && !IsIncident(c.kind) && live.state == Revalidating;
      && (d.outcome == InterventionRelaxed <==> relaxes && SynthesizedFor(g, b).intent.IsActive())
      && (d.outcome == InterventionRetired <==> (relaxes && !SynthesizedFor(g, b).intent.IsActive()) || dropped)
      && (d.outcome == NoAction <==> !relaxes && !dropped)
  {
    hide Verdict, Admits, LiveFence, SynthesisOf, RequestFor, HeldByHysteresis, Listened, TrimInterventions, TrimHistory, Sound,
      Composes, HeldRecord, ContinuedRecord, RelaxedRecord, RecoveredRecord, DroppedRecord, CreatedRecord, Below, Dwelling;
    VerdictExactlyWhen(g, b);
    if IsIncident(Verdict(g, b).kind) {
      IncidentIsComposed(g, b);
      if SynthesizedFor(g, b).authorized { ComposedIsActive(RequestFor(g, b, Verdict(g, b))); }
    }
  }

  /** A COLLAPSING DESTINATION IS ANSWERED.  Whatever makes an accepted window of synchronized senders an active incast, demand
      or a full queue or drops, an intervention is issued when none is live, unless the policy refuses to go below what is to
      be kept for protected traffic. */
  lemma CollapseIsAnswered(g: Gov, b: Bundle)
    requires Sound(g) && Shaped(g) && Records(g, b) && !HasLive(g.state.interventions)
    requires Synchronous(b, g.config.policy) && Collapsing(b, g.config.policy)
    ensures var (d, r) := (Evaluate(g, b).1, RequestFor(g, b, Verdict(g, b)));
      && d.kind == ActiveIncast
      && (d.outcome == InterventionIssued <==>
            || g.config.policy.protection.escalateInsteadOfViolatingFloor || !KeepsSomething(r)
            || RequiredReduction(r.classification, r.policy) <= Removable(r))
      && (Structural(r) ==> d.outcome == InterventionIssued && d.intent.kind == TemporaryHeadroomAdjustment)
  {
    hide Verdict, Admits, Evaluate, RequestFor, Sound, Composes, SynthesisOf, KeepsSomething, RequiredReduction, Removable,
      Collapsing, Synchronous, LiveFence;
    SynchronousIsActive(g, b);
    IncidentIsComposed(g, b);
    var r := RequestFor(g, b, Verdict(g, b));
    RequestIsFor(g, b, Verdict(g, b));
    RefusedExactlyWhen(r);
    OutcomeExactlyWhen(g, b);
    RecordedWindow(g, b);
    if Structural(r) {
      StructuralIsRoom(r);
      IssuedIntent(g, b);
    }
  }

  lemma RequestIsFor(g: Gov, b: Bundle, c: Classification)
    ensures RequestFor(g, b, c).policy == g.config.policy && RequestFor(g, b, c).classification == c
    ensures RequestFor(g, b, c).bundle == b && RequestFor(g, b, c).checked == NoRefusal && RequestFor(g, b, c).issuedAt == b.now
    ensures HasLive(g.state.interventions) ==>
      var live := g.state.interventions[FirstLive(g.state.interventions)];
      RequestFor(g, b, c).prior == Some(live.intent) && RequestFor(g, b, c).intervention == live.id
      && RequestFor(g, b, c).generation == live.generation
    ensures !HasLive(g.state.interventions) ==>
      RequestFor(g, b, c).prior == None
      && RequestFor(g, b, c).intervention == RequestFor(g, b, c).generation == g.state.nextInterventionGeneration
  {}

  lemma IssuedIntent(g: Gov, b: Bundle)
    requires Shaped(g) && Records(g, b) && Evaluate(g, b).1.outcome == InterventionIssued
    ensures Evaluate(g, b).1.intent == SynthesizedFor(g, b).intent
  {
    hide Verdict, Records, SynthesisOf, RequestFor, HeldByHysteresis, Listened, TrimInterventions, TrimHistory;
  }

  lemma SynchronousIsActive(g: Gov, b: Bundle)
    requires Sound(g) && Shaped(g) && Admits(g, b) && Synchronous(b, g.config.policy) && Collapsing(b, g.config.policy)
    ensures Verdict(g, b).kind == ActiveIncast
  {
    hide ClassifyWindow, Check, Collided, Gate, Collapsing, MetricsOf, SynchronizationOf, Selected, Usable, SaneTable;
    var p := g.config.policy;
    AcceptedStandsAlone(g, b);
    ClassifiedExactlyWhen(b, p, ContextOf(g.state));
    SynchronousIsMany(b, p);
    HeldExactlyWhen(b, p, ContextOf(g.state));
    NothingIsAbove(ContextOf(g.state).prior);
  }

  lemma NothingIsAbove(k: IncidentKind)
    ensures !Below(ActiveIncast, k)
  {}

  lemma SynchronousIsMany(b: Bundle, p: Policy)
    requires p.Valid() && Synchronous(b, p) && |b.senders| <= MAX_SENDERS
    ensures |Selected(Usable(), b.senders)| >= p.synchronization.manyToOneMinSenders
  {
    hide MetricsOf, SynchronizationOf, Selected, Usable, Demand, TimedDemand, RatioBp, Compressed;
    SynchronizedExactlyWhen(b, p);
  }

  // ----- The table follows the decision -----

  function LiveRecord(rs: seq<Intervention>): Intervention
    requires HasLive(rs)
  {
    rs[FirstLive(rs)]
  }

  predicate IsIssued(r: Intervention, g: Gov, b: Bundle, i: MitigationIntent) {
    var id := g.state.nextInterventionGeneration;
    r == Intervention(id, id, b.origin.destination, b.origin.destinationGeneration, b.origin.window, b.origin.windowGeneration,
                      Active, i, b.binding, g.config.policy.ref, b.now, b.now, b.now + i.duration, 0, i.reductionBp, 0, 0,
                      NoRefusal, [])
  }

  predicate IsHeld(r: Intervention, live: Intervention, now: int) {
    var until := now + live.intent.duration;
    r == live.(expiresAt := until, intent := live.intent.(expiresAt := until), updatedAt := now,
               continueSteps := live.continueSteps + 1)
  }

  predicate IsContinued(r: Intervention, live: Intervention, i: MitigationIntent, now: int) {
    var generation := if live.state.Revalidating? then live.generation + 1 else live.generation;
    && i.generation == generation
    && r == live.(state := Active, generation := generation, intent := i, appliedReductionBp := i.reductionBp,
                  expiresAt := now + i.duration, updatedAt := now, continueSteps := live.continueSteps + 1)
  }

  predicate IsRelaxed(r: Intervention, live: Intervention, i: MitigationIntent, now: int) {
    var starts := live.state.Active?;
    r == live.(state := if starts then Relaxing else live.state, intent := i, appliedReductionBp := i.reductionBp,
               expiresAt := now + i.duration, updatedAt := now,
               relaxSteps := if starts then live.relaxSteps + 1 else live.relaxSteps,
               lastRelaxedAt := if starts then now else live.lastRelaxedAt)
  }

  /** A recovery that ends counts as one more step, unless the record was awaiting revalidation. */
  predicate IsRecovered(r: Intervention, live: Intervention, i: MitigationIntent, now: int) {
    var steps := !live.state.Revalidating?;
    r == live.(state := InterventionState.Retired, intent := i, updatedAt := now,
               relaxSteps := if steps then live.relaxSteps + 1 else live.relaxSteps,
               lastRelaxedAt := if steps then now else live.lastRelaxedAt)
  }

  lemma KeptRecordsAre(live: Intervention, now: int)
    requires SaneRecord(live) && live.Live() && now != 0
    ensures IsHeld(HeldRecord(live, now), live, now)
    ensures DroppedRecord(live, now) == live.(state := InterventionState.Retired, updatedAt := now)
  {}

  lemma RecordsAre(live: Intervention, s: Synthesis, now: int)
    requires SaneRecord(live) && live.Live() && now != 0 && s.intent.expiresAt == now + s.intent.duration
    ensures IsContinued(ContinuedRecord(live, s, now), live, ContinuedRecord(live, s, now).intent, now)
         && ContinuedRecord(live, s, now).intent == s.intent.(generation := ContinuedRecord(live, s, now).generation)
    ensures IsRelaxed(RelaxedRecord(live, s, now), live, s.intent, now)
    ensures IsRecovered(RecoveredRecord(live, s, now), live, s.intent, now)
  {
    hide SmallIntent;
  }

  /** Trimming leaves the live record the live one. */
  lemma TrimKeepsTheLiveOne(rs: seq<Intervention>, next: nat)
    requires SaneTable(rs, next)
    ensures HasLive(rs) <==> HasLive(TrimInterventions(rs))
    ensures HasLive(rs) ==> LiveRecord(TrimInterventions(rs)) == LiveRecord(rs)
    ensures |rs| <= MAX_INTERVENTIONS ==> TrimInterventions(rs) == rs
  {
    hide SaneTable, Recent, Selected;
    TrimKeeps(rs, next);
    var ts := TrimInterventions(rs);
    if HasLive(rs) {
      var r := LiveRecord(rs);
      assert r in ts;
      var i :| 0 <= i < |ts| && ts[i] == r;
      TheLiveOne(ts, next, i);
    }
    if HasLive(ts) {
      var r := LiveRecord(ts);
      assert r in rs;
      var i :| 0 <= i < |rs| && rs[i] == r;
      TheLiveOne(rs, next, i);
    }
  }

  /** One live record put in the place of another, or behind a table without one, is the live one. */
  lemma ReplacedIsLive(rs: seq<Intervention>, next: nat, r: Intervention)
    requires SaneTable(rs, next) && HasLive(rs)
    ensures r.Live() ==> HasLive(rs[FirstLive(rs) := r]) && LiveRecord(rs[FirstLive(rs) := r]) == r
    ensures !r.Live() ==> !HasLive(rs[FirstLive(rs) := r])
  {
    hide SaneRecord;
    var w := FirstLive(rs);
    OnlyLive(rs, next);
    var ts := rs[w := r];
    assert forall i | 0 <= i < |ts| && i != w :: !ts[i].Live();
    assert ts[w] == r;
    if r.Live() { assert FirstLive(ts) <= w; }
  }

  lemma AppendedIsLive(rs: seq<Intervention>, r: Intervention)
    requires !HasLive(rs) && r.Live()
    ensures HasLive(rs + [r]) && LiveRecord(rs + [r]) == r
  {
    var ts := rs + [r];
    assert forall i | 0 <= i < |rs| :: ts[i] == rs[i];
  }

  /** The table after a recorded window, before it is trimmed. */
  function Touched(g: Gov, b: Bundle): Effect
    requires Shaped(g)
  {
    EffectOf(g, b, Verdict(g, b), SynthesizedFor(g, b))
  }

  lemma RecordedTable(g: Gov, b: Bundle)
    requires Sound(g) && Shaped(g) && Records(g, b)
    ensures var (h, d, e) := (Evaluate(g, b).0, Evaluate(g, b).1, Touched(g, b));
      && h.state.interventions == TrimInterventions(e.records)
      && SaneTable(e.records, h.state.nextInterventionGeneration)
      && d.outcome == e.outcome && d.intervention == e.intervention && d.interventionState == e.state && d.intent == e.intent
      && d.authorized == e.authorized && d.refusal == e.refusal
  {
    hide Verdict, Gate, Check, LiveFence, SynthesisOf, RequestFor, Listened, TrimInterventions, TrimHistory, SaneTable, EffectOf;
    EffectIsSane(g, b, Verdict(g, b));
    ListeningBooks(g, b);
  }

  lemma TheLiveOneAwaits(rs: seq<Intervention>, next: nat)
    requires SaneTable(rs, next)
    ensures AnyRevalidating(rs) <==> HasLive(rs) && LiveRecord(rs).state.Revalidating?
  {
    hide SaneTable;
    if i :| 0 <= i < |rs| && rs[i].state.Revalidating? {
      TheLiveOne(rs, next, i);
    }
  }

  /** After a recorded window the state asks for revalidation exactly when the live record does. */
  lemma RevalidationIsFlagged(g: Gov, b: Bundle)
    requires Sound(g) && Shaped(g) && Records(g, b)
    ensures var s := Evaluate(g, b).0.state;
      s.requiresRevalidation <==> HasLive(s.interventions) && LiveRecord(s.interventions).state == Revalidating
  {
    hide Verdict, Gate, Check, LiveFence, SynthesisOf, RequestFor, Listened, TrimInterventions, TrimHistory, SaneTable, EffectOf,
      HasLive, LiveRecord;
    RecordedTable(g, b);
    var s := Evaluate(g, b).0.state;
    TheLiveOneAwaits(Touched(g, b).records, s.nextInterventionGeneration);
    TrimKeepsTheLiveOne(Touched(g, b).records, s.nextInterventionGeneration);
  }

  lemma SynthesisRunsFromNow(g: Gov, b: Bundle)
    requires Shaped(g) && Admits(g, b) && SynthesizedFor(g, b).authorized
    ensures SynthesizedFor(g, b).intent.expiresAt == b.now + SynthesizedFor(g, b).intent.duration && b.now != 0
  {
    hide SynthesisOf, RequestFor, Verdict, Check;
    RequestIsFor(g, b, Verdict(g, b));
    IntentRunsFromNow(RequestFor(g, b, Verdict(g, b)));
  }

  /** ISSUED.  The live record is the new one, under the next identity, active, with the decided intent and the authority and
      origin of the bundle, from now for its duration. */
  lemma IssuedIsOnRecord(g: Gov, b: Bundle)
    requires Sound(g) && Shaped(g) && Records(g, b) && Evaluate(g, b).1.outcome == InterventionIssued
    ensures var (rs, d) := (Evaluate(g, b).0.state.interventions, Evaluate(g, b).1);
      && HasLive(rs) && IsIssued(LiveRecord(rs), g, b, d.intent)
      && d.authorized && d.intervention == g.state.nextInterventionGeneration && d.interventionState == Active
  {
    hide Verdict, Admits, LiveFence, SynthesisOf, RequestFor, TrimInterventions, SaneTable, Evaluate, HeldByHysteresis,
      HasLive, LiveRecord, Sound, Composes;
    RecordedTable(g, b);
    OutcomeExactlyWhen(g, b);
    SynthesisRunsFromNow(g, b);
    IssuedEffect(g, b);
    IncidentIsComposed(g, b);
    RequestIsFor(g, b, Verdict(g, b));
    FreshIsNumbered(RequestFor(g, b, Verdict(g, b)));
    TrimKeepsTheLiveOne(Touched(g, b).records, Evaluate(g, b).0.state.nextInterventionGeneration);
  }

  lemma IssuedEffect(g: Gov, b: Bundle)
    requires Shaped(g) && Touched(g, b).outcome == InterventionIssued
    ensures var (e, y) := (Touched(g, b), SynthesizedFor(g, b));
      var r := CreatedRecord(y, b, g.config.policy.ref, b.now);
      && y.authorized && IsIncident(Verdict(g, b).kind) && e.records == g.state.interventions + [r] && !HasLive(g.state.interventions)
      && HasLive(e.records) && LiveRecord(e.records) == r && e.intent == y.intent && e.intervention == r.id && e.state == Active
      && e.authorized
  {
    hide Verdict, SynthesisOf, RequestFor, HeldByHysteresis, HeldRecord;
    AppendedIsLive(g.state.interventions, CreatedRecord(SynthesizedFor(g, b), b, g.config.policy.ref, b.now));
  }

  /** What a decision says about the live record and what has become of it. */
  predicate Follows(d: Decision, r: Intervention, live: Intervention, held: bool, now: int) {
    && d.intervention == r.id && d.interventionState == r.state
    && match d.outcome
       case InterventionContinued =>
         d.authorized && d.intent == r.intent && if held then IsHeld(r, live, now) else IsContinued(r, live, d.intent, now)
       case InterventionRelaxed => d.authorized && IsRelaxed(r, live, d.intent, now)
       case InterventionRetired =>
         if d.authorized then IsRecovered(r, live, d.intent, now)
         else live.state.Revalidating? && r == live.(state := InterventionState.Retired, updatedAt := now)
       case NoAction => !d.authorized && r == live
       case _ => false
  }

  /** The decision carries what was synthesized for the window: its intent, under the generation of the record it continues,
      or its refusal. */
  predicate AnsweredBy(d: Decision, y: Synthesis) {
    && d.authorized == y.authorized && d.intent == y.intent.(generation := d.intent.generation)
    && (d.outcome != InterventionContinued ==> d.intent == y.intent)
    && d.refusal == if y.authorized then NoRefusal else y.refusal
  }

  /** The effect on a live record that hysteresis does not hold. */
  lemma SynthesizedEffect(g: Gov, b: Bundle)
    requires Sound(g) && Shaped(g) && Admits(g, b) && HasLive(g.state.interventions)
    requires !HeldByHysteresis(LiveRecord(g.state.interventions), Verdict(g, b))
    ensures var (c, y) := (Verdict(g, b), SynthesizedFor(g, b));
      && (y.authorized <==> Touched(g, b).outcome in {InterventionContinued, InterventionRelaxed}
                            || (Touched(g, b).outcome == InterventionRetired && c.kind == Recovery))
      && (y.authorized && IsIncident(c.kind) ==> y.intent.IsActive())
      && (y.authorized ==> y.intent.expiresAt == b.now + y.intent.duration)
      && (!IsIncident(c.kind) && c.kind != Recovery ==> !y.authorized)
  {
    hide Verdict, Gate, Check, SynthesisOf, RequestFor, HeldByHysteresis, SaneTable, HeldRecord, ContinuedRecord, RelaxedRecord,
      RecoveredRecord, DroppedRecord, Policy.Valid, Composes;
    var c := Verdict(g, b);
    EnabledAndKnown(g, b);
    RequestIsFor(g, b, c);
    if SynthesizedFor(g, b).authorized { SynthesisRunsFromNow(g, b); }
    if IsIncident(c.kind) {
      IncidentIsComposed(g, b);
      if SynthesizedFor(g, b).authorized { ComposedIsActive(RequestFor(g, b, c)); }
    } else {
      OtherwiseRefused(RequestFor(g, b, c));
    }
  }

  lemma ReplacedEffect(g: Gov, b: Bundle)
    requires Sound(g) && Shaped(g) && Records(g, b) && HasLive(g.state.interventions)
    ensures var (rs, e, w) := (g.state.interventions, Touched(g, b), FirstLive(g.state.interventions));
      && |e.records| == |rs| && e.records == rs[w := e.records[w]] && e.records[w].id == rs[w].id
      && Follows(Evaluate(g, b).1, e.records[w], rs[w], HeldByHysteresis(rs[w], Verdict(g, b)), b.now)
  {
    hide Verdict, Gate, Check, SynthesizedFor, HeldByHysteresis, SaneTable, IsHeld, IsContinued, IsRelaxed, IsRecovered,
      HeldRecord, ContinuedRecord, RelaxedRecord, RecoveredRecord, DroppedRecord, Policy.Valid, Evaluate, LiveFence;
    RecordedTable(g, b);
    var rs, w, y := g.state.interventions, FirstLive(g.state.interventions), SynthesizedFor(g, b);
    LiveIsSane(rs, g.state.nextInterventionGeneration, w);
    GateBinds(g, b);
    RecordsKeepIdentity(rs[w], y, b.now);
    KeptRecordsAre(rs[w], b.now);
    StatesOfRecords(rs[w], y, b.now);
    if !HeldByHysteresis(rs[w], Verdict(g, b)) {
      SynthesizedEffect(g, b);
      if y.authorized { RecordsAre(rs[w], y, b.now); }
    }
  }

  lemma AnswerOfEffect(g: Gov, b: Bundle)
    requires Sound(g) && Shaped(g) && Records(g, b) && HasLive(g.state.interventions)
    requires !HeldByHysteresis(LiveRecord(g.state.interventions), Verdict(g, b))
    ensures AnsweredBy(Evaluate(g, b).1, SynthesizedFor(g, b))
  {
    hide Verdict, Gate, Check, SynthesisOf, RequestFor, HeldByHysteresis, Evaluate, LiveFence, Policy.Valid, Composes, Sound,
      RelaxedRecord, RecoveredRecord, DroppedRecord, HeldRecord;
    RecordedTable(g, b);
    SynthesizedEffect(g, b);
  }

  lemma StatesOfRecords(live: Intervention, s: Synthesis, now: int)
    ensures RecoveredRecord(live, s, now).state == InterventionState.Retired
    ensures DroppedRecord(live, now).state == InterventionState.Retired
  {}

  lemma EnabledAndKnown(g: Gov, b: Bundle)
    requires Shaped(g) && Admits(g, b)
    ensures g.config.policy.enabled && Verdict(g, b).kind != UnknownKind && Verdict(g, b).authoritative
  {
    hide ClassifyWindow, Gate, States, FirstDenial, Collided;
    AcceptedIsAuthoritative(g, b);
    KindsOfWindow(g, b);
  }

  /** THE TABLE FOLLOWS THE DECISION.  After a recorded window that found an intervention live, the decision is about that
      intervention and says what has become of its record; no other record has changed. */
  lemma DecisionIsOnRecord(g: Gov, b: Bundle)
    requires Sound(g) && Shaped(g) && Records(g, b) && HasLive(g.state.interventions)
    ensures var (rs, ts, w) := (g.state.interventions, Evaluate(g, b).0.state.interventions, FirstLive(g.state.interventions));
      && |ts| == |rs| && ts == rs[w := ts[w]]
      && Follows(Evaluate(g, b).1, ts[w], rs[w], HeldByHysteresis(rs[w], Verdict(g, b)), b.now)
    ensures !HeldByHysteresis(LiveRecord(g.state.interventions), Verdict(g, b)) ==>
      AnsweredBy(Evaluate(g, b).1, SynthesizedFor(g, b))
  {
    hide Verdict, Admits, LiveFence, Touched, TrimInterventions, Evaluate, HeldByHysteresis, Follows, AnsweredBy, Policy.Valid, OneLive, Numbered,
      SaneRecord;
    RecordedTable(g, b);
    ReplacedEffect(g, b);
    if !HeldByHysteresis(LiveRecord(g.state.interventions), Verdict(g, b)) { AnswerOfEffect(g, b); }
    TrimKeepsTheLiveOne(Touched(g, b).records, Evaluate(g, b).0.state.nextInterventionGeneration);
  }

  /** A recorded window that finds nothing live and issues nothing leaves the table alone and names the refusal. */
  lemma IdleWindow(g: Gov, b: Bundle)
    requires Sound(g) && Shaped(g) && Records(g, b) && !HasLive(g.state.interventions)
    requires Evaluate(g, b).1.outcome != InterventionIssued
    ensures var (h, d) := Evaluate(g, b);
      && h.state.interventions == g.state.interventions && d.outcome == NoAction && d.intervention == 0
      && d.authorized == SynthesizedFor(g, b).authorized && d.refusal == SynthesizedFor(g, b).refusal
  {
    hide Verdict, Gate, Check, LiveFence, SynthesisOf, RequestFor, TrimInterventions, Evaluate, OneLive, Numbered, SaneRecord,
      Policy.Valid;
    RecordedTable(g, b);
    TrimKeepsTheLiveOne(Touched(g, b).records, Evaluate(g, b).0.state.nextInterventionGeneration);
  }

  // ----- Trimming -----

  function Ended(): Intervention -> bool { (i: Intervention) => !i.Live() }

  /** The last elements of a list, as many as asked for, in reverse. */
  function NewestFirst<T>(s: seq<T>, n: nat): (r: seq<T>)
    ensures |r| == (if n < |s| then n else |s|) && forall i | 0 <= i < |r| :: r[i] == s[|s| - 1 - i]
  {
    if n == 0 || s == [] then [] else [s[|s| - 1]] + NewestFirst(s[..|s| - 1], n - 1)
  }

  lemma {:induction false} RecentAreTheNewest(rs: seq<Intervention>, room: nat)
    ensures Recent(rs, room) == NewestFirst(Selected(Ended(), rs), room)
    decreases |rs|
  {
    if rs != [] && room > 0 {
      var front, last := rs[..|rs| - 1], rs[|rs| - 1];
      RecentAreTheNewest(front, room);
      RecentAreTheNewest(front, room - 1);
      if !last.Live() { assert (Selected(Ended(), front) + [last])[..|Selected(Ended(), front)|] == Selected(Ended(), front); }
    }
  }

  /** TRIMMING.  A table over its bound keeps the live records in their order and behind them the newest of the others, newest
      first, until it is full. */
  lemma TrimKeepsTheNewest(rs: seq<Intervention>)
    requires |rs| > MAX_INTERVENTIONS
    ensures var live := Selected(IsLive(), rs);
      TrimInterventions(rs)
      == live + NewestFirst(Selected(Ended(), rs), if |live| < MAX_INTERVENTIONS then MAX_INTERVENTIONS - |live| else 0)
  {
    hide Recent, Selected;
    var live := Selected(IsLive(), rs);
    RecentAreTheNewest(rs, if |live| < MAX_INTERVENTIONS then MAX_INTERVENTIONS - |live| else 0);
  }
}
