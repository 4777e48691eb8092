/** When a running intervention is relaxed. */
module Relaxation {
  import opened Model
  import opened Collisions
  import opened Detect
  import opened Ranking
  import opened Authority
  import opened Classifier
  import opened Mitigate
  import opened Governance
  import opened Safety
  import opened Dwell

  /** The recovery criteria: why an intervention must hold, or NoRefusal when it may relax. */
  function HoldReason(p: RecoveryPolicy, t: RecoveryTracker, m: Metrics): RefusalReason {
    if !p.enabled then PolicyDisabled
    else if m.oversubscriptionBp > p.relaxOversubscriptionBp then NoIncident
    else if m.queuePressureBp > p.relaxQueuePressureBp then NoIncident
    else if m.dropEvents > p.maxDropsDuringRecovery then NoIncident
    else if t.cleanWindows < p.requiredCleanWindows then NoIncident
    else if p.requireCapacityRevalidation && !t.capacityRevalidated then CapacityNotRevalidated
    else NoRefusal
  }

  /** Capacity that has not been seen again is the reason only when nothing else holds the intervention. */
  lemma CapacityHoldsLast(p: RecoveryPolicy, t: RecoveryTracker, m: Metrics)
    ensures HoldReason(p, t, m) == CapacityNotRevalidated <==>
      p.requireCapacityRevalidation && !t.capacityRevalidated
      && HoldReason(p, t.(capacityRevalidated := true), m) == NoRefusal
  {}

  /** The decision lowers or ends a live intervention by a recovery step. */
  predicate Relaxes(d: Decision) {
    d.authorized && (d.outcome == InterventionRelaxed || d.outcome == InterventionRetired)
  }

  lemma AdmittedPolicyIsEnabled(g: Gov, b: Bundle)
    requires Shaped(g) && Admits(g, b)
    ensures g.config.policy.enabled
  {
    hide Gate, States, FirstDenial;
  }

  lemma LiveSynthesis(g: Gov, b: Bundle, c: Classification)
    requires Sound(g) && g.config.policy.enabled && HasLive(g.state.interventions)
    ensures var s := SynthesisOf(RequestFor(g, b, c));
      && (c.kind == Recovery ==> (s.authorized <==> g.config.policy.recovery.enabled))
      && (c.kind == NoFanIn || c.kind == OrdinaryManyToOne || c.kind == UnknownKind ==> !s.authorized)
  {
    hide Base, Fresh, SmallIntent, OneLive, Numbered, Policy.Valid, ClampToBounds, RetiresNow, RecoveryStep;
    var w := FirstLive(g.state.interventions);
    assert SaneRecord(g.state.interventions[w]);
  }

  lemma LiveEffect(g: Gov, b: Bundle, c: Classification, s: Synthesis)
    requires HasLive(g.state.interventions)
    requires c.kind == NoFanIn || c.kind == OrdinaryManyToOne || c.kind == UnknownKind ==> !s.authorized
    ensures var e := EffectOf(g, b, c, s);
      e.authorized && (e.outcome == InterventionRelaxed || e.outcome == InterventionRetired)
      <==> c.kind == Recovery && s.authorized
  {
    hide HeldRecord, ContinuedRecord, RecoveredRecord, RelaxedRecord, DroppedRecord;
  }

  /** RELAXATION.  In a recorded window a live intervention is relaxed exactly when the window is classified as a
      recovery and the policy enables recovery. */
  lemma RelaxesExactlyWhen(g: Gov, b: Bundle)
    requires Sound(g) && Shaped(g) && Records(g, b) && HasLive(g.state.interventions)
    ensures Relaxes(Evaluate(g, b).1) <==> Verdict(g, b).kind == Recovery && g.config.policy.recovery.enabled
  {
    hide Verdict, Admits, SynthesisOf, EffectOf, Listened, Recorded, LiveFence, Sound, RequestFor;
    AdmittedPolicyIsEnabled(g, b);
    LiveSynthesis(g, b, Verdict(g, b));
    LiveEffect(g, b, Verdict(g, b), SynthesisOf(RequestFor(g, b, Verdict(g, b))));
  }

  /** What the recovery criteria come to for a window, in terms of the state before it. */
  predicate CriteriaMet(g: Gov, b: Bundle, m: Metrics) {
    var p := g.config.policy.recovery;
    && m.oversubscriptionBp <= p.relaxOversubscriptionBp && m.queuePressureBp <= p.relaxQueuePressureBp
    && m.dropEvents <= p.maxDropsDuringRecovery
    && Min(g.state.cleanStreak + 1, g.config.policy.hysteresis.maxCleanWindows) >= p.requiredCleanWindows
    && (p.requireCapacityRevalidation ==> b.capacityStamp.state == Present)
  }

  lemma RecoveryWindowsAreClean(g: Gov, b: Bundle)
    requires Shaped(g) && Verdict(g, b).kind == Recovery
    ensures !IsIncident(Verdict(g, b).instantaneous)
  {
    hide MetricsOf, SynchronizationOf, Check, Instantaneous, SeverityOf, Ranked, WithCollisions, Collided;
  }

  lemma CleanWindowsTrack(g: Gov, b: Bundle)
    requires Shaped(g) && HasLive(g.state.interventions) && !IsIncident(Verdict(g, b).instantaneous)
    ensures var t := Listened(g, b).recovery;
      t.cleanWindows == Min(g.state.cleanStreak + 1, g.config.policy.hysteresis.maxCleanWindows)
      && (t.capacityRevalidated <==> b.capacityStamp.state == Present)
  {
    hide Verdict, Advanced;
  }

  /** The recovery criteria do not gate relaxation.  A recorded window relaxes its intervention only when the criteria
      let it, if and only if it is no recovery window, or the policy does not enable recovery, or the window and the
      streak behind it meet the criteria by themselves. */
  lemma CriteriaAreRespectedExactlyWhen(g: Gov, b: Bundle)
    requires Sound(g) && Shaped(g) && Records(g, b) && HasLive(g.state.interventions)
    ensures var c, p := Verdict(g, b), g.config.policy.recovery;
      (Relaxes(Evaluate(g, b).1) ==> HoldReason(p, Listened(g, b).recovery, c.metrics) == NoRefusal)
      <==> c.kind != Recovery || !p.enabled || CriteriaMet(g, b, c.metrics)
  {
    hide Verdict, Records, Evaluate, Listened, Sound, Relaxes;
    RelaxesExactlyWhen(g, b);
    if Verdict(g, b).kind == Recovery {
      RecoveryWindowsAreClean(g, b);
      CleanWindowsTrack(g, b);
    }
  }
}
