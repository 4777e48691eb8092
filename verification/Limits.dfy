/** Every authorized decision stays inside the bounds of the policy in force. */
module Limits {
  import opened Model
  import opened Authority
  import opened Classifier
  import opened Mitigate
  import opened Lifecycle
  import opened Governance
  import opened Safety
  import opened Runs

  /** An active or relaxing record is within the bounds; one awaiting revalidation need not be. */
  predicate Tame(r: Intervention, b: Bounds) {
    r.state.Active? || r.state.Relaxing? ==> Within(r.intent, b)
  }

  ghost predicate TameTable(rs: seq<Intervention>, b: Bounds) { forall i | 0 <= i < |rs| :: Tame(rs[i], b) }

  lemma RecordsStayTame(live: Intervention, s: Synthesis, now: int, b: Bounds)
    requires Tame(live, b) && live.Live()
    ensures Tame(DroppedRecord(live, now), b) && Tame(FencedRecord(live), b) && Tame(RecoveredRecord(live, s, now), b)
    ensures Tame(HeldRecord(live, now), b)
    ensures Within(s.intent, b) ==> Tame(ContinuedRecord(live, s, now), b) && Tame(RelaxedRecord(live, s, now), b)
  {}

  lemma IntentsOfEffect(g: Gov, b: Bundle, c: Classification, s: Synthesis, k: Bounds)
    requires TameTable(g.state.interventions, k) && (s.authorized ==> Within(s.intent, k))
    ensures var e := EffectOf(g, b, c, s);
      TameTable(e.records, k) && (e.authorized ==> Within(e.intent, k))
  {
    hide HeldRecord, DroppedRecord, RecoveredRecord, ContinuedRecord, RelaxedRecord, Within;
    var rs, w := g.state.interventions, FirstLive(g.state.interventions);
    var e := EffectOf(g, b, c, s);
    if w < |rs| {
      RecordsStayTame(rs[w], s, b.now, k);
      IntentsStayWithin(rs[w], s, b.now, k);
      assert e.records == rs[w := e.records[w]] && Tame(e.records[w], k);
    } else {
      assert s.authorized ==> Tame(CreatedRecord(s, b, g.config.policy.ref, b.now), k);
    }
  }

  lemma IntentsStayWithin(live: Intervention, s: Synthesis, now: int, b: Bounds)
    ensures Within(s.intent, b) ==> Within(ContinuedRecord(live, s, now).intent, b)
    ensures Within(HeldRecord(live, now).intent, b) <==> Within(live.intent, b)
  {}

  lemma SubTableTame(rs: seq<Intervention>, ts: seq<Intervention>, b: Bounds)
    requires TameTable(rs, b) && forall t | t in ts :: t in rs
    ensures TameTable(ts, b)
  {
    hide Tame;
    forall i | 0 <= i < |ts| ensures Tame(ts[i], b) {
      assert ts[i] in ts;
      var j :| 0 <= j < |rs| && rs[j] == ts[i];
    }
  }

  /** Within the bounds before, a window leaves every running intervention within them, and any decision it authorizes,
      held ones included, is within them too. */
  lemma WindowIsTame(g: Gov, b: Bundle)
    requires Sound(g) && Shaped(g) && TameTable(g.state.interventions, g.config.policy.bounds)
    ensures TameTable(Evaluate(g, b).0.state.interventions, g.config.policy.bounds)
    ensures Evaluate(g, b).1.authorized ==> Within(Evaluate(g, b).1.intent, g.config.policy.bounds)
  {
    hide Act, Admits, TameTable, LiveFence, Sound, Within;
    if Admits(g, b) {
      if LiveFence(g, b) != NoRefusal { FencedWindowIsTame(g, b); } else { RecordedWindowIsTame(g, b); }
    }
  }

  lemma FencedWindowIsTame(g: Gov, b: Bundle)
    requires Sound(g) && Shaped(g) && Admits(g, b) && LiveFence(g, b) != NoRefusal
    requires TameTable(g.state.interventions, g.config.policy.bounds)
    ensures TameTable(Act(g, b).0.state.interventions, g.config.policy.bounds) && !Act(g, b).1.authorized
  {
    hide Verdict, Gate, Check, Policy.Valid, FencedRecord, FenceReason, Heard, Within, SaneTable;
    var rs, w := g.state.interventions, FirstLive(g.state.interventions);
    ListeningKeeps(g, b);
    RecordsStayTame(rs[w], Mitigate.Refuse(EMPTY_INTENT, NoRefusal), b.now, g.config.policy.bounds);
  }

  lemma RecordedWindowIsTame(g: Gov, b: Bundle)
    requires Sound(g) && Shaped(g) && Admits(g, b) && LiveFence(g, b) == NoRefusal
    requires TameTable(g.state.interventions, g.config.policy.bounds)
    ensures TameTable(Act(g, b).0.state.interventions, g.config.policy.bounds)
    ensures Act(g, b).1.authorized ==> Within(Act(g, b).1.intent, g.config.policy.bounds)
  {
    hide Verdict, Gate, Check, Policy.Valid, FenceReason, Heard, Within, SaneTable, TameTable, SynthesisOf, EffectOf,
      TrimInterventions, TrimHistory, SmallIntent;
    var rs, next, w := g.state.interventions, g.state.nextInterventionGeneration, FirstLive(g.state.interventions);
    ListeningKeeps(g, b);
    var c := Verdict(g, b);
    var r := RequestFor(g, b, c);
    var s := SynthesisOf(r);
    if s.authorized {
      if w < |rs| { LiveIsSane(rs, next, w); }
      AuthorizedIsSmall(r);
    }
    IntentsOfEffect(g, b, c, s, g.config.policy.bounds);
    EffectIsSane(g, b, c);
    var e := EffectOf(g, b, c, s);
    TrimKeeps(e.records, next + (if e.issued then 1 else 0));
    SubTableTame(e.records, TrimInterventions(e.records), g.config.policy.bounds);
  }

  // ----- Configuration -----

  /** Configuring a policy keeps the running interventions within the policy in force exactly when the policy is
      invalid and so not taken, or its id or generation differs from the one the state records, or every running intent
      is within the new bounds already. */
  lemma ConfiguringIsTameExactlyWhen(g: Gov, p: Policy, now: int)
    requires Sound(g) && TameTable(g.state.interventions, g.config.policy.bounds)
    ensures var h := ConfigurePolicy(g, p, now).0;
      TameTable(h.state.interventions, h.config.policy.bounds)
      <==> !p.Valid() || p.ref != g.state.policy || TameTable(g.state.interventions, p.bounds)
  {
    hide Policy.Valid, Reconfigured, Within, Transition, SaneTable;
    var rs := g.state.interventions;
    var ts := Reconfigured(rs, p.ref, now);
    assert TameTable(ts, p.bounds);
  }

  /** A window held by hysteresis authorizes the intent of its record, within the bounds or not. */
  lemma HeldWindowsRepeatTheIntent(g: Gov, b: Bundle)
    requires Shaped(g) && Admits(g, b) && LiveFence(g, b) == NoRefusal && HasLive(g.state.interventions)
    requires HeldByHysteresis(g.state.interventions[FirstLive(g.state.interventions)], Verdict(g, b))
    ensures var d, live := Evaluate(g, b).1, g.state.interventions[FirstLive(g.state.interventions)];
      d.authorized && d.outcome == InterventionContinued
      && (Within(d.intent, g.config.policy.bounds) <==> Within(live.intent, g.config.policy.bounds))
  {
    hide Verdict, Gate, Check, FenceReason, Heard, SynthesisOf, Recorded, HeldByHysteresis, Counted;
  }

  // ----- Runs -----

  /** Each valid policy configured over the id and generation already in the state is the policy in force. */
  ghost predicate Disciplined(r: Run)
    requires WellFounded(r)
    decreases r
  {
    r.Start?
    || (Disciplined(r.before)
        && (r.op.Configure? && r.op.policy.Valid() && r.op.policy.ref == At(r.before).state.policy
            ==> r.op.policy == At(r.before).config.policy))
  }

  lemma OtherOpsAreTame(g: Gov, op: Op, snapshot: GovernorState)
    requires Sound(g) && Shaped(g) && Sane(snapshot) && !op.Window? && !op.Configure?
    requires TameTable(g.state.interventions, g.config.policy.bounds)
    ensures var h := Apply(g, op, snapshot); TameTable(h.state.interventions, h.config.policy.bounds)
  {
    hide Policy.Valid, Restored, ShutDown, Within, Evaluate, ConfigurePolicy, SaneTable, Recovered, Transition;
    if op.Restoring? { RecoveredIsSane(snapshot); }
  }

  lemma {:induction false} RunsAreTame(r: Run)
    requires WellFounded(r) && Disciplined(r)
    ensures TameTable(At(r).state.interventions, At(r).config.policy.bounds)
    decreases r
  {
    hide Apply, TameTable, Policy.Valid, Sound;
    if r.Start? {
      NothingIsTame(r.config);
    } else {
      RunsAreTame(r.before);
      var g := At(r.before);
      if r.op.Window? {
        ApplyWindow(g, r.op, g.state);
        WindowIsTame(g, r.op.bundle);
        WindowKeepsConfig(g, r.op.bundle);
      } else if r.op.Configure? {
        ApplyConfigure(g, r.op, g.state);
        ConfiguringIsTameExactlyWhen(g, r.op.policy, r.op.now);
      } else {
        var snapshot := if r.op.Restoring? then At(r.op.snapshot).state else g.state;
        assert Sane(snapshot) by { SoundIsSane(g); if r.op.Restoring? { SoundIsSane(At(r.op.snapshot)); } }
        OtherOpsAreTame(g, r.op, snapshot);
      }
    }
  }

  lemma NothingIsTame(config: Config)
    ensures TameTable(Initial(config).state.interventions, config.policy.bounds) && Initial(config).config == config
  {}

  lemma WindowKeepsConfig(g: Gov, b: Bundle)
    requires Shaped(g)
    ensures Evaluate(g, b).0.config == g.config
  {
    hide Verdict, Gate, Check, FenceReason, Listened, EffectOf, SynthesisOf, Recorded, Fence, RequestFor, LiveFence, Admits, Denial;
  }

  lemma ApplyConfigure(g: Gov, op: Op, snapshot: GovernorState)
    requires Shaped(g) && op.Configure?
    ensures Apply(g, op, snapshot) == ConfigurePolicy(g, op.policy, op.now).0
  {
    hide ConfigurePolicy;
  }

  /** BOUNDS.  In a disciplined run every authorized decision, including one held by hysteresis, carries an intent
      inside every bound of the policy in force. */
  lemma AuthorizedDecisionsAreWithin(r: Run, b: Bundle)
    requires WellFounded(r) && Disciplined(r) && Evaluate(At(r), b).1.authorized
    ensures Within(Evaluate(At(r), b).1.intent, At(r).config.policy.bounds)
  {
    hide Evaluate, Within, At, TameTable;
    RunsAreTame(r);
    WindowIsTame(At(r), b);
  }
}
