/** What one call, and any number of calls, may do to the state of an intervention. */
module Transitions {
  import opened Model
  import opened Authority
  import opened Classifier
  import opened Mitigate
  import opened Lifecycle
  import opened Governance
  import opened Safety
  import opened Runs

  /** The record has moved along the table of legal transitions, and not at all once it was over. */
  predicate Moved(r: Intervention, t: Intervention) {
    t.id == r.id && IsLegal(r.state, t.state) && (IsTerminalState(r.state) ==> t == r)
  }

  /** Every record of the later table is a record of the earlier one that has moved legally, or a new one under an
      identity never used before. */
  ghost predicate Evolves(rs: seq<Intervention>, next: nat, ts: seq<Intervention>) {
    forall t | t in ts :: (exists r | r in rs :: Moved(r, t)) || (t.id >= next && t.state.Active?)
  }

  lemma StandsStill(rs: seq<Intervention>, next: nat)
    ensures Evolves(rs, next, rs)
  {
    forall t | t in rs ensures exists r | r in rs :: Moved(r, t) { assert Moved(t, t); }
  }

  lemma OneMoves(rs: seq<Intervention>, next: nat, w: nat, r: Intervention)
    requires w < |rs| && Moved(rs[w], r)
    ensures Evolves(rs, next, rs[w := r])
  {
    var ts := rs[w := r];
    forall t | t in ts ensures exists q | q in rs :: Moved(q, t) {
      var i :| 0 <= i < |ts| && ts[i] == t;
      assert Moved(rs[i], t) && rs[i] in rs;
    }
  }

  lemma AllMove(rs: seq<Intervention>, next: nat, ts: seq<Intervention>)
    requires |ts| == |rs| && forall i | 0 <= i < |rs| :: Moved(rs[i], ts[i])
    ensures Evolves(rs, next, ts)
  {
    hide Moved;
    forall t | t in ts ensures exists q | q in rs :: Moved(q, t) {
      var i :| 0 <= i < |ts| && ts[i] == t;
      assert Moved(rs[i], t) && rs[i] in rs;
    }
  }

  lemma SomeStay(rs: seq<Intervention>, next: nat, ts: seq<Intervention>, us: seq<Intervention>)
    requires Evolves(rs, next, ts) && forall u | u in us :: u in ts
    ensures Evolves(rs, next, us)
  {
    hide Moved;
  }

  // ----- The moves of a live record -----

  lemma LiveMoves(live: Intervention, s: Synthesis, now: int)
    requires SaneRecord(live) && live.Live()
    ensures Moved(live, HeldRecord(live, now)) && Moved(live, DroppedRecord(live, now)) && Moved(live, FencedRecord(live))
    ensures Moved(live, RecoveredRecord(live, s, now)) && Moved(live, RelaxedRecord(live, s, now))
    ensures Moved(live, ContinuedRecord(live, s, now))
  {
    hide SmallIntent;
  }

  lemma EffectEvolves(g: Gov, b: Bundle, c: Classification, s: Synthesis)
    requires Sound(g)
    requires s.authorized && IsIncident(c.kind) ==> s.intent.intervention == RequestFor(g, b, c).intervention
    ensures Evolves(g.state.interventions, g.state.nextInterventionGeneration, EffectOf(g, b, c, s).records)
  {
    hide SaneTable, Moved, Evolves, HeldByHysteresis, HeldRecord, DroppedRecord, RecoveredRecord, ContinuedRecord,
      RelaxedRecord, Policy.Valid, SaneRecord;
    var rs, next, w := g.state.interventions, g.state.nextInterventionGeneration, FirstLive(g.state.interventions);
    var e := EffectOf(g, b, c, s);
    StandsStill(rs, next);
    if w < |rs| {
      LiveIsSane(rs, next, w);
      LiveMoves(rs[w], s, b.now);
      if e.records != rs { OneMoves(rs, next, w, e.records[w]); }
    } else if e.records != rs {
      NewOneEvolves(rs, next, CreatedRecord(s, b, g.config.policy.ref, b.now));
    }
  }

  lemma NewOneEvolves(rs: seq<Intervention>, next: nat, r: Intervention)
    requires r.id == next && r.state.Active?
    ensures Evolves(rs, next, rs + [r])
  {
    forall t | t in rs + [r] ensures (exists q | q in rs :: Moved(q, t)) || (t.id >= next && t.state.Active?) {
      if t in rs { assert Moved(t, t); }
    }
  }

  lemma FencedWindowEvolves(g: Gov, b: Bundle)
    requires Sound(g) && Shaped(g) && Admits(g, b) && LiveFence(g, b) != NoRefusal
    ensures Evolves(g.state.interventions, g.state.nextInterventionGeneration, Act(g, b).0.state.interventions)
    ensures Act(g, b).0.state.nextInterventionGeneration == g.state.nextInterventionGeneration
  {
    hide SaneRecord, SaneTable, Verdict, Gate, Check, Policy.Valid, FencedRecord, FenceReason, Evolves, Moved, Heard;
    var rs, next, w := g.state.interventions, g.state.nextInterventionGeneration, FirstLive(g.state.interventions);
    ListeningKeeps(g, b);
    LiveIsSane(rs, next, w);
    LiveMoves(rs[w], Mitigate.Refuse(EMPTY_INTENT, NoRefusal), b.now);
    OneMoves(rs, next, w, FencedRecord(rs[w]));
  }

  lemma RecordedWindowEvolves(g: Gov, b: Bundle)
    requires Sound(g) && Shaped(g) && Admits(g, b) && LiveFence(g, b) == NoRefusal
    ensures Evolves(g.state.interventions, g.state.nextInterventionGeneration, Act(g, b).0.state.interventions)
    ensures Act(g, b).0.state.nextInterventionGeneration >= g.state.nextInterventionGeneration
  {
    hide SaneRecord, SaneTable, SynthesisOf, Verdict, Gate, Check, EffectOf, TrimInterventions, TrimHistory,
      Policy.Valid, FenceReason, Evolves, Moved, Heard;
    var rs, next, w := g.state.interventions, g.state.nextInterventionGeneration, FirstLive(g.state.interventions);
    ListeningKeeps(g, b);
    var c := Verdict(g, b);
    var r := RequestFor(g, b, c);
    var s := SynthesisOf(r);
    if s.authorized {
      if w < |rs| { LiveIsSane(rs, next, w); }
      AuthorizedIsSmall(r);
    }
    EffectEvolves(g, b, c, s);
    EffectIsSane(g, b, c);
    var e := EffectOf(g, b, c, s);
    TrimKeeps(e.records, next + (if e.issued then 1 else 0));
    SomeStay(rs, next, e.records, TrimInterventions(e.records));
  }

  lemma WindowEvolves(g: Gov, b: Bundle)
    requires Sound(g) && Shaped(g)
    ensures Evolves(g.state.interventions, g.state.nextInterventionGeneration, Evaluate(g, b).0.state.interventions)
    ensures Evaluate(g, b).0.state.nextInterventionGeneration >= g.state.nextInterventionGeneration
  {
    hide Act, Admits, Evolves, LiveFence, Sound;
    if !Admits(g, b) {
      StandsStill(g.state.interventions, g.state.nextInterventionGeneration);
    } else if LiveFence(g, b) != NoRefusal {
      FencedWindowEvolves(g, b);
    } else {
      RecordedWindowEvolves(g, b);
    }
  }

  lemma SaneMoves(r: Intervention, ref: PolicyRef, now: int)
    requires SaneRecord(r)
    ensures Moved(r, if r.Live() then Forced(r.(policy := ref), Revalidating, now) else r)
    ensures Moved(r, if r.Live() then Forced(r, InterventionState.Retired, now) else r)
  {
    hide SmallIntent;
  }

  lemma ConfigureEvolves(g: Gov, p: Policy, now: int)
    requires Sound(g)
    ensures Evolves(g.state.interventions, g.state.nextInterventionGeneration, ConfigurePolicy(g, p, now).0.state.interventions)
    ensures ConfigurePolicy(g, p, now).0.state.nextInterventionGeneration == g.state.nextInterventionGeneration
  {
    hide Policy.Valid, Reconfigured, Evolves, Moved, SaneRecord, OneLive, Numbered;
    var rs, next := g.state.interventions, g.state.nextInterventionGeneration;
    StandsStill(rs, next);
    var ts := Reconfigured(rs, p.ref, now);
    forall i | 0 <= i < |rs| ensures Moved(rs[i], ts[i]) { SaneMoves(rs[i], p.ref, now); }
    AllMove(rs, next, ts);
  }

  lemma ShutdownEvolves(g: Gov, now: int)
    requires Sound(g)
    ensures Evolves(g.state.interventions, g.state.nextInterventionGeneration, Shutdown(g, now).0.state.interventions)
    ensures Shutdown(g, now).0.state.nextInterventionGeneration == g.state.nextInterventionGeneration
  {
    hide Policy.Valid, ShutDown, Evolves, Moved, SaneRecord, OneLive, Numbered;
    var rs, next := g.state.interventions, g.state.nextInterventionGeneration;
    var ts := ShutDown(rs, now);
    forall i | 0 <= i < |rs| ensures Moved(rs[i], ts[i]) { SaneMoves(rs[i], PolicyRef(0, 0), now); }
    AllMove(rs, next, ts);
  }

  lemma RetireEvolves(g: Gov, id: nat, now: int)
    ensures Evolves(g.state.interventions, g.state.nextInterventionGeneration, Retire(g, id, now).0.state.interventions)
    ensures Retire(g, id, now).0.state.nextInterventionGeneration == g.state.nextInterventionGeneration
  {
    hide Evolves, Moved, Transition, IndexOf;
    var rs, next, w := g.state.interventions, g.state.nextInterventionGeneration, IndexOf(g.state.interventions, id);
    StandsStill(rs, next);
    if w < |rs| && !IsTerminalState(rs[w].state) && Transition(rs[w], InterventionState.Retired, now).Ok? {
      RetireMoves(rs[w], now);
      OneMoves(rs, next, w, Transition(rs[w], InterventionState.Retired, now).value);
    }
  }

  lemma OtherEvolves(g: Gov, op: Op, snapshot: GovernorState)
    requires Sound(g) && Shaped(g) && !op.Window? && !op.Restoring? && !op.Resetting?
    ensures var h := Apply(g, op, snapshot);
      Evolves(g.state.interventions, g.state.nextInterventionGeneration, h.state.interventions)
      && h.state.nextInterventionGeneration == g.state.nextInterventionGeneration
  {
    hide ConfigurePolicy, Retire, Shutdown, Evaluate, Evolves, Sound;
    match op
    case Configure(p, now) => ConfigureEvolves(g, p, now);
    case Bind(_, _) => StandsStill(g.state.interventions, g.state.nextInterventionGeneration);
    case Retiring(id, now) => RetireEvolves(g, id, now);
    case Stopping(now) => ShutdownEvolves(g, now);
  }

  lemma RetireMoves(r: Intervention, now: int)
    requires !IsTerminalState(r.state) && Transition(r, InterventionState.Retired, now).Ok?
    ensures Moved(r, Transition(r, InterventionState.Retired, now).value)
  {}

  /** TRANSITIONS.  One call other than a reset or a restore moves every record along the table of legal transitions,
      although failed transitions are ignored and states assigned; it changes no record that is over, and brings in
      none but a new active one under a new identity. */
  lemma OpEvolves(g: Gov, op: Op, snapshot: GovernorState)
    requires Sound(g) && Shaped(g) && !op.Restoring? && !op.Resetting?
    ensures var h := Apply(g, op, snapshot);
      Evolves(g.state.interventions, g.state.nextInterventionGeneration, h.state.interventions)
      && h.state.nextInterventionGeneration >= g.state.nextInterventionGeneration
  {
    hide Apply, Evaluate, Sound, Evolves;
    if op.Window? {
      ApplyWindow(g, op, snapshot);
      WindowEvolves(g, op.bundle);
    } else {
      OtherEvolves(g, op, snapshot);
    }
  }

  /** The run goes on without replacing the table. */
  predicate KeepsTable(from: Run, later: Run) {
    from == later || (later.Then? && !later.op.Restoring? && !later.op.Resetting? && KeepsTable(from, later.before))
  }

  /** ONCE OVER, ALWAYS OVER.  A record that is terminal at some point of a run is, wherever it still appears later,
      exactly the same record. */
  lemma {:induction false} TerminalForever(from: Run, later: Run, r: Intervention, t: Intervention)
    requires WellFounded(from) && WellFounded(later) && KeepsTable(from, later)
    requires r in At(from).state.interventions && IsTerminalState(r.state)
    requires t in At(later).state.interventions && t.id == r.id
    ensures t == r && At(later).state.nextInterventionGeneration >= At(from).state.nextInterventionGeneration > r.id
    decreases later
  {
    hide Apply, SaneRecord, SaneRecords, OneLive, IsLegal, Policy.Valid;
    var g := At(from);
    BelowNext(g, r);
    if from == later {
      SameIdentity(g, r, t);
    } else {
      var before := At(later.before);
      OpEvolves(before, later.op, before.state);
      NextOnlyGrows(from, later.before);
      if q :| q in before.state.interventions && Moved(q, t) {
        TerminalForever(from, later.before, r, q);
      }
    }
  }

  lemma BelowNext(g: Gov, r: Intervention)
    requires Sound(g) && r in g.state.interventions
    ensures r.id < g.state.nextInterventionGeneration
  {
    hide SaneRecord, Policy.Valid;
  }

  lemma SameIdentity(g: Gov, r: Intervention, t: Intervention)
    requires Sound(g) && r in g.state.interventions && t in g.state.interventions && r.id == t.id
    ensures r == t
  {
    hide SaneRecord, Policy.Valid;
    if r != t { DifferentRecords(g.state.interventions, r, t); }
  }

  lemma {:induction false} NextOnlyGrows(from: Run, later: Run)
    requires WellFounded(from) && WellFounded(later) && KeepsTable(from, later)
    ensures At(later).state.nextInterventionGeneration >= At(from).state.nextInterventionGeneration
    decreases later
  {
    hide Apply, Sound, Evolves;
    if from != later {
      NextOnlyGrows(from, later.before);
      var g := At(later.before);
      OpEvolves(g, later.op, g.state);
    }
  }
}
