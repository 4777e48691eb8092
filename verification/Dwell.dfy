/** Hysteresis over whole runs: how long an incident lasts in the record, and how it is left. */
module Dwell {
  import opened Model
  import opened Collisions
  import opened Detect
  import opened Authority
  import opened Classifier
  import opened Mitigate
  import opened Lifecycle
  import opened Governance
  import opened Safety
  import opened Runs

  /** How many accepted windows at the end of the run were clean by themselves; fenced windows count, and a restore, a
      reset or a shutdown begins the count again. */
  ghost function CleanWindows(r: Run): nat
    requires WellFounded(r)
    decreases r
  {
    if r.Start? then 0
    else if r.op.Window? && Admits(At(r.before), r.op.bundle) then
      if IsIncident(Verdict(At(r.before), r.op.bundle).instantaneous) then 0 else CleanWindows(r.before) + 1
    else if r.op.Restoring? || r.op.Resetting? || r.op.Stopping? then 0
    else CleanWindows(r.before)
  }

  lemma StreakOfWindow(g: Gov, b: Bundle)
    requires Shaped(g)
    ensures Evaluate(g, b).0.state.cleanStreak ==
      if !Admits(g, b) then g.state.cleanStreak
      else if IsIncident(Verdict(g, b).instantaneous) then 0
      else Min(g.state.cleanStreak + 1, g.config.policy.hysteresis.maxCleanWindows)
  {
    hide ClassifyWindow, EffectOf, SynthesisOf, Check, FenceReason, Policy.Valid, TrimInterventions, Collided, Heard;
    ListeningKeeps(g, b);
  }

  lemma StreakOfOther(g: Gov, op: Op, snapshot: GovernorState)
    requires Shaped(g) && !op.Window? && Sane(snapshot)
    ensures Apply(g, op, snapshot).state.cleanStreak
      <= if op.Restoring? || op.Resetting? || op.Stopping? then 0 else g.state.cleanStreak
  {
    hide Policy.Valid, Reconfigured, Restored, Revalidated, ShutDown, SaneTable;
    if op.Restoring? { RecoveredIsSane(snapshot); }
  }

  /** The clean streak never claims more windows than there were. */
  lemma {:induction false} StreaksAreEarned(r: Run)
    requires WellFounded(r)
    ensures At(r).state.cleanStreak <= CleanWindows(r)
    decreases r
  {
    hide Apply, Sound, Admits, Verdict;
    if r.Then? {
      StreaksAreEarned(r.before);
      var g := At(r.before);
      if r.op.Window? {
        ApplyWindow(g, r.op, g.state);
        StreakOfWindow(g, r.op.bundle);
      } else {
        var snapshot := if r.op.Restoring? then At(r.op.snapshot).state else g.state;
        assert Sane(snapshot) by { SoundIsSane(g); if r.op.Restoring? { SoundIsSane(At(r.op.snapshot)); } }
        StreakOfOther(g, r.op, snapshot);
      }
    }
  }

  /** The window reaches the history: it is accepted and no live record is fenced by it. */
  predicate Records(g: Gov, b: Bundle)
    requires Shaped(g)
  {
    Admits(g, b) && LiveFence(g, b) == NoRefusal
  }

  lemma AcceptedIsAuthoritative(g: Gov, b: Bundle)
    requires Shaped(g) && Admits(g, b)
    ensures ClassifyWindow(b, g.config.policy, Collided(Rows(b)), ContextOf(g.state)).authoritative
  {
    hide MetricsOf, SynchronizationOf, Check, Instantaneous, SeverityOf, Effective, Gate, WithCollisions;
    AuthorityWithoutHistory(b, g.config.policy, Reference(g.state, b));
  }

  /** The recorded kind against the previous one. */
  lemma KindsOfWindow(g: Gov, b: Bundle)
    requires Shaped(g) && Admits(g, b)
    ensures var c, prior := Verdict(g, b), ContextOf(g.state).prior;
      && c.kind != UnknownKind
      && (prior == ActiveIncast ==> c.kind != OrdinaryManyToOne && c.kind != NoFanIn)
      && (IsIncident(prior) && !IsIncident(c.kind) ==>
            !IsIncident(c.instantaneous) && g.state.cleanStreak + 1 >= g.config.policy.hysteresis.minDwellWindows)
  {
    hide ClassifyWindow, Check, Gate, Collided;
    AcceptedIsAuthoritative(g, b);
    DeEscalation(b, g.config.policy, Collided(Rows(b)), ContextOf(g.state));
  }

  /** An incident is held exactly until the dwell is met: in a clean window after a recorded incident the classification
      stays an incident if and only if the streak, this window included, is still shorter than the dwell. */
  lemma HoldsExactlyUntilDwell(g: Gov, b: Bundle)
    requires Shaped(g) && Admits(g, b) && IsIncident(ContextOf(g.state).prior) && !IsIncident(Verdict(g, b).instantaneous)
    ensures IsIncident(Verdict(g, b).kind) <==> g.state.cleanStreak + 1 < g.config.policy.hysteresis.minDwellWindows
  {
    hide Check, Gate, Collided, MetricsOf, SynthesisOf, SynchronizationOf, Instantaneous, SeverityOf, WithCollisions;
    AcceptedIsAuthoritative(g, b);
  }

  lemma RecordedHistory(g: Gov, b: Bundle)
    requires Shaped(g) && Records(g, b)
    ensures Evaluate(g, b).0.state.history == TrimHistory(g.state.history + [RecordOf(b, Verdict(g, b))], g.config.maxHistory)
  {
    hide ClassifyWindow, EffectOf, SynthesisOf, Check, FenceReason, TrimInterventions, Collided, Heard, TrimHistory, Verdict;
    ListeningKeeps(g, b);
  }

  /** HYSTERESIS.  With a history, a recorded window that is no incident follows a recorded incident only at the end of
      at least the minimum dwell of consecutive accepted windows that were clean by themselves, and an active incast is
      never followed directly by ordinary traffic. */
  lemma IncidentsDwell(before: Run, b: Bundle)
    requires WellFounded(before) && Records(At(before), b)
    requires At(before).config.maxHistory >= 1 && At(before).state.history != []
    ensures var g, h := At(before), Evaluate(At(before), b).0.state.history;
      h != [] && h[|h| - 1] == RecordOf(b, Verdict(g, b))
    ensures var g, h := At(before), Evaluate(At(before), b).0.state.history;
      var last := g.state.history[|g.state.history| - 1].kind;
      && (IsIncident(last) && !IsIncident(h[|h| - 1].kind) ==>
            CleanWindows(Then(before, Window(b))) >= g.config.policy.hysteresis.minDwellWindows)
      && (last == ActiveIncast ==> h[|h| - 1].kind != OrdinaryManyToOne && h[|h| - 1].kind != NoFanIn)
  {
    hide At, Evaluate, Verdict, TrimHistory, Admits, LiveFence;
    var g := At(before);
    var c := Verdict(g, b);
    RecordedHistory(g, b);
    HistoryIsBounded(g.state.history + [RecordOf(b, c)], g.config.maxHistory);
    KindsOfWindow(g, b);
    StreaksAreEarned(before);
  }

  // ----- The history itself -----

  /** An active incast in the history is followed by incident or recovery windows. */
  ghost predicate StepsDown(h: seq<WindowRecord>) {
    forall i | 0 < i < |h| && h[i - 1].kind == ActiveIncast :: h[i].kind != OrdinaryManyToOne && h[i].kind != NoFanIn
  }

  lemma TrimStepsDown(h: seq<WindowRecord>, limit: nat)
    requires StepsDown(h)
    ensures StepsDown(TrimHistory(h, limit))
  {}

  lemma WindowStepsDown(g: Gov, b: Bundle)
    requires Shaped(g) && StepsDown(g.state.history)
    ensures StepsDown(Evaluate(g, b).0.state.history)
  {
    hide Act, Admits, LiveFence, StepsDown, Verdict;
    if Admits(g, b) {
      if LiveFence(g, b) == NoRefusal {
        RecordedHistory(g, b);
        KindsOfWindow(g, b);
        AppendStepsDown(g.state.history, RecordOf(b, Verdict(g, b)));
        TrimStepsDown(g.state.history + [RecordOf(b, Verdict(g, b))], g.config.maxHistory);
      } else {
        FencedHistory(g, b);
      }
    }
  }

  lemma AppendStepsDown(h: seq<WindowRecord>, w: WindowRecord)
    requires StepsDown(h)
    requires h != [] && h[|h| - 1].kind == ActiveIncast ==> w.kind != OrdinaryManyToOne && w.kind != NoFanIn
    ensures StepsDown(h + [w])
  {}

  lemma FencedHistory(g: Gov, b: Bundle)
    requires Shaped(g) && Admits(g, b) && LiveFence(g, b) != NoRefusal
    ensures Evaluate(g, b).0.state.history == g.state.history
  {
    hide ClassifyWindow, Check, FenceReason, Collided, Heard, Verdict;
    ListeningKeeps(g, b);
  }

  lemma OtherStepsDown(g: Gov, op: Op, snapshot: GovernorState)
    requires Shaped(g) && !op.Window? && Sane(snapshot) && StepsDown(g.state.history) && StepsDown(snapshot.history)
    ensures StepsDown(Apply(g, op, snapshot).state.history)
  {
    hide Policy.Valid, Reconfigured, Restored, Revalidated, ShutDown, SaneTable;
    if op.Restoring? { RecoveredIsSane(snapshot); }
  }

  /** In every reachable state the recorded history leaves an active incast step by step. */
  lemma {:induction false} ReachableHistoriesStepDown(r: Run)
    requires WellFounded(r)
    ensures StepsDown(At(r).state.history)
    decreases r
  {
    hide Apply, Sound, StepsDown;
    if r.Start? {
      assert StepsDown([]) by { TrimStepsDown0(); }
    } else {
      ReachableHistoriesStepDown(r.before);
      var g := At(r.before);
      SoundIsSane(g);
      if r.op.Window? {
        ApplyWindow(g, r.op, g.state);
        WindowStepsDown(g, r.op.bundle);
      } else {
        var snapshot := if r.op.Restoring? then At(r.op.snapshot).state else g.state;
        if r.op.Restoring? {
          ReachableHistoriesStepDown(r.op.snapshot);
          SoundIsSane(At(r.op.snapshot));
        }
        OtherStepsDown(g, r.op, snapshot);
      }
    }
  }

  lemma TrimStepsDown0()
    ensures StepsDown([])
  {}
}
