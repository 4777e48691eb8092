/** The governor as the program runs it: configuration and state updated in place, with the loops of the source, each
    method equal to its operation in Governance. */
module GovernorProcess {
  import opened Outcomes
  import opened Model
  import opened Sorting
  import opened Collisions
  import opened Detect
  import opened Authority
  import opened Classifier
  import opened Mitigate
  import opened Lifecycle
  import opened Validation
  import G = Governance
  import opened Governance

  class Governor {
    var config: Config
    var state: GovernorState
    var accepting: bool

    ghost function View(): Gov
      reads this
    {
      Gov(config, state, accepting)
    }

    constructor (settings: Config)
      ensures View() == Initial(settings)
    {
      config := settings;
      state := EMPTY_STATE.(destination := settings.destination, destinationGeneration := settings.destinationGeneration,
                            policy := settings.policy.ref, epoch := settings.binding.epoch, boot := settings.binding.boot);
      accepting := true;
    }

    method ConfigurePolicy(p: Policy, now: int) returns (ok: bool)
      modifies this
      ensures (View(), ok) == G.ConfigurePolicy(old(View()), p, now)
    {
      hide Policy.Valid, Transition, Reconfigured;
      var valid := ValidatePolicy(p);
      if !valid { return false; }
      var changed := state.policy != p.ref;
      config := config.(policy := p);
      state := state.(policy := p.ref);
      if changed {
        var rs := state.interventions;
        var k := 0;
        while k < |rs|
          invariant k <= |rs| == |old(state).interventions|
          invariant forall i | k <= i < |rs| :: rs[i] == old(state).interventions[i]
          invariant forall i | 0 <= i < k :: rs[i] == Reconfigured(old(state).interventions, p.ref, now)[i]
        {
          if rs[k].Live() { rs := rs[k := MoveTo(rs[k].(policy := p.ref), Revalidating, now)]; }
          k := k + 1;
        }
        assert rs == Reconfigured(old(state).interventions, p.ref, now);
        state := state.(interventions := rs, requiresRevalidation := true);
      }
      ok := true;
    }

    /** A transition followed by the assignment that covers its failure. */
    static function MoveTo(i: Intervention, to: InterventionState, now: int): (r: Intervention)
      ensures r == Forced(i, to, now)
    {
      var moved := Transition(i, to, now);
      if moved.Ok? then moved.value else i.(state := to)
    }

    method BindAuthority(b: Binding, leaseExpiry: int) returns (ok: bool)
      modifies this
      ensures (View(), ok) == G.BindAuthority(old(View()), b, leaseExpiry)
    {
      if b.epoch == 0 || b.boot == 0 || b.worker == 0 || b.lease == 0 || leaseExpiry == 0 { return false; }
      config := config.(binding := b, leaseExpiry := leaseExpiry);
      state := state.(epoch := b.epoch, boot := b.boot);
      ok := true;
    }

    method RestoreState(s: GovernorState) returns (ok: bool)
      modifies this
      ensures (View(), ok) == G.RestoreState(old(View()), s)
    {
      hide Restored;
      var valid := ValidateState(s);
      if !valid { return false; }
      state := s;
      config := config.(binding := UNBOUND, leaseExpiry := 0);
      state := state.(epoch := 0, boot := 0, recovery := NO_RECOVERY, incidentStreak := 0, cleanStreak := 0,
                      requiresRevalidation := true, restoredFromDurable := true, restoreCount := state.restoreCount + 1);
      var rs := state.interventions;
      var k := 0;
      while k < |rs|
        invariant k <= |rs| == |s.interventions|
        invariant forall i | k <= i < |rs| :: rs[i] == s.interventions[i]
        invariant forall i | 0 <= i < k :: rs[i] == Restored(s.interventions, s.lastEvaluation)[i]
      {
        if rs[k].Live() {
          if !rs[k].state.Revalidating? { rs := rs[k := rs[k].(state := Revalidating)]; }
          rs := rs[k := rs[k].(updatedAt := state.lastEvaluation)];
        }
        k := k + 1;
      }
      assert rs == Restored(s.interventions, s.lastEvaluation);
      state := state.(interventions := rs, generation := state.generation + 1);
      ok := true;
    }

    method Reset()
      modifies this
      ensures View() == G.Reset(old(View()))
    {
      state := EMPTY_STATE.(destination := config.destination, destinationGeneration := config.destinationGeneration,
                            policy := config.policy.ref, epoch := config.binding.epoch, boot := config.binding.boot);
      accepting := true;
    }

    method Retire(id: nat, now: int) returns (r: Outcome<()>)
      modifies this
      ensures (View(), r) == G.Retire(old(View()), id, now)
    {
      hide Transition, IndexOf;
      var rs := state.interventions;
      var k := 0;
      while k < |rs|
        invariant k <= |rs| && forall i | 0 <= i < k :: rs[i].id != id
      {
        if rs[k].id == id {
          assert k == IndexOf(rs, id);
          if IsTerminalState(rs[k].state) { return Err(IllegalTransition); }
          var moved := Transition(rs[k], InterventionState.Retired, now);
          if moved.Err? { return Err(moved.code); }
          state := state.(interventions := rs[k := moved.value], generation := state.generation + 1);
          return Ok(());
        }
        k := k + 1;
      }
      assert IndexOf(rs, id) == |rs|;
      r := Err(NotFound);
    }

    method Shutdown(now: int) returns (retired: nat)
      modifies this
      ensures (View(), retired) == G.Shutdown(old(View()), now)
    {
      hide Transition, ShutDown, Selected;
      accepting := false;
      var rs;
      rs, retired := RetireAll(state.interventions, now);
      state := state.(interventions := rs, recovery := NO_RECOVERY, incidentStreak := 0, cleanStreak := 0,
                      generation := state.generation + 1);
    }

    static method RetireAll(records: seq<Intervention>, now: int) returns (rs: seq<Intervention>, retired: nat)
      ensures rs == ShutDown(records, now) && retired == |Selected(IsLive(), records)|
    {
      hide Transition, ShutDown;
      rs, retired := records, 0;
      var k := 0;
      while k < |rs|
        invariant k <= |rs| == |records|
        invariant forall i | k <= i < |rs| :: rs[i] == records[i]
        invariant forall i | 0 <= i < k :: rs[i] == ShutDown(records, now)[i]
        invariant retired == |Selected(IsLive(), records[..k])|
      {
        assert records[..k + 1][..k] == records[..k];
        if rs[k].Live() {
          rs := rs[k := MoveTo(rs[k], InterventionState.Retired, now)];
          retired := retired + 1;
        }
        k := k + 1;
      }
      assert records[..k] == records;
      assert rs == ShutDown(records, now);
    }

    // ----- Evaluation -----

    method FindLive() returns (w: nat)
      ensures w == FirstLive(state.interventions)
    {
      var rs := state.interventions;
      w := 0;
      while w < |rs|
        invariant w <= |rs| && forall i | 0 <= i < w :: !rs[i].Live()
      {
        if rs[w].Live() { return; }
        w := w + 1;
      }
    }

    method Refuse(b: Bundle, reason: RefusalReason) returns (d: Decision)
      modifies `state
      ensures (View(), d) == G.Refuse(old(View()), b, reason)
    {
      var now := if b.now != 0 then b.now else state.lastEvaluation;
      state := state.(refusalCount := state.refusalCount + 1, generation := state.generation + 1);
      d := Decision(OutcomeRefused, now, state.generation, UnknownKind, NoSeverity, reason, 0,
                    InterventionState.Retired, EMPTY_INTENT, false);
    }

    /** The accepted sequences move up to those of the bundle. */
    method Hear(b: Bundle)
      requires |state.lastSequence| == CLASSES
      modifies `state
      ensures state == Heard(old(state), b)
    {
      hide Advanced;
      if !SameSource(state, b) {
        state := state.(lastSequence := NO_SEQUENCES, lastSequenceBoot := b.binding.boot);
      }
      var last := state.lastSequence;
      ghost var reference := last;
      for index := 0 to CLASSES
        invariant |last| == CLASSES
        invariant forall i | 0 <= i < CLASSES :: last[i] == Advanced(reference, b, index)[i]
      {
        var stamp := b.StampOf(ClassAt(index));
        if stamp.sequence > last[index] { last := last[index := stamp.sequence]; }
      }
      assert last == Advanced(reference, b, CLASSES);
      state := state.(lastSequence := last);
    }

    method Count(c: Classification, b: Bundle, live: bool)
      requires live == HasLive(state.interventions)
      modifies `state
      ensures state == Counted(old(state), c, config.policy, b, b.now)
    {
      if IsIncident(c.instantaneous) {
        state := state.(incidentStreak := Min(state.incidentStreak + 1, config.policy.hysteresis.maxIncidentWindows),
                        cleanStreak := 0, recovery := NO_RECOVERY);
      } else {
        state := state.(cleanStreak := Min(state.cleanStreak + 1, config.policy.hysteresis.maxCleanWindows),
                        incidentStreak := 0);
        if live {
          var t := state.recovery.(tracking := true);
          if t.since == 0 { t := t.(since := b.now); }
          t := t.(cleanWindows := state.cleanStreak,
                  dropsDuringRecovery := SaturatingAdd(t.dropsDuringRecovery, c.metrics.dropEvents),
                  capacityRevalidated := b.capacityStamp.state == Present);
          state := state.(recovery := t);
        }
      }
    }

    /** The fence ends the window at once. */
    method FenceLive(w: nat, b: Bundle, c: Classification, reason: RefusalReason) returns (d: Decision)
      requires w < |state.interventions|
      modifies `state
      ensures state == Fence(old(state), w, b.now)
      ensures d == Decision(InterventionFenced, b.now, state.generation, c.kind, c.severity, reason,
                            old(state).interventions[w].id, InterventionState.Fenced, EMPTY_INTENT, false)
    {
      hide Transition;
      var live := state.interventions[w];
      var fenced := MoveTo(live, InterventionState.Fenced, live.updatedAt);
      state := state.(interventions := state.interventions[w := fenced], generation := state.generation + 1,
                      lastEvaluation := b.now, evaluationCount := state.evaluationCount + 1, requiresRevalidation := true);
      d := Decision(InterventionFenced, b.now, state.generation, c.kind, c.severity, reason, live.id,
                    InterventionState.Fenced, EMPTY_INTENT, false);
    }

    /** What a synthesized intent does to the live record. */
    static method ApplyToLive(rs: seq<Intervention>, w: nat, b: Bundle, c: Classification, s: Synthesis) returns (e: Effect)
      requires w < |rs|
      ensures e == WithLive(rs, w, b, c, s)
    {
      hide Transition;
      var live, now := rs[w], b.now;
      if IsIncident(c.kind) && s.authorized && s.intent.IsActive() {
        if live.state.Revalidating? {
          live := MoveTo(live, Active, now);
          live := live.(generation := live.generation + 1);
        } else if live.state.Relaxing? {
          live := MoveTo(live, Active, now);
        }
        live := live.(intent := s.intent.(generation := live.generation), appliedReductionBp := s.intent.reductionBp,
                      expiresAt := s.intent.expiresAt, updatedAt := now, continueSteps := live.continueSteps + 1);
        return Effect(rs[w := live], false, InterventionContinued, NoRefusal, live.id, live.state, live.intent, true);
      }
      if c.kind == Recovery {
        if !s.authorized { return Effect(rs, false, NoAction, s.refusal, live.id, live.state, s.intent, false); }
        if !s.intent.IsActive() {
          live := MoveTo(live, Relaxing, now);
          live := MoveTo(live, InterventionState.Retired, now).(updatedAt := now, intent := s.intent);
          return Effect(rs[w := live], false, InterventionRetired, NoRefusal, live.id, live.state, s.intent, true);
        }
        if live.state.Active? { live := MoveTo(live, Relaxing, now); }
        live := live.(intent := s.intent, appliedReductionBp := s.intent.reductionBp, expiresAt := s.intent.expiresAt,
                      updatedAt := now);
        return Effect(rs[w := live], false, InterventionRelaxed, NoRefusal, live.id, live.state, s.intent, true);
      }
      if !IsIncident(c.kind) && c.authoritative && live.state.Revalidating? {
        live := MoveTo(live, InterventionState.Retired, now).(updatedAt := now);
        return Effect(rs[w := live], false, InterventionRetired, s.refusal, live.id, live.state, s.intent, s.authorized);
      }
      e := Effect(rs, false, NoAction, s.refusal, live.id, live.state, s.intent, s.authorized);
    }

    static method Apply(g: Gov, w: nat, b: Bundle, c: Classification) returns (e: Effect)
      requires w == FirstLive(g.state.interventions)
      ensures e == EffectOf(g, b, c, SynthesisOf(RequestFor(g, b, c)))
    {
      hide SynthesisOf, WithLive, HeldByHysteresis;
      var rs := g.state.interventions;
      if w < |rs| && HeldByHysteresis(rs[w], c) {
        var live := rs[w].(expiresAt := b.now + rs[w].intent.duration);
        live := live.(intent := live.intent.(expiresAt := live.expiresAt), updatedAt := b.now,
                      continueSteps := live.continueSteps + 1);
        return Effect(rs[w := live], false, InterventionContinued, NoRefusal, live.id, live.state, live.intent, true);
      }
      var s := Synthesize(RequestFor(g, b, c));
      if w < |rs| {
        e := ApplyToLive(rs, w, b, c, s);
      } else if IsIncident(c.kind) && s.authorized && s.intent.IsActive() {
        var created := CreatedRecord(s, b, g.config.policy.ref, b.now);
        e := Effect(rs + [created], true, InterventionIssued, NoRefusal, created.id, Active, created.intent, true);
      } else {
        e := Effect(rs, false, NoAction, s.refusal, 0, InterventionState.Retired, s.intent, s.authorized);
      }
    }

    static method Trim(rs: seq<Intervention>) returns (kept: seq<Intervention>)
      ensures kept == TrimInterventions(rs)
    {
      hide Recent;
      if |rs| <= MAX_INTERVENTIONS { return rs; }
      kept := [];
      for k := 0 to |rs|
        invariant kept == Selected(IsLive(), rs[..k])
      {
        assert rs[..k + 1][..k] == rs[..k];
        if rs[k].Live() { kept := kept + [rs[k]]; }
      }
      assert rs[..|rs|] == rs;
      kept := KeepNewest(rs, kept);
    }

    /** From the newest record backwards until the table is full. */
    static method KeepNewest(rs: seq<Intervention>, live: seq<Intervention>) returns (kept: seq<Intervention>)
      ensures kept == live + Recent(rs, if |live| < MAX_INTERVENTIONS then MAX_INTERVENTIONS - |live| else 0)
    {
      kept := live;
      var k := |rs|;
      assert rs[..k] == rs;
      while k > 0 && |kept| < MAX_INTERVENTIONS
        invariant 0 <= k <= |rs|
        invariant live + Recent(rs, if |live| < MAX_INTERVENTIONS then MAX_INTERVENTIONS - |live| else 0)
               == kept + Recent(rs[..k], if |kept| < MAX_INTERVENTIONS then MAX_INTERVENTIONS - |kept| else 0)
        decreases k
      {
        k := k - 1;
        assert rs[..k + 1][..k] == rs[..k];
        if rs[k].Live() { continue; }
        kept := kept + [rs[k]];
      }
    }

    static method KeepHistory(h: seq<WindowRecord>, limit: nat) returns (kept: seq<WindowRecord>)
      ensures kept == TrimHistory(h, limit)
    {
      if limit == 0 { return []; }
      kept := h;
      if |kept| > limit { kept := kept[|kept| - limit..]; }
      if |kept| > MAX_HISTORY { kept := kept[|kept| - MAX_HISTORY..]; }
    }

    static method FindRevalidating(rs: seq<Intervention>) returns (found: bool)
      ensures found == AnyRevalidating(rs)
    {
      found := false;
      for k := 0 to |rs|
        invariant !found && forall i | 0 <= i < k :: !rs[i].state.Revalidating?
      {
        if rs[k].state.Revalidating? { return true; }
      }
    }

    /** The window is recorded and the table trimmed. */
    method Record(b: Bundle, c: Classification, e: Effect)
      modifies `state
      ensures state == Recorded(old(state), e, b, c, config.maxHistory)
    {
      hide TrimInterventions, TrimHistory, AnyRevalidating;
      var next, count := state.nextInterventionGeneration, state.interventionCount;
      if e.issued { next, count := next + 1, count + 1; }
      var history := KeepHistory(state.history + [RecordOf(b, c)], config.maxHistory);
      var destinationGeneration := state.destinationGeneration;
      if b.origin.destinationGeneration != 0 && b.origin.destinationGeneration > destinationGeneration {
        destinationGeneration := b.origin.destinationGeneration;
      }
      var revalidating := FindRevalidating(e.records);
      var kept := Trim(e.records);
      state := state.(nextInterventionGeneration := next, interventionCount := count, history := history,
                      destinationGeneration := destinationGeneration, lastEvaluation := b.now,
                      evaluationCount := state.evaluationCount + 1, generation := state.generation + 1,
                      requiresRevalidation := revalidating, interventions := kept);
    }

    /** An accepted bundle. */
    method Proceed(b: Bundle) returns (d: Decision)
      requires Shaped(View()) && Admits(View(), b)
      modifies `state
      ensures (View(), d) == Act(old(View()), b)
    {
      hide ClassifyWindow, Collided, Heard, Counted, EffectOf, Recorded, Fence, FenceReason, Admits, SynthesisOf, RequestFor;
      ghost var before := View();
      var context := ContextOf(state);
      Hear(b);
      ListeningKeeps(before, b);
      var collisions := DetectCollisions(Rows(b));
      var w := FindLive();
      var live := w < |state.interventions|;
      var c := Classify(b, config.policy, collisions, context);
      if live && c.authoritative && !c.held && !IsIncident(c.kind) { c := c.(kind := Recovery); }
      Count(c, b, live);
      assert state == Listened(before, b) && c == Verdict(before, b);
      if live {
        var reason := FenceReason(state.interventions[w], config.binding, config.leaseExpiry, b.now);
        if reason != NoRefusal {
          d := FenceLive(w, b, c, reason);
          FencedIdentity(before, b, w);
          return;
        }
        UnfencedHasNotExpired(state.interventions[w], config.binding, config.leaseExpiry, b.now);
        assert !(state.interventions[w].expiresAt != 0 && b.now != 0 && b.now > state.interventions[w].expiresAt);
      }
      SameRequest(before, View(), b, c);
      var e := Apply(Gov(config, state, accepting), w, b, c);
      Record(b, c, e);
      d := Decision(e.outcome, b.now, state.generation, c.kind, c.severity, e.refusal, e.intervention, e.state, e.intent, e.authorized);
      assert state == Recorded(Listened(before, b), e, b, c, config.maxHistory);
      RecordedGeneration(Listened(before, b), e, b, c, config.maxHistory);
    }

    method Evaluate(b: Bundle) returns (d: Decision)
      requires Shaped(View())
      modifies `state
      ensures (View(), d) == G.Evaluate(old(View()), b)
    {
      hide Act, Check, G.Refuse;
      var gate := Gate(Gov(config, state, accepting), b);
      if gate != NoRefusal {
        d := Refuse(b, gate);
        return;
      }
      var check := CheckAuthority(b, config.policy, Reference(state, b));
      if check.reason != NoRefusal {
        d := Refuse(b, check.reason);
        return;
      }
      d := Proceed(b);
    }
  }

  lemma FencedIdentity(g: Gov, b: Bundle, w: nat)
    requires Shaped(g) && w < |Listened(g, b).interventions|
    ensures Fence(Listened(g, b), w, b.now).interventions[w].id == Listened(g, b).interventions[w].id
    ensures |Fence(Listened(g, b), w, b.now).interventions| == |Listened(g, b).interventions|
  {
    hide Listened;
  }

  /** Fencing already catches expiry, so the expiry boundary behind it is never reached. */
  lemma UnfencedHasNotExpired(live: Intervention, bound: Binding, leaseExpiry: int, now: int)
    requires FenceReason(live, bound, leaseExpiry, now) == NoRefusal
    ensures live.expiresAt == 0 || now == 0 || now <= live.expiresAt
  {}

  /** Synthesis and its effect look at the table, the policy and the next identity only. */
  lemma SameRequest(g: Gov, h: Gov, b: Bundle, c: Classification)
    requires h.config == g.config && h.state.interventions == g.state.interventions
    requires h.state.nextInterventionGeneration == g.state.nextInterventionGeneration
    ensures RequestFor(h, b, c) == RequestFor(g, b, c)
    ensures forall s :: EffectOf(h, b, c, s) == EffectOf(g, b, c, s)
  {
    hide WithLive, WithoutLive, HeldByHysteresis, HeldRecord;
  }

  lemma RecordedGeneration(s: GovernorState, e: Effect, b: Bundle, c: Classification, limit: nat)
    ensures Recorded(s, e, b, c, limit).generation == s.generation + 1
  {}
}
