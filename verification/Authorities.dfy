/** Under which authority an intervention may live. */
module Authorities {
  import opened Model
  import opened Collisions
  import opened Authority
  import opened Classifier
  import opened Mitigate
  import opened Lifecycle
  import opened Governance
  import opened Safety
  import opened Runs

  /** The record carries the bound epoch, boot and lease and has not expired. */
  predicate Carries(r: Intervention, bound: Binding, now: int) {
    && r.binding.epoch == bound.epoch && r.binding.boot == bound.boot && r.binding.lease == bound.lease
    && (r.expiresAt == 0 || now <= r.expiresAt)
  }

  ghost predicate LiveCarry(rs: seq<Intervention>, bound: Binding, now: int) {
    forall i | 0 <= i < |rs| && rs[i].Live() :: Carries(rs[i], bound, now)
  }

  lemma UnfencedCarries(r: Intervention, bound: Binding, leaseExpiry: int, now: int)
    requires SaneRecord(r) && FenceReason(r, bound, leaseExpiry, now) == NoRefusal && now != 0
    requires bound.epoch != 0 && bound.boot != 0 && bound.lease != 0
    ensures Carries(r, bound, now)
  {}

  /** An authorized intent runs from the evaluation instant. */
  lemma IntentRunsFromNow(r: SynthesisRequest)
    requires SynthesisOf(r).authorized && r.issuedAt != 0
    ensures SynthesisOf(r).intent.expiresAt == r.issuedAt + SynthesisOf(r).intent.duration
  {
    hide PlanOf, Headroom, PlannedDuration, RequiredReduction, RetiresNow, RecoveryStep, ClampedDuration, Within;
  }

  lemma StaysCarried(live: Intervention, s: Synthesis, bound: Binding, now: int)
    requires Carries(live, bound, now) && SaneRecord(live)
    requires s.authorized ==> s.intent.expiresAt > now
    ensures Carries(HeldRecord(live, now), bound, now) && Carries(DroppedRecord(live, now), bound, now)
    ensures Carries(RecoveredRecord(live, s, now), bound, now)
    ensures s.authorized ==> Carries(ContinuedRecord(live, s, now), bound, now) && Carries(RelaxedRecord(live, s, now), bound, now)
  {}

  lemma OnlyLive(rs: seq<Intervention>, next: nat)
    requires SaneTable(rs, next)
    ensures forall i | 0 <= i < |rs| && i != FirstLive(rs) :: !rs[i].Live()
  {
    hide SaneRecord;
  }

  lemma EffectCarries(g: Gov, b: Bundle, c: Classification)
    requires Sound(g) && Gate(g, b) == NoRefusal && LiveFence(g, b) == NoRefusal
    ensures LiveCarry(EffectOf(g, b, c, SynthesisOf(RequestFor(g, b, c))).records, g.config.binding, b.now)
  {
    hide SynthesisOf, SaneRecord, SaneTable, SmallIntent, Gate, Policy.Valid, HeldByHysteresis, HeldRecord, DroppedRecord,
      RecoveredRecord, ContinuedRecord, RelaxedRecord, FenceReason, Carries;
    var rs, next := g.state.interventions, g.state.nextInterventionGeneration;
    var r := RequestFor(g, b, c);
    var s := SynthesisOf(r);
    var w := FirstLive(rs);
    GateBinds(g, b);
    if w < |rs| { LiveIsSane(rs, next, w); }
    if s.authorized {
      AuthorizedIsSmall(r);
      IntentRunsFromNow(r);
      SmallLasts(s.intent);
    }
    var e := EffectOf(g, b, c, s);
    if w < |rs| {
      UnfencedCarries(rs[w], g.config.binding, g.config.leaseExpiry, b.now);
      StaysCarried(rs[w], s, g.config.binding, b.now);
      OnlyLive(rs, next);
      assert Carries(e.records[w], g.config.binding, b.now);
      assert e.records == rs[w := e.records[w]];
    } else {
      OnlyLive(rs, next);
      CreatedCarries(s, b, g.config.policy.ref, g.config.binding);
    }
  }

  lemma SmallLasts(i: MitigationIntent)
    requires SmallIntent(i)
    ensures i.duration > 0
  {}

  lemma CreatedCarries(s: Synthesis, b: Bundle, ref: PolicyRef, bound: Binding)
    requires b.binding.epoch == bound.epoch && b.binding.boot == bound.boot && b.binding.lease == bound.lease
    requires s.authorized ==> s.intent.expiresAt > b.now
    ensures s.authorized ==> Carries(CreatedRecord(s, b, ref, b.now), bound, b.now)
  {}

  lemma SubTableCarries(rs: seq<Intervention>, ts: seq<Intervention>, bound: Binding, now: int)
    requires LiveCarry(rs, bound, now) && forall r | r in ts :: r in rs
    ensures LiveCarry(ts, bound, now)
  {
    hide Carries;
    forall i | 0 <= i < |ts| && ts[i].Live() ensures Carries(ts[i], bound, now) {
      assert ts[i] in ts;
      var j :| 0 <= j < |rs| && rs[j] == ts[i];
    }
  }

  /** A bundle passes the governor's own checks exactly when the governor is accepting and bound, the bundle is well
      formed, about the governor's destination and not from an older generation of it, its policy evidence is not
      contradictory, and it carries the bound epoch, boot and lease, no other worker's name, within the lease. */
  lemma GateOpensExactlyWhen(g: Gov, b: Bundle)
    ensures Gate(g, b) == NoRefusal <==>
      var k := g.config;
      && g.accepting && b.StructurallyValid() && b.policyStamp.state != Contradictory
      && k.binding.epoch != 0 && k.binding.boot != 0 && k.binding.lease != 0
      && b.binding.epoch == k.binding.epoch && b.binding.boot == k.binding.boot && b.binding.lease == k.binding.lease
      && (k.binding.worker == 0 || b.binding.worker == 0 || b.binding.worker == k.binding.worker)
      && (k.destination == 0 || b.origin.destination == k.destination)
      && (b.origin.destinationGeneration == 0 || b.origin.destinationGeneration >= g.state.destinationGeneration)
      && (k.leaseExpiry == 0 || b.now <= k.leaseExpiry)
  {}

  /** AUTHORITY.  After every evaluation that is not refused, each live intervention carries the bound epoch, boot and
      lease and has not expired at the evaluation instant. */
  lemma LiveCarryTheBoundAuthority(g: Gov, b: Bundle)
    requires Sound(g) && Shaped(g) && Evaluate(g, b).1.outcome != OutcomeRefused
    ensures LiveCarry(Evaluate(g, b).0.state.interventions, g.config.binding, b.now)
  {
    hide SaneRecord, SaneTable, SynthesisOf, ClassifyWindow, Gate, Check, EffectOf, TrimInterventions, TrimHistory,
      Policy.Valid, FencedRecord, FenceReason, Collided, Carries;
    var rs, next, w := g.state.interventions, g.state.nextInterventionGeneration, FirstLive(g.state.interventions);
    if LiveFence(g, b) != NoRefusal {
      OnlyLive(rs, next);
      assert !FencedRecord(rs[w]).Live() by { hide *; FencedIsOver(rs[w]); }
    } else {
      var c := Verdict(g, b);
      EffectCarries(g, b, c);
      EffectIsSane(g, b, c);
      var e := EffectOf(g, b, c, SynthesisOf(RequestFor(g, b, c)));
      TrimKeeps(e.records, next + (if e.issued then 1 else 0));
      SubTableCarries(e.records, TrimInterventions(e.records), g.config.binding, b.now);
    }
  }

  lemma FencedIsOver(r: Intervention)
    ensures FencedRecord(r).state == InterventionState.Fenced && !FencedRecord(r).Live()
  {}

  /** Made or restored under another epoch, boot or lease than the one now bound. */
  predicate Foreign(r: Intervention, bound: Binding) {
    r.binding.epoch != bound.epoch || r.binding.boot != bound.boot || r.binding.lease != bound.lease
  }

  /** A live record of another authority is fenced by the first window that is not refused; it is never resumed. */
  lemma ForeignRecordsAreFenced(g: Gov, b: Bundle, i: nat)
    requires Sound(g) && Shaped(g) && i < |g.state.interventions| && g.state.interventions[i].Live()
    requires Foreign(g.state.interventions[i], g.config.binding)
    ensures var (h, d) := Evaluate(g, b);
      d.outcome == OutcomeRefused
      || (d.outcome == InterventionFenced && d.intervention == g.state.interventions[i].id
          && |h.state.interventions| == |g.state.interventions|
          && h.state.interventions[i].state == InterventionState.Fenced && h.state.interventions[i].id == d.intervention)
  {
    hide SaneTable, SynthesisOf, ClassifyWindow, Check, EffectOf, TrimInterventions, TrimHistory, Policy.Valid, Collided;
    TheLiveOne(g.state.interventions, g.state.nextInterventionGeneration, i);
    FencedIsOver(g.state.interventions[i]);
    FencedKeepsIdentity(g.state.interventions[i]);
  }

  lemma TheLiveOne(rs: seq<Intervention>, next: nat, i: nat)
    requires SaneTable(rs, next) && i < |rs| && rs[i].Live()
    ensures FirstLive(rs) == i && SaneRecord(rs[i])
  {
    hide SaneRecord;
  }

  // ----- Between a restore and a new binding -----

  /** The call binds new authority: one that is refused does not. */
  predicate Binds(g: Gov, op: Op) { op.Bind? && BindAuthority(g, op.binding, op.leaseExpiry).1 }

  /** The run continues from an earlier one without binding new authority. */
  ghost predicate ContinuesUnbound(from: Run, later: Run)
    requires WellFounded(later)
    decreases later
  {
    from == later || (later.Then? && !Binds(At(later.before), later.op) && ContinuesUnbound(from, later.before))
  }

  lemma UnboundStays(g: Gov, op: Op, snapshot: GovernorState)
    requires Shaped(g) && !Binds(g, op) && g.config.binding == UNBOUND
    ensures Apply(g, op, snapshot).config.binding == UNBOUND
  {
    hide ClassifyWindow, EffectOf, SynthesisOf, Check, Listened, Verdict, Recorded, Fence, Policy.Valid;
  }

  lemma {:induction false} StillUnbound(from: Run, later: Run)
    requires WellFounded(from) && WellFounded(later) && ContinuesUnbound(from, later) && At(from).config.binding == UNBOUND
    ensures At(later).config.binding == UNBOUND
    decreases later
  {
    hide Apply, Sound, Binds;
    if from != later {
      StillUnbound(from, later.before);
      var g := At(later.before);
      UnboundStays(g, later.op, if later.op.Restoring? then At(later.op.snapshot).state else g.state);
    }
  }

  lemma RestoreUnbinds(g: Gov, s: GovernorState)
    requires Sane(s)
    ensures RestoreState(g, s).0.config.binding == UNBOUND
  {}

  lemma UnboundRefuses(g: Gov, b: Bundle)
    requires Shaped(g) && g.config.binding == UNBOUND
    ensures Evaluate(g, b).1.outcome == OutcomeRefused && !Evaluate(g, b).1.authorized
    ensures Evaluate(g, b).1.refusal == if g.accepting then LeaseMissing else PolicyDisabled
  {
    hide Act, Check;
  }

  /** RESTORING.  From a restore until complete authority is bound again, every evaluation is refused, whatever else is
      called, calls that fail to bind included. */
  lemma RestoredRunsAreRefused(before: Run, snapshot: Run, recovered: bool, later: Run, b: Bundle)
    requires WellFounded(later) && WellFounded(Then(before, Restoring(snapshot, recovered)))
    requires ContinuesUnbound(Then(before, Restoring(snapshot, recovered)), later)
    ensures Evaluate(At(later), b).1.outcome == OutcomeRefused && !Evaluate(At(later), b).1.authorized
  {
    hide Evaluate, Sane;
    var from := Then(before, Restoring(snapshot, recovered));
    var s := At(snapshot).state;
    assert Sane(Restorable(s, recovered)) by { RecoveredIsSane(s); }
    RestoreUnbinds(At(before), Restorable(s, recovered));
    StillUnbound(from, later);
    UnboundRefuses(At(later), b);
  }

  /** SHUTDOWN.  After a shutdown no intervention is live and, until a reset, no bundle is accepted. */
  lemma ShutdownEndsEverything(g: Gov, now: int, b: Bundle)
    requires Sound(g) && Shaped(g)
    ensures var h := Shutdown(g, now).0;
      (forall i | 0 <= i < |h.state.interventions| :: IsTerminalState(h.state.interventions[i].state))
      && Shutdown(g, now).1 == (if HasLive(g.state.interventions) then 1 else 0)
      && Evaluate(h, b).1.outcome == OutcomeRefused && Evaluate(h, b).1.refusal == PolicyDisabled
  {
    hide Act, Check, ShutDown, Policy.Valid, SmallIntent;
    LiveOnes(g.state.interventions);
  }

  // ----- What an accepted bundle is -----

  /** A bundle that is not refused is about an event, a destination and a window, made now, of bounded size, and every class
      that the policy in force requires is timely evidence, newer than what the same boot had accepted before. */
  lemma AcceptedBundlesAreTimely(g: Gov, b: Bundle)
    requires Shaped(g) && Evaluate(g, b).1.outcome != OutcomeRefused
    ensures b.origin.destination != 0 && b.origin.window != 0 && b.origin.event != 0 && b.now != 0
    ensures |b.senders| <= 8192 && |b.queues| <= 512
         && (b.windowStart == 0 || b.windowEnd == 0 || b.windowStart <= b.windowEnd)
    ensures forall i | 0 <= i < CLASSES && g.config.policy.authority.requiredClasses[i] ::
      IsTimely(b.StampOf(ClassAt(i)), b, g.config.policy.authority.maxFreshnessHorizonNanos,
               if g.state.lastSequenceBoot == b.binding.boot then g.state.lastSequence[i] else 0)
  {
    hide Act, Check, StateOf, IsTimely;
    var p, last := g.config.policy, Reference(g.state, b);
    GrantedExactlyWhen(b, p, last);
    GateBinds(g, b);
    forall i | 0 <= i < CLASSES && p.authority.requiredClasses[i]
      ensures IsTimely(b.StampOf(ClassAt(i)), b, p.authority.maxFreshnessHorizonNanos,
                       if g.state.lastSequenceBoot == b.binding.boot then g.state.lastSequence[i] else 0)
    {
      PresentExactlyWhen(b, p, last[i], i);
    }
  }
}
