/** Synthesis of a bounded mitigation intent from a classified window. */
module Mitigate {
  import opened Words
  import opened Outcomes
  import opened Model
  import opened Detect
  import opened Ranking
  import opened Classifier

  datatype SynthesisRequest = SynthesisRequest(
    bundle: Bundle, policy: Policy, classification: Classification, checked: RefusalReason,
    intervention: nat, generation: nat, issuedAt: int, prior: Option<MitigationIntent>, stepBp: BasisPoints)

  /** The intent and the part of the authority vector that a decision acts on. */
  datatype Synthesis = Synthesis(intent: MitigationIntent, authorized: bool, refusal: RefusalReason, clamped: bool)

  // ----- Clamping -----

  function ClampBp(value: nat, low: u32, high: u32): u32 {
    var top := if high < low then low else high;
    if value < low then low else if value > top then top else value
  }

  function ApplyBp(amount: u64, bp: u32): u64 { SaturatingMul(amount, bp) / 10_000 }

  function ClampNanos(value: int, low: int, high: int): int {
    var top := if high < low then low else high;
    if value < low then low else if value > top then top else value
  }

  function SeverityWeight(s: Severity): nat {
    match s
    case NoSeverity => 0
    case Advisory => 1
    case Elevated => 2
    case Severe => 3
    case Critical => 4
  }

  /** Inside every bound of the policy. */
  predicate Within(i: MitigationIntent, b: Bounds) {
    && i.reductionBp <= b.maxReductionBp && i.admissionReductionBp <= b.maxAdmissionReductionBp
    && i.headroomBytes <= b.maxHeadroomBytes && i.staggerSlots <= b.maxStaggerSlots
    && |i.penalized| <= b.maxPenalizedSenders && b.minDuration <= i.duration <= b.maxDuration
  }

  function ClampedDuration(d: int, b: Bounds): int {
    var raised := if d < b.minDuration then b.minDuration else d;
    if raised > b.maxDuration then b.maxDuration else raised
  }

  /** The intent pulled inside the bounds, marked as clamped when it was not inside them. */
  function ClampToBounds(i: MitigationIntent, b: Bounds): MitigationIntent {
    i.(reductionBp := Min(i.reductionBp, b.maxReductionBp),
       admissionReductionBp := Min(i.admissionReductionBp, b.maxAdmissionReductionBp),
       headroomBytes := Min(i.headroomBytes, b.maxHeadroomBytes),
       staggerSlots := Min(i.staggerSlots, b.maxStaggerSlots),
       penalized := if |i.penalized| > b.maxPenalizedSenders then i.penalized[..b.maxPenalizedSenders] else i.penalized,
       duration := ClampedDuration(i.duration, b),
       bounded := true,
       clamped := i.clamped || !Within(i, b))
  }

  /** Clamping brings the intent within the bounds, and an intent already within them is left alone. */
  lemma ClampingBounds(i: MitigationIntent, p: Policy)
    requires p.BoundsValid()
    ensures Within(ClampToBounds(i, p.bounds), p.bounds)
    ensures Within(i, p.bounds) && i.bounded <==> ClampToBounds(i, p.bounds) == i && (i.clamped ==> Within(i, p.bounds))
  {}

  method Clamp(i: MitigationIntent, b: Bounds) returns (r: MitigationIntent)
    ensures r == ClampToBounds(i, b)
  {
    var clamped := false;
    var reduction, admission, headroom, slots := i.reductionBp, i.admissionReductionBp, i.headroomBytes, i.staggerSlots;
    var penalized, duration := i.penalized, i.duration;
    if reduction > b.maxReductionBp { reduction, clamped := b.maxReductionBp, true; }
    if admission > b.maxAdmissionReductionBp { admission, clamped := b.maxAdmissionReductionBp, true; }
    if headroom > b.maxHeadroomBytes { headroom, clamped := b.maxHeadroomBytes, true; }
    if slots > b.maxStaggerSlots { slots, clamped := b.maxStaggerSlots, true; }
    if |penalized| > b.maxPenalizedSenders { penalized, clamped := penalized[..b.maxPenalizedSenders], true; }
    if duration < b.minDuration { duration, clamped := b.minDuration, true; }
    if duration > b.maxDuration { duration, clamped := b.maxDuration, true; }
    r := i.(reductionBp := reduction, admissionReductionBp := admission, headroomBytes := headroom, staggerSlots := slots,
            penalized := penalized, duration := duration, bounded := true, clamped := i.clamped || clamped);
  }

  // ----- The common part -----

  function IssuedAt(r: SynthesisRequest): int { if r.issuedAt != 0 then r.issuedAt else r.bundle.now }

  function Base(r: SynthesisRequest): MitigationIntent {
    var b, m := r.bundle, r.classification.metrics;
    var floor := r.policy.protection.protectedFloorRate;
    EMPTY_INTENT.(
      intervention := r.intervention, generation := r.generation, origin := b.origin, policy := r.policy.ref,
      binding := b.binding, issuedAt := IssuedAt(r),
      queue := if b.queues == [] then 0 else b.queues[Worst(b.queues)].queue,
      resource := if b.queues == [] then b.capacity.resource else b.queues[Worst(b.queues)].resource,
      protectedOffered := m.protectedOffered,
      protectedFloor := if floor != 0 then floor else b.capacity.protectedFloorRate,
      resultingOffered := m.aggregateOffered)
  }

  function Refuse(i: MitigationIntent, reason: RefusalReason): Synthesis { Synthesis(i, false, reason, false) }

  // ----- Recovery -----

  /** What one recovery step takes off a reduction. */
  function RecoveryStep(reduction: nat, stepBp: nat, b: Bounds): nat {
    if stepBp != 0 then stepBp else Max(b.minReductionBp, reduction / 4)
  }

  predicate RetiresNow(reduction: nat, step: nat, b: Bounds) {
    reduction <= step || reduction - step < b.minReductionBp
  }

  /** Recovery ends the intervention, or lowers its reduction by one step; everything else is the prior intent's.
      The refusal of an authorized recovery is left at its initial value. */
  function Relax(r: SynthesisRequest, prior: MitigationIntent): Synthesis {
    var b := r.policy.bounds;
    var step := RecoveryStep(prior.reductionBp, r.stepBp, b);
    if RetiresNow(prior.reductionBp, step, b) then
      Synthesis(prior.(kind := NoMitigation, scope := NoScope, reductionBp := 0, admissionReductionBp := 0,
                       headroomBytes := 0, staggerSlots := 0, penalized := [], affected := [],
                       relaxesPrior := true, continuesPrior := false, duration := b.minDuration,
                       issuedAt := IssuedAt(r), expiresAt := IssuedAt(r) + b.minDuration,
                       insufficient := false, escalating := false), true, MissingEvidence, false)
    else
      var c := ClampToBounds(prior.(reductionBp := prior.reductionBp - step, relaxesPrior := true,
                                    continuesPrior := true, issuedAt := IssuedAt(r)), b);
      Synthesis(c.(expiresAt := c.issuedAt + c.duration), true, MissingEvidence, c.clamped)
  }

  // ----- Fresh reductions -----

  /** The demand the window asks to remove. */
  function RequiredReduction(c: Classification, p: Policy): u64 {
    var aggregate, service := c.metrics.aggregateOffered, c.metrics.serviceRate;
    var relaxed := ApplyBp(service, p.recovery.relaxOversubscriptionBp);
    var target := if c.kind == ActiveIncast && relaxed != 0 && relaxed < service then relaxed else service;
    if aggregate > target then aggregate - target else 0
  }

  /** The senders to be penalized, what they offer together, and their service classes. */
  datatype Pool = Pool(identities: seq<SenderIdentity>, offer: u64, classes: seq<ServiceClass>)

  const EMPTY_POOL: Pool := Pool([], 0, [])

  function Added(pool: Pool, c: Contribution): Pool {
    Pool(pool.identities + [c.identity], SaturatingAdd(pool.offer, c.offeredRate),
         if c.service in pool.classes then pool.classes else pool.classes + [c.service])
  }

  /** The first mitigable contributions, at most so many. */
  function Gather(cs: seq<Contribution>, limit: nat): Pool
    decreases |cs|
  {
    if cs == [] then EMPTY_POOL
    else
      var pool := Gather(cs[..|cs| - 1], limit);
      if cs[|cs| - 1].mitigable && |pool.identities| < limit then Added(pool, cs[|cs| - 1]) else pool
  }

  predicate SenderScopeAllowed(r: SynthesisRequest) {
    !(r.classification.metrics.populationSaturated && r.policy.protection.refuseSenderScopeWhenPopulationSaturated)
  }

  function PoolOf(r: SynthesisRequest): Pool {
    if SenderScopeAllowed(r) then Gather(r.classification.contributions, r.policy.bounds.maxPenalizedSenders) else EMPTY_POOL
  }

  datatype Plan = Plan(kind: MitigationKind, scope: MitigationScope, reductionBp: u32, admissionBp: u32, achievable: u64,
                       headroom: u64, slots: u32, penalized: seq<SenderIdentity>, affected: seq<ServiceClass>)

  /** No rate to remove, but the queue is collapsing: headroom and staggering only. */
  function StructuralPlan(r: SynthesisRequest): Plan {
    var m, b := r.classification.metrics, r.policy.bounds;
    var needed := if m.queueCapacity > m.highWatermark then m.queueCapacity - m.highWatermark else m.queueCapacity / 4;
    Plan(TemporaryHeadroomAdjustment, QueueScope, 0, 0, 0, Min(needed, b.maxHeadroomBytes),
         ClampBp(m.activeSenders, 1, b.maxStaggerSlots), [], [])
  }

  /** The reduction of the penalized senders that would remove the required demand, rounded up. */
  function NeededBp(required: u64, offer: u64): nat
    requires offer > 0
  {
    var scaled := SaturatingMul(required, 10_000);
    scaled / offer + (if scaled % offer != 0 then 1 else 0)
  }

  function SenderPlan(r: SynthesisRequest, pool: Pool, required: u64): Plan
    requires pool.offer > 0
  {
    var b, active := r.policy.bounds, r.classification.kind == ActiveIncast;
    var bp := ClampBp(NeededBp(required, pool.offer), b.minReductionBp, b.maxReductionBp);
    Plan(if active then PriorityAwareRateReduction else SenderStaggering, SenderSet, bp, 0, ApplyBp(pool.offer, bp), 0,
         if active then 0 else ClampBp(r.classification.metrics.activeSenders, 1, b.maxStaggerSlots),
         pool.identities, pool.classes)
  }

  /** No sender that may be penalized can be named: a bounded reduction for the whole destination. */
  function AdmissionPlan(r: SynthesisRequest, required: u64): Plan {
    var b, aggregate := r.policy.bounds, r.classification.metrics.aggregateOffered;
    var needed := SaturatingMul(required, 10_000) as int / (if aggregate == 0 then 1 else aggregate) as int;
    var bp := ClampBp(needed, Min(b.minReductionBp, b.maxAdmissionReductionBp), b.maxAdmissionReductionBp);
    Plan(TemporaryAdmissionReduction, DestinationScope, 0, bp, ApplyBp(aggregate, bp), 0, 0, [], [])
  }

  function PlanOf(r: SynthesisRequest, required: u64): Option<Plan> {
    var pool := PoolOf(r);
    if required == 0 then if r.classification.kind == ActiveIncast then Some(StructuralPlan(r)) else None
    else if SenderScopeAllowed(r) && pool.offer > 0 then Some(SenderPlan(r, pool, required))
    else Some(AdmissionPlan(r, required))
  }

  function Bp(v: nat): BasisPoints { Min(v, BP_MAX) }

  /** Headroom relief that accompanies an active incast when the buffers run low. */
  function Headroom(r: SynthesisRequest, plan: Plan): u64 {
    var capacity := r.bundle.capacity.bufferCapacity;
    if r.classification.kind == ActiveIncast && plan.kind != TemporaryHeadroomAdjustment && capacity != 0
       && RatioBp(r.classification.metrics.bufferHeadroom, capacity) < r.policy.pressure.headroomWarningBp
    then Min(capacity / 4, r.policy.bounds.maxHeadroomBytes)
    else plan.headroom
  }

  function PlannedDuration(r: SynthesisRequest): int {
    var b := r.policy.bounds;
    ClampNanos(b.minDuration + (b.maxDuration - b.minDuration) * SeverityWeight(r.classification.severity) / 4,
               b.minDuration, b.maxDuration)
  }

  function Planned(r: SynthesisRequest, required: u64, plan: Plan): MitigationIntent {
    var aggregate, base := r.classification.metrics.aggregateOffered, Base(r);
    var short := required > plan.achievable;
    var hopeless := short && plan.achievable == 0;
    base.(
      kind := if hopeless then CongestionEscalation else plan.kind,
      scope := if hopeless then DestinationScope else plan.scope,
      requiredReduction := required, reductionBp := Bp(plan.reductionBp), admissionReductionBp := Bp(plan.admissionBp),
      achievableReduction := plan.achievable, headroomBytes := Headroom(r, plan), staggerSlots := plan.slots,
      penalized := plan.penalized, affected := plan.affected, duration := PlannedDuration(r),
      resultingOffered := if aggregate >= plan.achievable then aggregate - plan.achievable else 0,
      continuesPrior := r.prior.Some? && r.prior.value.IsActive(),
      insufficient := short, escalating := short)
  }

  function Finish(r: SynthesisRequest, required: u64, plan: Plan): Synthesis {
    var i := Planned(r, required, plan);
    var conflict := i.protectedOffered > 0 || i.protectedFloor != 0;
    if i.insufficient && conflict && !r.policy.protection.escalateInsteadOfViolatingFloor
    then Refuse(EMPTY_INTENT, ProtectedFloorConflict)
    else
      var c := ClampToBounds(i, r.policy.bounds);
      Synthesis(c.(expiresAt := c.issuedAt + c.duration), true, NoRefusal, c.clamped)
  }

  function Fresh(r: SynthesisRequest): Synthesis {
    var required := RequiredReduction(r.classification, r.policy);
    var plan := PlanOf(r, required);
    if plan.None? then Refuse(Base(r), NoIncident) else Finish(r, required, plan.value)
  }

  // ----- Synthesis -----

  function SynthesisOf(r: SynthesisRequest): Synthesis {
    var c := r.classification;
    if r.checked != NoRefusal then Refuse(Base(r), r.checked)
    else if !r.policy.enabled then Refuse(Base(r), PolicyDisabled)
    else match c.kind
      case UnknownKind => Refuse(Base(r), if c.refusal == NoRefusal then MissingEvidence else c.refusal)
      case NoFanIn => Refuse(Base(r), NoIncident)
      case OrdinaryManyToOne => Refuse(Base(r), NoIncident)
      case Recovery =>
        if !r.policy.recovery.enabled then Refuse(Base(r), AwaitingRecoveryPolicy)
        else if r.prior.None? || !r.prior.value.IsActive() then Refuse(Base(r), NoIncident)
        else Relax(r, r.prior.value)
      case SynchronizedIncastRisk => Fresh(r)
      case ActiveIncast => Fresh(r)
  }

  // ----- The program -----

  method GatherMitigable(cs: seq<Contribution>, limit: nat) returns (pool: Pool)
    ensures pool == Gather(cs, limit)
  {
    pool := EMPTY_POOL;
    for index := 0 to |cs|
      invariant pool == Gather(cs[..index], limit)
    {
      assert cs[..index + 1][..index] == cs[..index];
      var c := cs[index];
      if !c.mitigable { continue; }
      if |pool.identities| >= limit {
        FullPool(cs, index, limit);
        return;
      }
      var classes := pool.classes;
      if c.service !in classes { classes := classes + [c.service]; }
      pool := Pool(pool.identities + [c.identity], SaturatingAdd(pool.offer, c.offeredRate), classes);
    }
    assert cs[..|cs|] == cs;
  }

  /** A full pool stays as it is. */
  lemma {:induction false} FullPool(cs: seq<Contribution>, n: nat, limit: nat)
    requires n <= |cs| && |Gather(cs[..n], limit).identities| >= limit
    ensures Gather(cs, limit) == Gather(cs[..n], limit)
    decreases |cs| - n
  {
    if n == |cs| {
      assert cs[..n] == cs;
    } else {
      assert cs[..n + 1][..n] == cs[..n];
      FullPool(cs, n + 1, limit);
    }
  }

  method BaseIntent(r: SynthesisRequest) returns (intent: MitigationIntent)
    ensures intent == Base(r)
  {
    hide Worst;
    var b := r.bundle;
    intent := EMPTY_INTENT.(intervention := r.intervention, generation := r.generation, origin := b.origin,
                            policy := r.policy.ref, binding := b.binding,
                            issuedAt := if r.issuedAt != 0 then r.issuedAt else b.now);
    if b.queues != [] {
      var w := FindWorst(b.queues);
      intent := intent.(queue := b.queues[w].queue, resource := b.queues[w].resource);
    } else {
      intent := intent.(resource := b.capacity.resource);
    }
    var floor := r.policy.protection.protectedFloorRate;
    intent := intent.(protectedOffered := r.classification.metrics.protectedOffered,
                      protectedFloor := if floor != 0 then floor else b.capacity.protectedFloorRate,
                      resultingOffered := r.classification.metrics.aggregateOffered);
  }

  method SynthesizeRecovery(r: SynthesisRequest, prior: MitigationIntent) returns (s: Synthesis)
    ensures s == Relax(r, prior)
  {
    hide ClampToBounds;
    var b := r.policy.bounds;
    var step := if r.stepBp != 0 then r.stepBp else Max(b.minReductionBp, prior.reductionBp / 4);
    var issuedAt := if r.issuedAt != 0 then r.issuedAt else r.bundle.now;
    if prior.reductionBp <= step || prior.reductionBp - step < b.minReductionBp {
      return Synthesis(
        prior.(kind := NoMitigation, scope := NoScope, reductionBp := 0, admissionReductionBp := 0, headroomBytes := 0,
               staggerSlots := 0, penalized := [], affected := [], relaxesPrior := true, continuesPrior := false,
               duration := b.minDuration, issuedAt := issuedAt, expiresAt := issuedAt + b.minDuration,
               insufficient := false, escalating := false), true, MissingEvidence, false);
    }
    var intent := Clamp(prior.(reductionBp := prior.reductionBp - step, relaxesPrior := true, continuesPrior := true,
                               issuedAt := issuedAt), b);
    s := Synthesis(intent.(expiresAt := intent.issuedAt + intent.duration), true, MissingEvidence, intent.clamped);
  }

  method PlanAction(r: SynthesisRequest, required: u64) returns (plan: Option<Plan>)
    ensures plan == PlanOf(r, required)
  {
    hide Gather;
    var pool := EMPTY_POOL;
    var allowed := SenderScopeAllowed(r);
    if allowed { pool := GatherMitigable(r.classification.contributions, r.policy.bounds.maxPenalizedSenders); }
    if required == 0 {
      if r.classification.kind != ActiveIncast { return None; }
      plan := Some(StructuralPlan(r));
    } else if allowed && pool.offer > 0 {
      plan := Some(SenderPlan(r, pool, required));
    } else {
      plan := Some(AdmissionPlan(r, required));
    }
  }

  method RelieveHeadroom(r: SynthesisRequest, plan: Plan) returns (headroom: u64)
    ensures headroom == Headroom(r, plan)
  {
    hide RatioBp;
    headroom := plan.headroom;
    var capacity := r.bundle.capacity.bufferCapacity;
    if r.classification.kind == ActiveIncast && plan.kind != TemporaryHeadroomAdjustment {
      var ratio := RatioBp(r.classification.metrics.bufferHeadroom, capacity);
      if capacity != 0 && ratio < r.policy.pressure.headroomWarningBp {
        headroom := Min(capacity / 4, r.policy.bounds.maxHeadroomBytes);
      }
    }
  }

  /** The intent of a plan; what cannot be removed is escalated. */
  method Compose(r: SynthesisRequest, base: MitigationIntent, required: u64, plan: Plan) returns (intent: MitigationIntent)
    requires base == Base(r)
    ensures intent == Planned(r, required, plan)
  {
    hide Base, PlannedDuration, Headroom;
    var aggregate := r.classification.metrics.aggregateOffered;
    var kind, scope, insufficient := plan.kind, plan.scope, false;
    var headroom := RelieveHeadroom(r, plan);
    if required > plan.achievable {
      insufficient := true;
      if plan.achievable == 0 { kind, scope := CongestionEscalation, DestinationScope; }
    }
    intent := base.(
      kind := kind, scope := scope, requiredReduction := required, reductionBp := Bp(plan.reductionBp),
      admissionReductionBp := Bp(plan.admissionBp), achievableReduction := plan.achievable, headroomBytes := headroom,
      staggerSlots := plan.slots, penalized := plan.penalized, affected := plan.affected, duration := PlannedDuration(r),
      resultingOffered := if aggregate >= plan.achievable then aggregate - plan.achievable else 0,
      continuesPrior := r.prior.Some? && r.prior.value.IsActive(), insufficient := insufficient, escalating := insufficient);
  }

  method FinishFresh(r: SynthesisRequest, base: MitigationIntent, required: u64, plan: Plan) returns (s: Synthesis)
    requires base == Base(r)
    ensures s == Finish(r, required, plan)
  {
    hide Base, ClampToBounds, Planned;
    var intent := Compose(r, base, required, plan);
    if intent.insufficient && (intent.protectedOffered > 0 || intent.protectedFloor != 0)
       && !r.policy.protection.escalateInsteadOfViolatingFloor {
      return Refuse(EMPTY_INTENT, ProtectedFloorConflict);
    }
    intent := Clamp(intent, r.policy.bounds);
    s := Synthesis(intent.(expiresAt := intent.issuedAt + intent.duration), true, NoRefusal, intent.clamped);
  }

  method SynthesizeFresh(r: SynthesisRequest, base: MitigationIntent) returns (s: Synthesis)
    requires base == Base(r)
    ensures s == Fresh(r)
  {
    hide Base, PlanOf, ApplyBp, Finish;
    var aggregate, service := r.classification.metrics.aggregateOffered, r.classification.metrics.serviceRate;
    var relaxTarget := ApplyBp(service, r.policy.recovery.relaxOversubscriptionBp);
    var target := service;
    if r.classification.kind == ActiveIncast && relaxTarget != 0 && relaxTarget < service { target := relaxTarget; }
    var required: u64 := if aggregate > target then aggregate - target else 0;
    var plan := PlanAction(r, required);
    if plan.None? { return Refuse(base, NoIncident); }
    s := FinishFresh(r, base, required, plan.value);
  }

  method Synthesize(r: SynthesisRequest) returns (s: Synthesis)
    ensures s == SynthesisOf(r)
  {
    hide Base, Relax, Fresh;
    var base := BaseIntent(r);
    if r.checked != NoRefusal { return Refuse(base, r.checked); }
    if !r.policy.enabled { return Refuse(base, PolicyDisabled); }
    var kind := r.classification.kind;
    if kind == UnknownKind {
      return Refuse(base, if r.classification.refusal == NoRefusal then MissingEvidence else r.classification.refusal);
    }
    if kind == NoFanIn || kind == OrdinaryManyToOne { return Refuse(base, NoIncident); }
    if kind == Recovery {
      if !r.policy.recovery.enabled { return Refuse(base, AwaitingRecoveryPolicy); }
      if r.prior.None? || !r.prior.value.IsActive() { return Refuse(base, NoIncident); }
      s := SynthesizeRecovery(r, r.prior.value);
      return;
    }
    s := SynthesizeFresh(r, base);
  }
}
