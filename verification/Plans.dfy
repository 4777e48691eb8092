/** What synthesis composes for each kind of window, part by part. */
module Plans {
  import opened Words
  import opened Outcomes
  import opened Model
  import opened Sorting
  import opened Detect
  import opened Ranking
  import opened Classifier
  import opened Mitigate
  import opened Mitigation

  // ----- How much is to be removed -----

  /** What the destination is to be left with: its service rate, or for an active incast the relaxed share of it when that
      is less and not nothing. */
  function Target(c: Classification, p: Policy): nat {
    var service := c.metrics.serviceRate as int;
    var relaxed := service * p.recovery.relaxOversubscriptionBp as int / 10_000;
    if c.kind == ActiveIncast && 0 < relaxed < service then relaxed else service
  }

  /** The required reduction is exactly the demand beyond the target. */
  lemma RequiredIsTheExcess(c: Classification, p: Policy)
    requires c.metrics.serviceRate as int * p.recovery.relaxOversubscriptionBp as int <= MAX_U64
    ensures RequiredReduction(c, p) as int == Max(0, c.metrics.aggregateOffered as int - Target(c, p))
  {
    Unsaturated(c.metrics.serviceRate, p.recovery.relaxOversubscriptionBp);
  }

  // ----- Who is penalized -----

  function IsMitigable(): Contribution -> bool { (c: Contribution) => c.mitigable }

  function FirstOf<T>(s: seq<T>, n: nat): seq<T> { if |s| > n then s[..n] else s }

  function Identities(cs: seq<Contribution>): (ids: seq<SenderIdentity>)
    ensures |ids| == |cs| && forall i | 0 <= i < |cs| :: ids[i] == cs[i].identity
  {
    seq(|cs|, i requires 0 <= i < |cs| => cs[i].identity)
  }

  function Rates(cs: seq<Contribution>): nat
    decreases |cs|
  {
    if cs == [] then 0 else Rates(cs[..|cs| - 1]) + cs[|cs| - 1].offeredRate
  }

  /** The pool names the contributions in their order, sums what they offer and lists their classes. */
  ghost predicate Pools(pool: Pool, named: seq<Contribution>) {
    && pool.identities == Identities(named) && pool.offer as int == Min(Rates(named), MAX_U64)
    && forall x :: x in pool.classes <==> exists c | c in named :: c.service == x
  }

  lemma ClassesGrow(pool: Pool, named: seq<Contribution>, c: Contribution)
    requires forall x :: x in pool.classes <==> exists d | d in named :: d.service == x
    ensures forall x :: x in Added(pool, c).classes <==> exists d | d in named + [c] :: d.service == x
  {
    forall x ensures x in Added(pool, c).classes <==> exists d | d in named + [c] :: d.service == x {
      if x == c.service { assert c in named + [c]; }
      if x in pool.classes {
        var d :| d in named && d.service == x;
        assert d in named + [c];
      }
    }
  }

  lemma PoolGrows(pool: Pool, named: seq<Contribution>, c: Contribution)
    requires Pools(pool, named)
    ensures Pools(Added(pool, c), named + [c])
  {
    var now := named + [c];
    assert now[..|now| - 1] == named;
    ClassesGrow(pool, named, c);
    assert Identities(now) == Identities(named) + [c.identity];
  }

  function Named(cs: seq<Contribution>, limit: nat): seq<Contribution> { FirstOf(Selected(IsMitigable(), cs), limit) }

  lemma NamedStep(cs: seq<Contribution>, limit: nat)
    requires cs != []
    ensures var was, last := Named(cs[..|cs| - 1], limit), cs[|cs| - 1];
      Named(cs, limit) == if last.mitigable && |was| < limit then was + [last] else was
  {}

  /** The penalized senders are the first of the mitigable contributions, up to the limit. */
  lemma {:induction false} PoolIsTheFirst(cs: seq<Contribution>, limit: nat)
    ensures Pools(Gather(cs, limit), Named(cs, limit))
    decreases |cs|
  {
    hide Pools, Named, Added;
    if cs == [] {
      NobodyPools(limit);
    } else {
      var front := cs[..|cs| - 1];
      PoolIsTheFirst(front, limit);
      NamedStep(cs, limit);
      PoolGrows(Gather(front, limit), Named(front, limit), cs[|cs| - 1]);
      PoolSizes(Gather(front, limit), Named(front, limit));
    }
  }

  lemma PoolSizes(pool: Pool, named: seq<Contribution>)
    requires Pools(pool, named)
    ensures |pool.identities| == |named|
  {}

  lemma NobodyPools(limit: nat)
    ensures Pools(EMPTY_POOL, Named([], limit))
  {}

  ghost predicate Falling(cs: seq<Contribution>) {
    forall i, j | 0 <= i < j < |cs| :: cs[i].offeredRate >= cs[j].offeredRate
  }

  lemma {:induction false} SelectedFalls(cs: seq<Contribution>)
    requires Falling(cs)
    ensures Falling(Selected(IsMitigable(), cs))
    decreases |cs|
  {
    if cs != [] {
      var front, last := cs[..|cs| - 1], cs[|cs| - 1];
      SelectedFalls(front);
      var ms := Selected(IsMitigable(), front);
      forall k | 0 <= k < |ms| ensures ms[k].offeredRate >= last.offeredRate {
        assert ms[k] in front;
        var i :| 0 <= i < |front| && front[i] == ms[k];
        assert cs[i] == ms[k] && cs[|cs| - 1] == last;
      }
    }
  }

  lemma RankedFalls(rows: seq<Sender>, g: Setting)
    ensures Falling(Ranked(rows, g))
  {
    hide Ranked;
    HeaviestFirst(rows, g);
  }

  lemma FirstOfFalling(ms: seq<Contribution>, limit: nat, n: Contribution, c: Contribution)
    requires Falling(ms) && n in FirstOf(ms, limit) && c in ms && c !in FirstOf(ms, limit)
    ensures n.offeredRate >= c.offeredRate
  {
    var named := FirstOf(ms, limit);
    var i :| 0 <= i < |named| && named[i] == n;
    var j :| 0 <= j < |ms| && ms[j] == c;
    assert forall k | 0 <= k < |named| :: named[k] == ms[k] && named[k] in named;
  }

  /** THE HEAVIEST PAY.  Whoever may be penalized and is not named offers no more than anyone who is, and nobody is left out
      below the limit. */
  lemma HeaviestAreNamed(rows: seq<Sender>, g: Setting, limit: nat)
    ensures HeaviestIn(Ranked(rows, g), Named(Ranked(rows, g), limit), limit)
  {
    hide Ranked, Named;
    RankedFalls(rows, g);
    HeaviestFromTop(Ranked(rows, g), limit);
  }

  predicate HeaviestIn(cs: seq<Contribution>, named: seq<Contribution>, limit: nat) {
    && (forall n | n in named :: n in cs && n.mitigable)
    && (forall n, c | n in named && c in cs && c.mitigable && c !in named :: n.offeredRate >= c.offeredRate)
    && (|named| < limit ==> forall c | c in cs && c.mitigable :: c in named)
  }

  lemma HeaviestFromTop(cs: seq<Contribution>, limit: nat)
    requires Falling(cs)
    ensures HeaviestIn(cs, Named(cs, limit), limit)
  {
    hide IsMitigable, Falling, FirstOf;
    MitigableMeans();
    SelectedFalls(cs);
    var ms := Selected(IsMitigable(), cs);
    FirstOfIsPrefix(ms, limit);
    forall n, c | n in Named(cs, limit) && c in cs && c.mitigable && c !in Named(cs, limit) ensures n.offeredRate >= c.offeredRate {
      FirstOfFalling(ms, limit, n, c);
    }
  }

  lemma FirstOfIsPrefix(ms: seq<Contribution>, limit: nat)
    ensures forall n | n in FirstOf(ms, limit) :: n in ms
    ensures |FirstOf(ms, limit)| < limit ==> FirstOf(ms, limit) == ms
  {}

  lemma MitigableMeans()
    ensures forall c :: IsMitigable()(c) <==> c.mitigable
  {}

  lemma {:induction false} RatesAddUp(cs: seq<Contribution>)
    ensures Rates(cs) > 0 <==> exists c | c in cs :: c.offeredRate > 0
    decreases |cs|
  {
    if cs != [] {
      var front, last := cs[..|cs| - 1], cs[|cs| - 1];
      RatesAddUp(front);
      assert forall x :: x in cs <==> x in front || x == last;
    }
  }

  /** SCOPE.  Demand is taken from senders exactly when someone who may be penalized offers something, and the population is
      known or the policy does not mind; otherwise from the whole destination. */
  lemma ScopedExactlyWhen(r: SynthesisRequest)
    requires IsIncident(r.classification.kind) && RequiredReduction(r.classification, r.policy) > 0
    requires Falling(r.classification.contributions) && r.policy.bounds.maxPenalizedSenders > 0
    ensures var known := !r.classification.metrics.populationSaturated
                         || !r.policy.protection.refuseSenderScopeWhenPopulationSaturated;
      var someone := exists c | c in r.classification.contributions :: c.mitigable && c.offeredRate > 0;
      (SenderScoped(r) <==> known && someone) && (DestinationScoped(r) <==> !(known && someone))
  {
    hide RequiredReduction, Named, Gather, Falling;
    var cs, limit := r.classification.contributions, r.policy.bounds.maxPenalizedSenders;
    PoolIsTheFirst(cs, limit);
    HeaviestFromTop(cs, limit);
    RatesAddUp(Named(cs, limit));
    if c :| c in cs && c.mitigable && c.offeredRate > 0 {
      if c !in Named(cs, limit) {
        assert |Named(cs, limit)| >= limit;
        assert Named(cs, limit)[0] in Named(cs, limit);
      }
    }
  }

  // ----- The branches -----

  /** Synthesis has a fresh intent to compose. */
  predicate Composes(r: SynthesisRequest) {
    r.checked == NoRefusal && r.policy.enabled && IsIncident(r.classification.kind) && r.policy.BoundsValid()
  }

  predicate Structural(r: SynthesisRequest) {
    r.classification.kind == ActiveIncast && RequiredReduction(r.classification, r.policy) == 0
  }

  function Slots(r: SynthesisRequest): nat {
    var active, most := r.classification.metrics.activeSenders, r.policy.bounds.maxStaggerSlots;
    if active < 1 then 1 else if active > most then most else active
  }

  /** Room in the queue and staggering: up to the policy's maximum, what the high watermark leaves of the queue, or a quarter
      of it when the watermark is at its end; nobody is named and no rate is reduced. */
  predicate IsRoom(y: Synthesis, m: Metrics, b: Bounds) {
    var free := if m.highWatermark < m.queueCapacity then m.queueCapacity - m.highWatermark else m.queueCapacity / 4;
    && y.authorized && y.refusal == NoRefusal && y.intent.kind == TemporaryHeadroomAdjustment && y.intent.scope == QueueScope
    && y.intent.penalized == [] && y.intent.affected == [] && y.intent.reductionBp == 0 && y.intent.admissionReductionBp == 0
    && y.intent.headroomBytes == (if free < b.maxHeadroomBytes then free else b.maxHeadroomBytes)
    && y.intent.requiredReduction == 0 && y.intent.achievableReduction == 0 && !y.intent.insufficient && !y.intent.escalating
    && y.intent.resultingOffered == m.aggregateOffered
  }

  /** NOTHING TO REMOVE.  An active incast within capacity gets room in the queue and staggering. */
  lemma StructuralIsRoom(r: SynthesisRequest)
    requires Composes(r) && Structural(r)
    ensures IsRoom(SynthesisOf(r), r.classification.metrics, r.policy.bounds)
    ensures SynthesisOf(r).intent.staggerSlots == Slots(r)
  {
    hide Base, RequiredReduction, PlannedDuration, PoolOf;
  }

  /** What the queue relief of an active incast gives when the buffers run low. */
  function Relief(r: SynthesisRequest): u64 {
    var capacity := r.bundle.capacity.bufferCapacity;
    if r.classification.kind == ActiveIncast && capacity != 0
       && RatioBp(r.classification.metrics.bufferHeadroom, capacity) < r.policy.pressure.headroomWarningBp
    then if capacity / 4 < r.policy.bounds.maxHeadroomBytes then capacity / 4 else r.policy.bounds.maxHeadroomBytes
    else 0
  }

  /** The gathered senders slow down: by priority in an active incast, one after the other in a risk; when nothing can be
      taken from them the window is only escalated. */
  predicate IsSlowing(i: MitigationIntent, r: SynthesisRequest, pool: Pool) {
    var active := r.classification.kind == ActiveIncast;
    && i.penalized == pool.identities && i.affected == pool.classes && i.admissionReductionBp == 0
    && i.headroomBytes == Relief(r) && i.staggerSlots == (if active then 0 else Slots(r))
    && (if i.achievableReduction == 0 then i.kind == CongestionEscalation && i.scope == DestinationScope
        else i.kind == (if active then PriorityAwareRateReduction else SenderStaggering) && i.scope == SenderSet)
  }

  lemma PoolIsLimited(r: SynthesisRequest)
    ensures |PoolOf(r).identities| <= r.policy.bounds.maxPenalizedSenders
  {
    hide Named, Identities;
    PoolIsTheFirst(r.classification.contributions, r.policy.bounds.maxPenalizedSenders);
    NamedIsLimited(r.classification.contributions, r.policy.bounds.maxPenalizedSenders);
  }

  lemma NamedIsLimited(cs: seq<Contribution>, limit: nat)
    ensures |Named(cs, limit)| <= limit
  {}

  lemma HeadroomIsRelief(r: SynthesisRequest, plan: Plan)
    requires plan.kind != TemporaryHeadroomAdjustment && plan.headroom == 0
    ensures Headroom(r, plan) == Relief(r)
  {
    hide RatioBp;
  }

  lemma SenderPlanIs(r: SynthesisRequest, pool: Pool, required: u64)
    requires pool.offer > 0 && r.policy.BoundsValid()
    ensures var active, plan := r.classification.kind == ActiveIncast, SenderPlan(r, pool, required);
      && plan.kind == (if active then PriorityAwareRateReduction else SenderStaggering) && plan.scope == SenderSet
      && plan.slots == (if active then 0 else Slots(r)) && plan.penalized == pool.identities && plan.affected == pool.classes
      && plan.admissionBp == 0 && plan.headroom == 0
    ensures Slots(r) <= r.policy.bounds.maxStaggerSlots
  {
    hide NeededBp, ApplyBp;
  }

  lemma PlanIsWithin(r: SynthesisRequest, required: u64)
    requires r.policy.BoundsValid() && PlanOf(r, required).Some?
    ensures var plan, b := PlanOf(r, required).value, r.policy.bounds;
      && plan.reductionBp <= b.maxReductionBp && plan.admissionBp <= b.maxAdmissionReductionBp && plan.slots <= b.maxStaggerSlots
      && Headroom(r, plan) <= b.maxHeadroomBytes && |plan.penalized| <= b.maxPenalizedSenders
  {
    hide PoolOf, NeededBp, ApplyBp, RatioBp;
    PoolIsLimited(r);
  }

  lemma SenderScopedIsSlowing(r: SynthesisRequest)
    requires Composes(r) && SenderScoped(r) && SynthesisOf(r).authorized
    ensures IsSlowing(SynthesisOf(r).intent, r, PoolOf(r))
  {
    hide Base, RequiredReduction, PlannedDuration, PoolOf, SenderPlan, Headroom, Relief, Slots, StructuralPlan, AdmissionPlan;
    var required := RequiredReduction(r.classification, r.policy);
    PoolIsLimited(r);
    SenderPlanIs(r, PoolOf(r), required);
    HeadroomIsRelief(r, SenderPlan(r, PoolOf(r), required));
    PlanIsWithin(r, required);
  }

  /** Nobody is named: the whole destination is admitted less. */
  predicate IsAdmission(i: MitigationIntent, r: SynthesisRequest) {
    && i.penalized == [] && i.affected == [] && i.reductionBp == 0 && i.staggerSlots == 0 && i.headroomBytes == Relief(r)
    && i.scope == DestinationScope
    && i.kind == (if i.achievableReduction == 0 then CongestionEscalation else TemporaryAdmissionReduction)
  }

  lemma DestinationScopedIsAdmission(r: SynthesisRequest)
    requires Composes(r) && DestinationScoped(r) && SynthesisOf(r).authorized
    ensures IsAdmission(SynthesisOf(r).intent, r)
  {
    hide Base, RequiredReduction, PlannedDuration, PoolOf, ApplyBp, Headroom, Relief;
    HeadroomIsRelief(r, AdmissionPlan(r, RequiredReduction(r.classification, r.policy)));
    PlanIsWithin(r, RequiredReduction(r.classification, r.policy));
  }

  // ----- Refusals -----

  /** What the plan of the window can remove. */
  function Removable(r: SynthesisRequest): u64 {
    var required := RequiredReduction(r.classification, r.policy);
    if PlanOf(r, required).Some? then PlanOf(r, required).value.achievable else 0
  }

  /** Something has to be kept for protected traffic. */
  predicate KeepsSomething(r: SynthesisRequest) { r.classification.metrics.protectedOffered > 0 || Floor(r) != 0 }

  /** REFUSALS.  An incident window is refused exactly when it is a risk without demand to remove, or when not all of it can
      be removed, something is to be kept for protected traffic, and the policy does not escalate. */
  lemma RefusedExactlyWhen(r: SynthesisRequest)
    requires Composes(r)
    ensures var y, required := SynthesisOf(r), RequiredReduction(r.classification, r.policy);
      var idle := r.classification.kind != ActiveIncast && required == 0;
      var conflict := !idle && required > Removable(r) && KeepsSomething(r)
                      && !r.policy.protection.escalateInsteadOfViolatingFloor;
      && (!y.authorized <==> idle || conflict)
      && (idle ==> y.refusal == NoIncident) && (conflict ==> y.refusal == ProtectedFloorConflict && y.intent == EMPTY_INTENT)
      && (y.authorized ==> y.refusal == NoRefusal)
  {
    hide RequiredReduction, PlannedDuration, PoolOf, NeededBp, ApplyBp, RatioBp, ClampBp, ClampToBounds, Headroom, Worst,
      StructuralPlan, SenderPlan, AdmissionPlan;
  }

  /** Windows that are no incident get nothing, each for its reason, and a recovery without anything to relax neither. */
  lemma OtherwiseRefused(r: SynthesisRequest)
    requires r.checked == NoRefusal && r.policy.enabled && !IsIncident(r.classification.kind)
    ensures var y, k, c := SynthesisOf(r), r.classification.kind, r.classification;
      && (k == NoFanIn || k == OrdinaryManyToOne ==> !y.authorized && y.refusal == NoIncident)
      && (k == UnknownKind ==> !y.authorized && y.refusal == if c.refusal == NoRefusal then MissingEvidence else c.refusal)
      && (k == Recovery && !r.policy.recovery.enabled ==> !y.authorized && y.refusal == AwaitingRecoveryPolicy)
      && (k == Recovery && r.policy.recovery.enabled ==>
            (y.authorized <==> r.prior.Some? && r.prior.value.IsActive()) && (!y.authorized ==> y.refusal == NoIncident))
  {
    hide Base, Relax;
    RelaxIsAuthorized(r);
  }

  lemma RelaxIsAuthorized(r: SynthesisRequest)
    ensures r.prior.Some? ==> Relax(r, r.prior.value).authorized
  {
    hide ClampToBounds;
  }

  // ----- What every composed intent says -----

  /** The intent carries the window's origin and authority, runs from its instant for its duration, and says what it is
      measured by and what it leaves; nothing in it had to be pulled inside the bounds. */
  predicate IsFor(i: MitigationIntent, r: SynthesisRequest) {
    var m, at := r.classification.metrics, if r.issuedAt != 0 then r.issuedAt else r.bundle.now;
    && i.intervention == r.intervention && i.generation == r.generation && i.origin == r.bundle.origin
    && i.policy == r.policy.ref && i.binding == r.bundle.binding
    && i.issuedAt == at && i.expiresAt == at + i.duration && i.duration == PlannedDuration(r)
    && i.protectedOffered == m.protectedOffered && i.protectedFloor == Floor(r)
    && i.requiredReduction == RequiredReduction(r.classification, r.policy) && i.achievableReduction == Removable(r)
    && i.resultingOffered == (if i.achievableReduction < m.aggregateOffered then m.aggregateOffered - i.achievableReduction else 0)
    && (i.insufficient <==> i.requiredReduction > i.achievableReduction) && (i.escalating <==> i.insufficient)
    && (i.continuesPrior <==> r.prior.Some? && r.prior.value.kind != NoMitigation) && !i.relaxesPrior
    && i.aggregateReductionBp == 0 && i.bounded && !i.clamped
  }

  lemma ComposedIsFor(r: SynthesisRequest)
    requires Composes(r) && SynthesisOf(r).authorized
    ensures IsFor(SynthesisOf(r).intent, r) && !SynthesisOf(r).clamped
  {
    hide RequiredReduction, PoolOf, NeededBp, ApplyBp, RatioBp, Worst, PlannedDuration;
    PoolIsLimited(r);
    PlanIsWithin(r, RequiredReduction(r.classification, r.policy));
    DurationIsWithin(r);
  }

  lemma DurationIsWithin(r: SynthesisRequest)
    requires r.policy.BoundsValid()
    ensures r.policy.bounds.minDuration <= PlannedDuration(r) <= r.policy.bounds.maxDuration
  {}

  /** The intent is about the fullest queue of the bundle, or about the destination's own resource without one. */
  lemma ComposedIsAboutTheWorstQueue(r: SynthesisRequest)
    requires Composes(r) && SynthesisOf(r).authorized
    ensures var i, qs := SynthesisOf(r).intent, r.bundle.queues;
      if qs == [] then i.queue == 0 && i.resource == r.bundle.capacity.resource
      else exists w | w in qs :: i.queue == w.queue && i.resource == w.resource && forall q | q in qs :: !Beats(q, w)
  {
    hide RequiredReduction, PlanOf, PlannedDuration, ClampedDuration, Headroom, PressureOf, Within, Worst, Beats;
    var qs := r.bundle.queues;
    if qs != [] {
      WorstIsWorst(qs);
      assert qs[Worst(qs)] in qs;
    }
  }

  /** A quarter of the way from the shortest to the longest duration for each grade of severity. */
  lemma DurationIsGraded(r: SynthesisRequest)
    requires r.policy.BoundsValid()
    ensures var b, grade := r.policy.bounds, SeverityRank(r.classification.severity);
      4 * (PlannedDuration(r) - b.minDuration) <= (b.maxDuration - b.minDuration) * grade
      && (b.maxDuration - b.minDuration) * grade < 4 * (PlannedDuration(r) - b.minDuration) + 4
  {
    var b, grade := r.policy.bounds, SeverityRank(r.classification.severity);
    Scale(grade, 4, b.maxDuration - b.minDuration);
  }

  // ----- Recovery -----

  /** A recovery step lowers the reduction of an intent within the bounds and starts its term again; nothing else of it
      changes.  Its last step keeps only what the intent was about. */
  lemma RelaxedIsThePrior(r: SynthesisRequest, p: Policy, prior: MitigationIntent)
    requires p.BoundsValid() && Recovers(r, p) && r.prior == Some(prior) && prior.IsActive() && prior.bounded
    requires Within(prior, p.bounds)
    ensures var (i, at) := (SynthesisOf(r).intent, if r.issuedAt != 0 then r.issuedAt else r.bundle.now);
      i == if i.IsActive() then
        prior.(reductionBp := i.reductionBp, relaxesPrior := true, continuesPrior := true, issuedAt := at,
               expiresAt := at + prior.duration)
      else
        EMPTY_INTENT.(intervention := prior.intervention, generation := prior.generation, origin := prior.origin,
                      policy := prior.policy, binding := prior.binding, issuedAt := at, expiresAt := at + p.bounds.minDuration,
                      duration := p.bounds.minDuration, aggregateReductionBp := prior.aggregateReductionBp,
                      queue := prior.queue, resource := prior.resource, protectedOffered := prior.protectedOffered,
                      protectedFloor := prior.protectedFloor, resultingOffered := prior.resultingOffered,
                      requiredReduction := prior.requiredReduction, achievableReduction := prior.achievableReduction,
                      clamped := prior.clamped, relaxesPrior := true)
  {
    hide Base;
  }
}
