/** What synthesis promises: bounds, least reductions, no protected sender penalized, and recovery that ends. */
module Mitigation {
  import opened Words
  import opened Outcomes
  import opened Model
  import opened Sorting
  import opened Collisions
  import opened Detect
  import opened Ranking
  import opened Classifier
  import opened Mitigate

  // ----- Bounds -----

  /** Every authorized intent lies within every bound of the policy. */
  lemma AuthorizedIsWithin(r: SynthesisRequest)
    requires r.policy.BoundsValid() && (r.prior.Some? ==> r.prior.value.bounded)
    requires SynthesisOf(r).authorized
    ensures Within(SynthesisOf(r).intent, r.policy.bounds) && SynthesisOf(r).intent.bounded
  {
    hide ClampToBounds, Planned, PlanOf, RequiredReduction, Base, RecoveryStep, RetiresNow;
    if r.classification.kind == Recovery {
      RelaxIsWithin(r, r.prior.value);
    } else {
      var required := RequiredReduction(r.classification, r.policy);
      var plan := PlanOf(r, required).value;
      ClampKeeps(Planned(r, required, plan), r.policy);
    }
  }

  lemma ClampKeeps(i: MitigationIntent, p: Policy)
    requires p.BoundsValid()
    ensures var c := ClampToBounds(i, p.bounds);
      forall t :: Within(c.(expiresAt := t), p.bounds) && c.(expiresAt := t).bounded
  {}

  lemma RelaxIsWithin(r: SynthesisRequest, prior: MitigationIntent)
    requires r.policy.BoundsValid() && prior.bounded
    ensures Within(Relax(r, prior).intent, r.policy.bounds) && Relax(r, prior).intent.bounded
  {
    hide ClampToBounds;
    var b := r.policy.bounds;
    var step := RecoveryStep(prior.reductionBp, r.stepBp, b);
    if !RetiresNow(prior.reductionBp, step, b) {
      ClampKeeps(prior.(reductionBp := prior.reductionBp - step, relaxesPrior := true,
                        continuesPrior := true, issuedAt := IssuedAt(r)), r.policy);
    }
  }

  // ----- Penalized senders -----

  predicate Distinct<T(==)>(s: seq<T>) { forall i, j | 0 <= i < j < |s| :: s[i] != s[j] }

  lemma DistinctAppend<T>(s: seq<T>, x: T)
    ensures Distinct(s) && x !in s ==> Distinct(s + [x])
  {}

  /** The pool names mitigable contributions only, each once, and never more than the limit. */
  lemma {:induction false} PoolIsMitigable(cs: seq<Contribution>, limit: nat)
    requires forall i, j | 0 <= i < j < |cs| :: cs[i].identity != cs[j].identity
    ensures var pool := Gather(cs, limit);
      && |pool.identities| <= limit && Distinct(pool.identities) && Distinct(pool.classes)
      && forall id | id in pool.identities :: exists c | c in cs :: c.mitigable && c.identity == id
    decreases |cs|
  {
    if cs != [] {
      var front := cs[..|cs| - 1];
      assert cs == front + [cs[|cs| - 1]];
      assert forall c | c in front :: c in cs;
      PoolIsMitigable(front, limit);
      var pool := Gather(front, limit);
      forall id | id in pool.identities ensures id != cs[|cs| - 1].identity {
        var c :| c in front && c.mitigable && c.identity == id;
        var k :| 0 <= k < |front| && front[k] == c;
        assert cs[k] == c;
      }
      DistinctAppend(pool.identities, cs[|cs| - 1].identity);
      DistinctAppend(pool.classes, cs[|cs| - 1].service);
      hide Distinct;
    }
  }

  lemma PrefixMember<T>(s: seq<T>, t: seq<T>, x: T)
    requires (s == [] || s <= t) && x in s
    ensures x in t
  {}

  /** PENALIZATION.  A fresh intent penalizes each identity once, and for each one no usable row of the window with
      that sender is protected or carries another incarnation. */
  lemma FreshPenalizesSafely(r: SynthesisRequest, c: Context)
    requires |r.policy.authority.requiredClasses| == CLASSES
    requires r.classification == ClassifyWindow(r.bundle, r.policy, Collided(Rows(r.bundle)), c)
    requires IsIncident(r.classification.kind) && SynthesisOf(r).authorized
    ensures Distinct(SynthesisOf(r).intent.penalized)
    ensures forall id, row | id in SynthesisOf(r).intent.penalized && row in Rows(r.bundle)
                             && row.identity.Valid() && row.identity.sender == id.sender ::
      !IsProtected(row, r.policy) && row.identity.incarnation == id.incarnation
  {
    hide ClassifyWindow, IsProtected, SynthesisOf, Gather, Ranked, Collided, MetricsOf, Rows;
    FreshPenalizesPool(r);
    var m, s := r.classification.metrics, r.classification.synchronization;
    ContributionsAreRanked(r, c);
    var g := SettingOf(r.policy, m, s);
    var cs := r.classification.contributions;
    if cs != [] {
      RankedAreRows(Rows(r.bundle), g);
    }
    PoolIsMitigable(cs, r.policy.bounds.maxPenalizedSenders);
    forall id, row | id in SynthesisOf(r).intent.penalized && row in Rows(r.bundle)
                     && row.identity.Valid() && row.identity.sender == id.sender
      ensures !IsProtected(row, r.policy) && row.identity.incarnation == id.incarnation
    {
      PrefixMember(SynthesisOf(r).intent.penalized, Gather(cs, r.policy.bounds.maxPenalizedSenders).identities, id);
      var k :| k in cs && k.mitigable && k.identity == id;
      MitigableIsSafe(Rows(r.bundle), g, k, row);
    }
  }

  /** The contributions of a classification are the ranking over its own collisions. */
  lemma ContributionsAreRanked(r: SynthesisRequest, c: Context)
    requires |r.policy.authority.requiredClasses| == CLASSES
    requires r.classification == ClassifyWindow(r.bundle, r.policy, Collided(Rows(r.bundle)), c)
    ensures var m, s := r.classification.metrics, r.classification.synchronization;
      && m.collisions == Collided(Rows(r.bundle)) && m.aggregateOffered == MetricsOf(r.bundle, r.policy).aggregateOffered
      && m.protectedOffered == MetricsOf(r.bundle, r.policy).protectedOffered
      && (r.classification.contributions == [] || r.classification.contributions == Ranked(Rows(r.bundle), SettingOf(r.policy, m, s)))
  {
    hide SynchronizationOf, TallyOf, Collided, Ranked, Instantaneous, Effective, SeverityOf, RatioBp, Worst;
  }

  lemma PlanPenalizesPool(r: SynthesisRequest, required: u64)
    requires PlanOf(r, required).Some?
    ensures var plan, pool := PlanOf(r, required).value,
        Gather(r.classification.contributions, r.policy.bounds.maxPenalizedSenders);
      (plan.penalized == [] && plan.affected == []) || (plan.penalized == pool.identities && plan.affected == pool.classes)
  {
    hide Gather, ClampBp, ApplyBp, NeededBp;
  }

  lemma FreshPenalizesPool(r: SynthesisRequest)
    requires IsIncident(r.classification.kind) && SynthesisOf(r).authorized
    ensures SynthesisOf(r).intent.penalized == []
         || SynthesisOf(r).intent.penalized <= Gather(r.classification.contributions, r.policy.bounds.maxPenalizedSenders).identities
    ensures SynthesisOf(r).intent.affected == []
         || SynthesisOf(r).intent.affected == Gather(r.classification.contributions, r.policy.bounds.maxPenalizedSenders).classes
  {
    hide Gather, Base, PlanOf, PlannedDuration, Headroom, RequiredReduction, ClampedDuration;
    PlanPenalizesPool(r, RequiredReduction(r.classification, r.policy));
  }

  // ----- The least reduction -----

  lemma Covers(offer: nat, x: nat, required: nat)
    requires offer > 0
    ensures offer * x / 10_000 >= required <==> x >= required * 10_000 / offer + (if required * 10_000 % offer != 0 then 1 else 0)
  {
    var scaled := required * 10_000;
    var q, m := scaled / offer, scaled % offer;
    assert scaled == q * offer + m;
    assert offer * x / 10_000 >= required <==> offer * x >= scaled;
    if x <= q {
      assert offer * x <= offer * q by { Scale(x, q, offer); }
    } else {
      assert offer * (q + 1) <= offer * x by { Scale(q + 1, x, offer); }
      assert offer * (q + 1) == q * offer + offer;
    }
  }

  lemma Scale(a: nat, b: nat, k: nat)
    requires a <= b
    ensures k * a <= k * b
  {}

  lemma Unsaturated(a: u64, b: u64)
    requires a as int * b as int <= MAX_U64
    ensures SaturatingMul(a, b) == a as int * b as int
  {
    if a != 0 && b != 0 && a as int > MAX_U64 / b as int {
      Scale(MAX_U64 / b as int + 1, a as int, b as int);
      assert b as int * (MAX_U64 / b as int + 1) > MAX_U64;
    }
  }

  /** LEAST REDUCTION.  Without saturation the sender-scoped reduction is the least value in the policy's range whose
      floored effect covers what is required, or the maximum when none does. */
  lemma LeastReduction(required: u64, offer: u64, low: u32, high: u32)
    requires required > 0 && offer > 0 && low <= high
    requires required as int * 10_000 <= MAX_U64 && offer as int * high as int <= MAX_U64
    ensures var bp := ClampBp(NeededBp(required, offer), low, high);
      && low <= bp <= high
      && (forall x: u32 | low <= x < bp :: ApplyBp(offer, x) < required)
      && (ApplyBp(offer, bp) < required <==> NeededBp(required, offer) > high)
      && (NeededBp(required, offer) > high ==> bp == high)
  {
    Unsaturated(required, 10_000);
    var bp := ClampBp(NeededBp(required, offer), low, high);
    forall x: u32 | low <= x <= high ensures ApplyBp(offer, x) >= required <==> x as int >= NeededBp(required, offer) {
      Scale(x as int, high as int, offer as int);
      Unsaturated(offer, x);
      Covers(offer, x as int, required);
    }
  }

  // ----- What protected traffic keeps -----

  /** The demand of the usable rows, and of the protected ones among them, without saturation. */
  function Demand(rows: seq<Sender>): nat
    decreases |rows|
  {
    if rows == [] then 0
    else Demand(rows[..|rows| - 1]) + if rows[|rows| - 1].identity.Valid() then rows[|rows| - 1].offeredRate else 0
  }

  function Shielded(rows: seq<Sender>, p: Policy): nat
    decreases |rows|
  {
    if rows == [] then 0
    else
      var last := rows[|rows| - 1];
      Shielded(rows[..|rows| - 1], p) + if last.identity.Valid() && IsProtected(last, p) then last.offeredRate else 0
  }

  lemma {:induction false} TallyIsExact(rows: seq<Sender>, p: Policy)
    requires Demand(rows) <= MAX_U64
    ensures TallyOf(p, rows).offered == Demand(rows) && TallyOf(p, rows).protectedOffered == Shielded(rows, p)
    ensures Shielded(rows, p) <= Demand(rows)
    decreases |rows|
  {
    hide IsProtected;
    if rows != [] { TallyIsExact(rows[..|rows| - 1], p); }
  }

  function Weighed(n: nat, c: Contribution): nat { n + if c.mitigable then c.offeredRate else 0 }

  function Weigh(): (nat, Contribution) -> nat { (n, c) => Weighed(n, c) }

  lemma WeighCommutes()
    ensures Commutes<Contribution, nat>(Weigh())
  {}

  lemma {:induction false} GatherIsLight(cs: seq<Contribution>, limit: nat)
    ensures Gather(cs, limit).offer <= Fold<Contribution, nat>(Weigh(), 0, cs)
    decreases |cs|
  {
    if cs != [] { GatherIsLight(cs[..|cs| - 1], limit); }
  }

  lemma {:induction false} FirstsAreLight(rows: seq<Sender>, g: Setting)
    ensures Fold<Contribution, nat>(Weigh(), 0, Contributors(Firsts(rows), g)) + Shielded(rows, g.policy) <= Demand(rows)
    decreases |rows|
  {
    hide Key, SeenIn, IsProtected, RatioBp;
    if rows != [] {
      var front, last := rows[..|rows| - 1], rows[|rows| - 1];
      FirstsAreLight(front, g);
      assert rows == front + [last];
      FirstsStep(front, last);
      ContributorsStep(Firsts(front), last, g);
      FoldStep(Contributors(Firsts(front), g), Contribute(last, g));
    } else {
      FirstsStep([], NO_SENDER);
      ContributorsStep([], NO_SENDER, g);
    }
  }

  lemma FoldStep(cs: seq<Contribution>, c: Contribution)
    ensures Fold<Contribution, nat>(Weigh(), 0, cs + [c]) == Weighed(Fold<Contribution, nat>(Weigh(), 0, cs), c)
  {
    assert (cs + [c])[..|cs|] == cs;
  }

  /** The penalized pool and the protected demand fit into the demand of the window together. */
  lemma PoolLeavesProtected(r: SynthesisRequest, c: Context)
    requires |r.policy.authority.requiredClasses| == CLASSES && Demand(Rows(r.bundle)) <= MAX_U64
    requires r.classification == ClassifyWindow(r.bundle, r.policy, Collided(Rows(r.bundle)), c)
    ensures PoolOf(r).offer as int + r.classification.metrics.protectedOffered as int <= r.classification.metrics.aggregateOffered
  {
    hide ClassifyWindow, Fold, Contributors, Firsts, Demand, Shielded, Gather, Sorted, Commutes, TallyOf;
    var rows, cs := Rows(r.bundle), r.classification.contributions;
    var g := SettingOf(r.policy, r.classification.metrics, r.classification.synchronization);
    ContributionsAreRanked(r, c);
    TallyIsExact(rows, r.policy);
    MetricsOffers(r.bundle, r.policy);
    GatherIsLight(cs, r.policy.bounds.maxPenalizedSenders);
    if cs == [] {
      NothingGathered();
    } else {
      WeighCommutes();
      FoldForgetsOrder<Contribution, nat>(Weigh(), 0, Ranked(rows, g), Contributors(Firsts(rows), g));
      FirstsAreLight(rows, g);
    }
  }

  lemma NothingGathered()
    ensures Fold<Contribution, nat>(Weigh(), 0, []) == 0
  {}

  lemma MetricsOffers(b: Bundle, p: Policy)
    ensures MetricsOf(b, p).aggregateOffered == TallyOf(p, Rows(b)).offered
    ensures MetricsOf(b, p).protectedOffered == TallyOf(p, Rows(b)).protectedOffered
  {
    hide TallyOf, Worst, Collided, RatioBp;
  }

  lemma ApplyIsAtMost(amount: u64, bp: u32)
    requires bp <= 10_000
    ensures ApplyBp(amount, bp) <= amount
  {
    if amount as int * bp as int <= MAX_U64 {
      Unsaturated(amount, bp);
      Scale(bp as int, 10_000, amount as int);
    } else {
      Scale(bp as int, 10_000, amount as int);
      assert MAX_U64 / 10_000 <= amount as int;
    }
  }

  predicate SenderScoped(r: SynthesisRequest) {
    IsIncident(r.classification.kind) && RequiredReduction(r.classification, r.policy) > 0
    && SenderScopeAllowed(r) && PoolOf(r).offer > 0
  }

  /** SENDER-SCOPED SYNTHESIS.  Without saturation: the reduction is the least one in range that covers the required
      reduction, the intent is insufficient exactly when the ceiling of the need exceeds the policy's maximum, and what
      remains offered is never below the protected demand. */
  lemma SenderScopedIsLeast(r: SynthesisRequest, c: Context)
    requires r.policy.BoundsValid() && |r.policy.authority.requiredClasses| == CLASSES
    requires r.classification == ClassifyWindow(r.bundle, r.policy, Collided(Rows(r.bundle)), c)
    requires SenderScoped(r) && SynthesisOf(r).authorized && Demand(Rows(r.bundle)) <= MAX_U64
    requires RequiredReduction(r.classification, r.policy) as int * 10_000 <= MAX_U64
    requires PoolOf(r).offer as int * r.policy.bounds.maxReductionBp as int <= MAX_U64
    ensures var i, b, offer, required :=
        SynthesisOf(r).intent, r.policy.bounds, PoolOf(r).offer, RequiredReduction(r.classification, r.policy);
      && b.minReductionBp <= i.reductionBp <= b.maxReductionBp
      && (forall x: u32 | b.minReductionBp <= x < i.reductionBp :: ApplyBp(offer, x) < required)
      && (i.insufficient <==> NeededBp(required, offer) > b.maxReductionBp)
      && (i.insufficient ==> i.reductionBp == b.maxReductionBp)
      && (!i.insufficient ==> ApplyBp(offer, i.reductionBp) >= required)
      && i.achievableReduction == ApplyBp(offer, i.reductionBp)
      && i.resultingOffered >= i.protectedOffered
  {
    hide ClassifyWindow, PoolOf, RequiredReduction, NeededBp, ApplyBp, ClampBp;
    var offer, required := PoolOf(r).offer, RequiredReduction(r.classification, r.policy);
    var b := r.policy.bounds;
    LeastReduction(required, offer, b.minReductionBp, b.maxReductionBp);
    var bp := ClampBp(NeededBp(required, offer), b.minReductionBp, b.maxReductionBp);
    SenderScopedFields(r, bp);
    ApplyIsAtMost(offer, bp);
    PoolLeavesProtected(r, c);
  }

  lemma SenderScopedFields(r: SynthesisRequest, bp: u32)
    requires SenderScoped(r) && SynthesisOf(r).authorized && r.policy.BoundsValid()
    requires bp == ClampBp(NeededBp(RequiredReduction(r.classification, r.policy), PoolOf(r).offer),
                           r.policy.bounds.minReductionBp, r.policy.bounds.maxReductionBp)
    requires bp <= r.policy.bounds.maxReductionBp
    ensures var i, m := SynthesisOf(r).intent, r.classification.metrics;
      && i.reductionBp == bp && i.achievableReduction == ApplyBp(PoolOf(r).offer, bp)
      && (i.insufficient <==> RequiredReduction(r.classification, r.policy) > i.achievableReduction)
      && i.protectedOffered == m.protectedOffered
      && i.resultingOffered == (if m.aggregateOffered >= i.achievableReduction then m.aggregateOffered - i.achievableReduction else 0)
  {
    hide PoolOf, RequiredReduction, NeededBp, ApplyBp, ClampBp, PlannedDuration, Headroom;
  }

  // ----- Destination scope and duration -----

  predicate DestinationScoped(r: SynthesisRequest) {
    IsIncident(r.classification.kind) && RequiredReduction(r.classification, r.policy) > 0
    && !(SenderScopeAllowed(r) && PoolOf(r).offer > 0)
  }

  /** The protected floor: the policy's, or else the one of the evidence. */
  function Floor(r: SynthesisRequest): u64 {
    if r.policy.protection.protectedFloorRate != 0 then r.policy.protection.protectedFloorRate
    else r.bundle.capacity.protectedFloorRate
  }

  lemma DestinationScopedFields(r: SynthesisRequest)
    requires DestinationScoped(r) && SynthesisOf(r).authorized && r.policy.BoundsValid()
    ensures var i, m, p := SynthesisOf(r).intent, r.classification.metrics,
        AdmissionPlan(r, RequiredReduction(r.classification, r.policy));
      && i.admissionReductionBp == p.admissionBp && i.achievableReduction == p.achievable && i.penalized == []
      && i.protectedOffered == m.protectedOffered && i.protectedFloor == Floor(r)
      && (i.escalating <==> RequiredReduction(r.classification, r.policy) > p.achievable)
      && i.resultingOffered == (if m.aggregateOffered >= p.achievable then m.aggregateOffered - p.achievable else 0)
  {
    hide PoolOf, RequiredReduction, ApplyBp, PlannedDuration, Headroom;
  }

  lemma Undershoots(total: nat, x: nat, scaled: nat)
    requires total > 0
    ensures x <= scaled / total <==> total * x <= scaled
  {
    var q := scaled / total;
    if x <= q { Scale(x, q, total); } else { Scale(q + 1, x, total); }
  }

  /** A reduction by x basis points of the total removes more than is required. */
  predicate Overshoots(total: nat, x: nat, required: nat) { total * x > required * 10_000 }

  /** DESTINATION-SCOPED SYNTHESIS.  The admission reduction penalizes nobody by name, and within the policy's range it is
      the greatest one that removes no more than is required, or the least of the range when every one removes more. */
  lemma AdmissionDoesNotOvershoot(r: SynthesisRequest)
    requires r.policy.BoundsValid() && DestinationScoped(r) && SynthesisOf(r).authorized
    requires RequiredReduction(r.classification, r.policy) as int * 10_000 <= MAX_U64
    ensures var i, b, total, required := SynthesisOf(r).intent, r.policy.bounds, r.classification.metrics.aggregateOffered as int,
        RequiredReduction(r.classification, r.policy) as int;
      var low := Min(b.minReductionBp, b.maxAdmissionReductionBp);
      && i.penalized == [] && low <= i.admissionReductionBp <= b.maxAdmissionReductionBp
      && (i.admissionReductionBp > low ==> !Overshoots(total, i.admissionReductionBp, required))
      && (forall x: nat | i.admissionReductionBp < x <= b.maxAdmissionReductionBp :: Overshoots(total, x, required))
  {
    hide RequiredReduction, SynthesisOf, ApplyBp;
    var required, total := RequiredReduction(r.classification, r.policy), r.classification.metrics.aggregateOffered;
    DestinationScopedFields(r);
    Unsaturated(required, 10_000);
    RequiredIsOffered(r);
    var bp := SynthesisOf(r).intent.admissionReductionBp;
    Undershoots(total, bp, required as int * 10_000);
    forall x: nat | bp < x <= r.policy.bounds.maxAdmissionReductionBp ensures Overshoots(total, x, required) {
      Undershoots(total, x, required as int * 10_000);
    }
  }

  lemma RequiredIsOffered(r: SynthesisRequest)
    requires RequiredReduction(r.classification, r.policy) > 0
    ensures r.classification.metrics.aggregateOffered > 0
  {
    hide ApplyBp;
  }

  lemma {:induction false} ProtectedIsOffered(p: Policy, rows: seq<Sender>)
    ensures TallyOf(p, rows).protectedOffered <= TallyOf(p, rows).offered
    decreases |rows|
  {
    hide IsProtected;
    if rows != [] { ProtectedIsOffered(p, rows[..|rows| - 1]); }
  }

  /** A destination-scoped reduction spares no one.  What remains offered stays at or above the protected demand exactly
      when the reduction by the planned basis points fits into the demand that is not protected, and at or above the
      protected floor exactly when it fits into the demand beyond the floor. */
  lemma AdmissionKeepsProtectedExactlyWhen(r: SynthesisRequest, c: Context)
    requires r.policy.BoundsValid() && |r.policy.authority.requiredClasses| == CLASSES
    requires r.classification == ClassifyWindow(r.bundle, r.policy, Collided(Rows(r.bundle)), c)
    requires DestinationScoped(r) && SynthesisOf(r).authorized
    ensures var i, m := SynthesisOf(r).intent, r.classification.metrics;
      var planned := AdmissionPlan(r, RequiredReduction(r.classification, r.policy)).admissionBp;
      && (i.resultingOffered >= i.protectedOffered
          <==> ApplyBp(m.aggregateOffered, planned) as int + m.protectedOffered as int <= m.aggregateOffered)
      && (i.resultingOffered >= i.protectedFloor
          <==> ApplyBp(m.aggregateOffered, planned) as int + Floor(r) as int <= m.aggregateOffered)
  {
    hide SynthesisOf, RequiredReduction, ApplyBp, ClassifyWindow, DestinationScoped, TallyOf, ClampBp;
    var planned := AdmissionPlan(r, RequiredReduction(r.classification, r.policy)).admissionBp;
    DestinationScopedFields(r);
    AdmissionBpIsSmall(r, RequiredReduction(r.classification, r.policy));
    ApplyIsAtMost(r.classification.metrics.aggregateOffered, planned);
    ClassifiedMetrics(r.bundle, r.policy, c);
    MetricsOffers(r.bundle, r.policy);
    ProtectedIsOffered(r.policy, Rows(r.bundle));
  }

  lemma AdmissionBpIsSmall(r: SynthesisRequest, required: u64)
    requires r.policy.BoundsValid()
    ensures AdmissionPlan(r, required).admissionBp <= 10_000
  {}

  /** A more severe window asks for a longer intervention, from the policy's minimum at none to its maximum at critical. */
  lemma DurationFollowsSeverity(r: SynthesisRequest, t: SynthesisRequest)
    requires r.policy.BoundsValid() && t.policy == r.policy
    ensures r.policy.bounds.minDuration <= PlannedDuration(r) <= r.policy.bounds.maxDuration
    ensures r.classification.severity == NoSeverity ==> PlannedDuration(r) == r.policy.bounds.minDuration
    ensures r.classification.severity == Critical ==> PlannedDuration(r) == r.policy.bounds.maxDuration
    ensures SeverityRank(r.classification.severity) <= SeverityRank(t.classification.severity) ==>
      PlannedDuration(r) <= PlannedDuration(t)
  {
    var span := r.policy.bounds.maxDuration - r.policy.bounds.minDuration;
    var a, b := SeverityWeight(r.classification.severity), SeverityWeight(t.classification.severity);
    if a <= b { Scale(a, b, span); }
    Scale(a, 4, span);
  }

  // ----- Recovery ends -----

  /** The reduction after one recovery step under the policy's own step size; 0 when the intervention is retired. */
  function NextReduction(reduction: nat, b: Bounds): nat {
    var step := Max(b.minReductionBp, reduction / 4);
    if RetiresNow(reduction, step, b) then 0 else Min(reduction - step, b.maxReductionBp)
  }

  predicate Recovers(r: SynthesisRequest, p: Policy) {
    r.policy == p && p.enabled && p.recovery.enabled && r.checked == NoRefusal && r.classification.kind == Recovery
    && r.stepBp == 0
  }

  /** One recovery step strictly lowers an active reduction, and keeps it at the minimum or more, or retires. */
  lemma RecoveryLowers(r: SynthesisRequest, p: Policy, prior: MitigationIntent)
    requires p.BoundsValid() && Recovers(r, p) && r.prior == Some(prior) && prior.IsActive()
    ensures var s := SynthesisOf(r);
      && s.authorized && s.intent.reductionBp == NextReduction(prior.reductionBp, p.bounds)
      && (s.intent.IsActive() <==> NextReduction(prior.reductionBp, p.bounds) > 0)
      && (s.intent.IsActive() ==> p.bounds.minReductionBp <= s.intent.reductionBp < prior.reductionBp)
  {
    hide Base;
  }

  /** How many recovery steps it takes to retire an intervention. */
  function Steps(reduction: nat, b: Bounds): nat
    requires 0 < b.minReductionBp <= b.maxReductionBp
    decreases reduction
  {
    if NextReduction(reduction, b) == 0 then 1 else 1 + Steps(NextReduction(reduction, b), b)
  }

  lemma NextIsLower(reduction: nat, b: Bounds)
    requires 0 < b.minReductionBp <= b.maxReductionBp && NextReduction(reduction, b) > 0
    ensures b.minReductionBp <= NextReduction(reduction, b) <= reduction - b.minReductionBp
    ensures 4 * NextReduction(reduction, b) <= 3 * reduction + 3
  {}

  lemma Monotone(a: nat, b: nat, d: nat)
    requires d > 0 && a <= b
    ensures a / d <= b / d
  {
    if a / d > b / d { Scale(b / d + 1, a / d, d); }
  }

  lemma Quotient(small: nat, large: nat, d: nat)
    requires 0 < d <= small && small + d <= large
    ensures 1 <= small / d && small / d + 1 <= large / d
  {
    if large / d < small / d + 1 { Scale(large / d, small / d, d); }
  }

  /** Recovery is linear at worst ... */
  lemma {:induction false} RecoveryIsLinear(reduction: nat, b: Bounds)
    requires 0 < b.minReductionBp <= b.maxReductionBp
    ensures Steps(reduction, b) <= Max(1, reduction / b.minReductionBp)
    decreases reduction
  {
    hide NextReduction;
    var next := NextReduction(reduction, b);
    if next > 0 {
      NextIsLower(reduction, b);
      RecoveryIsLinear(next, b);
      Quotient(next, reduction, b.minReductionBp);
    }
  }

  function Power(base: nat, n: nat): nat { if n == 0 then 1 else base * Power(base, n - 1) }

  /** ... and logarithmic in fact: while the reduction is at least four times the minimum, each step takes a quarter. */
  lemma {:induction false} RecoveryIsLogarithmic(reduction: nat, b: Bounds, k: nat)
    requires 0 < b.minReductionBp <= b.maxReductionBp
    requires (reduction - 3) * Power(3, k) < (4 * b.minReductionBp - 3) * Power(4, k)
    ensures Steps(reduction, b) <= k + 3
    decreases k
  {
    hide NextReduction;
    var next := NextReduction(reduction, b);
    if reduction < 4 * b.minReductionBp {
      RecoveryIsLinear(reduction, b);
      Monotone(reduction, 4 * b.minReductionBp - 1, b.minReductionBp);
      assert (4 * b.minReductionBp - 1) / b.minReductionBp == 3 by { ThreeTimes(b.minReductionBp); }
    } else if next > 0 {
      NextIsLower(reduction, b);
      QuarterStep(reduction as int - 3, next as int - 3, 4 * b.minReductionBp as int - 3, k);
      RecoveryIsLogarithmic(next, b, k - 1);
    }
  }

  lemma ThreeTimes(d: nat)
    requires d > 0
    ensures (4 * d - 1) / d == 3
  {
    assert 4 * d - 1 == 3 * d + (d - 1);
  }

  lemma QuarterStep(a: int, c: int, m: int, k: nat)
    requires k > 0 || a >= m
    requires a * Power(3, k) < m * Power(4, k) && 4 * c <= 3 * a
    ensures k > 0 && c * Power(3, k - 1) < m * Power(4, k - 1)
  {
    if k > 0 {
      var x, y := Power(3, k - 1), Power(4, k - 1);
      assert a * (3 * x) < m * (4 * y);
      assert 4 * (c * x) == (4 * c) * x <= (3 * a) * x == a * (3 * x) by { ScaleInt(4 * c, 3 * a, x); }
      assert m * (4 * y) == 4 * (m * y);
    }
  }

  lemma ScaleInt(a: int, b: int, k: nat)
    requires a <= b
    ensures a * k <= b * k
  {}

  /** The intent after a series of recovery windows under one policy. */
  function Recovering(prior: MitigationIntent, requests: seq<SynthesisRequest>): MitigationIntent
    decreases |requests|
  {
    if requests == [] then prior
    else
      var next := if prior.IsActive() then SynthesisOf(requests[0].(prior := Some(prior))).intent else prior;
      Recovering(next, requests[1..])
  }

  /** RECOVERY ENDS.  Under a fixed valid policy an intervention is retired by its last recovery step and not before. */
  lemma {:induction false} RecoveryRetires(prior: MitigationIntent, requests: seq<SynthesisRequest>, p: Policy)
    requires p.BoundsValid() && prior.IsActive() && forall r | r in requests :: Recovers(r, p)
    ensures Recovering(prior, requests).IsActive() <==> |requests| < Steps(prior.reductionBp, p.bounds)
    decreases |requests|
  {
    hide SynthesisOf, NextReduction;
    if requests != [] {
      var r := requests[0].(prior := Some(prior));
      assert requests[0] in requests;
      assert Recovers(r, p);
      RecoveryLowers(r, p, prior);
      var next := SynthesisOf(r).intent;
      if next.IsActive() {
        RecoveryRetires(next, requests[1..], p);
      } else {
        StaysRetired(next, requests[1..]);
      }
    }
  }

  lemma {:induction false} StaysRetired(prior: MitigationIntent, requests: seq<SynthesisRequest>)
    requires !prior.IsActive()
    ensures Recovering(prior, requests) == prior
    decreases |requests|
  {
    if requests != [] { StaysRetired(prior, requests[1..]); }
  }
}
