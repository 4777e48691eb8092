/** Concrete windows and runs on which a promise of the program fails. */
module Scenarios {
  import opened Words
  import opened Outcomes
  import opened Model
  import opened Sorting
  import opened Collisions
  import opened Detect
  import opened Ranking
  import opened Authority
  import opened Classifier
  import opened Mitigate
  import opened Mitigation
  import opened Governance
  import opened Safety
  import opened Runs
  import opened Authorities
  import opened Limits
  import opened Dwell
  import opened Relaxation

  // ----- Policies and windows -----

  const AUTHORITY: Binding := Binding(1, 1, 1, 1)

  const EVERY_CLASS: seq<bool> := [true, true, true, true, true, true, true, true]

  /** A policy that requires all evidence, with the given dwell, clean windows before recovery, and greatest reduction. */
  function Rules(dwell: nat, clean: nat, most: u32): Policy {
    Policy(PolicyRef(1, 1), 4, true, SynchronizationPolicy(2, 2, 100, 0, 0),
           PressurePolicy(10_000, 20_000, 9000, 8000, 1000, 0), RecoveryPolicy(true, clean, 0, 9000, 100, 0, false),
           HysteresisPolicy(dwell, 10, 10), ProtectionPolicy(0, Bulk, true, true, true),
           Bounds(100, most, most, 1000, 1000, 1000, 8, 8),
           AuthorityPolicy(EVERY_CLASS, true, true, true, true, 1_000_000))
  }

  predicate Ruled(p: Policy) {
    p == Rules(p.hysteresis.minDwellWindows, p.recovery.requiredCleanWindows, p.bounds.maxReductionBp)
    && p.hysteresis.minDwellWindows > 0 && p.recovery.requiredCleanWindows > 0 && 100 <= p.bounds.maxReductionBp <= 10_000
  }

  lemma RulesAreValid(p: Policy)
    requires Ruled(p)
    ensures p.Valid()
  {}

  /** Two senders within ten nanoseconds of each other, the first of them protected or not; a stray row without an
      incarnation that declares the first sender protected, or none; the rate the destination serves, and the protected floor it declares. */
  datatype Scene = Scene(x: u64, y: u64, shielded: bool, stray: bool, service: u64, floor: u64, truncated: bool, now: nat) {
    predicate Valid() { x as int + y as int <= MAX_U64 && service > 0 && now > 0 }

    function First(): Sender { Sender(SenderIdentity(1, 1, 0), Bulk, shielded, x, 0, 10) }

    function Second(): Sender { Sender(SenderIdentity(2, 1, 0), Bulk, false, y, 0, 20) }

    function Senders(): seq<Sender> { [First(), Second()] + if stray then [STRAY] else [] }

    function Evidence(): Stamp { Stamp(Present, 1, 1, 1, now, 0, now, false) }

    /** All evidence of one window. */
    function Seen(): Bundle {
      var e := Evidence();
      Bundle(Origin(1, 1, 1, 1, 1, 1), 1, 1001, now, e.(truncated := truncated), Senders(), e,
             DestinationCapacity(1, service, 0, 0, floor), e, [], e, e, e, e, e, AUTHORITY, 0)
    }

    function DemandBp(): BasisPoints
      requires Valid()
    {
      RatioBp(x + y, service)
    }

    /** What the window shows by itself under the rules. */
    function Kind(): IncidentKind
      requires Valid()
    {
      if DemandBp() >= 20_000 then ActiveIncast
      else if DemandBp() >= 10_000 then SynchronizedIncastRisk
      else OrdinaryManyToOne
    }
  }

  const STRAY: Sender := Sender(SenderIdentity(1, 0, 0), Bulk, true, 10, 0, 10)

  // ----- What the windows show -----

  lemma EvidenceIsPresent(s: Scene, p: Policy, last: seq<nat>)
    requires s.Valid() && Ruled(p) && |last| == CLASSES && forall i | 0 <= i < CLASSES :: last[i] < s.now
    ensures Check(s.Seen(), p, last).reason == NoRefusal
  {
    hide Check;
    GrantedExactlyWhen(s.Seen(), p, last);
  }

  lemma TallyStep(p: Policy, front: seq<Sender>, last: Sender)
    ensures TallyOf(p, []) == NO_TALLY && TallyOf(p, front + [last]) == Absorb(p, TallyOf(p, front), last)
  {
    assert (front + [last])[..|front|] == front;
  }

  lemma SceneTally(s: Scene, p: Policy)
    requires s.Valid() && Ruled(p)
    ensures TallyOf(p, s.Senders())
         == Tally(s.x + s.y, if s.shielded then s.x else 0, 0, if s.shielded then 1 else 0, 2, true, 10, 20, {})
  {
    hide TallyOf;
    var both := [s.First(), s.Second()];
    TallyStep(p, [], s.First());
    TallyStep(p, [s.First()], s.Second());
    TallyStep(p, both, STRAY);
    assert [] + [s.First()] == [s.First()] && [s.First()] + [s.Second()] == both && both + [] == both;
  }

  lemma AgreeingRows(rows: seq<Sender>)
    requires forall a, b | a in rows && b in rows && a.identity.Valid() && b.identity.Valid() ::
      a.identity.sender == b.identity.sender ==> a == b
    ensures Collided(rows) == [] && forall k :: KindFor(rows, k) == NoCollision
  {
    CollidedReports(rows);
    assert forall k :: KindFor(rows, k) == NoCollision;
    if Collided(rows) != [] {
      var c := Collided(rows)[0];
      assert c in Collided(rows);
      KindIsKept(rows, c.sender);
    }
  }

  lemma NoneCollide(s: Scene)
    ensures Collided(s.Senders()) == [] && forall k :: KindFor(s.Senders(), k) == NoCollision
  {
    hide Collided, KindFor;
    assert forall r | r in s.Senders() :: r == s.First() || r == s.Second() || r == STRAY;
    AgreeingRows(s.Senders());
  }

  lemma SceneMetrics(s: Scene, p: Policy)
    requires s.Valid() && Ruled(p)
    ensures var m := MetricsOf(s.Seen(), p);
      && m.activeSenders == 2 && m.populationSaturated == s.truncated && m.earliestArrival == 10 && m.arrivalSpread == 10
      && m.windowWidth == 1000 && m.aggregateOffered == s.x + s.y && m.protectedOffered == (if s.shielded then s.x else 0)
      && m.serviceRate == s.service && m.oversubscriptionBp == s.DemandBp() && m.queuePressureBp == 0
      && m.dropEvents == 0 && m.collisions == [] && m.collidedSenders == 0
  {
    hide TallyOf, Collided, KindFor, RatioBp;
    SceneTally(s, p);
    NoneCollide(s);
  }

  lemma SceneIsSynchronized(s: Scene, p: Policy)
    requires s.Valid() && Ruled(p)
    ensures var y := SynchronizationOf(s.Seen(), MetricsOf(s.Seen(), p), p);
      y.synchronized && y.syncWindowBound == 100
  {
    hide MetricsOf, EarlyOf, CompressionBp, RatioBp;
    SceneMetrics(s, p);
  }

  function Classified(s: Scene, p: Policy, c: Context): Classification
    requires Ruled(p)
  {
    ClassifyWindow(s.Seen(), p, Collided(Rows(s.Seen())), c)
  }

  /** The window is classified by its demand alone. */
  lemma SceneIsClassified(s: Scene, p: Policy, c: Context)
    requires s.Valid() && Ruled(p)
    ensures var r, b := Classified(s, p, c), s.Seen();
      && r.authoritative && r.refusal == NoRefusal && r.metrics == MetricsOf(b, p)
      && r.synchronization == SynchronizationOf(b, MetricsOf(b, p), p)
      && r.instantaneous == s.Kind() && (r.kind, r.held) == Effective(s.Kind(), c, p.hysteresis.minDwellWindows)
      && r.contributions == Ranked(s.Senders(), SettingOf(p, r.metrics, r.synchronization))
  {
    hide MetricsOf, SynchronizationOf, Check, Effective, SeverityOf, Ranked, RatioBp, Collided, KindFor;
    SceneMetrics(s, p);
    SceneIsSynchronized(s, p);
    NoneCollide(s);
    EvidenceIsPresent(s, p, NO_SEQUENCES);
  }

  // ----- The first window -----

  function Site(p: Policy): Config { Config(p, 1, 1, AUTHORITY, 1_000_000, 16) }

  /** The governor is bound to its destination and has heard nothing as recent as the window. */
  predicate Awaits(g: Gov, s: Scene) {
    && s.Valid() && s.now <= 1_000_000 && g.config == Site(g.config.policy) && Ruled(g.config.policy) && g.accepting
    && g.state.destinationGeneration <= 1 && |g.state.lastSequence| == CLASSES
    && forall i | 0 <= i < CLASSES :: g.state.lastSequence[i] < s.now
  }

  lemma SceneIsAdmitted(g: Gov, s: Scene)
    requires Awaits(g, s)
    ensures Shaped(g) && Admits(g, s.Seen())
  {
    hide Check;
    EvidenceIsPresent(s, g.config.policy, g.state.lastSequence);
    EvidenceIsPresent(s, g.config.policy, NO_SEQUENCES);
  }

  /** A window with demand to remove gets an active intent from a policy that escalates rather than refuses. */
  lemma FreshIsActive(r: SynthesisRequest)
    requires r.checked == NoRefusal && r.policy.enabled && r.policy.protection.escalateInsteadOfViolatingFloor
    requires IsIncident(r.classification.kind) && RequiredReduction(r.classification, r.policy) > 0
    ensures var y := SynthesisOf(r);
      y.authorized && y.intent.IsActive() && y.intent.intervention == r.intervention && y.intent.generation == r.generation
    ensures r.policy.BoundsValid() ==> var y := SynthesisOf(r);
      r.policy.bounds.minDuration <= y.intent.duration <= r.policy.bounds.maxDuration
  {
    hide RequiredReduction, Gather, ApplyBp, NeededBp, PlannedDuration, Headroom, ClampBp, PoolOf;
  }

  lemma DemandIsRemoved(s: Scene, p: Policy, c: Context)
    requires s.Valid() && Ruled(p) && s.DemandBp() >= 10_000 && s.x + s.y > s.service && c.prior == UnknownKind
    ensures Classified(s, p, c).kind == s.Kind()
    ensures IsIncident(s.Kind()) && RequiredReduction(Classified(s, p, c), p) > 0
  {
    hide Classified, MetricsOf, SynchronizationOf, Ranked, ApplyBp, RatioBp;
    SceneIsClassified(s, p, c);
    SceneMetrics(s, p);
  }

  const NOTHING_BEFORE: Context := Context(UnknownKind, 0, 0)

  /** What the first window of a governor asks to be synthesized. */
  function FirstRequest(s: Scene, p: Policy): SynthesisRequest
    requires Ruled(p)
  {
    SynthesisRequest(s.Seen(), p, Classified(s, p, NOTHING_BEFORE), NoRefusal, 1, 1, s.now, None, 0)
  }

  predicate Overloads(s: Scene) { s.Valid() && s.now <= 1_000_000 && s.DemandBp() >= 10_000 && s.x + s.y > s.service }

  lemma StartAwaits(s: Scene, p: Policy)
    requires s.Valid() && s.now <= 1_000_000 && Ruled(p)
    ensures Awaits(Initial(Site(p)), s) && Initial(Site(p)).state.interventions == []
    ensures ContextOf(Initial(Site(p)).state) == NOTHING_BEFORE
  {}

  lemma FirstVerdict(s: Scene, p: Policy)
    requires Overloads(s) && Ruled(p) && Shaped(Initial(Site(p)))
    ensures Verdict(Initial(Site(p)), s.Seen()) == Classified(s, p, NOTHING_BEFORE)
    ensures RequestFor(Initial(Site(p)), s.Seen(), Classified(s, p, NOTHING_BEFORE)) == FirstRequest(s, p)
  {
    hide ClassifyWindow, Collided, Rules;
    StartAwaits(s, p);
  }

  /** An overload in the first window of a governor is answered with the intent synthesized for it. */
  lemma FirstWindowIssues(s: Scene, p: Policy)
    requires Overloads(s) && Ruled(p)
    ensures Shaped(Initial(Site(p)))
    ensures var (g, d) := Evaluate(Initial(Site(p)), s.Seen());
      var y := SynthesisOf(FirstRequest(s, p));
      && d.outcome == InterventionIssued && d.authorized && d.intent == y.intent && y.authorized
      && g.state.interventions == [CreatedRecord(y, s.Seen(), p.ref, s.now)]
  {
    hide Verdict, SynthesisOf, Classified, Rules, Listened, TrimHistory, Check, ContextOf, RequestFor, FirstRequest, Admits;
    StartAwaits(s, p);
    var g := Initial(Site(p));
    SceneIsAdmitted(g, s);
    FirstVerdict(s, p);
    DemandIsRemoved(s, p, NOTHING_BEFORE);
    FirstIsFresh(s, p);
    FreshIsActive(FirstRequest(s, p));
  }

  lemma FirstIsFresh(s: Scene, p: Policy)
    requires Ruled(p)
    ensures var r := FirstRequest(s, p);
      r.policy == p && r.checked == NoRefusal && p.enabled && p.protection.escalateInsteadOfViolatingFloor
      && r.classification == Classified(s, p, NOTHING_BEFORE) && p.BoundsValid() && p.bounds.minDuration == p.bounds.maxDuration == 1000
  {
    hide Classified;
  }

  // ----- A protected row that does not count -----

  lemma {:induction false} FirstRowCounts(rows: seq<Sender>)
    requires rows != [] && rows[0].identity.Valid()
    ensures rows[0] in Firsts(rows)
    decreases |rows|
  {
    hide Key;
    FirstsStep(rows[..|rows| - 1], rows[|rows| - 1]);
    assert rows == rows[..|rows| - 1] + [rows[|rows| - 1]];
    if |rows| > 1 {
      FirstRowCounts(rows[..|rows| - 1]);
    } else {
      NothingSeen();
    }
  }

  lemma {:induction false} FewAreFirst(rows: seq<Sender>)
    ensures |Firsts(rows)| <= |rows|
    decreases |rows|
  {
    hide Key, SeenIn;
    if rows != [] { FewAreFirst(rows[..|rows| - 1]); }
  }

  lemma FewAreRanked(rows: seq<Sender>, g: Setting)
    ensures |Ranked(rows, g)| <= |rows|
  {
    hide ByRate, Sorted, Contribute, Firsts;
    FewAreFirst(rows);
    assert |multiset(Ranked(rows, g))| == |multiset(Contributors(Firsts(rows), g))|;
  }

  /** Below the limit every mitigable contribution is gathered. */
  lemma {:induction false} AllAreGathered(cs: seq<Contribution>, limit: nat, c: Contribution)
    requires |cs| <= limit
    ensures |Gather(cs, limit).identities| <= |cs|
    ensures c in cs && c.mitigable ==> c.identity in Gather(cs, limit).identities && Gather(cs, limit).offer >= c.offeredRate
    decreases |cs|
  {
    if cs != [] {
      AllAreGathered(cs[..|cs| - 1], limit, c);
      assert cs == cs[..|cs| - 1] + [cs[|cs| - 1]];
    }
  }

  lemma FirstSenderIsGathered(s: Scene, p: Policy)
    requires Overloads(s) && Ruled(p) && !s.shielded && s.x > 0 && !s.truncated
    ensures var pool := PoolOf(FirstRequest(s, p));
      s.First().identity in pool.identities && |pool.identities| <= 3 && pool.offer > 0
  {
    hide Firsts, Ranked, Collided, KindFor, Gather, MetricsOf, SynchronizationOf, ClassifyWindow, RatioBp;
    SceneIsClassified(s, p, NOTHING_BEFORE);
    SceneMetrics(s, p);
    SceneIsSynchronized(s, p);
    NoneCollide(s);
    var r := Classified(s, p, NOTHING_BEFORE);
    var g := SettingOf(p, r.metrics, r.synchronization);
    FirstRowCounts(s.Senders());
    CountedRowsAreRanked(s.Senders(), g);
    MitigableRows(s.First(), s.Senders(), g);
    FewAreRanked(s.Senders(), g);
    AllAreGathered(r.contributions, p.bounds.maxPenalizedSenders, Contribute(s.First(), g));
  }

  /** Sender-scoped synthesis names everyone it gathered. */
  lemma GatheredArePenalized(r: SynthesisRequest)
    requires SenderScoped(r) && SynthesisOf(r).authorized && r.checked == NoRefusal && r.policy.enabled
    requires |PoolOf(r).identities| <= r.policy.bounds.maxPenalizedSenders && r.policy.BoundsValid()
    ensures SynthesisOf(r).intent.penalized == PoolOf(r).identities
  {
    hide PoolOf, RequiredReduction, NeededBp, ApplyBp, ClampBp, PlannedDuration, Headroom;
  }

  /** Two usable senders overload the destination; a third row, without an incarnation, declares the first of them
      protected.  The governor issues an intervention that penalizes the first sender by name. */
  lemma ShieldedSenderIsPenalized()
    ensures var s, p := Scene(60, 60, false, true, 100, 0, false, 1), Rules(1, 1, 10_000);
      p.Valid() && STRAY in s.Senders() && IsProtected(STRAY, p) && STRAY.identity.sender == s.First().identity.sender
    ensures var s, p := Scene(60, 60, false, true, 100, 0, false, 1), Rules(1, 1, 10_000);
      Shaped(Initial(Site(p)))
      && var d := Evaluate(Initial(Site(p)), s.Seen()).1;
         d.outcome == InterventionIssued && d.authorized && s.First().identity in d.intent.penalized
  {
    hide Evaluate, Initial, SynthesisOf, PoolOf, Classified;
    var s, p := Scene(60, 60, false, true, 100, 0, false, 1), Rules(1, 1, 10_000);
    RulesAreValid(p);
    FirstWindowIssues(s, p);
    FirstSenderIsGathered(s, p);
    DemandIsRemoved(s, p, NOTHING_BEFORE);
    NotSaturated(s, p);
    GatheredArePenalized(FirstRequest(s, p));
  }

  lemma NotSaturated(s: Scene, p: Policy)
    requires s.Valid() && Ruled(p)
    ensures SenderScopeAllowed(FirstRequest(s, p)) <==> !s.truncated
  {
    hide Classified, MetricsOf;
    SceneIsClassified(s, p, NOTHING_BEFORE);
    SceneMetrics(s, p);
  }

  // ----- Protected demand in a saturated population -----

  /** A truncated window in which a protected sender offers 900 of 1000, the protected floor is 800 and the destination
      serves 500: the governor issues a reduction for the whole destination that leaves 450, half of the protected demand
      and below the floor, and neither escalates nor refuses. */
  lemma ProtectedDemandIsCut()
    ensures var s, p := Scene(900, 100, true, false, 500, 800, true, 1), Rules(1, 1, 10_000);
      p.Valid() && Shaped(Initial(Site(p)))
      && var d := Evaluate(Initial(Site(p)), s.Seen()).1;
         && d.outcome == InterventionIssued && d.authorized && !d.intent.escalating
         && d.intent.protectedOffered == 900 && d.intent.protectedFloor == 800 && d.intent.resultingOffered == 450
  {
    hide Evaluate, Initial, SynthesisOf, PoolOf, Classified, RequiredReduction, ApplyBp;
    var s, p := Scene(900, 100, true, false, 500, 800, true, 1), Rules(1, 1, 10_000);
    RulesAreValid(p);
    FirstWindowIssues(s, p);
    DemandIsRemoved(s, p, NOTHING_BEFORE);
    NotSaturated(s, p);
    var r := FirstRequest(s, p);
    DestinationScopedFields(r);
    MoreThanHalfToRemove(s, p);
  }

  lemma MoreThanHalfToRemove(s: Scene, p: Policy)
    requires s == Scene(900, 100, true, false, 500, 800, true, 1) && p == Rules(1, 1, 10_000)
    ensures var r := FirstRequest(s, p);
      && r.classification.metrics.aggregateOffered == 1000 && r.classification.metrics.protectedOffered == 900
      && RequiredReduction(r.classification, p) == 550 && AdmissionPlan(r, 550).achievable == 550
  {
    hide Classified, MetricsOf;
    SceneIsClassified(s, p, NOTHING_BEFORE);
    SceneMetrics(s, p);
    DemandIsRemoved(s, p, NOTHING_BEFORE);
    assert AdmissionPlan(FirstRequest(s, p), 550).admissionBp == 5500;
  }

  // ----- A second window -----

  /** The governor after the first window. */
  function Answered(s: Scene, p: Policy): Gov
    requires Overloads(s) && Ruled(p)
  {
    FirstWindowIssues(s, p);
    Evaluate(Initial(Site(p)), s.Seen()).0
  }

  lemma AdvancedOnce(s: Scene)
    ensures forall i | 0 <= i < CLASSES :: Advanced(NO_SEQUENCES, s.Seen(), CLASSES)[i] == s.now
  {}

  lemma FirstWindowLeaves(s: Scene, p: Policy)
    requires Overloads(s) && Ruled(p)
    ensures var g := Answered(s, p);
      && g.config == Site(p) && g.accepting && g.state.destinationGeneration == 1
      && |g.state.lastSequence| == CLASSES && (forall i | 0 <= i < CLASSES :: g.state.lastSequence[i] == s.now)
      && ContextOf(g.state).prior == s.Kind() && g.state.cleanStreak == 0 && g.state.policy == p.ref
      && g.state.interventions == [CreatedRecord(SynthesisOf(FirstRequest(s, p)), s.Seen(), p.ref, s.now)]
  {
    hide SynthesisOf, Classified, Rules, Check, RequestFor, FirstRequest, Admits, ClassifyWindow, Collided, Advanced, EffectOf, CreatedRecord;
    FirstWindowIssues(s, p);
    StartAwaits(s, p);
    SceneIsAdmitted(Initial(Site(p)), s);
    FirstVerdict(s, p);
    DemandIsRemoved(s, p, NOTHING_BEFORE);
    SceneIsClassified(s, p, NOTHING_BEFORE);
    AdvancedOnce(s);
  }

  lemma FirstRecord(s: Scene, p: Policy)
    requires Overloads(s) && Ruled(p)
    ensures var r := CreatedRecord(SynthesisOf(FirstRequest(s, p)), s.Seen(), p.ref, s.now);
      && r.Live() && r.state == Active && r.binding == AUTHORITY && r.expiresAt == s.now + 1000
      && r.intent == SynthesisOf(FirstRequest(s, p)).intent
  {
    hide SynthesisOf, Classified;
    FirstIsFresh(s, p);
    DemandIsRemoved(s, p, NOTHING_BEFORE);
    FreshIsActive(FirstRequest(s, p));
    IntentRunsFromNow(FirstRequest(s, p));
  }

  /** A second window within the life of the intervention finds it live and unfenced. */
  lemma SecondWindowRecords(s: Scene, p: Policy, t: Scene, g: Gov)
    requires Overloads(s) && Ruled(p) && t.Valid() && s.now < t.now <= s.now + 1000 && t.now <= 1_000_000
    requires Ruled(g.config.policy) && g == Answered(s, p).(config := Site(g.config.policy))
    ensures Shaped(g) && Records(g, t.Seen()) && HasLive(g.state.interventions) && FirstLive(g.state.interventions) == 0
    ensures g.state.interventions[0].state == Active
         && g.state.interventions[0].intent == SynthesisOf(FirstRequest(s, p)).intent
    ensures Verdict(g, t.Seen()) == AsRecovery(Classified(t, g.config.policy, ContextOf(g.state)), true)
  {
    hide SynthesisOf, Answered, Rules, Admits, CreatedRecord, ClassifyWindow, Collided;
    FirstWindowLeaves(s, p);
    FirstRecord(s, p);
    SceneIsAdmitted(g, t);
    var r := CreatedRecord(SynthesisOf(FirstRequest(s, p)), s.Seen(), p.ref, s.now);
    assert g.state.interventions == [r];
    OnlyOne(r);
  }

  lemma OnlyOne(r: Intervention)
    requires r.Live()
    ensures HasLive([r]) && FirstLive([r]) == 0
  {}

  function FirstRun(s: Scene, p: Policy): Run { Then(Start(Site(p)), Op.Window(s.Seen())) }

  lemma FirstRunArrives(s: Scene, p: Policy)
    requires Overloads(s) && Ruled(p)
    ensures WellFounded(FirstRun(s, p)) && At(FirstRun(s, p)) == Answered(s, p)
  {
    hide Evaluate, Initial, Sound, FirstRequest, SynthesisOf;
    RulesAreValid(p);
    FirstWindowIssues(s, p);
    assert At(Start(Site(p))) == Initial(Site(p));
  }

  // ----- Relaxed too soon -----

  lemma OrdinaryIsRecovery(g: Gov, t: Scene)
    requires Shaped(g) && t.Valid() && Ruled(g.config.policy) && g.config.policy.hysteresis.minDwellWindows == 1
    requires t.Kind() == OrdinaryManyToOne && ContextOf(g.state).prior == SynchronizedIncastRisk
    requires Verdict(g, t.Seen()) == AsRecovery(Classified(t, g.config.policy, ContextOf(g.state)), true)
    ensures var c := Verdict(g, t.Seen());
      c.kind == Recovery && c.metrics.oversubscriptionBp == t.DemandBp() && c.metrics.queuePressureBp == 0
      && c.metrics.dropEvents == 0
  {
    hide Verdict, Classified, Scene.DemandBp, Scene.Kind, MetricsOf, SynchronizationOf;
    SceneIsClassified(t, g.config.policy, ContextOf(g.state));
    SceneMetrics(t, g.config.policy);
  }

  lemma OneIsTooFew(g: Gov, b: Bundle)
    requires Shaped(g) && HasLive(g.state.interventions) && Verdict(g, b).kind == Recovery && g.state.cleanStreak == 0
    requires var m, p := Verdict(g, b).metrics, g.config.policy.recovery;
      p.enabled && m.oversubscriptionBp <= p.relaxOversubscriptionBp && m.queuePressureBp <= p.relaxQueuePressureBp
      && m.dropEvents <= p.maxDropsDuringRecovery && p.requiredCleanWindows > 1
    ensures HoldReason(g.config.policy.recovery, Listened(g, b).recovery, Verdict(g, b).metrics) == NoIncident
  {
    hide Verdict, Listened;
    RecoveryWindowsAreClean(g, b);
    CleanWindowsTrack(g, b);
  }

  /** A risk answered with an intervention and followed by an ordinary window: without a longer dwell the window is a
      recovery, and the criteria hold it back when the policy requires more than one clean window. */
  lemma SecondWindowRelaxes(s: Scene, p: Policy, t: Scene)
    requires Overloads(s) && Ruled(p) && t.Valid() && s.now < t.now <= s.now + 1000 && t.now <= 1_000_000
    requires s.Kind() == SynchronizedIncastRisk && t.Kind() == OrdinaryManyToOne && t.DemandBp() <= 9000
    requires p.hysteresis.minDwellWindows == 1 && p.recovery.requiredCleanWindows > 1
    ensures var r, b := FirstRun(s, p), t.Seen();
      WellFounded(r)
      && var g := At(r);
         && Records(g, b) && HasLive(g.state.interventions) && g.config.policy == p
         && HoldReason(p.recovery, Listened(g, b).recovery, Verdict(g, b).metrics) == NoIncident
         && Relaxes(Evaluate(g, b).1)
  {
    hide Evaluate, Listened, Verdict, At, Answered, Classified, Relaxes, Sound, Records, Scene.DemandBp, Scene.Kind, Scene.Seen,
      CreatedRecord, SynthesisOf, FirstRequest, HoldReason, ContextOf, HasLive;
    FirstRunArrives(s, p);
    var g := At(FirstRun(s, p));
    FirstWindowLeaves(s, p);
    SecondWindowRecords(s, p, t, g);
    OrdinaryIsRecovery(g, t);
    OneIsTooFew(g, t.Seen());
    RelaxesExactlyWhen(g, t.Seen());
  }

  /** An overload is answered with an intervention; the next window is ordinary.  The policy requires five clean windows
      before an intervention is relaxed, and the criteria say so, but the first one relaxes or ends it. */
  lemma OneCleanWindowRelaxes()
    ensures var s, t, p := Scene(60, 60, false, false, 100, 0, false, 1), Scene(10, 10, false, false, 100, 0, false, 2), Rules(1, 5, 10_000);
      WellFounded(FirstRun(s, p)) && p.recovery.requiredCleanWindows == 5
      && var g := At(FirstRun(s, p));
         && Records(g, t.Seen()) && HasLive(g.state.interventions)
         && HoldReason(p.recovery, Listened(g, t.Seen()).recovery, Verdict(g, t.Seen()).metrics) == NoIncident
         && Relaxes(Evaluate(g, t.Seen()).1)
  {
    hide Evaluate, Listened, Verdict, At, Relaxes, Records;
    SecondWindowRelaxes(Scene(60, 60, false, false, 100, 0, false, 1), Rules(1, 5, 10_000), Scene(10, 10, false, false, 100, 0, false, 2));
  }

  // ----- Held outside the bounds -----

  lemma TwentyToRemove(s: Scene, p: Policy, c: Context)
    requires s == Scene(60, 60, false, false, 100, 0, false, 1) && Ruled(p) && Classified(s, p, c).kind == SynchronizedIncastRisk
    ensures RequiredReduction(Classified(s, p, c), p) == 20
  {
    hide Classified, MetricsOf;
    SceneIsClassified(s, p, c);
    SceneMetrics(s, p);
  }

  lemma TwentyOfFew(offer: u64)
    requires 0 < offer <= 120
    ensures ClampBp(NeededBp(20, offer), 100, 10_000) > 1000
  {
    assert 200_000 / offer as int >= 1666;
  }

  /** The first intent takes more than a tenth from the senders it names. */
  lemma FirstIntentIsStrong(s: Scene, p: Policy)
    requires s == Scene(60, 60, false, false, 100, 0, false, 1) && p == Rules(2, 1, 10_000)
    ensures SynthesisOf(FirstRequest(s, p)).intent.reductionBp > 1000
  {
    hide SynthesisOf, PoolOf, Classified, RequiredReduction, ClampBp, NeededBp;
    var r := FirstRequest(s, p);
    FirstIsFresh(s, p);
    FirstSenderIsGathered(s, p);
    DemandIsRemoved(s, p, NOTHING_BEFORE);
    NotSaturated(s, p);
    FreshIsActive(r);
    TwentyToRemove(s, p, NOTHING_BEFORE);
    FirstPoolFits(s, p);
    TwentyOfFew(PoolOf(r).offer);
    var bp := ClampBp(NeededBp(20, PoolOf(r).offer), 100, 10_000);
    AtMostTheTop(NeededBp(20, PoolOf(r).offer), 100, 10_000);
    SenderScopedFields(r, bp);
  }

  lemma AtMostTheTop(value: nat, low: u32, high: u32)
    requires low <= high
    ensures ClampBp(value, low, high) <= high
  {}

  lemma FirstPoolFits(s: Scene, p: Policy)
    requires Overloads(s) && Ruled(p) && !s.shielded && !s.stray
    ensures PoolOf(FirstRequest(s, p)).offer <= s.x + s.y
  {
    hide PoolOf, ClassifyWindow, MetricsOf, TallyOf, Demand;
    assert Demand(Rows(s.Seen())) == s.x + s.y by { PairDemand(s); }
    PoolLeavesProtected(FirstRequest(s, p), NOTHING_BEFORE);
    SceneIsClassified(s, p, NOTHING_BEFORE);
    SceneMetrics(s, p);
  }

  lemma PairDemand(s: Scene)
    requires s.Valid() && !s.stray
    ensures Demand(s.Senders()) == s.x + s.y
  {
    assert s.Senders()[..1] == [s.First()] && s.Senders()[..1][..0] == [];
    assert Demand(s.Senders()[..1]) == s.x;
  }

  /** The run: an overload answered, then a policy of the same id and generation that allows a tenth at most. */
  function TightenedRun(): Run {
    Then(FirstRun(Scene(60, 60, false, false, 100, 0, false, 1), Rules(2, 1, 10_000)), Configure(Rules(2, 1, 1000), 2))
  }

  /** The next window is ordinary but held by hysteresis: it authorizes the intent again, outside the bounds in force. */
  lemma HeldDecisionsMayExceedTheBounds()
    ensures var t := Scene(10, 10, false, false, 100, 0, false, 3);
      WellFounded(TightenedRun())
      && var (g, d) := (At(TightenedRun()), Evaluate(At(TightenedRun()), t.Seen()).1);
         d.outcome == InterventionContinued && d.authorized && g.config.policy == Rules(2, 1, 1000)
         && !Within(d.intent, g.config.policy.bounds)
  {
    hide Evaluate, Verdict, Answered, Classified, Sound, SynthesisOf, LiveFence, Admits;
    var s, t, p, q := Scene(60, 60, false, false, 100, 0, false, 1), Scene(10, 10, false, false, 100, 0, false, 3),
      Rules(2, 1, 10_000), Rules(2, 1, 1000);
    RulesAreValid(q);
    FirstRunArrives(s, p);
    FirstWindowLeaves(s, p);
    var g := At(TightenedRun());
    assert g == Answered(s, p).(config := Site(q));
    SecondWindowRecords(s, p, t, g);
    SceneIsClassified(t, q, ContextOf(g.state));
    HeldWindowsRepeatTheIntent(g, t.Seen());
    FirstIntentIsStrong(s, p);
  }
}
