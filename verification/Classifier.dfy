/** Classification of a window: what it shows by itself, held back by what the previous windows showed. */
module Classifier {
  import opened Model
  import opened Collisions
  import opened Detect
  import opened Authority
  import opened Ranking

  datatype Context = Context(prior: IncidentKind, incidentStreak: nat, cleanStreak: nat)

  datatype Classification = Classification(
    kind: IncidentKind, instantaneous: IncidentKind, severity: Severity, authoritative: bool, held: bool,
    refusal: RefusalReason, metrics: Metrics, synchronization: Synchronization, contributions: seq<Contribution>)

  function KindRank(k: IncidentKind): int {
    match k
    case UnknownKind => -1
    case NoFanIn => 0
    case OrdinaryManyToOne => 1
    case Recovery => 2
    case SynchronizedIncastRisk => 3
    case ActiveIncast => 4
  }

  function Instantaneous(m: Metrics, s: Synchronization, p: Policy): (k: IncidentKind)
    ensures k != UnknownKind && k != Recovery
  {
    if m.activeSenders < p.synchronization.manyToOneMinSenders then NoFanIn
    else if !s.synchronized then OrdinaryManyToOne
    else if m.oversubscriptionBp >= p.pressure.collapseOversubscriptionBp
            || m.queuePressureBp >= p.pressure.activeQueuePressureBp
            || m.dropEvents >= p.pressure.dropEventsForActive then ActiveIncast
    else if m.oversubscriptionBp >= p.pressure.riskOversubscriptionBp then SynchronizedIncastRisk
    else OrdinaryManyToOne
  }

  function SeverityOf(k: IncidentKind, m: Metrics, p: Policy): Severity {
    match k
    case UnknownKind => NoSeverity
    case NoFanIn => NoSeverity
    case OrdinaryManyToOne => Advisory
    case Recovery => Advisory
    case SynchronizedIncastRisk => if m.oversubscriptionBp >= p.pressure.collapseOversubscriptionBp then Severe else Elevated
    case ActiveIncast =>
      if m.dropEvents >= p.pressure.dropEventsForActive
         || m.oversubscriptionBp >= p.pressure.collapseOversubscriptionBp
         || m.queuePressureBp >= 9500 then Critical else Severe
  }

  /** The kind after hysteresis, and whether a de-escalation was held back or stepped down. */
  function Effective(now: IncidentKind, c: Context, minDwell: nat): (IncidentKind, bool) {
    if !(KindRank(c.prior) > KindRank(now) && KindRank(c.prior) > 0) then (now, false)
    else if c.cleanStreak + 1 < minDwell then (c.prior, true)
    else if c.prior == ActiveIncast && KindRank(now) < KindRank(Recovery) then (Recovery, true)
    else (now, false)
  }

  /** The metrics once the collisions found by the caller have been put in. */
  function WithCollisions(m: Metrics, collisions: seq<Collision>): Metrics {
    var known := if collisions != [] then collisions else m.collisions;
    m.(collisions := known, collidedSenders := |known|)
  }

  function SettingOf(p: Policy, m: Metrics, s: Synchronization): Setting {
    Setting(p, m, s, CollidedSenders(m.collisions))
  }

  function ClassifyWindow(b: Bundle, p: Policy, collisions: seq<Collision>, c: Context): Classification
    requires |p.authority.requiredClasses| == CLASSES
  {
    var base := MetricsOf(b, p);
    var s := SynchronizationOf(b, base, p);
    var standalone := Check(b, p, NO_SEQUENCES);
    if standalone.reason != NoRefusal then
      Classification(UnknownKind, UnknownKind, NoSeverity, false, false, standalone.reason, base, s, [])
    else
      var m := WithCollisions(base, collisions);
      var now := Instantaneous(m, s, p);
      var (kind, held) := Effective(now, c, p.hysteresis.minDwellWindows);
      Classification(kind, now, SeverityOf(kind, m, p), true, held, NoRefusal, m, s, Ranked(Rows(b), SettingOf(p, m, s)))
  }

  method Classify(b: Bundle, p: Policy, collisions: seq<Collision>, c: Context) returns (r: Classification)
    requires |p.authority.requiredClasses| == CLASSES
    ensures r == ClassifyWindow(b, p, collisions, c)
  {
    hide MetricsOf, SynchronizationOf, Check, Instantaneous, SeverityOf, Ranked;
    var metrics := ComputeMetrics(b, p);
    var synchronization := ComputeSynchronization(b, metrics, p);
    var standalone := CheckAuthority(b, p, NO_SEQUENCES);
    if standalone.reason != NoRefusal {
      return Classification(UnknownKind, UnknownKind, NoSeverity, false, false, standalone.reason, metrics, synchronization, []);
    }
    if collisions != [] { metrics := metrics.(collisions := collisions); }
    metrics := metrics.(collidedSenders := |metrics.collisions|);
    var instantaneous := Instantaneous(metrics, synchronization, p);
    var effective, held := instantaneous, false;
    var prior, current := KindRank(c.prior), KindRank(instantaneous);
    if prior > current && prior > 0 {
      var dwellMet := c.cleanStreak + 1 >= p.hysteresis.minDwellWindows;
      if !dwellMet {
        effective, held := c.prior, true;
      } else if c.prior == ActiveIncast && current < KindRank(Recovery) {
        effective, held := Recovery, true;
      }
    }
    var contributions := RankContributions(Rows(b), SettingOf(p, metrics, synchronization));
    r := Classification(effective, instantaneous, SeverityOf(effective, metrics, p), true, held, NoRefusal,
                        metrics, synchronization, contributions);
  }

  /** HYSTERESIS, one window.  The classification of a window leaves an incident only when enough clean windows
      precede it and it is itself clean, and an active incast is left through recovery or risk, never straight
      to ordinary traffic. */
  lemma DeEscalation(b: Bundle, p: Policy, collisions: seq<Collision>, c: Context)
    requires |p.authority.requiredClasses| == CLASSES && ClassifyWindow(b, p, collisions, c).authoritative
    ensures var r := ClassifyWindow(b, p, collisions, c);
      && r.kind != UnknownKind && KindRank(r.kind) >= KindRank(r.instantaneous)
      && (IsIncident(r.instantaneous) ==> IsIncident(r.kind))
      && (IsIncident(c.prior) && !IsIncident(r.kind) ==>
            !IsIncident(r.instantaneous) && c.cleanStreak + 1 >= p.hysteresis.minDwellWindows)
      && (c.prior == ActiveIncast ==> r.kind != OrdinaryManyToOne && r.kind != NoFanIn)
      && (r.held && IsIncident(r.kind) ==> r.kind == c.prior)
  {
    hide MetricsOf, SynchronizationOf, Check, Instantaneous, SeverityOf, Ranked, WithCollisions;
  }

  /** Escalation is immediate. */
  lemma EscalationIsImmediate(b: Bundle, p: Policy, collisions: seq<Collision>, c: Context)
    requires |p.authority.requiredClasses| == CLASSES && ClassifyWindow(b, p, collisions, c).authoritative
    requires KindRank(ClassifyWindow(b, p, collisions, c).instantaneous) >= KindRank(c.prior)
    ensures var r := ClassifyWindow(b, p, collisions, c); r.kind == r.instantaneous && !r.held
  {
    hide MetricsOf, SynchronizationOf, Check, Instantaneous, SeverityOf, Ranked, WithCollisions;
  }

  /** More pressure in every measure never lowers what a window shows, nor how severe its incident is. */
  lemma PressureOnlyEscalates(m: Metrics, n: Metrics, s: Synchronization, p: Policy)
    requires p.Valid() && n.activeSenders == m.activeSenders && n.oversubscriptionBp >= m.oversubscriptionBp
    requires n.queuePressureBp >= m.queuePressureBp && n.dropEvents >= m.dropEvents
    ensures KindRank(Instantaneous(n, s, p)) >= KindRank(Instantaneous(m, s, p))
    ensures SeverityRank(SeverityOf(Instantaneous(n, s, p), n, p)) >= SeverityRank(SeverityOf(Instantaneous(m, s, p), m, p))
  {}

  function SeverityRank(s: Severity): nat {
    match s
    case NoSeverity => 0
    case Advisory => 1
    case Elevated => 2
    case Severe => 3
    case Critical => 4
  }

  lemma ClassifiedMetrics(b: Bundle, p: Policy, c: Context)
    requires |p.authority.requiredClasses| == CLASSES
    ensures var m, n := ClassifyWindow(b, p, Collided(Rows(b)), c).metrics, MetricsOf(b, p);
      m.aggregateOffered == n.aggregateOffered && m.protectedOffered == n.protectedOffered
  {
    hide MetricsOf, SynchronizationOf, Check, Instantaneous, Effective, SeverityOf, Ranked, Collided;
  }

  /** PROTECTION.  In a window that is classified, the contributions that may be penalized name only senders without any
      protected row exactly when no counted row bypasses a protected row without an incarnation. */
  lemma PenaltiesSpareProtectedExactlyWhen(b: Bundle, p: Policy, c: Context)
    requires |p.authority.requiredClasses| == CLASSES && ClassifyWindow(b, p, Collided(Rows(b)), c).authoritative
    ensures var r, rows := ClassifyWindow(b, p, Collided(Rows(b)), c), Rows(b);
      (forall k, q | k in r.contributions && k.mitigable && q in rows && q.identity.sender == k.identity.sender ::
         !IsProtected(q, p))
      <==> !(exists own, q | own in Firsts(rows) && q in rows :: Bypasses(own, q, rows, SettingOf(p, r.metrics, r.synchronization)))
  {
    hide MetricsOf, SynchronizationOf, Check, Instantaneous, Effective, SeverityOf, Ranked, Bypasses, Firsts, IsProtected;
    OwnCollisions(b, p);
    var r := ClassifyWindow(b, p, Collided(Rows(b)), c);
    MitigableIsUnshieldedExactlyWhen(Rows(b), SettingOf(p, r.metrics, r.synchronization));
  }

  lemma OwnCollisions(b: Bundle, p: Policy)
    ensures WithCollisions(MetricsOf(b, p), Collided(Rows(b))).collisions == Collided(Rows(b))
  {
    hide TallyOf, Collided, RatioBp, Worst;
  }

  /** PERMUTATION.  With distinct keys, a window classifies the same whatever order its rows come in. */
  lemma ClassificationForgetsOrder(b: Bundle, d: Bundle, p: Policy, c: Context)
    requires d == b.(senders := d.senders) && multiset(b.senders) == multiset(d.senders) && |b.senders| <= MAX_SENDERS
    requires KeysDistinct(b.senders) && |p.authority.requiredClasses| == CLASSES
    ensures ClassifyWindow(d, p, Collided(Rows(d)), c) == ClassifyWindow(b, p, Collided(Rows(b)), c)
  {
    hide MetricsOf, SynchronizationOf, Instantaneous, SeverityOf, Ranked, KeysDistinct, Effective, Collided, Check, SettingOf;
    assert |multiset(b.senders)| == |b.senders| && |multiset(d.senders)| == |d.senders|;
    MetricsForgetOrder(b, d, p);
    CollisionsForgetOrder(d.senders, b.senders);
    CheckForgetsSenders(b, d, p);
    var m := WithCollisions(MetricsOf(b, p), Collided(Rows(b)));
    RankingForgetsOrder(b.senders, d.senders, SettingOf(p, m, SynchronizationOf(b, MetricsOf(b, p), p)));
  }

  lemma CheckForgetsSenders(b: Bundle, d: Bundle, p: Policy)
    requires d == b.(senders := d.senders) && |b.senders| == |d.senders| && |p.authority.requiredClasses| == CLASSES
    ensures Check(d, p, NO_SEQUENCES) == Check(b, p, NO_SEQUENCES)
  {
    hide FirstDenial;
    assert States(d, p, NO_SEQUENCES, CLASSES) == States(b, p, NO_SEQUENCES, CLASSES);
  }
}
