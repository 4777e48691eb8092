/** What a window shows, in terms of its rows and queues: measures, synchronization, kind and severity. */
module Verdicts {
  import opened Words
  import opened Model
  import opened Sorting
  import Codec
  import opened Collisions
  import opened Detect
  import opened Ranking
  import opened Authority
  import opened Classifier
  import opened Mitigation

  // ----- Counting rows -----

  function IsShielded(p: Policy): Sender -> bool { (r: Sender) => r.identity.Valid() && IsProtected(r, p) }

  /** What the usable rows have outstanding together. */
  function Outstanding(rows: seq<Sender>): nat
    decreases |rows|
  {
    if rows == [] then 0
    else Outstanding(rows[..|rows| - 1]) + if rows[|rows| - 1].identity.Valid() then rows[|rows| - 1].outstanding else 0
  }

  ghost predicate HasFlow(rows: seq<Sender>, f: nat) {
    f != 0 && exists r | r in rows :: r.identity.Valid() && r.identity.flow == f
  }

  function Saturated(n: nat): u64 { if n <= MAX_U64 then n else MAX_U64 }

  /** The pass over the rows counts usable and protected senders and flows, and sums demand up to the largest 64-bit number. */
  lemma {:induction false} TallyCounts(p: Policy, rows: seq<Sender>)
    ensures var t := TallyOf(p, rows);
      && t.activeSenders == |Selected(Usable(), rows)| && t.protectedSenders == |Selected(IsShielded(p), rows)|
      && t.offered == Saturated(Demand(rows)) && t.protectedOffered == Saturated(Shielded(rows, p))
      && t.outstanding == Saturated(Outstanding(rows)) && forall f :: f in t.flows <==> HasFlow(rows, f)
    decreases |rows|
  {
    hide IsProtected;
    if rows != [] {
      var front, last := rows[..|rows| - 1], rows[|rows| - 1];
      TallyCounts(p, front);
      assert rows == front + [last];
      assert forall x :: x in rows <==> x in front || x == last;
      assert TallyOf(p, rows) == Absorb(p, TallyOf(p, front), last);
      forall f ensures f in TallyOf(p, rows).flows <==> HasFlow(rows, f) {
        if f != 0 && last.identity.Valid() && last.identity.flow == f { assert last in rows; }
        if HasFlow(front, f) {
          var r :| r in front && r.identity.Valid() && r.identity.flow == f;
          assert r in rows;
        }
      }
    }
  }

  // ----- Arrivals -----

  /** The widest distance between two arrivals. */
  ghost predicate IsSpread(rows: seq<Sender>, d: int) {
    if forall r | r in rows :: !Timed(r) then d == 0
    else
      && (forall r, q | r in rows && q in rows && Timed(r) && Timed(q) :: q.firstArrival - r.firstArrival <= d)
      && exists r, q | r in rows && q in rows && Timed(r) && Timed(q) :: d == q.firstArrival - r.firstArrival
  }

  /** No usable row with an arrival time came before. */
  ghost predicate IsEarliest(rows: seq<Sender>, t: int) {
    if forall r | r in rows :: !Timed(r) then t == 0
    else (forall r | r in rows && Timed(r) :: t <= r.firstArrival) && exists r | r in rows && Timed(r) :: t == r.firstArrival
  }

  lemma SpreadIsMeasured(b: Bundle, p: Policy)
    ensures IsSpread(Rows(b), MetricsOf(b, p).arrivalSpread) && IsEarliest(Rows(b), MetricsOf(b, p).earliestArrival)
    ensures MetricsOf(b, p).latestArrival == MetricsOf(b, p).earliestArrival + MetricsOf(b, p).arrivalSpread
  {
    hide TallyOf, Worst, Collided, RatioBp, Timed;
    ArrivalsSpan(p, Rows(b));
    var t := TallyOf(p, Rows(b));
    if t.haveArrival {
      var r :| r in Rows(b) && Timed(r) && r.firstArrival == t.earliest;
      var q :| q in Rows(b) && Timed(q) && q.firstArrival == t.latest;
      assert MetricsOf(b, p).arrivalSpread == q.firstArrival - r.firstArrival;
    }
  }

  // ----- Queues -----

  /** How full a queue is, against the destination's own capacity when the queue declares none. */
  function FillingOf(b: Bundle, q: QueueSample): BasisPoints {
    RatioBp(q.occupancy, if q.capacity != 0 then q.capacity else b.capacity.queueCapacity)
  }

  /** The fullest queue, by its declared capacity. */
  predicate IsWorst(qs: seq<QueueSample>, w: QueueSample) {
    w in qs && forall q | q in qs :: PressureOf(q) < PressureOf(w) || (PressureOf(q) == PressureOf(w) && w.queue <= q.queue)
  }

  /** The measures of the queues are those of the fullest one; without a queue they are 0. */
  lemma QueuesAreMeasured(b: Bundle, p: Policy)
    ensures var m, qs := MetricsOf(b, p), Samples(b);
      if qs == [] then
        m.queuePressureBp == 0 && m.dropEvents == 0 && m.ecnMarks == 0 && m.queueOccupancy == 0 && m.highWatermark == 0
        && m.queueCapacity == b.capacity.queueCapacity
      else
        exists w | w in qs :: IsWorst(qs, w)
          && m.queuePressureBp == FillingOf(b, w) && m.dropEvents == w.dropEvents && m.ecnMarks == w.ecnMarks
          && m.queueOccupancy == w.occupancy && m.highWatermark == w.highWatermark
          && m.queueCapacity == (if w.capacity != 0 then w.capacity else b.capacity.queueCapacity)
    ensures forall q | q in Samples(b) :: PressureOf(q) <= MetricsOf(b, p).queuePressureBp
  {
    hide TallyOf, Collided, RatioBp, Worst;
    var qs := Samples(b);
    if qs != [] {
      WorstIsWorst(qs);
      var w := qs[Worst(qs)];
      assert w in qs && IsWorst(qs, w);
      NothingFills(b, w);
    }
  }

  lemma NothingFills(b: Bundle, q: QueueSample)
    ensures PressureOf(q) <= FillingOf(b, q) && (q.capacity != 0 ==> PressureOf(q) == FillingOf(b, q))
  {
    hide SaturatingMul;
  }

  // ----- The measures of a window -----

  function DemandBp(b: Bundle): BasisPoints { RatioBp(Saturated(Demand(Rows(b))), b.capacity.serviceRate) }

  /** The window runs from its start to its end, when it has both. */
  function WidthOf(b: Bundle): int {
    if b.windowStart != 0 && b.windowEnd != 0 && b.windowEnd > b.windowStart then b.windowEnd - b.windowStart else 0
  }

  /** The remaining measures. */
  lemma WindowIsMeasured(b: Bundle, p: Policy)
    ensures var m, rows := MetricsOf(b, p), Rows(b);
      && m.activeSenders == |Selected(Usable(), rows)| && m.protectedSenders == |Selected(IsShielded(p), rows)|
      && (exists fs: set<nat> :: |fs| == m.distinctFlows && forall f :: f in fs <==> HasFlow(rows, f))
      && m.aggregateOffered == Saturated(Demand(rows)) && m.protectedOffered == Saturated(Shielded(rows, p))
      && m.penalizableOffered == m.aggregateOffered - m.protectedOffered
      && m.serviceRate == b.capacity.serviceRate && m.oversubscriptionBp == DemandBp(b) && m.windowWidth == WidthOf(b)
      && m.bufferHeadroom as int == Max(0, b.capacity.bufferCapacity - Saturated(Outstanding(rows)))
      && (m.populationSaturated <==> b.fanIn.truncated || |b.senders| > MAX_SENDERS)
      && m.collisions == Collided(rows) && m.collidedSenders == |Collided(rows)|
  {
    hide TallyOf, Collided, RatioBp, Worst, Demand, Shielded, Outstanding, IsShielded, HasFlow, Usable, Selected;
    TallyCounts(p, Rows(b));
    ProtectedIsOffered(p, Rows(b));
    assert forall f :: f in TallyOf(p, Rows(b)).flows <==> HasFlow(Rows(b), f);
  }

  // ----- Synchronization -----

  /** What the usable rows with an arrival time offer together. */
  function TimedDemand(rows: seq<Sender>): nat
    decreases |rows|
  {
    if rows == [] then 0 else TimedDemand(rows[..|rows| - 1]) + if Timed(rows[|rows| - 1]) then rows[|rows| - 1].offeredRate else 0
  }

  lemma {:induction false} EarlyDemand(limit: int, rows: seq<Sender>)
    requires forall r | r in rows && Timed(r) :: r.firstArrival <= limit
    ensures Fold(Joiner(limit), Early(0, 0), rows).offered == Saturated(TimedDemand(rows))
    decreases |rows|
  {
    if rows != [] {
      var front := rows[..|rows| - 1];
      assert rows == front + [rows[|rows| - 1]];
      assert forall x | x in front :: x in rows;
      EarlyDemand(limit, front);
    }
  }

  lemma NoTimedDemand(rows: seq<Sender>)
    requires forall r | r in rows :: !Timed(r)
    ensures TimedDemand(rows) == 0
    decreases |rows|
  {
    if rows != [] {
      var front := rows[..|rows| - 1];
      assert rows == front + [rows[|rows| - 1]];
      assert rows[|rows| - 1] in rows && forall x | x in front :: x in rows;
      NoTimedDemand(front);
    }
  }

  /** The arrivals are close together: within the bound, and the window itself is, or they leave enough of it free. */
  predicate Compressed(b: Bundle, y: SynchronizationPolicy, spread: int) {
    && spread <= y.syncWindowBound && WidthOf(b) > 0
    && (WidthOf(b) <= y.syncWindowBound || RatioBp(Codec.Wrapped(spread), Codec.Wrapped(WidthOf(b))) + y.syncIndexThresholdBp <= 10_000
        || y.syncIndexThresholdBp == 0)
  }

  /** Arrivals within the bound are all early. */
  lemma EveryoneIsEarly(b: Bundle, p: Policy)
    requires |b.senders| <= MAX_SENDERS && MetricsOf(b, p).arrivalSpread <= p.synchronization.syncWindowBound
    ensures EarlyOf(b, MetricsOf(b, p), p).offered == Saturated(TimedDemand(b.senders))
  {
    hide MetricsOf, TimedDemand, Fold, Joiner, Timed;
    var m := MetricsOf(b, p);
    SpreadIsMeasured(b, p);
    var limit := m.earliestArrival + p.synchronization.syncWindowBound;
    if forall r | r in b.senders :: !Timed(r) {
      NoTimedDemand(b.senders);
    } else {
      var first :| first in b.senders && Timed(first) && m.earliestArrival == first.firstArrival;
      TimedIsPresent(first);
      EarlyDemand(limit, b.senders);
    }
  }

  lemma TimedIsPresent(r: Sender)
    requires Timed(r)
    ensures r.firstArrival != 0
  {}

  /** SYNCHRONIZATION.  A population is judged synchronized exactly when it is large enough, its arrivals are compressed,
      and the senders with an arrival time offer enough of the demand. */
  lemma SynchronizedExactlyWhen(b: Bundle, p: Policy)
    requires |b.senders| <= MAX_SENDERS
    ensures var rows, y, d := b.senders, p.synchronization, MetricsOf(b, p).arrivalSpread;
      SynchronizationOf(b, MetricsOf(b, p), p).synchronized <==>
        && |Selected(Usable(), rows)| > 0 && |Selected(Usable(), rows)| >= y.minSynchronizedSenders
        && Compressed(b, y, d)
        && RatioBp(Saturated(TimedDemand(rows)), Saturated(Demand(rows))) >= y.minAggregateShareBp
  {
    hide MetricsOf, Demand, TimedDemand, RatioBp, EarlyOf, Selected, Usable, Saturated, WidthOf;
    var m := MetricsOf(b, p);
    WindowIsMeasured(b, p);
    if m.arrivalSpread <= p.synchronization.syncWindowBound { EveryoneIsEarly(b, p); }
  }

  // ----- What is reported of it -----

  function IsEarly(limit: int): Sender -> bool { (r: Sender) => Timed(r) && r.firstArrival <= limit }

  lemma {:induction false} EarlyAreCounted(limit: int, rows: seq<Sender>)
    ensures var early := Selected(IsEarly(limit), rows);
      Fold(Joiner(limit), Early(0, 0), rows) == Early(|early|, Saturated(Demand(early)))
    decreases |rows|
  {
    if rows != [] {
      var front, last := rows[..|rows| - 1], rows[|rows| - 1];
      EarlyAreCounted(limit, front);
      var early := Selected(IsEarly(limit), front);
      assert (early + [last])[..|early|] == early;
    }
  }

  /** The report counts the rows of the whole window that arrived within the bound of the first one, and the share of demand
      that they offer. */
  lemma SynchronizationIsMeasured(b: Bundle, p: Policy)
    ensures var (m, s) := (MetricsOf(b, p), SynchronizationOf(b, MetricsOf(b, p), p));
      var first, bound := m.earliestArrival, p.synchronization.syncWindowBound;
      var early := if first == 0 then [] else Selected(IsEarly(first + bound), b.senders);
      && s.synchronizedSenders == |early| && s.synchronizedShareBp == RatioBp(Saturated(Demand(early)), m.aggregateOffered)
      && s.population == m.activeSenders && s.arrivalSpread == m.arrivalSpread && s.windowWidth == WidthOf(b)
      && s.syncWindowBound == bound && (s.saturated <==> m.populationSaturated)
      && s.arrivalCompressionBp as int == (if WidthOf(b) == 0 then 0
                                           else Max(0, 10_000 - RatioBp(Codec.Wrapped(m.arrivalSpread), Codec.Wrapped(WidthOf(b)))))
      && (s.synchronized <==> s.populationFloorMet && s.windowCompressed && s.shareSufficient)
  {
    hide MetricsOf, Demand, RatioBp, Selected, IsEarly, Fold, Joiner;
    var m := MetricsOf(b, p);
    WindowIsMeasured(b, p);
    EarlyAreCounted(m.earliestArrival + p.synchronization.syncWindowBound, b.senders);
    NothingDemands();
  }

  lemma NothingDemands()
    ensures Demand([]) == 0
  {}

  /** A window too large to be admitted is measured by its first rows and queues. */
  lemma TheFirstAreLookedAt(b: Bundle)
    ensures Rows(b) <= b.senders && |Rows(b)| == Min(|b.senders|, 8192)
    ensures Samples(b) <= b.queues && |Samples(b)| == Min(|b.queues|, 512)
  {}

  // ----- Kind and severity -----

  /** A window without the authority to be judged names the reason, and nothing else is said of it than its measures. */
  lemma UnauthoritativeExactlyWhen(b: Bundle, p: Policy, collisions: seq<Collision>, c: Context)
    requires |p.authority.requiredClasses| == CLASSES
    ensures var (r, denied) := (ClassifyWindow(b, p, collisions, c), Check(b, p, NO_SEQUENCES).reason);
      && (r.authoritative <==> denied == NoRefusal) && r.refusal == denied
      && (denied != NoRefusal ==>
            && r.kind == r.instantaneous == UnknownKind && r.severity == NoSeverity && !r.held && r.contributions == []
            && r.metrics == MetricsOf(b, p))
  {
    hide MetricsOf, SynchronizationOf, Effective, Instantaneous, Ranked, SeverityOf, FirstDenial, States;
  }

  /** Collisions found by the caller take the place of those of the window, and those who collide are not penalized. */
  lemma CallersNameCollisions(b: Bundle, p: Policy, collisions: seq<Collision>, c: Context)
    requires |p.authority.requiredClasses| == CLASSES && Check(b, p, NO_SEQUENCES).reason == NoRefusal
    ensures var r := ClassifyWindow(b, p, collisions, c);
      && r.metrics.collisions == (if collisions == [] then Collided(Rows(b)) else collisions)
      && r.metrics == MetricsOf(b, p).(collisions := r.metrics.collisions, collidedSenders := |r.metrics.collisions|)
      && r.contributions == Ranked(Rows(b), Setting(p, r.metrics, r.synchronization, CollidedSenders(r.metrics.collisions)))
  {
    hide MetricsOf, SynchronizationOf, Effective, Instantaneous, Ranked, SeverityOf, FirstDenial, States;
    WindowIsMeasured(b, p);
  }

  function DropsOf(b: Bundle, p: Policy): u64 { MetricsOf(b, p).dropEvents }

  function FillingBp(b: Bundle, p: Policy): BasisPoints { MetricsOf(b, p).queuePressureBp }

  /** The destination is collapsing: under the demand, by its fullest queue, or by what that queue drops. */
  predicate Collapsing(b: Bundle, p: Policy) {
    DemandBp(b) >= p.pressure.collapseOversubscriptionBp || FillingBp(b, p) >= p.pressure.activeQueuePressureBp
    || DropsOf(b, p) >= p.pressure.dropEventsForActive
  }

  predicate Synchronous(b: Bundle, p: Policy) { SynchronizationOf(b, MetricsOf(b, p), p).synchronized }

  /** CLASSIFICATION.  What a window shows by itself: too few senders, senders that are not synchronized, an active incast
      when the destination is collapsing, a risk when demand is between risk and collapse, and ordinary traffic below. */
  lemma ClassifiedExactlyWhen(b: Bundle, p: Policy, c: Context)
    requires |p.authority.requiredClasses| == CLASSES && Check(b, p, NO_SEQUENCES).reason == NoRefusal
    ensures var k := ClassifyWindow(b, p, Collided(Rows(b)), c).instantaneous;
      var few := |Selected(Usable(), b.senders)| < p.synchronization.manyToOneMinSenders;
      var between := DemandBp(b) >= p.pressure.riskOversubscriptionBp && !Collapsing(b, p);
      && (k == NoFanIn <==> few)
      && (k == ActiveIncast <==> !few && Synchronous(b, p) && Collapsing(b, p))
      && (k == SynchronizedIncastRisk <==> !few && Synchronous(b, p) && between)
      && (k == OrdinaryManyToOne <==> !few && (!Synchronous(b, p) || !(between || Collapsing(b, p))))
  {
    hide MetricsOf, SynchronizationOf, Effective, SeverityOf, Ranked, Collided, RatioBp, Selected, Usable, FirstDenial, States;
    WindowIsMeasured(b, p);
  }

  /** A full queue is enough, whatever the demand. */
  lemma FullQueuesCollapse(b: Bundle, p: Policy, q: QueueSample)
    requires q in Samples(b) && PressureOf(q) >= p.pressure.activeQueuePressureBp
    ensures Collapsing(b, p)
  {
    hide MetricsOf;
    QueuesAreMeasured(b, p);
  }

  /** The severity of a window of each kind. */
  lemma SeverityExactlyWhen(b: Bundle, p: Policy, c: Context)
    requires |p.authority.requiredClasses| == CLASSES && Check(b, p, NO_SEQUENCES).reason == NoRefusal
    ensures var r := ClassifyWindow(b, p, Collided(Rows(b)), c);
      var collapse := DemandBp(b) >= p.pressure.collapseOversubscriptionBp;
      var critical := collapse || FillingBp(b, p) >= 9500 || DropsOf(b, p) >= p.pressure.dropEventsForActive;
      && (r.severity == Critical <==> r.kind == ActiveIncast && critical)
      && (r.severity == Severe <==> (r.kind == ActiveIncast && !critical) || (r.kind == SynchronizedIncastRisk && collapse))
      && (r.severity == Elevated <==> r.kind == SynchronizedIncastRisk && !collapse)
      && (r.severity == Advisory <==> r.kind == OrdinaryManyToOne || r.kind == Recovery)
      && r.metrics == MetricsOf(b, p) && r.synchronization == SynchronizationOf(b, MetricsOf(b, p), p)
  {
    hide MetricsOf, SynchronizationOf, Effective, Instantaneous, Ranked, Collided, RatioBp, FirstDenial, States;
    WindowIsMeasured(b, p);
  }

  // ----- Hysteresis -----

  const LADDER: seq<IncidentKind> := [NoFanIn, OrdinaryManyToOne, Recovery, SynchronizedIncastRisk, ActiveIncast]

  predicate Below(k: IncidentKind, l: IncidentKind) { exists i, j | 0 <= i < j < |LADDER| :: LADDER[i] == k && LADDER[j] == l }

  /** HYSTERESIS, exactly.  A window below the previous one is held at it until the dwell is met; then an active incast steps
      down to recovery, unless the window is a risk, and anything else is left at once.  Every other window is taken as it
      is. */
  lemma HeldExactlyWhen(b: Bundle, p: Policy, c: Context)
    requires |p.authority.requiredClasses| == CLASSES && Check(b, p, NO_SEQUENCES).reason == NoRefusal
    ensures var r := ClassifyWindow(b, p, Collided(Rows(b)), c);
      var dwelt := c.cleanStreak + 1 >= p.hysteresis.minDwellWindows;
      (r.kind, r.held) ==
        if !Below(r.instantaneous, c.prior) then (r.instantaneous, false)
        else if !dwelt then (c.prior, true)
        else if c.prior == ActiveIncast && r.instantaneous != SynchronizedIncastRisk then (Recovery, true)
        else (r.instantaneous, false)
  {
    hide MetricsOf, SynchronizationOf, SeverityOf, Ranked, Collided, FirstDenial, States, Instantaneous;
    var r := ClassifyWindow(b, p, Collided(Rows(b)), c);
    LadderIsRank(r.instantaneous, c.prior);
  }

  lemma LadderIsRank(k: IncidentKind, l: IncidentKind)
    requires k != UnknownKind
    ensures Below(k, l) <==> KindRank(l) > KindRank(k) && KindRank(l) > 0
  {
    assert LADDER[0] == NoFanIn && LADDER[1] == OrdinaryManyToOne && LADDER[2] == Recovery;
    assert LADDER[3] == SynchronizedIncastRisk && LADDER[4] == ActiveIncast;
    if KindRank(l) > KindRank(k) {
      assert LADDER[KindRank(k)] == k && LADDER[KindRank(l)] == l;
    }
  }
}
