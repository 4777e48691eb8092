/** Detection: what one window of evidence shows, before any history is taken into account. */
module Detect {
  import opened Words
  import opened Model
  import opened Sorting
  import opened Collisions
  import opened Codec

  // ----- Metrics -----

  datatype Metrics = Metrics(
    activeSenders: nat, distinctFlows: nat, populationSaturated: bool, protectedSenders: nat, collidedSenders: nat,
    earliestArrival: int, latestArrival: int, arrivalSpread: int, windowWidth: int,
    aggregateOffered: u64, protectedOffered: u64, penalizableOffered: u64,
    serviceRate: u64, queueCapacity: u64, queueOccupancy: u64, highWatermark: u64, bufferHeadroom: u64,
    queuePressureBp: BasisPoints, oversubscriptionBp: BasisPoints, dropEvents: u64, ecnMarks: u64,
    collisions: seq<Collision>)

  /** True when the sender may never be penalized. */
  predicate IsProtected(r: Sender, p: Policy) {
    (p.protection.neverPenalizeExplicitlyProtected && r.protectedObligation)
    || Strength(r.service) > Strength(p.protection.strongestMitigableClass)
  }

  predicate Stronger(s: ServiceClass, t: ServiceClass) {
    exists i, j | 0 <= i < j < |SERVICES| :: SERVICES[i] == t && SERVICES[j] == s
  }

  /** The policy protects explicit obligations, when it says so, and every class stronger than the strongest it may mitigate. */
  lemma ProtectedExactlyWhen(r: Sender, p: Policy)
    ensures IsProtected(r, p) <==>
      || (r.protectedObligation && p.protection.neverPenalizeExplicitlyProtected)
      || Stronger(r.service, p.protection.strongestMitigableClass)
  {
    assert SERVICES[0] == BestEffort && SERVICES[1] == Bulk && SERVICES[2] == Interactive;
    assert SERVICES[3] == LatencySensitive && SERVICES[4] == Control && SERVICES[5] == Replication;
    var s, t := r.service, p.protection.strongestMitigableClass;
    if Strength(s) > Strength(t) { assert SERVICES[Strength(t)] == t && SERVICES[Strength(s)] == s; }
  }

  /** The rows that are looked at. */
  function Rows(b: Bundle): (rows: seq<Sender>)
    ensures |b.senders| <= MAX_SENDERS ==> rows == b.senders
  {
    if |b.senders| <= MAX_SENDERS then b.senders else b.senders[..MAX_SENDERS]
  }

  /** The running totals of the pass over the rows. */
  datatype Tally = Tally(offered: u64, protectedOffered: u64, outstanding: u64, protectedSenders: nat,
                         activeSenders: nat, haveArrival: bool, earliest: int, latest: int, flows: set<nat>)

  const NO_TALLY: Tally := Tally(0, 0, 0, 0, 0, false, 0, 0, {})

  function Absorb(p: Policy, t: Tally, r: Sender): Tally {
    if !r.identity.Valid() then t
    else
      var shielded := IsProtected(r, p);
      var arrived := r.firstArrival != 0;
      Tally(SaturatingAdd(t.offered, r.offeredRate),
            if shielded then SaturatingAdd(t.protectedOffered, r.offeredRate) else t.protectedOffered,
            SaturatingAdd(t.outstanding, r.outstanding),
            if shielded then t.protectedSenders + 1 else t.protectedSenders,
            t.activeSenders + 1,
            t.haveArrival || arrived,
            if !arrived then t.earliest else if !t.haveArrival then r.firstArrival else Min(t.earliest, r.firstArrival),
            if !arrived then t.latest else if !t.haveArrival then r.firstArrival else Max(t.latest, r.firstArrival),
            if r.identity.flow != 0 then t.flows + {r.identity.flow} else t.flows)
  }

  function Absorber(p: Policy): (Tally, Sender) -> Tally { (t, r) => Absorb(p, t, r) }

  function TallyOf(p: Policy, rows: seq<Sender>): Tally { Fold(Absorber(p), NO_TALLY, rows) }

  lemma AbsorbCommutes(p: Policy)
    ensures Commutes(Absorber(p))
  {
    hide IsProtected;
    forall t, x, y ensures Absorb(p, Absorb(p, t, x), y) == Absorb(p, Absorb(p, t, y), x) {
      if x.identity.Valid() && y.identity.Valid() {
        var a, b := Absorb(p, Absorb(p, t, x), y), Absorb(p, Absorb(p, t, y), x);
        assert a.flows == b.flows;
      }
    }
  }

  /** A row counts exactly when it names both a sender and its incarnation. */
  lemma UnusableRowsDoNotCount(p: Policy, rows: seq<Sender>, r: Sender)
    ensures var (t, u) := (TallyOf(p, rows), TallyOf(p, rows + [r]));
      if r.identity.sender == 0 || r.identity.incarnation == 0 then u == t else u.activeSenders == t.activeSenders + 1
  {
    assert (rows + [r])[..|rows|] == rows;
  }

  function PressureOf(q: QueueSample): BasisPoints { RatioBp(q.occupancy, q.capacity) }

  /** The sample that wins over another: more pressure, or the same on a lower queue number. */
  predicate Beats(q: QueueSample, w: QueueSample) {
    PressureOf(q) > PressureOf(w) || (PressureOf(q) == PressureOf(w) && q.queue < w.queue)
  }

  function Worst(qs: seq<QueueSample>): (w: nat)
    requires qs != []
    ensures w < |qs|
    decreases |qs|
  {
    if |qs| == 1 then 0
    else
      var w := Worst(qs[..|qs| - 1]);
      if Beats(qs[|qs| - 1], qs[w]) then |qs| - 1 else w
  }

  /** The chosen queue has the highest pressure, among those the lowest number, and among those it came first. */
  lemma {:induction false} WorstIsWorst(qs: seq<QueueSample>)
    requires qs != []
    ensures forall q | q in qs :: !Beats(q, qs[Worst(qs)])
    ensures forall i | 0 <= i < Worst(qs) :: Beats(qs[Worst(qs)], qs[i])
    decreases |qs|
  {
    hide PressureOf;
    if |qs| > 1 {
      WorstIsWorst(qs[..|qs| - 1]);
      var w := Worst(qs[..|qs| - 1]);
      assert forall i | 0 <= i < |qs| - 1 :: qs[i] in qs[..|qs| - 1];
    }
  }

  function Samples(b: Bundle): seq<QueueSample> {
    if |b.queues| <= MAX_QUEUES then b.queues else b.queues[..MAX_QUEUES]
  }

  function MetricsOf(b: Bundle, p: Policy): Metrics {
    var t := TallyOf(p, Rows(b));
    var earliest, latest := if t.haveArrival then t.earliest else 0, if t.haveArrival then t.latest else 0;
    var qs := Samples(b);
    var have := qs != [];
    var capacity :=
      if have && qs[Worst(qs)].capacity != 0 then qs[Worst(qs)].capacity else b.capacity.queueCapacity;
    var occupancy := if have then qs[Worst(qs)].occupancy else 0;
    var collisions := Collided(Rows(b));
    Metrics(t.activeSenders, |t.flows|, b.fanIn.truncated || |b.senders| > MAX_SENDERS, t.protectedSenders, |collisions|,
            earliest, latest, if t.haveArrival && latest >= earliest then latest - earliest else 0,
            if b.windowStart != 0 && b.windowEnd != 0 && b.windowEnd >= b.windowStart then b.windowEnd - b.windowStart else 0,
            t.offered, t.protectedOffered,
            if t.offered >= t.protectedOffered then t.offered - t.protectedOffered else 0,
            b.capacity.serviceRate, capacity, occupancy,
            if have then qs[Worst(qs)].highWatermark else 0,
            if b.capacity.bufferCapacity > t.outstanding then b.capacity.bufferCapacity - t.outstanding else 0,
            if have then RatioBp(occupancy, capacity) else 0,
            RatioBp(t.offered, b.capacity.serviceRate),
            if have then qs[Worst(qs)].dropEvents else 0,
            if have then qs[Worst(qs)].ecnMarks else 0,
            collisions)
  }

  method ComputeTally(rows: seq<Sender>, p: Policy) returns (t: Tally)
    ensures t == TallyOf(p, rows)
  {
    hide IsProtected;
    t := NO_TALLY;
    for index := 0 to |rows|
      invariant t == TallyOf(p, rows[..index])
    {
      var sender := rows[index];
      assert rows[..index + 1][..index] == rows[..index];
      if !sender.identity.Valid() { continue; }
      t := t.(offered := SaturatingAdd(t.offered, sender.offeredRate),
              outstanding := SaturatingAdd(t.outstanding, sender.outstanding));
      if IsProtected(sender, p) {
        t := t.(protectedOffered := SaturatingAdd(t.protectedOffered, sender.offeredRate),
                protectedSenders := t.protectedSenders + 1);
      }
      if sender.firstArrival != 0 {
        if !t.haveArrival {
          t := t.(earliest := sender.firstArrival, latest := sender.firstArrival, haveArrival := true);
        } else {
          t := t.(earliest := Min(t.earliest, sender.firstArrival), latest := Max(t.latest, sender.firstArrival));
        }
      }
      if sender.identity.flow != 0 { t := t.(flows := t.flows + {sender.identity.flow}); }
      t := t.(activeSenders := t.activeSenders + 1);
    }
    assert rows[..|rows|] == rows;
  }

  method FindWorst(qs: seq<QueueSample>) returns (w: nat)
    requires qs != []
    ensures w == Worst(qs)
  {
    w := 0;
    for index := 1 to |qs|
      invariant w == Worst(qs[..index])
    {
      assert qs[..index + 1][..index] == qs[..index];
      if Beats(qs[index], qs[w]) { w := index; }
    }
    assert qs[..|qs|] == qs;
  }

  method ComputeMetrics(b: Bundle, p: Policy) returns (m: Metrics)
    ensures m == MetricsOf(b, p)
  {
    hide TallyOf, Worst, Collided, RatioBp, Absorb;
    var rows := Rows(b);
    var t := ComputeTally(rows, p);
    var earliest, latest, spread, width := 0, 0, 0, 0;
    if t.haveArrival {
      earliest, latest := t.earliest, t.latest;
      if latest >= earliest { spread := latest - earliest; }
    }
    if b.windowStart != 0 && b.windowEnd != 0 && b.windowEnd >= b.windowStart { width := b.windowEnd - b.windowStart; }
    var capacity, occupancy: u64, watermark: u64, drops: u64, marks: u64 := b.capacity.queueCapacity, 0, 0, 0, 0;
    var pressure: BasisPoints := 0;
    var queues := Samples(b);
    if queues != [] {
      var w := FindWorst(queues);
      occupancy, watermark := queues[w].occupancy, queues[w].highWatermark;
      drops, marks := queues[w].dropEvents, queues[w].ecnMarks;
      if queues[w].capacity != 0 { capacity := queues[w].capacity; }
      pressure := RatioBp(occupancy, capacity);
    }
    var collisions := DetectCollisions(rows);
    m := Metrics(t.activeSenders, |t.flows|, b.fanIn.truncated || |b.senders| > MAX_SENDERS, t.protectedSenders,
                 |collisions|, earliest, latest, spread, width, t.offered, t.protectedOffered,
                 if t.offered >= t.protectedOffered then t.offered - t.protectedOffered else 0,
                 b.capacity.serviceRate, capacity, occupancy, watermark,
                 if b.capacity.bufferCapacity > t.outstanding then b.capacity.bufferCapacity - t.outstanding else 0,
                 pressure, RatioBp(t.offered, b.capacity.serviceRate), drops, marks, collisions);
  }

  // ----- Synchronization -----

  datatype Synchronization = Synchronization(
    population: nat, synchronizedSenders: nat, arrivalSpread: int, windowWidth: int, syncWindowBound: int,
    arrivalCompressionBp: BasisPoints, synchronizedShareBp: BasisPoints,
    populationFloorMet: bool, windowCompressed: bool, shareSufficient: bool, synchronized: bool, saturated: bool)

  /** Senders that arrived within the limit, and what they offer together. */
  datatype Early = Early(senders: nat, offered: u64)

  predicate Arrived(r: Sender, limit: int) { r.identity.Valid() && r.firstArrival != 0 && r.firstArrival <= limit }

  function Joined(limit: int, e: Early, r: Sender): Early {
    if Arrived(r, limit) then Early(e.senders + 1, SaturatingAdd(e.offered, r.offeredRate)) else e
  }

  function Joiner(limit: int): (Early, Sender) -> Early { (e, r) => Joined(limit, e, r) }

  lemma JoinCommutes(limit: int)
    ensures Commutes(Joiner(limit))
  {}

  function EarlyOf(b: Bundle, m: Metrics, p: Policy): Early {
    if m.earliestArrival == 0 then Early(0, 0)
    else Fold(Joiner(m.earliestArrival + p.synchronization.syncWindowBound), Early(0, 0), b.senders)
  }

  function CompressionBp(m: Metrics): BasisPoints {
    if m.windowWidth <= 0 then 0
    else
      var consumed := RatioBp(Wrapped(m.arrivalSpread), Wrapped(m.windowWidth));
      if 10_000 > consumed then 10_000 - consumed else 0
  }

  function SynchronizationOf(b: Bundle, m: Metrics, p: Policy): Synchronization {
    var bound := p.synchronization.syncWindowBound;
    var early := EarlyOf(b, m, p);
    var compression := CompressionBp(m);
    var share := RatioBp(early.offered, m.aggregateOffered);
    var floorMet := m.activeSenders >= p.synchronization.minSynchronizedSenders;
    var relative := (m.windowWidth > 0 && m.windowWidth <= bound) || compression >= p.synchronization.syncIndexThresholdBp;
    var absolute := m.arrivalSpread <= bound && m.activeSenders > 0 && m.windowWidth > 0;
    var enough := share >= p.synchronization.minAggregateShareBp;
    Synchronization(m.activeSenders, early.senders, m.arrivalSpread, m.windowWidth, bound, compression, share,
                    floorMet, absolute && relative, enough, floorMet && absolute && relative && enough,
                    m.populationSaturated)
  }

  /** The program makes the pass twice, once for the senders and once for what they offer. */
  method ComputeSynchronization(b: Bundle, m: Metrics, p: Policy) returns (s: Synchronization)
    ensures s == SynchronizationOf(b, m, p)
  {
    hide RatioBp, CompressionBp;
    var bound := p.synchronization.syncWindowBound;
    var senders, offered: u64 := 0, 0;
    var limit := m.earliestArrival + bound;
    if m.earliestArrival != 0 {
      for index := 0 to |b.senders|
        invariant senders == Fold(Joiner(limit), Early(0, 0), b.senders[..index]).senders
      {
        assert b.senders[..index + 1][..index] == b.senders[..index];
        var r := b.senders[index];
        if !r.identity.Valid() || r.firstArrival == 0 { continue; }
        if r.firstArrival <= limit { senders := senders + 1; }
      }
      for index := 0 to |b.senders|
        invariant offered == Fold(Joiner(limit), Early(0, 0), b.senders[..index]).offered
      {
        assert b.senders[..index + 1][..index] == b.senders[..index];
        var r := b.senders[index];
        if !r.identity.Valid() || r.firstArrival == 0 { continue; }
        if r.firstArrival <= limit { offered := SaturatingAdd(offered, r.offeredRate); }
      }
    }
    assert b.senders[..|b.senders|] == b.senders;
    var compression, share := CompressionBp(m), RatioBp(offered, m.aggregateOffered);
    var floorMet := m.activeSenders >= p.synchronization.minSynchronizedSenders;
    var relative := (m.windowWidth > 0 && m.windowWidth <= bound) || compression >= p.synchronization.syncIndexThresholdBp;
    var absolute := m.arrivalSpread <= bound && m.activeSenders > 0 && m.windowWidth > 0;
    var enough := share >= p.synchronization.minAggregateShareBp;
    s := Synchronization(m.activeSenders, senders, m.arrivalSpread, m.windowWidth, bound, compression, share,
                         floorMet, absolute && relative, enough, floorMet && absolute && relative && enough,
                         m.populationSaturated);
  }

  /** PERMUTATION, first half.  Permuting the rows of a window changes neither metrics nor synchronization. */
  lemma MetricsForgetOrder(b: Bundle, c: Bundle, p: Policy)
    requires c == b.(senders := c.senders) && multiset(b.senders) == multiset(c.senders) && |b.senders| <= MAX_SENDERS
    ensures MetricsOf(c, p) == MetricsOf(b, p)
    ensures SynchronizationOf(c, MetricsOf(c, p), p) == SynchronizationOf(b, MetricsOf(b, p), p)
  {
    hide Absorber, Joiner, Commutes, Fold, Collided, RatioBp, Worst;
    assert |multiset(b.senders)| == |b.senders| && |multiset(c.senders)| == |c.senders|;
    AbsorbCommutes(p);
    FoldForgetsOrder(Absorber(p), NO_TALLY, c.senders, b.senders);
    CollisionsForgetOrder(c.senders, b.senders);
    var limit := MetricsOf(b, p).earliestArrival + p.synchronization.syncWindowBound;
    JoinCommutes(limit);
    FoldForgetsOrder(Joiner(limit), Early(0, 0), c.senders, b.senders);
  }

  // ----- Arrivals -----

  /** A usable row with an arrival time. */
  predicate Timed(r: Sender) { r.identity.Valid() && r.firstArrival != 0 }

  function IsTimed(): Sender -> bool { (r: Sender) => Timed(r) }

  /** The earliest and the latest arrival are arrivals of usable rows, and all others lie between them. */
  lemma {:induction false} ArrivalsSpan(p: Policy, rows: seq<Sender>)
    ensures var t := TallyOf(p, rows);
      && (t.haveArrival <==> exists r | r in rows :: Timed(r))
      && (forall r | r in rows && Timed(r) :: t.earliest <= r.firstArrival <= t.latest)
      && (t.haveArrival ==> exists r | r in rows && Timed(r) :: r.firstArrival == t.earliest)
      && (t.haveArrival ==> exists r | r in rows && Timed(r) :: r.firstArrival == t.latest)
    decreases |rows|
  {
    if rows != [] {
      var front, last := rows[..|rows| - 1], rows[|rows| - 1];
      ArrivalsSpan(p, front);
      assert rows == front + [last];
      assert forall x :: x in rows <==> x in front || x == last;
      var before, t := TallyOf(p, front), TallyOf(p, rows);
      assert t == Absorb(p, before, last);
      if Timed(last) && before.haveArrival {
        var early :| early in front && Timed(early) && early.firstArrival == before.earliest;
        var late :| late in front && Timed(late) && late.firstArrival == before.latest;
        assert early in rows && late in rows && last in rows;
      } else if Timed(last) {
        assert last in rows;
      }
    }
  }

  /** All timed rows are early when none arrives after the limit. */
  lemma {:induction false} NobodyIsLate(limit: int, rows: seq<Sender>)
    requires forall r | r in rows && Timed(r) :: r.firstArrival <= limit
    ensures Fold(Joiner(limit), Early(0, 0), rows).senders == |Selected(IsTimed(), rows)|
    decreases |rows|
  {
    if rows != [] {
      var front := rows[..|rows| - 1];
      assert rows == front + [rows[|rows| - 1]];
      assert forall x | x in front :: x in rows;
      NobodyIsLate(limit, front);
    }
  }

  /** A population judged synchronized has no timed sender outside the synchronization window: its usable rows with an
      arrival time all count as synchronized, and they are enough to meet the floor on the population. */
  lemma SynchronizedLeavesNobodyOut(b: Bundle, p: Policy)
    requires |b.senders| <= MAX_SENDERS && SynchronizationOf(b, MetricsOf(b, p), p).synchronized
    ensures var s, m := SynchronizationOf(b, MetricsOf(b, p), p), MetricsOf(b, p);
      && s.population >= p.synchronization.minSynchronizedSenders
      && (forall r | r in b.senders && Timed(r) ::
            m.earliestArrival <= r.firstArrival <= m.earliestArrival + p.synchronization.syncWindowBound)
      && ((exists r | r in b.senders :: Timed(r)) ==>
            s.synchronizedSenders == |Selected(IsTimed(), b.senders)|)
  {
    hide TallyOf, Worst, Collided, RatioBp, CompressionBp;
    ArrivalsSpan(p, b.senders);
    var m := MetricsOf(b, p);
    if exists r | r in b.senders :: Timed(r) {
      NobodyIsLate(m.earliestArrival + p.synchronization.syncWindowBound, b.senders);
    }
  }
}
