/** The checks on what comes in from outside, in the order of the program: policies, bundles, and states to be restored. */
module Validation {
  import opened Model

  method ValidatePolicy(p: Policy) returns (ok: bool)
    ensures ok <==> p.Valid()
  {
    if p.ref.id == 0 || p.ref.generation == 0 { return false; }
    if p.nameLength == 0 || p.nameLength > 96 { return false; }
    var sync := p.synchronization;
    if sync.manyToOneMinSenders < 2 { return false; }
    if sync.minSynchronizedSenders < sync.manyToOneMinSenders { return false; }
    if sync.syncWindowBound <= 0 { return false; }
    if sync.syncIndexThresholdBp > BP_MAX || sync.minAggregateShareBp > BP_MAX { return false; }
    if p.pressure.riskOversubscriptionBp > p.pressure.collapseOversubscriptionBp { return false; }
    if p.pressure.congestionQueuePressureBp > p.pressure.activeQueuePressureBp { return false; }
    if p.pressure.riskOversubscriptionBp == 0 { return false; }
    if p.recovery.relaxOversubscriptionBp as int >= p.pressure.riskOversubscriptionBp { return false; }
    if p.recovery.relaxQueuePressureBp >= p.pressure.activeQueuePressureBp { return false; }
    if p.recovery.enabled {
      if p.recovery.requiredCleanWindows == 0 { return false; }
      if p.recovery.dwell < 0 { return false; }
    }
    if p.hysteresis.minDwellWindows == 0 { return false; }
    if p.hysteresis.maxIncidentWindows == 0 || p.hysteresis.maxCleanWindows == 0 { return false; }
    var bounded := ValidateBounds(p);
    if !bounded { return false; }
    if p.authority.maxFreshnessHorizonNanos == 0 { return false; }
    if |p.authority.requiredClasses| != CLASSES { return false; }
    ok := p.authority.requireProvenance == p.authority.requiredClasses[7];
  }

  method ValidateBounds(p: Policy) returns (ok: bool)
    ensures ok <==> p.BoundsValid()
  {
    var b := p.bounds;
    if b.minReductionBp == 0 || b.maxReductionBp == 0 { return false; }
    if b.minReductionBp > b.maxReductionBp { return false; }
    if b.maxReductionBp > 10_000 { return false; }
    if b.maxAdmissionReductionBp > 10_000 { return false; }
    if b.minDuration <= 0 || b.maxDuration <= 0 { return false; }
    if b.minDuration > b.maxDuration { return false; }
    if b.maxPenalizedSenders == 0 || b.maxPenalizedSenders > 1024 { return false; }
    ok := b.maxStaggerSlots != 0 && b.maxStaggerSlots <= 4096;
  }

  method ValidateBundle(b: Bundle) returns (ok: bool)
    ensures ok <==> b.StructurallyValid()
  {
    if b.origin.destination == 0 { return false; }
    if b.origin.window == 0 { return false; }
    if b.origin.event == 0 { return false; }
    if b.now == 0 { return false; }
    if b.windowStart != 0 && b.windowEnd != 0 && b.windowEnd < b.windowStart { return false; }
    if |b.senders| > 8192 { return false; }
    ok := |b.queues| <= 512;
  }

  method ValidateState(s: GovernorState) returns (ok: bool)
    ensures ok <==> s.Valid()
  {
    if |s.history| > 256 { return false; }
    if |s.interventions| > 512 { return false; }
    for k := 0 to |s.interventions|
      invariant forall i | 0 <= i < k :: s.interventions[i].id != 0 && s.interventions[i].intent.bounded
    {
      if s.interventions[k].id == 0 { return false; }
      if !s.interventions[k].intent.bounded { return false; }
    }
    ok := true;
  }
}
