/** The evidence, policy and intervention records of the governor.

    Identities, generations, epochs, boots and leases are natural numbers whose value 0 means
    "absent"; timestamps are integers of nanoseconds whose value 0 means "absent". */
module Model {
  import opened Words

  const MAX_SENDERS: nat := 8192
  const MAX_QUEUES: nat := 512
  const MAX_PENALIZED: nat := 1024
  const MAX_HISTORY: nat := 256
  const MAX_INTERVENTIONS: nat := 512
  const BP_MAX: nat := 1_000_000
  const CLASSES: nat := 8

  type BasisPoints = v: nat | v <= BP_MAX

  // ----- Arithmetic -----

  function Min(a: int, b: int): int { if a < b then a else b }

  function Max(a: int, b: int): int { if a > b then a else b }

  function SaturatingAdd(a: u64, b: u64): u64 { if a as int > MAX_U64 - b then MAX_U64 else a + b }

  function SaturatingMul(a: u64, b: u64): u64 {
    if a == 0 || b == 0 then 0
    else if a as int > MAX_U64 / b as int then MAX_U64
    else
      assert a as int * b as int <= MAX_U64 by { ProductFits(a, b); }
      a * b
  }

  lemma ProductFits(a: nat, b: nat)
    requires b > 0 && a <= MAX_U64 / b
    ensures a * b <= MAX_U64
  {
    assert a * b <= (MAX_U64 / b) * b;
  }

  /** A ratio in basis points, saturating, and 0 for an empty denominator. */
  function RatioBp(numerator: u64, denominator: u64): BasisPoints {
    if denominator == 0 then 0
    else
      var scaled := SaturatingMul(numerator, 10_000);
      if scaled == MAX_U64 then BP_MAX
      else if scaled as int / denominator as int > BP_MAX then BP_MAX
      else scaled as int / denominator as int
  }

  /** The saturating operations are the exact ones, capped at the largest 64-bit number. */
  lemma SaturatingIsCapped(a: u64, b: u64)
    ensures SaturatingAdd(a, b) as int == Min(a as int + b as int, MAX_U64)
    ensures SaturatingMul(a, b) as int == Min(a as int * b as int, MAX_U64)
  {
    if a != 0 && b != 0 && a as int > MAX_U64 / b as int {
      var q := MAX_U64 / b as int;
      assert MAX_U64 < (q + 1) * b as int <= a as int * b as int;
    }
  }

  /** Below saturation a ratio is the exact quotient in basis points, rounded down and capped. */
  lemma RatioIsFloor(numerator: u64, denominator: u64)
    requires denominator > 0 && numerator as int * 10_000 < MAX_U64
    ensures RatioBp(numerator, denominator) as int == Min(numerator as int * 10_000 / denominator as int, BP_MAX)
  {
    SaturatingIsCapped(numerator, 10_000);
  }

  // ----- Enumerations -----

  datatype ServiceClass = BestEffort | Bulk | Interactive | LatencySensitive | Control | Replication

  /** The service classes from the weakest to the strongest. */
  const SERVICES: seq<ServiceClass> := [BestEffort, Bulk, Interactive, LatencySensitive, Control, Replication]

  function Strength(s: ServiceClass): nat {
    match s
    case BestEffort => 0
    case Bulk => 1
    case Interactive => 2
    case LatencySensitive => 3
    case Control => 4
    case Replication => 5
  }

  datatype EvidenceState = Unknown | Present | Stale | Contradictory | Reordered | OutOfWindow | Superseded

  datatype EvidenceClass = FanIn | ArrivalTiming | AggregateRate | Destination | Capacity | Queue | Service | Provenance

  function ClassAt(i: nat): EvidenceClass
    requires i < CLASSES
  {
    [FanIn, ArrivalTiming, AggregateRate, Destination, Capacity, Queue, Service, Provenance][i]
  }

  datatype IncidentKind = UnknownKind | NoFanIn | OrdinaryManyToOne | SynchronizedIncastRisk | ActiveIncast | Recovery

  predicate IsIncident(k: IncidentKind) { k.SynchronizedIncastRisk? || k.ActiveIncast? }

  datatype Severity = NoSeverity | Advisory | Elevated | Severe | Critical

  datatype RefusalReason =
    | NoRefusal | PolicyDisabled | NoIncident | MissingEvidence | StaleEvidence | ContradictoryEvidence
    | ReorderedEvidence | SupersededEvidence | OutOfWindowEvidence | EventMismatch | DestinationMismatch
    | PolicyGenerationMismatch | EpochMismatch | BootMismatch | LeaseMissing | LeaseExpired | IdentityCollision
    | ProtectedFloorConflict | NoMitigablePopulation | BoundsExceeded | AwaitingRecoveryPolicy | MalformedBundle
    | CapacityNotRevalidated

  datatype MitigationKind =
    | NoMitigation | PacingHint | SenderStaggering | TemporaryAdmissionReduction | PriorityAwareRateReduction
    | TemporaryHeadroomAdjustment | CongestionEscalation

  datatype MitigationScope = NoScope | DestinationScope | QueueScope | SenderSet | ResourceScope

  datatype InterventionState =
    | Proposed | Authorized | Active | Relaxing | Revalidating | Retired | Fenced | Refused | Expired

  // ----- Identities shared by several records -----

  datatype SenderIdentity = SenderIdentity(sender: nat, incarnation: nat, flow: nat) {
    predicate Valid() { sender != 0 && incarnation != 0 }
  }

  /** The event, destination and window a record is about, each with its generation. */
  datatype Origin = Origin(event: nat, eventGeneration: nat, destination: nat, destinationGeneration: nat,
                           window: nat, windowGeneration: nat)

  datatype PolicyRef = PolicyRef(id: nat, generation: nat)

  /** The authority a record was made under. */
  datatype Binding = Binding(epoch: nat, boot: nat, worker: nat, lease: nat)

  const UNBOUND: Binding := Binding(0, 0, 0, 0)

  // ----- Evidence -----

  datatype Stamp = Stamp(state: EvidenceState, window: nat, provenance: nat, provenanceGeneration: nat,
                         observedAt: int, validUntil: int, sequence: nat, truncated: bool)

  datatype Sender = Sender(identity: SenderIdentity, service: ServiceClass, protectedObligation: bool,
                           offeredRate: u64, outstanding: u64, firstArrival: int)

  datatype QueueSample = QueueSample(queue: nat, resource: nat, occupancy: u64, capacity: u64, highWatermark: u64,
                                     dropEvents: u64, ecnMarks: u64)

  datatype DestinationCapacity = DestinationCapacity(resource: nat, serviceRate: u64, queueCapacity: u64,
                                                     bufferCapacity: u64, protectedFloorRate: u64)

  datatype Bundle = Bundle(origin: Origin, windowStart: int, windowEnd: int, now: int,
                           fanIn: Stamp, senders: seq<Sender>,
                           capacityStamp: Stamp, capacity: DestinationCapacity,
                           queueStamp: Stamp, queues: seq<QueueSample>,
                           timing: Stamp, rate: Stamp, service: Stamp, provenance: Stamp, policyStamp: Stamp,
                           binding: Binding, leaseExpiry: int) {
    predicate StructurallyValid() {
      && origin.destination != 0 && origin.window != 0 && origin.event != 0 && now != 0
      && !(windowStart != 0 && windowEnd != 0 && windowEnd < windowStart)
      && |senders| <= MAX_SENDERS && |queues| <= MAX_QUEUES
    }

    function StampOf(c: EvidenceClass): Stamp {
      match c
      case FanIn => fanIn
      case ArrivalTiming => timing
      case AggregateRate => rate
      case Destination => capacityStamp
      case Capacity => capacityStamp
      case Queue => queueStamp
      case Service => service
      case Provenance => provenance
    }
  }

  // ----- Policy -----

  datatype SynchronizationPolicy = SynchronizationPolicy(manyToOneMinSenders: nat, minSynchronizedSenders: nat,
                                                         syncWindowBound: int, syncIndexThresholdBp: nat,
                                                         minAggregateShareBp: nat)

  datatype PressurePolicy = PressurePolicy(riskOversubscriptionBp: nat, collapseOversubscriptionBp: nat,
                                           activeQueuePressureBp: nat, congestionQueuePressureBp: nat,
                                           dropEventsForActive: u64, headroomWarningBp: nat)

  datatype RecoveryPolicy = RecoveryPolicy(enabled: bool, requiredCleanWindows: nat, dwell: int,
                                           relaxOversubscriptionBp: u32, relaxQueuePressureBp: nat,
                                           maxDropsDuringRecovery: u64, requireCapacityRevalidation: bool)

  datatype HysteresisPolicy = HysteresisPolicy(minDwellWindows: nat, maxIncidentWindows: u32, maxCleanWindows: u32)

  datatype ProtectionPolicy = ProtectionPolicy(protectedFloorRate: u64, strongestMitigableClass: ServiceClass,
                                               neverPenalizeExplicitlyProtected: bool,
                                               refuseSenderScopeWhenPopulationSaturated: bool,
                                               escalateInsteadOfViolatingFloor: bool)

  datatype Bounds = Bounds(minReductionBp: u32, maxReductionBp: u32, maxAdmissionReductionBp: u32,
                           maxHeadroomBytes: u64, minDuration: int, maxDuration: int,
                           maxPenalizedSenders: nat, maxStaggerSlots: u32)

  datatype AuthorityPolicy = AuthorityPolicy(requiredClasses: seq<bool>, requireProvenance: bool,
                                             requireValidLease: bool, requireMatchingEpoch: bool,
                                             requireMatchingBoot: bool, maxFreshnessHorizonNanos: nat)

  datatype Policy = Policy(ref: PolicyRef, nameLength: nat, enabled: bool, synchronization: SynchronizationPolicy,
                           pressure: PressurePolicy, recovery: RecoveryPolicy, hysteresis: HysteresisPolicy,
                           protection: ProtectionPolicy, bounds: Bounds, authority: AuthorityPolicy) {
    /** The checks a policy document passes before it may be configured. */
    predicate Valid() {
      && ref.id != 0 && ref.generation != 0 && 0 < nameLength <= 96
      && synchronization.manyToOneMinSenders >= 2
      && synchronization.minSynchronizedSenders >= synchronization.manyToOneMinSenders
      && synchronization.syncWindowBound > 0
      && synchronization.syncIndexThresholdBp <= BP_MAX && synchronization.minAggregateShareBp <= BP_MAX
      && pressure.riskOversubscriptionBp <= pressure.collapseOversubscriptionBp
      && pressure.congestionQueuePressureBp <= pressure.activeQueuePressureBp
      && pressure.riskOversubscriptionBp != 0
      && recovery.relaxOversubscriptionBp < pressure.riskOversubscriptionBp
      && recovery.relaxQueuePressureBp < pressure.activeQueuePressureBp
      && (recovery.enabled ==> recovery.requiredCleanWindows != 0 && recovery.dwell >= 0)
      && hysteresis.minDwellWindows != 0
      && hysteresis.maxIncidentWindows != 0 && hysteresis.maxCleanWindows != 0
      && BoundsValid()
      && authority.maxFreshnessHorizonNanos != 0
      && |authority.requiredClasses| == CLASSES
      && authority.requireProvenance == authority.requiredClasses[7]
    }

    predicate BoundsValid() {
      && 0 < bounds.minReductionBp <= bounds.maxReductionBp <= 10_000
      && bounds.maxAdmissionReductionBp <= 10_000
      && 0 < bounds.minDuration <= bounds.maxDuration
      && 0 < bounds.maxPenalizedSenders <= MAX_PENALIZED
      && 0 < bounds.maxStaggerSlots <= 4096
    }
  }

  // ----- Intents and interventions -----

  datatype MitigationIntent = MitigationIntent(
    kind: MitigationKind, scope: MitigationScope, intervention: nat, generation: nat,
    origin: Origin, policy: PolicyRef, binding: Binding,
    issuedAt: int, expiresAt: int, duration: int,
    reductionBp: BasisPoints, admissionReductionBp: BasisPoints, aggregateReductionBp: BasisPoints,
    headroomBytes: u64, staggerSlots: u32,
    penalized: seq<SenderIdentity>, affected: seq<ServiceClass>, queue: nat, resource: nat,
    protectedOffered: u64, protectedFloor: u64, resultingOffered: u64, requiredReduction: u64, achievableReduction: u64,
    bounded: bool, clamped: bool, insufficient: bool, escalating: bool, relaxesPrior: bool, continuesPrior: bool) {
    predicate IsActive() { kind != NoMitigation }
  }

  const NO_ORIGIN: Origin := Origin(0, 0, 0, 0, 0, 0)

  const EMPTY_INTENT: MitigationIntent :=
    MitigationIntent(NoMitigation, NoScope, 0, 0, NO_ORIGIN, PolicyRef(0, 0), UNBOUND, 0, 0, 0, 0, 0, 0, 0, 0,
                     [], [], 0, 0, 0, 0, 0, 0, 0, true, false, false, false, false, false)

  datatype Intervention = Intervention(
    id: nat, generation: nat, destination: nat, destinationGeneration: nat, window: nat, windowGeneration: nat,
    state: InterventionState, intent: MitigationIntent, binding: Binding, policy: PolicyRef,
    createdAt: int, updatedAt: int, expiresAt: int, lastRelaxedAt: int,
    appliedReductionBp: BasisPoints, relaxSteps: nat, continueSteps: nat,
    refusal: RefusalReason, refusalDetail: seq<byte>) {
    predicate Live() { IsLiveState(state) }
  }

  predicate IsLiveState(s: InterventionState) {
    s.Authorized? || s.Active? || s.Relaxing? || s.Revalidating?
  }

  predicate IsTerminalState(s: InterventionState) {
    s.Retired? || s.Fenced? || s.Refused? || s.Expired?
  }

  // ----- Governor state -----

  datatype WindowRecord = WindowRecord(window: nat, windowGeneration: nat, start: int, end: int, kind: IncidentKind,
                                       severity: Severity, oversubscriptionBp: BasisPoints,
                                       queuePressureBp: BasisPoints, activeSenders: nat, authoritative: bool)

  datatype RecoveryTracker = RecoveryTracker(tracking: bool, since: int, cleanWindows: nat, incidentWindows: nat,
                                             dropsDuringRecovery: u64, capacityRevalidated: bool)

  const NO_RECOVERY: RecoveryTracker := RecoveryTracker(false, 0, 0, 0, 0, false)

  datatype GovernorState = GovernorState(
    generation: nat, destination: nat, destinationGeneration: nat, boot: nat, epoch: nat, policy: PolicyRef,
    lastEvaluation: int, evaluationCount: nat, refusalCount: nat, interventionCount: nat,
    incidentStreak: nat, cleanStreak: nat, recovery: RecoveryTracker,
    history: seq<WindowRecord>, interventions: seq<Intervention>,
    lastSequence: seq<nat>, lastSequenceBoot: nat, nextInterventionGeneration: nat,
    requiresRevalidation: bool, restoredFromDurable: bool, restoreCount: nat) {
    /** The structural checks on a state about to be restored. */
    predicate Valid() {
      && |history| <= MAX_HISTORY && |interventions| <= MAX_INTERVENTIONS
      && forall i | 0 <= i < |interventions| :: interventions[i].id != 0 && interventions[i].intent.bounded
    }
  }

  const NO_SEQUENCES: seq<nat> := [0, 0, 0, 0, 0, 0, 0, 0]

  const EMPTY_STATE: GovernorState :=
    GovernorState(0, 0, 0, 0, 0, PolicyRef(0, 0), 0, 0, 0, 0, 0, 0, NO_RECOVERY, [], [], NO_SEQUENCES, 0, 1,
                  true, false, 0)

  /** Live records become candidates for revalidation. */
  function Revalidated(rs: seq<Intervention>): (r: seq<Intervention>)
    ensures |r| == |rs|
    ensures forall i | 0 <= i < |rs| :: r[i] == if rs[i].Live() then rs[i].(state := Revalidating) else rs[i]
  {
    if rs == [] then []
    else Revalidated(rs[..|rs| - 1]) + [if rs[|rs| - 1].Live() then rs[|rs| - 1].(state := Revalidating) else rs[|rs| - 1]]
  }

  /** What recovery does to the state it read: durable state never restores liveness or authority. */
  function Recovered(s: GovernorState): GovernorState {
    s.(interventions := Revalidated(s.interventions), requiresRevalidation := true, epoch := 0, boot := 0,
       restoredFromDurable := true, restoreCount := s.restoreCount + 1, recovery := NO_RECOVERY,
       incidentStreak := 0, cleanStreak := 0)
  }
}
