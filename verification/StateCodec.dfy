/** The serialised governor state: nested, length-prefixed encodings of intents, interventions and
    the state itself, in a checked container. */
module StateCodec {
  import opened Words
  import opened Outcomes
  import opened Codec
  import opened Crc32c
  import opened Model

  const STATE_MAGIC: nat := 0x5453_4749
  const SNAPSHOT_VERSION: nat := 1
  const MAX_RECORD_BYTES: nat := 0x4_0000
  const MAX_PAYLOAD_BYTES: nat := MAX_RECORD_BYTES * 64

  // ----- Enumerators and their codes -----

  const MITIGATION_KINDS: seq<MitigationKind> :=
    [NoMitigation, PacingHint, SenderStaggering, TemporaryAdmissionReduction, PriorityAwareRateReduction,
     TemporaryHeadroomAdjustment, CongestionEscalation]

  const SCOPES: seq<MitigationScope> := [NoScope, DestinationScope, QueueScope, SenderSet, ResourceScope]

  const STATES: seq<InterventionState> :=
    [Proposed, Authorized, Active, Relaxing, Revalidating, Retired, Fenced, Refused, Expired]

  const REFUSALS: seq<RefusalReason> :=
    [NoRefusal, PolicyDisabled, NoIncident, MissingEvidence, StaleEvidence, ContradictoryEvidence,
     ReorderedEvidence, SupersededEvidence, OutOfWindowEvidence, EventMismatch, DestinationMismatch,
     PolicyGenerationMismatch, EpochMismatch, BootMismatch, LeaseMissing, LeaseExpired, IdentityCollision,
     ProtectedFloorConflict, NoMitigablePopulation, BoundsExceeded, AwaitingRecoveryPolicy, MalformedBundle,
     CapacityNotRevalidated]

  const KINDS: seq<IncidentKind> :=
    [UnknownKind, NoFanIn, OrdinaryManyToOne, SynchronizedIncastRisk, ActiveIncast, Recovery]

  const SEVERITIES: seq<Severity> := [NoSeverity, Advisory, Elevated, Severe, Critical]

  function MitigationCode(k: MitigationKind): (c: nat)
    ensures c < |MITIGATION_KINDS| && MITIGATION_KINDS[c] == k
  {
    match k
    case NoMitigation => 0
    case PacingHint => 1
    case SenderStaggering => 2
    case TemporaryAdmissionReduction => 3
    case PriorityAwareRateReduction => 4
    case TemporaryHeadroomAdjustment => 5
    case CongestionEscalation => 6
  }

  function ScopeCode(s: MitigationScope): (c: nat)
    ensures c < |SCOPES| && SCOPES[c] == s
  {
    match s
    case NoScope => 0
    case DestinationScope => 1
    case QueueScope => 2
    case SenderSet => 3
    case ResourceScope => 4
  }

  function StateCode(s: InterventionState): (c: nat)
    ensures c < |STATES| && STATES[c] == s
  {
    match s
    case Proposed => 0
    case Authorized => 1
    case Active => 2
    case Relaxing => 3
    case Revalidating => 4
    case Retired => 5
    case Fenced => 6
    case Refused => 7
    case Expired => 8
  }

  function RefusalCode(r: RefusalReason): (c: nat)
    ensures c < |REFUSALS| && REFUSALS[c] == r
  {
    match r
    case NoRefusal => 0
    case PolicyDisabled => 1
    case NoIncident => 2
    case MissingEvidence => 3
    case StaleEvidence => 4
    case ContradictoryEvidence => 5
    case ReorderedEvidence => 6
    case SupersededEvidence => 7
    case OutOfWindowEvidence => 8
    case EventMismatch => 9
    case DestinationMismatch => 10
    case PolicyGenerationMismatch => 11
    case EpochMismatch => 12
    case BootMismatch => 13
    case LeaseMissing => 14
    case LeaseExpired => 15
    case IdentityCollision => 16
    case ProtectedFloorConflict => 17
    case NoMitigablePopulation => 18
    case BoundsExceeded => 19
    case AwaitingRecoveryPolicy => 20
    case MalformedBundle => 21
    case CapacityNotRevalidated => 22
  }

  function KindCode(k: IncidentKind): (c: nat)
    ensures c < |KINDS| && KINDS[c] == k
  {
    match k
    case UnknownKind => 0
    case NoFanIn => 1
    case OrdinaryManyToOne => 2
    case SynchronizedIncastRisk => 3
    case ActiveIncast => 4
    case Recovery => 5
  }

  function SeverityCode(s: Severity): (c: nat)
    ensures c < |SEVERITIES| && SEVERITIES[c] == s
  {
    match s
    case NoSeverity => 0
    case Advisory => 1
    case Elevated => 2
    case Severe => 3
    case Critical => 4
  }

  function ServiceCode(s: ServiceClass): (c: nat)
    ensures c < |SERVICES| && SERVICES[c] == s
  {
    Strength(s)
  }

  function Bit(b: bool): (v: nat)
    ensures v <= 1
  {
    if b then 1 else 0
  }

  /** Ratios above the supported maximum are clamped as they are read. */
  function Clamped(v: nat): BasisPoints { if v > BP_MAX then BP_MAX else v }

  // ----- Intents -----

  const INTENT_HEAD: seq<Kind> :=
    [Code(6), Code(4), U64, U64, U64, U64, U64, U64, U64, U64, U64, U64, U64, U64, U64, U64,
     I64, I64, I64, U32, U32, U32, U64, U32]

  const INTENT_TAIL: seq<Kind> := [U64, U64, U64, U64, U64, U64, U64, U16]

  const IDENTITY: seq<Kind> := [U64, U64, U64]

  const SERVICE: seq<Kind> := [Code(5)]

  function IntentHead(i: MitigationIntent): (vs: seq<int>)
    ensures |vs| == |INTENT_HEAD|
  {
    [MitigationCode(i.kind), ScopeCode(i.scope), i.intervention, i.generation,
     i.origin.event, i.origin.eventGeneration, i.origin.destination, i.origin.destinationGeneration,
     i.origin.window, i.origin.windowGeneration, i.policy.id, i.policy.generation,
     i.binding.epoch, i.binding.boot, i.binding.worker, i.binding.lease,
     i.issuedAt, i.expiresAt, i.duration, i.reductionBp, i.admissionReductionBp, i.aggregateReductionBp,
     i.headroomBytes, i.staggerSlots]
  }

  function IntentFlags(i: MitigationIntent): nat {
    FlagWord([i.bounded, i.clamped, i.insufficient, i.escalating, i.relaxesPrior, i.continuesPrior])
  }

  /** Flags packed into a word, the first in the lowest bit. */
  function FlagWord(flags: seq<bool>): nat {
    if flags == [] then 0 else Bit(flags[0]) + 2 * FlagWord(flags[1..])
  }

  predicate BitAt(w: nat, k: nat)
    decreases k
  {
    if k == 0 then w % 2 == 1 else BitAt(w / 2, k - 1)
  }

  lemma {:induction false} FlagReadsBack(flags: seq<bool>, k: nat)
    requires k < |flags|
    ensures BitAt(FlagWord(flags), k) == flags[k]
  {
    var rest := FlagWord(flags[1..]);
    assert FlagWord(flags) % 2 == Bit(flags[0]) && FlagWord(flags) / 2 == rest;
    if k > 0 {
      FlagReadsBack(flags[1..], k - 1);
    }
  }

  function IntentTail(i: MitigationIntent): (vs: seq<int>)
    ensures |vs| == |INTENT_TAIL|
  {
    [i.queue, i.resource, i.protectedOffered, i.protectedFloor, i.resultingOffered, i.requiredReduction,
     i.achievableReduction, IntentFlags(i)]
  }

  function Identities(ids: seq<SenderIdentity>): (items: seq<seq<int>>)
    ensures |items| == |ids|
    ensures forall i | 0 <= i < |ids| :: items[i] == [ids[i].sender, ids[i].incarnation, ids[i].flow]
  {
    seq(|ids|, i requires 0 <= i < |ids| => [ids[i].sender, ids[i].incarnation, ids[i].flow])
  }

  function Services(ss: seq<ServiceClass>): (items: seq<seq<int>>)
    ensures |items| == |ss|
    ensures forall i | 0 <= i < |ss| :: items[i] == [ServiceCode(ss[i])]
  {
    seq(|ss|, i requires 0 <= i < |ss| => [ServiceCode(ss[i])])
  }

  function EncodeIntent(i: MitigationIntent): seq<byte> {
    PutRun(INTENT_HEAD, IntentHead(i))
    + (PutCounted(IDENTITY, Identities(i.penalized))
       + (PutCounted(SERVICE, Services(i.affected))
          + PutRun(INTENT_TAIL, IntentTail(i))))
  }

  function IntentFrom(h: seq<int>, ids: seq<seq<int>>, ss: seq<seq<int>>, t: seq<int>): MitigationIntent
    requires FitsRun(INTENT_HEAD, h) && FitsItems(IDENTITY, ids) && FitsItems(SERVICE, ss) && FitsRun(INTENT_TAIL, t)
  {
    MitigationIntent(
      MITIGATION_KINDS[h[0]], SCOPES[h[1]], h[2], h[3], Origin(h[4], h[5], h[6], h[7], h[8], h[9]),
      PolicyRef(h[10], h[11]), Binding(h[12], h[13], h[14], h[15]), h[16], h[17], h[18],
      Clamped(h[19]), Clamped(h[20]), Clamped(h[21]), h[22], h[23],
      seq(|ids|, i requires 0 <= i < |ids| => IdentityFrom(ids[i])),
      seq(|ss|, i requires 0 <= i < |ss| => ServiceFrom(ss[i])),
      t[0], t[1], t[2], t[3], t[4], t[5], t[6],
      BitAt(t[7], 0), BitAt(t[7], 1), BitAt(t[7], 2), BitAt(t[7], 3), BitAt(t[7], 4), BitAt(t[7], 5))
  }

  function IdentityFrom(item: seq<int>): SenderIdentity
    requires FitsRun(IDENTITY, item)
  {
    SenderIdentity(item[0], item[1], item[2])
  }

  function ServiceFrom(item: seq<int>): ServiceClass
    requires FitsRun(SERVICE, item)
  {
    SERVICES[item[0]]
  }

  function DecodeIntent(bytes: seq<byte>): Outcome<MitigationIntent> {
    var (head, afterHead) :- TakeRun(INTENT_HEAD, bytes);
    var (ids, afterIds) :- TakeCounted(IDENTITY, MAX_PENALIZED, afterHead);
    var (services, afterServices) :- TakeCounted(SERVICE, |SERVICES|, afterIds);
    var (tail, rest) :- TakeRun(INTENT_TAIL, afterServices);
    if rest != [] then Err(MalformedInput) else Ok(IntentFrom(head, ids, services, tail))
  }

  /** The intents the encoding can hold: every number in its width, no list beyond its bound. */
  predicate StorableIntent(i: MitigationIntent) {
    && FitsRun(INTENT_HEAD, IntentHead(i)) && FitsRun(INTENT_TAIL, IntentTail(i))
    && FitsItems(IDENTITY, Identities(i.penalized))
    && |i.penalized| <= MAX_PENALIZED && |i.affected| <= |SERVICES|
  }

  lemma ServicesFit(ss: seq<ServiceClass>)
    ensures FitsItems(SERVICE, Services(ss))
  {}

  lemma IntentReadsBack(i: MitigationIntent)
    requires StorableIntent(i) && FitsItems(SERVICE, Services(i.affected))
    ensures IntentFrom(IntentHead(i), Identities(i.penalized), Services(i.affected), IntentTail(i)) == i
  {
    hide Fits, FlagWord, BitAt;
    var flags := [i.bounded, i.clamped, i.insufficient, i.escalating, i.relaxesPrior, i.continuesPrior];
    FlagReadsBack(flags, 0);
    FlagReadsBack(flags, 1);
    FlagReadsBack(flags, 2);
    FlagReadsBack(flags, 3);
    FlagReadsBack(flags, 4);
    FlagReadsBack(flags, 5);
    var j := IntentFrom(IntentHead(i), Identities(i.penalized), Services(i.affected), IntentTail(i));
    assert j.penalized == i.penalized;
    assert j.affected == i.affected;
  }

  lemma IntentRoundTrip(i: MitigationIntent)
    requires StorableIntent(i)
    ensures DecodeIntent(EncodeIntent(i)) == Ok(i)
  {
    hide PutRun, TakeRun, PutCounted, TakeCounted, IntentHead, IntentTail, Identities, Services, IntentFrom;
    var ids, services, tail := PutCounted(IDENTITY, Identities(i.penalized)), PutCounted(SERVICE, Services(i.affected)),
      PutRun(INTENT_TAIL, IntentTail(i));
    ServicesFit(i.affected);
    TakeRunAfterPutRun(INTENT_HEAD, IntentHead(i), ids + (services + tail));
    TakeCountedAfterPutCounted(IDENTITY, MAX_PENALIZED, Identities(i.penalized), services + tail);
    TakeCountedAfterPutCounted(SERVICE, |SERVICES|, Services(i.affected), tail);
    TakeRunAfterPutRun(INTENT_TAIL, IntentTail(i), []);
    assert tail + [] == tail;
    IntentReadsBack(i);
  }

  /** Nothing may follow an intent. */
  lemma IntentsStandAlone(i: MitigationIntent, more: seq<byte>)
    requires StorableIntent(i) && more != []
    ensures DecodeIntent(EncodeIntent(i) + more) == Err(MalformedInput)
  {
    hide PutRun, TakeRun, PutCounted, TakeCounted, IntentHead, IntentTail, Identities, Services, IntentFrom;
    var ids, services, tail := PutCounted(IDENTITY, Identities(i.penalized)), PutCounted(SERVICE, Services(i.affected)),
      PutRun(INTENT_TAIL, IntentTail(i));
    ServicesFit(i.affected);
    assert EncodeIntent(i) + more == PutRun(INTENT_HEAD, IntentHead(i)) + (ids + (services + (tail + more)));
    TakeRunAfterPutRun(INTENT_HEAD, IntentHead(i), ids + (services + (tail + more)));
    TakeCountedAfterPutCounted(IDENTITY, MAX_PENALIZED, Identities(i.penalized), services + (tail + more));
    TakeCountedAfterPutCounted(SERVICE, |SERVICES|, Services(i.affected), tail + more);
    TakeRunAfterPutRun(INTENT_TAIL, IntentTail(i), more);
  }

  /** A ratio beyond the supported maximum is read as the maximum. */
  lemma RatiosAreCapped(v: nat)
    ensures Clamped(v) <= 1_000_000 && (v <= 1_000_000 ==> Clamped(v) == v) && (v > 1_000_000 ==> Clamped(v) == 1_000_000)
  {}

  // ----- Interventions -----

  const RECORD_HEAD: seq<Kind> :=
    [U64, U64, U64, U64, U64, U64, Code(8), U64, U64, U64, U64, U64, U64, I64, I64, I64, I64, U32, U32, U32, Code(22)]

  function RecordHead(r: Intervention): (vs: seq<int>)
    ensures |vs| == |RECORD_HEAD|
  {
    [r.id, r.generation, r.destination, r.destinationGeneration, r.window, r.windowGeneration, StateCode(r.state),
     r.binding.epoch, r.binding.boot, r.binding.worker, r.binding.lease, r.policy.id, r.policy.generation,
     r.createdAt, r.updatedAt, r.expiresAt, r.lastRelaxedAt, r.appliedReductionBp, r.relaxSteps, r.continueSteps,
     RefusalCode(r.refusal)]
  }

  function RecordFrom(h: seq<int>, detail: seq<byte>, intent: MitigationIntent): Intervention
    requires FitsRun(RECORD_HEAD, h)
  {
    Intervention(h[0], h[1], h[2], h[3], h[4], h[5], STATES[h[6]], intent, Binding(h[7], h[8], h[9], h[10]),
                 PolicyRef(h[11], h[12]), h[13], h[14], h[15], h[16], Clamped(h[17]), h[18], h[19],
                 REFUSALS[h[20]], detail)
  }

  /** A nested encoding is preceded by its length. */
  function PutNested(bytes: seq<byte>): seq<byte> { Put(U32, |bytes|) + bytes }

  function TakeNested(bs: seq<byte>): (r: Outcome<(seq<byte>, seq<byte>)>) {
    var (length, rest) :- Take(U32, bs);
    if length > MAX_RECORD_BYTES then Err(OversizedInput) else TakeRaw(length, rest)
  }

  lemma TakeNestedAfterPutNested(bytes: seq<byte>, rest: seq<byte>)
    requires |bytes| <= MAX_RECORD_BYTES
    ensures TakeNested(PutNested(bytes) + rest) == Ok((bytes, rest))
  {
    assert PutNested(bytes) + rest == Put(U32, |bytes|) + (bytes + rest);
    TakeAfterPut(U32, |bytes|, bytes + rest);
    TakeRawAfter(bytes, rest);
  }

  function EncodeIntervention(r: Intervention): seq<byte> {
    PutRun(RECORD_HEAD, RecordHead(r)) + (PutString(r.refusalDetail) + PutNested(EncodeIntent(r.intent)))
  }

  function DecodeIntervention(bytes: seq<byte>): Outcome<Intervention> {
    var (head, afterHead) :- TakeRun(RECORD_HEAD, bytes);
    var (detail, afterDetail) :- TakeString(afterHead);
    var (nested, rest) :- TakeNested(afterDetail);
    var intent :- DecodeIntent(nested);
    if rest != [] then Err(MalformedInput) else Ok(RecordFrom(head, detail, intent))
  }

  predicate Storable(r: Intervention) {
    FitsRun(RECORD_HEAD, RecordHead(r)) && |r.refusalDetail| <= MAX_STRING && StorableIntent(r.intent)
  }

  lemma {:induction false} RunWidthBound(ks: seq<Kind>)
    ensures RunWidth(ks) <= 8 * |ks|
  {
    if ks != [] {
      RunWidthBound(ks[1..]);
    }
  }

  lemma CountedLength(ks: seq<Kind>, items: seq<seq<int>>, limit: nat)
    requires forall i | 0 <= i < |items| :: |items[i]| == |ks|
    requires |items| <= limit
    ensures |PutCounted(ks, items)| <= 4 + limit * (8 * |ks|)
  {
    hide RunWidth, PutItems, Put;
    ItemsLength(ks, items);
    RunWidthBound(ks);
    var n, w, m := |items|, RunWidth(ks), 8 * |ks|;
    assert n * w <= limit * m by {
      assert n * w <= n * m;
      assert n * m <= limit * m;
    }
  }

  lemma IntentLength(i: MitigationIntent)
    requires |i.penalized| <= MAX_PENALIZED && |i.affected| <= |SERVICES|
    ensures |EncodeIntent(i)| <= 24_888
  {
    hide PutRun, PutCounted, IntentHead, IntentTail, RunWidth, Identities, Services;
    RunLength(INTENT_HEAD, IntentHead(i));
    RunWidthBound(INTENT_HEAD);
    RunLength(INTENT_TAIL, IntentTail(i));
    RunWidthBound(INTENT_TAIL);
    CountedLength(IDENTITY, Identities(i.penalized), MAX_PENALIZED);
    CountedLength(SERVICE, Services(i.affected), |SERVICES|);
  }

  lemma InterventionLength(r: Intervention)
    requires |r.intent.penalized| <= MAX_PENALIZED && |r.intent.affected| <= |SERVICES|
    ensures |EncodeIntervention(r)| <= 25_832
  {
    hide PutRun, EncodeIntent, RecordHead, RunWidth;
    RunLength(RECORD_HEAD, RecordHead(r));
    RunWidthBound(RECORD_HEAD);
    IntentLength(r.intent);
  }

  lemma InterventionRoundTrip(r: Intervention)
    requires Storable(r)
    ensures DecodeIntervention(EncodeIntervention(r)) == Ok(r)
  {
    hide PutRun, TakeRun, PutString, TakeString, PutNested, TakeNested, EncodeIntent, DecodeIntent, IntentHead, IntentTail;
    var nested := PutNested(EncodeIntent(r.intent));
    TakeRunAfterPutRun(RECORD_HEAD, RecordHead(r), PutString(r.refusalDetail) + nested);
    TakeStringAfterPutString(r.refusalDetail, nested);
    IntentLength(r.intent);
    TakeNestedAfterPutNested(EncodeIntent(r.intent), []);
    assert nested + [] == nested;
    IntentRoundTrip(r.intent);
    RecordReadsBack(r);
  }

  lemma RecordReadsBack(r: Intervention)
    requires FitsRun(RECORD_HEAD, RecordHead(r))
    ensures RecordFrom(RecordHead(r), r.refusalDetail, r.intent) == r
  {}

  // ----- The whole state -----

  const STATE_HEAD: seq<Kind> :=
    [U64, U64, U64, U64, U64, U64, U64, I64, U64, U64, U64, U32, U32, Nonzero64, Flag, Flag, U32]

  /** Recovery accounting and the accepted evidence sequences. */
  const TRACKING: seq<Kind> :=
    [Flag, I64, U32, U32, U64, Flag, U64, U64, U64, U64, U64, U64, U64, U64, U64]

  const HISTORY: seq<Kind> := [U64, U64, I64, I64, Code(5), Code(4), U32, U32, U32, Flag]

  function StateHead(s: GovernorState): (vs: seq<int>)
    ensures |vs| == |STATE_HEAD|
  {
    [s.generation, s.destination, s.destinationGeneration, s.boot, s.epoch, s.policy.id, s.policy.generation,
     s.lastEvaluation, s.evaluationCount, s.refusalCount, s.interventionCount, s.incidentStreak, s.cleanStreak,
     s.nextInterventionGeneration, Bit(s.requiresRevalidation), Bit(s.restoredFromDurable), s.restoreCount]
  }

  function Tracking(s: GovernorState): (vs: seq<int>)
    requires |s.lastSequence| == CLASSES
    ensures |vs| == |TRACKING|
  {
    [Bit(s.recovery.tracking), s.recovery.since, s.recovery.cleanWindows, s.recovery.incidentWindows,
     s.recovery.dropsDuringRecovery, Bit(s.recovery.capacityRevalidated),
     s.lastSequenceBoot, s.lastSequence[0], s.lastSequence[1], s.lastSequence[2], s.lastSequence[3],
     s.lastSequence[4], s.lastSequence[5], s.lastSequence[6], s.lastSequence[7]]
  }

  function WindowItem(w: WindowRecord): (item: seq<int>)
    ensures |item| == |HISTORY|
  {
    [w.window, w.windowGeneration, w.start, w.end, KindCode(w.kind), SeverityCode(w.severity), w.oversubscriptionBp,
     w.queuePressureBp, w.activeSenders, Bit(w.authoritative)]
  }

  function WindowFrom(item: seq<int>): WindowRecord
    requires FitsRun(HISTORY, item)
  {
    WindowRecord(item[0], item[1], item[2], item[3], KINDS[item[4]], SEVERITIES[item[5]], Clamped(item[6]),
                 Clamped(item[7]), item[8], item[9] == 1)
  }

  function Windows(ws: seq<WindowRecord>): (items: seq<seq<int>>)
    ensures |items| == |ws|
    ensures forall i | 0 <= i < |ws| :: items[i] == WindowItem(ws[i])
  {
    seq(|ws|, i requires 0 <= i < |ws| => WindowItem(ws[i]))
  }

  function PutInterventions(rs: seq<Intervention>): seq<byte> {
    if rs == [] then [] else PutNested(EncodeIntervention(rs[0])) + PutInterventions(rs[1..])
  }

  function TakeInterventions(n: nat, bs: seq<byte>): (r: Outcome<(seq<Intervention>, seq<byte>)>)
    ensures r.Ok? ==> |r.value.0| == n
  {
    if n == 0 then Ok(([], bs))
    else
      var (nested, afterFirst) :- TakeNested(bs);
      var first :- DecodeIntervention(nested);
      var (others, rest) :- TakeInterventions(n - 1, afterFirst);
      Ok(([first] + others, rest))
  }

  function EncodePayload(s: GovernorState): seq<byte>
    requires |s.lastSequence| == CLASSES
  {
    PutRun(STATE_HEAD, StateHead(s))
    + (PutRun(TRACKING, Tracking(s))
       + (PutCounted(HISTORY, Windows(s.history))
          + (Put(U32, |s.interventions|) + PutInterventions(s.interventions))))
  }

  function StateFrom(h: seq<int>, t: seq<int>, ws: seq<seq<int>>, rs: seq<Intervention>): GovernorState
    requires FitsRun(STATE_HEAD, h) && FitsRun(TRACKING, t) && FitsItems(HISTORY, ws)
  {
    GovernorState(h[0], h[1], h[2], h[3], h[4], PolicyRef(h[5], h[6]), h[7], h[8], h[9], h[10], h[11], h[12],
                  RecoveryFrom(t), seq(|ws|, i requires 0 <= i < |ws| => WindowFrom(ws[i])), rs,
                  SequencesFrom(t), BootFrom(t), h[13], h[14] == 1, h[15] == 1, h[16])
  }

  function RecoveryFrom(t: seq<int>): RecoveryTracker
    requires FitsRun(TRACKING, t)
  {
    RecoveryTracker(t[0] == 1, t[1], t[2], t[3], t[4], t[5] == 1)
  }

  function BootFrom(t: seq<int>): nat
    requires FitsRun(TRACKING, t)
  {
    t[6]
  }

  function SequencesFrom(t: seq<int>): seq<nat>
    requires FitsRun(TRACKING, t)
  {
    [t[7], t[8], t[9], t[10], t[11], t[12], t[13], t[14]]
  }

  /** The payload; the program does not look at bytes after the last intervention. */
  function DecodePayload(payload: seq<byte>, generation: int): Outcome<GovernorState> {
    var (head, afterHead) :- TakeRun(STATE_HEAD, payload);
    var (tracking, afterTracking) :- TakeRun(TRACKING, afterHead);
    var (windows, afterHistory) :- TakeCounted(HISTORY, MAX_HISTORY, afterTracking);
    var (count, afterCount) :- Take(U32, afterHistory);
    if count > MAX_INTERVENTIONS then Err(OversizedInput)
    else
      var (records, _) :- TakeInterventions(count, afterCount);
      var s := StateFrom(head, tracking, windows, records);
      if !s.Valid() || s.generation != generation then Err(CorruptState) else Ok(s)
  }

  function EncodeState(s: GovernorState): seq<byte>
    requires |s.lastSequence| == CLASSES
  {
    var payload := EncodePayload(s);
    Put(U32, STATE_MAGIC) + (Put(U16, SNAPSHOT_VERSION) + (Put(U64, s.generation)
    + (Put(U32, |payload|) + (Put(U32, Checksum(payload)) + payload))))
  }

  function DecodeState(bytes: seq<byte>): Outcome<GovernorState> {
    var (magic, afterMagic) :- Take(U32, bytes);
    if magic != STATE_MAGIC then Err(CorruptState)
    else
      var (version, afterVersion) :- Take(U16, afterMagic);
      if version != SNAPSHOT_VERSION then Err(UnsupportedVersion)
      else
        var (generation, afterGeneration) :- Take(U64, afterVersion);
        var (length, afterLength) :- Take(U32, afterGeneration);
        if length > MAX_PAYLOAD_BYTES then Err(OversizedInput)
        else
          var (checksum, rest) :- Take(U32, afterLength);
          if |rest| < length then Err(TruncatedInput)
          else if Checksum(rest[..length]) != checksum then Err(ChecksumMismatch)
          else DecodePayload(rest[..length], generation)
  }

  /** Every encoded state begins with the letters IGST. */
  lemma StatesBegin(s: GovernorState)
    requires |s.lastSequence| == CLASSES
    ensures |EncodeState(s)| >= 4 && EncodeState(s)[..4] == [0x49, 0x47, 0x53, 0x54]
  {
    hide Checksum, Put, EncodePayload;
    BytesOfWord(STATE_MAGIC);
  }

  /** The states the encoding can hold. */
  predicate StorableState(s: GovernorState) {
    && |s.lastSequence| == CLASSES
    && FitsRun(STATE_HEAD, StateHead(s)) && FitsRun(TRACKING, Tracking(s)) && FitsItems(HISTORY, Windows(s.history))
    && s.Valid() && forall i | 0 <= i < |s.interventions| :: Storable(s.interventions[i])
  }

  lemma {:induction false} InterventionsRoundTrip(rs: seq<Intervention>)
    requires forall i | 0 <= i < |rs| :: Storable(rs[i])
    ensures TakeInterventions(|rs|, PutInterventions(rs)) == Ok((rs, []))
    ensures |PutInterventions(rs)| <= 25_836 * |rs|
  {
    hide EncodeIntervention, DecodeIntervention, PutNested, TakeNested, Storable;
    if rs != [] {
      var first := EncodeIntervention(rs[0]);
      StorableSizes(rs[0]);
      InterventionRoundTrip(rs[0]);
      TakeNestedAfterPutNested(first, PutInterventions(rs[1..]));
      NestedLength(first);
      InterventionsRoundTrip(rs[1..]);
      assert rs == [rs[0]] + rs[1..];
    }
  }

  lemma StorableSizes(r: Intervention)
    requires Storable(r)
    ensures |EncodeIntervention(r)| <= 25_832
  {
    InterventionLength(r);
  }

  lemma NestedLength(bytes: seq<byte>)
    ensures |PutNested(bytes)| == 4 + |bytes|
  {}

  lemma WindowsReadBack(ws: seq<WindowRecord>)
    requires FitsItems(HISTORY, Windows(ws))
    ensures forall i | 0 <= i < |ws| :: WindowFrom(Windows(ws)[i]) == ws[i]
  {
    forall i | 0 <= i < |ws| ensures WindowFrom(Windows(ws)[i]) == ws[i] {
      WindowReadsBack(ws[i]);
    }
  }

  lemma WindowReadsBack(w: WindowRecord)
    requires FitsRun(HISTORY, WindowItem(w))
    ensures WindowFrom(WindowItem(w)) == w
  {}

  lemma StateReadsBack(s: GovernorState)
    requires StorableState(s)
    ensures StateFrom(StateHead(s), Tracking(s), Windows(s.history), s.interventions) == s
  {
    hide Fits, WindowFrom, WindowItem, Storable;
    var t := StateFrom(StateHead(s), Tracking(s), Windows(s.history), s.interventions);
    WindowsReadBack(s.history);
    assert t.history == s.history;
    assert t.lastSequence == s.lastSequence;
  }

  lemma PayloadLength(s: GovernorState)
    requires StorableState(s)
    ensures |EncodePayload(s)| <= MAX_PAYLOAD_BYTES
  {
    hide PutRun, PutCounted, PutInterventions, StateHead, Tracking, RunWidth, Fits, Storable, Windows;
    RunLength(STATE_HEAD, StateHead(s));
    RunWidthBound(STATE_HEAD);
    RunLength(TRACKING, Tracking(s));
    RunWidthBound(TRACKING);
    CountedLength(HISTORY, Windows(s.history), MAX_HISTORY);
    InterventionsRoundTrip(s.interventions);
  }

  lemma PayloadRoundTrip(s: GovernorState)
    requires StorableState(s)
    ensures DecodePayload(EncodePayload(s), s.generation) == Ok(s)
  {
    hide PutRun, TakeRun, PutCounted, TakeCounted, PutInterventions, TakeInterventions, StateHead, Tracking, StateFrom, Put, Storable, Take;
    var records := PutInterventions(s.interventions);
    var counted := Put(U32, |s.interventions|) + records;
    var windows := PutCounted(HISTORY, Windows(s.history)) + counted;
    TakeRunAfterPutRun(STATE_HEAD, StateHead(s), PutRun(TRACKING, Tracking(s)) + windows);
    TakeRunAfterPutRun(TRACKING, Tracking(s), windows);
    TakeCountedAfterPutCounted(HISTORY, MAX_HISTORY, Windows(s.history), counted);
    TakeAfterPut(U32, |s.interventions|, records);
    InterventionsRoundTrip(s.interventions);
    StateReadsBack(s);
  }

  /** A stored state is read back exactly, whatever follows it. */
  lemma StateRoundTrip(s: GovernorState, rest: seq<byte>)
    requires StorableState(s)
    ensures DecodeState(EncodeState(s) + rest) == Ok(s)
  {
    hide Put, Take, EncodePayload, DecodePayload, Checksum, StateHead, Windows;
    var payload := EncodePayload(s);
    PayloadLength(s);
    GenerationFits(s);
    var a4 := payload + rest;
    var a3 := Put(U32, Checksum(payload)) + a4;
    var a2 := Put(U32, |payload|) + a3;
    var a1 := Put(U64, s.generation) + a2;
    var a0 := Put(U16, SNAPSHOT_VERSION) + a1;
    assert EncodeState(s) + rest == Put(U32, STATE_MAGIC) + a0;
    TakeAfterPut(U32, STATE_MAGIC, a0);
    TakeAfterPut(U16, SNAPSHOT_VERSION, a1);
    TakeAfterPut(U64, s.generation, a2);
    TakeAfterPut(U32, |payload|, a3);
    TakeAfterPut(U32, Checksum(payload), a4);
    assert a4[..|payload|] == payload;
    PayloadRoundTrip(s);
  }

  lemma GenerationFits(s: GovernorState)
    requires StorableState(s)
    ensures Fits(U64, s.generation)
  {
    assert STATE_HEAD[0] == U64 && StateHead(s)[0] == s.generation;
  }

  /** No proper prefix of a stored state is accepted. */
  lemma StatePrefixRejected(s: GovernorState, bytes: seq<byte>)
    requires StorableState(s) && bytes < EncodeState(s)
    ensures DecodeState(bytes).Err?
  {
    hide DecodeState, DeclaredLength, EncodeState, FitsRun;
    if DecodeState(bytes).Ok? {
      DecodedLength(bytes);
      assert EncodeState(s) == EncodeState(s) + [];
      StateRoundTrip(s, []);
      ContainerLength(s);
      SameLengthField(bytes, EncodeState(s));
      assert false;
    }
  }

  /** The length a container declares. */
  function DeclaredLength(bytes: seq<byte>): nat
    requires |bytes| >= 18
  {
    GetInt(bytes[14..18])
  }

  lemma SameLengthField(a: seq<byte>, b: seq<byte>)
    requires a <= b && |a| >= 22
    ensures DeclaredLength(a) == DeclaredLength(b)
  {
    assert a[14..18] == b[14..18];
  }

  lemma DecodedLength(bytes: seq<byte>)
    requires DecodeState(bytes).Ok?
    ensures |bytes| >= 22 + DeclaredLength(bytes)
  {
    hide Checksum, DecodePayload;
    var a0 := bytes[4..];
    var a1 := a0[2..];
    var a2 := a1[8..];
    assert a2[..4] == bytes[14..18];
  }

  lemma ContainerLength(s: GovernorState)
    requires StorableState(s)
    ensures |EncodeState(s)| == 22 + |EncodePayload(s)| && DeclaredLength(EncodeState(s)) == |EncodePayload(s)|
  {
    hide EncodePayload, Checksum;
    PayloadLength(s);
    var n := |EncodePayload(s)|;
    assert EncodeState(s)[14..18] == Put(U32, n);
    Widths();
    GetAfterPut(n, 4);
  }

  // ----- What can be read -----

  lemma FlagWordsAreShort(flags: seq<bool>)
    requires |flags| == 6
    ensures 0 <= FlagWord(flags) < 64
  {
    assert FlagWord(flags[1..][1..][1..][1..][1..][1..]) == 0;
    assert FlagWord(flags[1..][1..][1..][1..][1..]) <= 1;
    assert FlagWord(flags[1..][1..][1..][1..]) <= 3;
    assert FlagWord(flags[1..][1..][1..]) <= 7;
    assert FlagWord(flags[1..][1..]) <= 15;
    assert FlagWord(flags[1..]) <= 31;
  }

  lemma IdentitiesFit(ids: seq<seq<int>>)
    requires FitsItems(IDENTITY, ids)
    ensures FitsItems(IDENTITY, Identities(seq(|ids|, i requires 0 <= i < |ids| => IdentityFrom(ids[i]))))
  {
    hide Fits;
    var again := Identities(seq(|ids|, i requires 0 <= i < |ids| => IdentityFrom(ids[i])));
    forall i | 0 <= i < |ids| ensures again[i] == ids[i] {
      assert FitsRun(IDENTITY, ids[i]);
      assert |ids[i]| == 3 && again[i] == [ids[i][0], ids[i][1], ids[i][2]];
    }
    assert again == ids;
  }

  lemma IntentHeadFits(h: seq<int>, ids: seq<seq<int>>, ss: seq<seq<int>>, t: seq<int>)
    requires FitsRun(INTENT_HEAD, h) && FitsItems(IDENTITY, ids) && FitsItems(SERVICE, ss) && FitsRun(INTENT_TAIL, t)
    ensures FitsRun(INTENT_HEAD, IntentHead(IntentFrom(h, ids, ss, t)))
  {
    hide FitsItems, IdentityFrom, ServiceFrom, BitAt;
    var vs := IntentHead(IntentFrom(h, ids, ss, t));
    forall i | 0 <= i < |INTENT_HEAD| ensures Fits(INTENT_HEAD[i], vs[i]) {
      assert Fits(INTENT_HEAD[i], h[i]);
      if 2 <= i < 19 || i >= 22 { assert vs[i] == h[i]; }
    }
  }

  lemma IntentTailFits(h: seq<int>, ids: seq<seq<int>>, ss: seq<seq<int>>, t: seq<int>)
    requires FitsRun(INTENT_HEAD, h) && FitsItems(IDENTITY, ids) && FitsItems(SERVICE, ss) && FitsRun(INTENT_TAIL, t)
    ensures FitsRun(INTENT_TAIL, IntentTail(IntentFrom(h, ids, ss, t)))
  {
    hide FitsItems, IdentityFrom, ServiceFrom, BitAt, FlagWord;
    var i := IntentFrom(h, ids, ss, t);
    FlagWordsAreShort([i.bounded, i.clamped, i.insufficient, i.escalating, i.relaxesPrior, i.continuesPrior]);
    var vs := IntentTail(i);
    forall k | 0 <= k < |INTENT_TAIL| ensures Fits(INTENT_TAIL[k], vs[k]) {
      assert Fits(INTENT_TAIL[k], t[k]);
      if k < 7 { assert vs[k] == t[k]; }
    }
  }

  lemma DecodedIntentIsStorable(bytes: seq<byte>)
    requires DecodeIntent(bytes).Ok?
    ensures StorableIntent(DecodeIntent(bytes).value)
  {
    hide TakeRun, TakeCounted, IntentHead, IntentTail, FitsRun, FitsItems, BitAt;
    var (head, afterHead) := TakeRun(INTENT_HEAD, bytes).value;
    var (ids, afterIds) := TakeCounted(IDENTITY, MAX_PENALIZED, afterHead).value;
    var (services, afterServices) := TakeCounted(SERVICE, |SERVICES|, afterIds).value;
    var (tail, rest) := TakeRun(INTENT_TAIL, afterServices).value;
    IntentHeadFits(head, ids, services, tail);
    IntentTailFits(head, ids, services, tail);
    IdentitiesFit(ids);
  }

  lemma RecordHeadFits(h: seq<int>, detail: seq<byte>, intent: MitigationIntent)
    requires FitsRun(RECORD_HEAD, h)
    ensures FitsRun(RECORD_HEAD, RecordHead(RecordFrom(h, detail, intent)))
  {
    var vs := RecordHead(RecordFrom(h, detail, intent));
    forall i | 0 <= i < |RECORD_HEAD| ensures Fits(RECORD_HEAD[i], vs[i]) {
      assert Fits(RECORD_HEAD[i], h[i]);
      if i < 6 || 7 <= i < 17 || 18 <= i < 20 { assert vs[i] == h[i]; }
    }
  }

  lemma DecodedInterventionIsStorable(bytes: seq<byte>)
    requires DecodeIntervention(bytes).Ok?
    ensures Storable(DecodeIntervention(bytes).value)
  {
    hide TakeRun, DecodeIntent, RecordHead, FitsRun, StorableIntent;
    var (head, afterHead) := TakeRun(RECORD_HEAD, bytes).value;
    var (detail, afterDetail) := TakeString(afterHead).value;
    var (nested, rest) := TakeNested(afterDetail).value;
    DecodedIntentIsStorable(nested);
    RecordHeadFits(head, detail, DecodeIntent(nested).value);
  }

  lemma {:induction false} DecodedInterventionsAreStorable(n: nat, bytes: seq<byte>)
    requires TakeInterventions(n, bytes).Ok?
    ensures forall i | 0 <= i < n :: Storable(TakeInterventions(n, bytes).value.0[i])
  {
    hide TakeNested, DecodeIntervention, Storable;
    if n > 0 {
      var (nested, afterFirst) := TakeNested(bytes).value;
      DecodedInterventionIsStorable(nested);
      DecodedInterventionsAreStorable(n - 1, afterFirst);
    }
  }

  lemma WindowsFit(ws: seq<seq<int>>)
    requires FitsItems(HISTORY, ws)
    ensures FitsItems(HISTORY, Windows(seq(|ws|, i requires 0 <= i < |ws| => WindowFrom(ws[i]))))
  {
    hide WindowFrom, WindowItem, FitsRun;
    var windows := seq(|ws|, i requires 0 <= i < |ws| => WindowFrom(ws[i]));
    forall i | 0 <= i < |ws| ensures FitsRun(HISTORY, Windows(windows)[i]) { WindowFits(ws[i]); }
  }

  lemma WindowFits(item: seq<int>)
    requires FitsRun(HISTORY, item)
    ensures FitsRun(HISTORY, WindowItem(WindowFrom(item)))
  {
    var vs := WindowItem(WindowFrom(item));
    forall i | 0 <= i < |HISTORY| ensures Fits(HISTORY[i], vs[i]) {
      assert Fits(HISTORY[i], item[i]);
      if i < 4 || i == 8 { assert vs[i] == item[i]; }
    }
  }

  lemma StateFits(h: seq<int>, t: seq<int>, ws: seq<seq<int>>, rs: seq<Intervention>)
    requires FitsRun(STATE_HEAD, h) && FitsRun(TRACKING, t) && FitsItems(HISTORY, ws)
    ensures var s := StateFrom(h, t, ws, rs);
      && FitsRun(STATE_HEAD, StateHead(s)) && FitsRun(TRACKING, Tracking(s)) && FitsItems(HISTORY, Windows(s.history))
  {
    hide FitsItems, WindowFrom, Windows;
    var s := StateFrom(h, t, ws, rs);
    WindowsFit(ws);
    var head, tracking := StateHead(s), Tracking(s);
    forall i | 0 <= i < |STATE_HEAD| ensures Fits(STATE_HEAD[i], head[i]) {
      assert Fits(STATE_HEAD[i], h[i]);
      if i < 14 || i == 16 { assert head[i] == h[i]; }
    }
    forall i | 0 <= i < |TRACKING| ensures Fits(TRACKING[i], tracking[i]) {
      assert Fits(TRACKING[i], t[i]);
      if i != 0 && i != 5 { assert tracking[i] == t[i]; }
    }
  }

  lemma DecodedPayloadIsStorable(payload: seq<byte>, generation: int)
    requires DecodePayload(payload, generation).Ok?
    ensures StorableState(DecodePayload(payload, generation).value)
  {
    hide TakeRun, TakeCounted, Take, StateFrom, FitsRun, FitsItems, Storable, StateHead, Tracking, Windows, GovernorState.Valid;
    var (head, afterHead) := TakeRun(STATE_HEAD, payload).value;
    var (tracking, afterTracking) := TakeRun(TRACKING, afterHead).value;
    var (windows, afterHistory) := TakeCounted(HISTORY, MAX_HISTORY, afterTracking).value;
    var (count, afterCount) := Take(U32, afterHistory).value;
    var (records, rest) := TakeInterventions(count, afterCount).value;
    DecodedInterventionsAreStorable(count, afterCount);
    StateFits(head, tracking, windows, records);
    StateFromKeeps(head, tracking, windows, records);
  }

  lemma StateFromKeeps(h: seq<int>, t: seq<int>, ws: seq<seq<int>>, rs: seq<Intervention>)
    requires FitsRun(STATE_HEAD, h) && FitsRun(TRACKING, t) && FitsItems(HISTORY, ws)
    ensures StateFrom(h, t, ws, rs).interventions == rs && |StateFrom(h, t, ws, rs).lastSequence| == CLASSES
  {}

  /** STORED AGAIN.  Whatever bytes are accepted as a state, the state can be stored and is read back exactly. */
  lemma AcceptedStatesAreStorable(bytes: seq<byte>)
    requires DecodeState(bytes).Ok?
    ensures var s := DecodeState(bytes).value; StorableState(s) && DecodeState(EncodeState(s)) == Ok(s)
  {
    hide DecodePayload, EncodeState, StorableState, DeclaredLength;
    AcceptedContainer(bytes);
    var s := DecodeState(bytes).value;
    DecodedPayloadIsStorable(bytes[22..22 + DeclaredLength(bytes)], s.generation);
    StoredAlone(s);
  }

  lemma StoredAlone(s: GovernorState)
    requires StorableState(s)
    ensures DecodeState(EncodeState(s)) == Ok(s)
  {
    hide DecodeState, EncodeState, FitsRun, Windows, GovernorState.Valid, Storable;
    StateRoundTrip(s, []);
    assert EncodeState(s) + [] == EncodeState(s);
  }

  lemma VersionBytes()
    ensures Put(U16, SNAPSHOT_VERSION) == [1, 0]
  {
    Widths();
    LittleEndian(1, 2, 0);
    LittleEndian(1, 2, 1);
    assert Pow256(1) == 256 && Pow256(0) == 1;
  }

  lemma MagicIs(bytes: seq<byte>)
    requires DecodeState(bytes).Ok? && |bytes| >= 22
    ensures bytes[..6] == [0x49, 0x47, 0x53, 0x54, 1, 0]
  {
    hide Checksum, DecodePayload, Put, GetInt;
    PutAfterTake(U32, bytes);
    PutAfterTake(U16, bytes[4..]);
    Widths();
    BytesOfWord(STATE_MAGIC);
    VersionBytes();
    assert bytes[4..][..2] == bytes[4..6];
    assert bytes[..6] == bytes[..4] + bytes[4..6];
  }

  /** A table that announces too many interventions is refused before any of them is read. */
  lemma TablesAreBounded(s: GovernorState, count: nat, rest: seq<byte>, generation: int)
    requires StorableState(s) && MAX_INTERVENTIONS < count < 0x1_0000_0000
    ensures DecodePayload(PutRun(STATE_HEAD, StateHead(s)) + (PutRun(TRACKING, Tracking(s))
              + (PutCounted(HISTORY, Windows(s.history)) + (Put(U32, count) + rest))), generation) == Err(OversizedInput)
  {
    hide PutRun, TakeRun, PutCounted, TakeCounted, TakeInterventions, StateHead, Tracking, StateFrom, Put, Storable, Take;
    var counted := Put(U32, count) + rest;
    var windows := PutCounted(HISTORY, Windows(s.history)) + counted;
    TakeRunAfterPutRun(STATE_HEAD, StateHead(s), PutRun(TRACKING, Tracking(s)) + windows);
    TakeRunAfterPutRun(TRACKING, Tracking(s), windows);
    TakeCountedAfterPutCounted(HISTORY, MAX_HISTORY, Windows(s.history), counted);
    TakeAfterPut(U32, count, rest);
  }

  /** THE CONTAINER.  Bytes are accepted as a state only when they name the format and its version, declare a length within
      bounds that they cover, carry the checksum of so many bytes, and the generation of the valid state that these hold. */
  lemma AcceptedContainer(bytes: seq<byte>)
    requires DecodeState(bytes).Ok?
    ensures var s := DecodeState(bytes).value;
      && |bytes| >= 22 && bytes[..6] == [0x49, 0x47, 0x53, 0x54, 1, 0] && DeclaredLength(bytes) <= 16_777_216
      && |bytes| >= 22 + DeclaredLength(bytes) && s.Valid() && s.generation == GetInt(bytes[6..14])
      && GetInt(bytes[18..22]) == Checksum(bytes[22..22 + DeclaredLength(bytes)])
      && DecodePayload(bytes[22..22 + DeclaredLength(bytes)], s.generation) == Ok(s)
  {
    hide Checksum, GetInt, TakeRun;
    DecodedLength(bytes);
    MagicIs(bytes);
    var a0 := bytes[4..];
    var a1 := a0[2..];
    var a2 := a1[8..];
    var a3 := a2[4..];
    assert a1[..8] == bytes[6..14] && a2[..4] == bytes[14..18] && a3[..4] == bytes[18..22];
    assert a3[4..][..DeclaredLength(bytes)] == bytes[22..22 + DeclaredLength(bytes)];
  }

  /** The header of a container with the given fields. */
  function ContainerOf(magic: nat, version: nat, generation: nat, length: nat, checksum: nat, rest: seq<byte>): seq<byte> {
    Put(U32, magic) + (Put(U16, version) + (Put(U64, generation) + (Put(U32, length) + (Put(U32, checksum) + rest))))
  }

  /** A container is refused for the first thing wrong with it: its format, its version, its length, what is missing of it,
      its checksum. */
  lemma RefusedContainers(magic: nat, version: nat, generation: nat, length: nat, checksum: nat, rest: seq<byte>)
    requires magic < 0x1_0000_0000 && version < 0x1_0000 && generation <= MAX_U64 && length < 0x1_0000_0000
    requires checksum < 0x1_0000_0000
    ensures var (r, known) := (DecodeState(ContainerOf(magic, version, generation, length, checksum, rest)), magic == 0x5453_4749);
      && (!known ==> r == Err(CorruptState)) && (known && version != 1 ==> r == Err(UnsupportedVersion))
      && (known && version == 1 && length > MAX_PAYLOAD_BYTES ==> r == Err(OversizedInput))
      && (known && version == 1 && |rest| < length <= MAX_PAYLOAD_BYTES ==> r == Err(TruncatedInput))
      && (known && version == 1 && length <= MAX_PAYLOAD_BYTES && length <= |rest| && checksum != Checksum(rest[..length]) ==>
            r == Err(ChecksumMismatch))
  {
    hide Put, Take, DecodePayload, Checksum;
    var a3 := Put(U32, checksum) + rest;
    var a2 := Put(U32, length) + a3;
    var a1 := Put(U64, generation) + a2;
    var a0 := Put(U16, version) + a1;
    TakeAfterPut(U32, magic, a0);
    TakeAfterPut(U16, version, a1);
    TakeAfterPut(U64, generation, a2);
    TakeAfterPut(U32, length, a3);
    TakeAfterPut(U32, checksum, rest);
  }

  /** A payload altered only within four consecutive bytes is always refused. */
  lemma DamagedStateIsRefused(s: GovernorState, damaged: seq<byte>, start: nat, rest: seq<byte>)
    requires StorableState(s) && |damaged| == |EncodePayload(s)| && damaged != EncodePayload(s)
    requires forall k | 0 <= k < |damaged| && !(start <= k < start + 4) :: damaged[k] == EncodePayload(s)[k]
    ensures |EncodeState(s)| >= 22 && DecodeState(EncodeState(s)[..22] + damaged + rest) == Err(ChecksumMismatch)
  {
    hide Put, Take, EncodePayload, DecodePayload, Checksum, StateHead, Windows;
    var payload := EncodePayload(s);
    PayloadLength(s);
    GenerationFits(s);
    ContainerLength(s);
    BurstChangesChecksum(payload, damaged, start);
    var a4 := damaged + rest;
    var a3 := Put(U32, Checksum(payload)) + a4;
    var a2 := Put(U32, |payload|) + a3;
    var a1 := Put(U64, s.generation) + a2;
    var a0 := Put(U16, SNAPSHOT_VERSION) + a1;
    assert EncodeState(s)[..22] + damaged + rest == Put(U32, STATE_MAGIC) + a0;
    TakeAfterPut(U32, STATE_MAGIC, a0);
    TakeAfterPut(U16, SNAPSHOT_VERSION, a1);
    TakeAfterPut(U64, s.generation, a2);
    TakeAfterPut(U32, |payload|, a3);
    TakeAfterPut(U32, Checksum(payload), a4);
    assert a4[..|payload|] == damaged;
  }

  /** The empty state is one of them. */
  lemma EmptyStateIsStorable()
    ensures StorableState(EMPTY_STATE)
  {
    var h, t := StateHead(EMPTY_STATE), Tracking(EMPTY_STATE);
    assert h == [0, 0, 0, 0, 0, 0, 0, 0, 0, 0, 0, 0, 0, 1, 1, 0, 0];
    assert t == [0, 0, 0, 0, 0, 0, 0, 0, 0, 0, 0, 0, 0, 0, 0];
    forall i | 0 <= i < |STATE_HEAD| ensures Fits(STATE_HEAD[i], h[i]) { if i == 13 { assert h[i] == 1; } }
  }
}
