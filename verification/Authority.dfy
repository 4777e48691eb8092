/** The evidence and authority checks a bundle passes before anything is decided from it. */
module Authority {
  import opened Words
  import opened Model
  import opened Validation

  datatype AuthorityCheck = AuthorityCheck(reason: RefusalReason, classes: seq<EvidenceState>)

  const NO_CLASSES: seq<EvidenceState> := [Unknown, Unknown, Unknown, Unknown, Unknown, Unknown, Unknown, Unknown]

  function RefusalFor(s: EvidenceState): RefusalReason {
    match s
    case Present => NoRefusal
    case Unknown => MissingEvidence
    case Stale => StaleEvidence
    case Contradictory => ContradictoryEvidence
    case Reordered => ReorderedEvidence
    case OutOfWindow => OutOfWindowEvidence
    case Superseded => SupersededEvidence
  }

  /** The horizon is compared as a signed 64-bit number. */
  function Signed(v: nat): int { if v % (MAX_U64 + 1) < 0x8000_0000_0000_0000 then v % (MAX_U64 + 1) else v % (MAX_U64 + 1) - (MAX_U64 + 1) }

  /** The state of one evidence class, given the last accepted sequence number of the class. */
  function StateOf(b: Bundle, p: Policy, last: nat, i: nat): EvidenceState
    requires i < CLASSES
  {
    var s := b.StampOf(ClassAt(i));
    var horizon := p.authority.maxFreshnessHorizonNanos;
    if s.state != Present then s.state
    else if s.observedAt == 0 then Unknown
    else if b.now != 0 && s.observedAt > b.now then Contradictory
    else if s.validUntil != 0 && b.now != 0 && b.now > s.validUntil then Stale
    else if horizon > 0 && b.now != 0 && b.now - s.observedAt > Signed(horizon) then Stale
    else if s.window != 0 && b.origin.window != 0 && s.window != b.origin.window then OutOfWindow
    else if s.sequence != 0 && last != 0 && s.sequence <= last then Reordered
    else if ClassAt(i) == Capacity && b.capacity.serviceRate == 0 then Contradictory
    else if ClassAt(i) == Provenance && (s.provenance == 0 || s.provenanceGeneration == 0) then Unknown
    else Present
  }

  function States(b: Bundle, p: Policy, last: seq<nat>, n: nat): (states: seq<EvidenceState>)
    requires |last| == CLASSES && n <= CLASSES
    ensures |states| == n
    ensures forall i | 0 <= i < n :: states[i] == StateOf(b, p, last[i], i)
  {
    if n == 0 then [] else States(b, p, last, n - 1) + [StateOf(b, p, last[n - 1], n - 1)]
  }

  /** The refusal of the first required class that is not present. */
  function FirstDenial(required: seq<bool>, states: seq<EvidenceState>, n: nat): RefusalReason
    requires n <= |states| <= |required|
  {
    if n == 0 then NoRefusal
    else
      var earlier := FirstDenial(required, states, n - 1);
      if earlier == NoRefusal && required[n - 1] then RefusalFor(states[n - 1]) else earlier
  }

  function BindingRefusal(b: Bundle, p: Policy): RefusalReason {
    if p.authority.requireMatchingBoot && b.binding.boot == 0 then BootMismatch
    else if p.authority.requireValidLease && b.binding.lease == 0 then LeaseMissing
    else if p.authority.requireValidLease && b.leaseExpiry != 0 && b.now != 0 && b.now > b.leaseExpiry then LeaseExpired
    else if p.authority.requireMatchingEpoch && b.binding.epoch == 0 then EpochMismatch
    else NoRefusal
  }

  function Check(b: Bundle, p: Policy, last: seq<nat>): AuthorityCheck
    requires |last| == CLASSES && |p.authority.requiredClasses| == CLASSES
  {
    if !p.enabled then AuthorityCheck(PolicyDisabled, NO_CLASSES)
    else if !b.StructurallyValid() then AuthorityCheck(MalformedBundle, NO_CLASSES)
    else
      var states := States(b, p, last, CLASSES);
      var denied := FirstDenial(p.authority.requiredClasses, states, CLASSES);
      var evidence := if denied == NoRefusal && p.authority.requireProvenance && states[7] != Present then MissingEvidence else denied;
      AuthorityCheck(if evidence == NoRefusal then BindingRefusal(b, p) else evidence, states)
  }

  /** The loop over the evidence classes. */
  method CheckAuthority(b: Bundle, p: Policy, last: seq<nat>) returns (check: AuthorityCheck)
    requires |last| == CLASSES && |p.authority.requiredClasses| == CLASSES
    ensures check == Check(b, p, last)
  {
    hide StateOf, RefusalFor, Bundle.StructurallyValid;
    if !p.enabled { return AuthorityCheck(PolicyDisabled, NO_CLASSES); }
    var formed := ValidateBundle(b);
    if !formed { return AuthorityCheck(MalformedBundle, NO_CLASSES); }
    var classes, reason, sawProvenance := [], NoRefusal, false;
    for index := 0 to CLASSES
      invariant classes == States(b, p, last, index)
      invariant reason == FirstDenial(p.authority.requiredClasses, classes, index)
      invariant sawProvenance == (index == CLASSES && classes[7] == Present)
    {
      var state := StateOf(b, p, last[index], index);
      DenialsOfPrefix(p.authority.requiredClasses, classes, [state], index);
      classes := classes + [state];
      if ClassAt(index) == Provenance && state == Present { sawProvenance := true; }
      if p.authority.requiredClasses[index] && state != Present && reason == NoRefusal { reason := RefusalFor(state); }
      PresentIsNoRefusal(state);
    }
    if p.authority.requireProvenance && !sawProvenance && reason == NoRefusal { reason := MissingEvidence; }
    if reason == NoRefusal {
      if p.authority.requireMatchingBoot && b.binding.boot == 0 {
        reason := BootMismatch;
      } else if p.authority.requireValidLease && b.binding.lease == 0 {
        reason := LeaseMissing;
      } else if p.authority.requireValidLease && b.leaseExpiry != 0 && b.now != 0 && b.now > b.leaseExpiry {
        reason := LeaseExpired;
      } else if p.authority.requireMatchingEpoch && b.binding.epoch == 0 {
        reason := EpochMismatch;
      }
    }
    check := AuthorityCheck(reason, classes);
  }

  lemma PresentIsNoRefusal(s: EvidenceState)
    ensures RefusalFor(s) == NoRefusal <==> s == Present
  {}

  lemma {:induction false} DenialsOfPrefix(required: seq<bool>, states: seq<EvidenceState>, more: seq<EvidenceState>, n: nat)
    requires n <= |states| && |states| + |more| <= |required|
    ensures FirstDenial(required, states + more, n) == FirstDenial(required, states, n)
  {
    if n > 0 { DenialsOfPrefix(required, states, more, n - 1); }
  }

  lemma {:induction false} NoDenial(required: seq<bool>, states: seq<EvidenceState>, n: nat)
    requires n <= |states| <= |required|
    ensures FirstDenial(required, states, n) == NoRefusal <==> forall i | 0 <= i < n :: required[i] ==> states[i] == Present
  {
    if n > 0 { NoDenial(required, states, n - 1); }
  }

  /** Authority is granted exactly when the policy is enabled, the bundle is well formed, every required class is
      present, provenance is present where required, and the required bindings are carried. */
  lemma GrantedExactlyWhen(b: Bundle, p: Policy, last: seq<nat>)
    requires |last| == CLASSES && |p.authority.requiredClasses| == CLASSES
    ensures Check(b, p, last).reason == NoRefusal <==>
      && p.enabled && b.StructurallyValid()
      && (forall i | 0 <= i < CLASSES :: p.authority.requiredClasses[i] ==> StateOf(b, p, last[i], i) == Present)
      && (p.authority.requireProvenance ==> StateOf(b, p, last[7], 7) == Present)
      && (p.authority.requireMatchingBoot ==> b.binding.boot != 0)
      && (p.authority.requireMatchingEpoch ==> b.binding.epoch != 0)
      && (p.authority.requireValidLease ==>
            b.binding.lease != 0 && (b.leaseExpiry == 0 || b.now == 0 || b.now <= b.leaseExpiry))
  {
    hide StateOf, States, FirstDenial;
    NoDenial(p.authority.requiredClasses, States(b, p, last, CLASSES), CLASSES);
  }

  /** Forgetting the accepted sequences never takes authority away. */
  lemma AuthorityWithoutHistory(b: Bundle, p: Policy, last: seq<nat>)
    requires |last| == CLASSES && |p.authority.requiredClasses| == CLASSES
    requires Check(b, p, last).reason == NoRefusal
    ensures Check(b, p, NO_SEQUENCES).reason == NoRefusal
  {
    hide Check, Bundle.StructurallyValid;
    GrantedExactlyWhen(b, p, last);
    GrantedExactlyWhen(b, p, NO_SEQUENCES);
    forall i | 0 <= i < CLASSES && StateOf(b, p, last[i], i) == Present ensures StateOf(b, p, NO_SEQUENCES[i], i) == Present {}
  }

  /** A required class that repeats a sequence number already accepted denies authority. */
  lemma ReplayIsDenied(b: Bundle, p: Policy, last: seq<nat>, i: nat)
    requires |last| == CLASSES && |p.authority.requiredClasses| == CLASSES
    requires i < CLASSES && p.authority.requiredClasses[i] && 0 < b.StampOf(ClassAt(i)).sequence <= last[i]
    ensures Check(b, p, last).reason != NoRefusal
  {
    hide Check;
    GrantedExactlyWhen(b, p, last);
  }

  // ----- Fresh evidence -----

  /** The eight classes in their order, and the stamp each is judged by: destination and capacity share one. */
  lemma StampsInOrder(b: Bundle)
    ensures seq(8, i requires 0 <= i < 8 => b.StampOf(ClassAt(i)))
         == [b.fanIn, b.timing, b.rate, b.capacityStamp, b.capacityStamp, b.queueStamp, b.service, b.provenance]
  {}

  /** Evidence of the window, observed by now and not too long ago, still valid, and newer than what was accepted before. */
  predicate IsTimely(s: Stamp, b: Bundle, horizon: nat, last: nat) {
    && s.state == Present && s.observedAt != 0 && s.observedAt <= b.now && (s.validUntil == 0 || b.now <= s.validUntil)
    && (horizon == 0 || b.now - s.observedAt <= Signed(horizon)) && (s.window == 0 || s.window == b.origin.window)
    && (s.sequence == 0 || last == 0 || s.sequence > last)
  }

  /** A class of a well-formed bundle is present exactly when its evidence is fresh and, for capacity and provenance, says
      something. */
  lemma PresentExactlyWhen(b: Bundle, p: Policy, last: nat, i: nat)
    requires b.StructurallyValid() && i < CLASSES
    ensures StateOf(b, p, last, i) == Present <==>
      && IsTimely(b.StampOf(ClassAt(i)), b, p.authority.maxFreshnessHorizonNanos, last)
      && (ClassAt(i) == Capacity ==> b.capacity.serviceRate != 0)
      && (ClassAt(i) == Provenance ==> b.provenance.provenance != 0 && b.provenance.provenanceGeneration != 0)
  {}

  /** What is wrong with evidence that is not fresh: what it says of itself, then its time, its age, its window, its
      sequence. */
  lemma AbsenceIsNamed(b: Bundle, p: Policy, last: nat, i: nat)
    requires b.StructurallyValid() && i < CLASSES
    ensures var (s, t, horizon) := (b.StampOf(ClassAt(i)), StateOf(b, p, last, i), p.authority.maxFreshnessHorizonNanos);
      var untimely := s.observedAt == 0 || s.observedAt > b.now;
      var stale := (s.validUntil != 0 && b.now > s.validUntil) || (horizon > 0 && b.now - s.observedAt > Signed(horizon));
      var strange := s.window != 0 && s.window != b.origin.window;
      && (s.state != Present ==> t == s.state)
      && (s.state == Present && untimely ==> t == if s.observedAt == 0 then Unknown else Contradictory)
      && (s.state == Present && !untimely && stale ==> t == Stale)
      && (s.state == Present && !untimely && !stale && strange ==> t == OutOfWindow)
      && (s.state == Present && !untimely && !stale && !strange && s.sequence != 0 && last != 0 && s.sequence <= last ==>
            t == Reordered)
  {}

  /** Timely evidence that says nothing: capacity without a rate contradicts itself, provenance without a source is unknown. */
  lemma SilenceIsNamed(b: Bundle, p: Policy, last: nat, i: nat)
    requires b.StructurallyValid() && i < CLASSES && StateOf(b, p, last, i) != Present
    requires IsTimely(b.StampOf(ClassAt(i)), b, p.authority.maxFreshnessHorizonNanos, last)
    ensures (i == 4 && b.capacity.serviceRate == 0 && StateOf(b, p, last, i) == Contradictory)
            || (i == 7 && StateOf(b, p, last, i) == Unknown)
  {}

  /** The horizon is read as a signed number: below half the range it is itself, and above it every age exceeds it. */
  lemma HorizonsAreSigned(v: nat)
    requires v <= MAX_U64
    ensures -0x8000_0000_0000_0000 <= Signed(v) < 0x8000_0000_0000_0000
    ensures Signed(v) == v || Signed(v) == v - 0x1_0000_0000_0000_0000
  {}

  /** So evidence is never present under a policy whose horizon is half the range or more. */
  lemma HugeHorizonsRefuse(b: Bundle, p: Policy, last: nat, i: nat)
    requires b.StructurallyValid() && i < CLASSES && 0x8000_0000_0000_0000 <= p.authority.maxFreshnessHorizonNanos <= MAX_U64
    ensures StateOf(b, p, last, i) != Present
  {
    hide StateOf;
    PresentExactlyWhen(b, p, last, i);
    HorizonsAreSigned(p.authority.maxFreshnessHorizonNanos);
  }

  /** A check that looks at the evidence tells the state of every class, whatever it decides. */
  lemma EveryClassIsTold(b: Bundle, p: Policy, last: seq<nat>)
    requires |last| == CLASSES && |p.authority.requiredClasses| == CLASSES && p.enabled && b.StructurallyValid()
    ensures |Check(b, p, last).classes| == 8
    ensures forall i | 0 <= i < 8 :: Check(b, p, last).classes[i] == StateOf(b, p, last[i], i)
  {
    hide StateOf, FirstDenial, BindingRefusal;
  }

  /** A denial is the refusal of the first required class that is not present. */
  lemma {:induction false} DenialIsTheFirst(required: seq<bool>, states: seq<EvidenceState>, n: nat)
    requires n <= |states| <= |required|
    ensures FirstDenial(required, states, n) != NoRefusal ==>
      exists i | 0 <= i < n :: required[i] && states[i] != Present && FirstDenial(required, states, n) == RefusalFor(states[i])
                               && forall j | 0 <= j < i :: required[j] ==> states[j] == Present
  {
    hide RefusalFor;
    if n > 0 {
      DenialIsTheFirst(required, states, n - 1);
      NoDenial(required, states, n - 1);
      PresentIsNoRefusal(states[n - 1]);
      if FirstDenial(required, states, n - 1) != NoRefusal {
        var i :| 0 <= i < n - 1 && required[i] && states[i] != Present && FirstDenial(required, states, n - 1) == RefusalFor(states[i])
                 && forall j | 0 <= j < i :: required[j] ==> states[j] == Present;
        assert FirstDenial(required, states, n) == RefusalFor(states[i]);
      }
    }
  }

  const STATE_ORDER: seq<EvidenceState> := [Unknown, Stale, Contradictory, Reordered, OutOfWindow, Superseded]
  const REFUSAL_ORDER: seq<RefusalReason> :=
    [MissingEvidence, StaleEvidence, ContradictoryEvidence, ReorderedEvidence, OutOfWindowEvidence, SupersededEvidence]

  /** Each way of being absent has a refusal of its own. */
  lemma RefusalsAreTheirOwn(i: nat)
    requires i < 6
    ensures RefusalFor(STATE_ORDER[i]) == REFUSAL_ORDER[i]
  {}

  /** A bundle that passes its evidence is refused for the first binding that the policy requires and it lacks. */
  lemma BindingsAreNamed(b: Bundle, p: Policy, last: seq<nat>)
    requires |last| == CLASSES && |p.authority.requiredClasses| == CLASSES && p.enabled && b.StructurallyValid()
    requires forall i | 0 <= i < CLASSES :: p.authority.requiredClasses[i] ==> StateOf(b, p, last[i], i) == Present
    requires p.authority.requireProvenance ==> StateOf(b, p, last[7], 7) == Present
    ensures var (r, a) := (Check(b, p, last).reason, p.authority);
      var unbooted := a.requireMatchingBoot && b.binding.boot == 0;
      var unleased := a.requireValidLease && b.binding.lease == 0;
      var late := a.requireValidLease && b.leaseExpiry != 0 && b.now > b.leaseExpiry;
      && (unbooted ==> r == BootMismatch) && (!unbooted && unleased ==> r == LeaseMissing)
      && (!unbooted && !unleased && late ==> r == LeaseExpired)
      && (!unbooted && !unleased && !late && a.requireMatchingEpoch && b.binding.epoch == 0 ==> r == EpochMismatch)
  {
    hide StateOf, States, FirstDenial;
    NoDenial(p.authority.requiredClasses, States(b, p, last, CLASSES), CLASSES);
  }
}
