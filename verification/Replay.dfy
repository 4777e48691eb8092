/** Evidence once accepted is not accepted again. */
module Replay {
  import opened Model
  import opened Collisions
  import opened Authority
  import opened Classifier
  import opened Mitigate
  import opened Lifecycle
  import opened Governance
  import opened Safety
  import opened Runs

  /** The run goes on without a reset, a restore, or a window accepted from another boot. */
  ghost predicate SameBoot(from: Run, later: Run, boot: nat)
    requires WellFounded(later)
    decreases later
  {
    from == later
    || (later.Then? && !later.op.Restoring? && !later.op.Resetting? && SameBoot(from, later.before, boot)
        && (later.op.Window? && Admits(At(later.before), later.op.bundle) ==> later.op.bundle.binding.boot == boot))
  }

  /** The accepted sequences of a boot are at least the given ones. */
  predicate Remembers(s: GovernorState, boot: nat, floor: seq<nat>) {
    && |floor| == |s.lastSequence| == CLASSES && boot != 0 && s.lastSequenceBoot == boot
    && forall i | 0 <= i < CLASSES :: s.lastSequence[i] >= floor[i]
  }

  function Sequences(b: Bundle): (r: seq<nat>)
    ensures |r| == CLASSES && forall i | 0 <= i < CLASSES :: r[i] == b.StampOf(ClassAt(i)).sequence
  {
    seq(CLASSES, i requires 0 <= i < CLASSES => b.StampOf(ClassAt(i)).sequence)
  }

  lemma HearingRemembers(s: GovernorState, b: Bundle)
    requires |s.lastSequence| == CLASSES && b.binding.boot != 0
    ensures Remembers(Heard(s, b), b.binding.boot, Sequences(b))
    ensures forall floor :: Remembers(s, b.binding.boot, floor) ==> Remembers(Heard(s, b), b.binding.boot, floor)
  {}

  lemma AcceptedSequences(g: Gov, b: Bundle)
    requires Shaped(g)
    ensures var s, t := g.state, Evaluate(g, b).0.state;
      if Admits(g, b) then t.lastSequence == Heard(s, b).lastSequence && t.lastSequenceBoot == Heard(s, b).lastSequenceBoot
      else t.lastSequence == s.lastSequence && t.lastSequenceBoot == s.lastSequenceBoot
  {
    hide ClassifyWindow, EffectOf, SynthesisOf, Check, FenceReason, Policy.Valid, TrimInterventions, Collided, Heard, Verdict;
  }

  lemma OtherOpsRemember(g: Gov, op: Op, snapshot: GovernorState)
    requires Shaped(g) && !op.Window? && !op.Restoring? && !op.Resetting?
    ensures var s, t := g.state, Apply(g, op, snapshot).state;
      t.lastSequence == s.lastSequence && t.lastSequenceBoot == s.lastSequenceBoot
  {
    hide Policy.Valid, Reconfigured, ShutDown;
  }

  lemma {:induction false} StillRemembers(from: Run, later: Run, boot: nat, floor: seq<nat>)
    requires WellFounded(from) && WellFounded(later) && SameBoot(from, later, boot) && Remembers(At(from).state, boot, floor)
    ensures Remembers(At(later).state, boot, floor)
    decreases later
  {
    hide Apply, Sound, Remembers, Evaluate, Admits;
    if from != later {
      StillRemembers(from, later.before, boot, floor);
      var g := At(later.before);
      if later.op.Window? {
        ApplyWindow(g, later.op, g.state);
        AcceptedSequences(g, later.op.bundle);
        RemembersBoot(g.state, boot, floor);
        if Admits(g, later.op.bundle) {
          HearingRemembers(g.state, later.op.bundle);
          SameSequences(Heard(g.state, later.op.bundle), At(later).state, boot, floor);
        } else {
          SameSequences(g.state, At(later).state, boot, floor);
        }
      } else {
        OtherOpsRemember(g, later.op, g.state);
        SameSequences(g.state, At(later).state, boot, floor);
      }
    }
  }

  lemma RemembersBoot(s: GovernorState, boot: nat, floor: seq<nat>)
    requires Remembers(s, boot, floor)
    ensures boot != 0 && |s.lastSequence| == CLASSES
  {}

  lemma SameSequences(s: GovernorState, t: GovernorState, boot: nat, floor: seq<nat>)
    requires Remembers(s, boot, floor) && t.lastSequence == s.lastSequence && t.lastSequenceBoot == s.lastSequenceBoot
    ensures Remembers(t, boot, floor)
  {}

  lemma RememberedIsRefused(g: Gov, b: Bundle, floor: seq<nat>, i: nat)
    requires Shaped(g) && Remembers(g.state, b.binding.boot, floor) && i < CLASSES
    requires g.config.policy.authority.requiredClasses[i] && 0 < b.StampOf(ClassAt(i)).sequence <= floor[i]
    ensures Evaluate(g, b).1.outcome == OutcomeRefused
  {
    hide Check, Act, Gate;
    ReplayIsDenied(b, g.config.policy, g.state.lastSequence, i);
  }

  /** REPLAY PROTECTION.  After a bundle is accepted, a bundle of the same boot whose stamp of some required class
      carries a nonzero sequence not above the accepted one is refused at every later point of the run, until the state
      is reset or restored or a bundle of another boot is accepted. */
  lemma AcceptedEvidenceIsNotReplayed(before: Run, first: Bundle, later: Run, second: Bundle, i: nat)
    requires WellFounded(before) && WellFounded(later) && Admits(At(before), first)
    requires SameBoot(Then(before, Window(first)), later, first.binding.boot)
    requires second.binding.boot == first.binding.boot && i < CLASSES
    requires At(later).config.policy.authority.requiredClasses[i]
    requires 0 < second.StampOf(ClassAt(i)).sequence <= first.StampOf(ClassAt(i)).sequence
    ensures Evaluate(At(later), second).1.outcome == OutcomeRefused
  {
    hide Evaluate, Remembers, Gate, Check, Heard, Sound;
    var from := Then(before, Window(first));
    var g := At(before);
    GateBinds(g, first);
    ApplyWindow(g, Window(first), g.state);
    AcceptedSequences(g, first);
    HearingRemembers(g.state, first);
    SameSequences(Heard(g.state, first), At(from).state, first.binding.boot, Sequences(first));
    StillRemembers(from, later, first.binding.boot, Sequences(first));
    RememberedIsRefused(At(later), second, Sequences(first), i);
  }
}
