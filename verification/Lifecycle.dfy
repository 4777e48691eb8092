/** The intervention lifecycle: the table of legal transitions, fencing, and the epoch tracker. */
module Lifecycle {
  import opened Words
  import opened Outcomes
  import opened Model

  predicate IsLegal(from: InterventionState, to: InterventionState) {
    from == to
    || match from
       case Proposed => to.Authorized? || to.Refused? || to.Fenced?
       case Authorized => to.Active? || to.Fenced? || to.Expired? || to.Retired? || to.Revalidating?
       case Active => to.Relaxing? || to.Fenced? || to.Expired? || to.Retired? || to.Revalidating?
       case Relaxing => to.Active? || to.Retired? || to.Fenced? || to.Expired? || to.Revalidating?
       case Revalidating => to.Active? || to.Retired? || to.Fenced? || to.Refused? || to.Expired?
       case Retired => to.Revalidating?
       case Fenced => false
       case Refused => false
       case Expired => false
  }

  /** The transition of the program; an illegal one changes nothing. */
  function Transition(i: Intervention, to: InterventionState, now: int, detail: seq<byte> := []): (r: Outcome<Intervention>)
    ensures r.Ok? <==> IsLegal(i.state, to)
    ensures r.Ok? ==> r.value.state == to && r.value.binding == i.binding && r.value.id == i.id
  {
    if !IsLegal(i.state, to) then Err(IllegalTransition)
    else
      var moved := i.(state := to, updatedAt := if now != 0 then now else i.updatedAt);
      if to.Relaxing? then Ok(moved.(relaxSteps := i.relaxSteps + 1, lastRelaxedAt := now))
      else if to.Refused? then Ok(moved.(refusalDetail := detail))
      else Ok(moved)
  }

  /** A transition whose failure is ignored, followed by an assignment of the state. */
  function Forced(i: Intervention, to: InterventionState, now: int): (r: Intervention)
    ensures r.state == to
    ensures to.Refused? || r == i.(state := to, updatedAt := r.updatedAt, relaxSteps := r.relaxSteps, lastRelaxedAt := r.lastRelaxedAt)
  {
    var t := Transition(i, to, now);
    if t.Ok? then t.value else i.(state := to)
  }

  /** Why an intervention is fenced under the given authority, or NoRefusal when it is not. */
  function FenceReason(i: Intervention, bound: Binding, leaseExpiry: int, now: int): RefusalReason {
    if bound.epoch != 0 && i.binding.epoch != bound.epoch then EpochMismatch
    else if bound.boot != 0 && i.binding.boot != bound.boot then BootMismatch
    else if bound.worker != 0 && i.binding.worker != 0 && i.binding.worker != bound.worker then EpochMismatch
    else if bound.lease != 0 && i.binding.lease != 0 && i.binding.lease != bound.lease then LeaseMissing
    else if leaseExpiry != 0 && now != 0 && now > leaseExpiry then LeaseExpired
    else if i.expiresAt != 0 && now != 0 && now > i.expiresAt then AwaitingRecoveryPolicy
    else NoRefusal
  }

  /** Every live state may be retired, fenced, or sent back to revalidation, so the forced assignments that follow
      these transitions never take effect. */
  lemma LiveMayEnd(i: Intervention, now: int)
    requires i.Live()
    ensures Transition(i, Retired, now).Ok? && Transition(i, Fenced, now).Ok? && Transition(i, Revalidating, now).Ok?
  {}

  /** A state is proposed, live or over, and only one of these; what is live may end and what is over is not fenced any more. */
  lemma StatesArePartitioned(s: InterventionState)
    ensures IsTerminalState(s) <==> s != Proposed && !IsLiveState(s)
    ensures IsLiveState(s) <==> s != InterventionState.Retired && IsLegal(s, InterventionState.Retired)
    ensures IsTerminalState(s) <==> s == Fenced || !IsLegal(s, Fenced)
  {}

  /** The only way the table leads out of a terminal state is from Retired to Revalidating. */
  lemma TerminalExits(from: InterventionState, to: InterventionState)
    ensures IsTerminalState(from) && !IsTerminalState(to) && IsLegal(from, to) <==> from.Retired? && to.Revalidating?
  {}

  /** The states an intervention may come from. */
  function Sources(to: InterventionState): set<InterventionState> {
    match to
    case Proposed => {}
    case Authorized => {Proposed}
    case Active => {Authorized, Relaxing, Revalidating}
    case Relaxing => {Active}
    case Revalidating => {Authorized, Active, Relaxing, Retired}
    case Retired => {Authorized, Active, Relaxing, Revalidating}
    case Fenced => {Proposed, Authorized, Active, Relaxing, Revalidating}
    case Refused => {Proposed, Revalidating}
    case Expired => {Authorized, Active, Relaxing, Revalidating}
  }

  /** The table read backwards: nothing becomes proposed, only what runs is relaxed, only what was retired comes back. */
  lemma LegalExactlyFrom(from: InterventionState, to: InterventionState)
    ensures IsLegal(from, to) <==> from == to || from in Sources(to)
  {}

  /** A transition sets the state and, when it has an instant, the time; relaxing counts a step, refusing keeps the detail, and
      nothing else changes. */
  lemma TransitionsChange(i: Intervention, to: InterventionState, now: int, detail: seq<byte>)
    requires IsLegal(i.state, to)
    ensures var r := Transition(i, to, now, detail);
      && r.Ok? && r.value.updatedAt == (if now == 0 then i.updatedAt else now)
      && r.value.relaxSteps == i.relaxSteps + (if to == Relaxing then 1 else 0)
      && r.value == i.(state := to, updatedAt := r.value.updatedAt, relaxSteps := r.value.relaxSteps,
                       lastRelaxedAt := if to == Relaxing then now else i.lastRelaxedAt,
                       refusalDetail := if to == Refused then detail else i.refusalDetail)
  {}

  class EpochTracker {
    var epoch: nat
    var boot: nat

    constructor ()
      ensures epoch == 0 && boot == 0
    {
      epoch, boot := 0, 0;
    }

    /** The epoch moves forward only. */
    method Advance(requested: nat) returns (r: Outcome<()>)
      modifies `epoch
      ensures r.Ok? <==> requested != 0 && requested > old(epoch)
      ensures epoch == if r.Ok? then requested else old(epoch)
      ensures r.Err? ==> r.code == if requested == 0 then InvalidArgument else StaleGeneration
    {
      if requested == 0 { return Err(InvalidArgument); }
      if epoch != 0 && requested <= epoch { return Err(StaleGeneration); }
      epoch := requested;
      r := Ok(());
    }
  }
}
