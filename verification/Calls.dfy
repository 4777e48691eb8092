/** What the calls on the governor other than an evaluation do, and what they leave alone. */
module Calls {
  import opened Outcomes
  import opened Model
  import opened Lifecycle
  import opened Governance
  import opened Safety

  /** A live record awaits revalidation from now; one that is over is the same record. */
  predicate SentBack(r: Intervention, i: Intervention, ref: PolicyRef, now: int) {
    if i.state in {Authorized, Active, Relaxing, Revalidating}
    then r == i.(state := Revalidating, policy := ref, updatedAt := if now != 0 then now else i.updatedAt)
    else r == i
  }

  /** CONFIGURING.  A valid policy is in force from then on; when its id or generation differs from the one in the state, every
      live record is sent back to revalidation under it.  An invalid policy changes nothing. */
  lemma ConfiguringSendsBack(g: Gov, p: Policy, now: int)
    ensures var (h, ok) := ConfigurePolicy(g, p, now);
      && (ok <==> p.Valid()) && (!ok ==> h == g)
      && (ok ==> h.config == g.config.(policy := p) && h.state.policy == p.ref && h.accepting == g.accepting
                 && h.state == g.state.(policy := p.ref, interventions := h.state.interventions,
                                        requiresRevalidation := g.state.requiresRevalidation || g.state.policy != p.ref))
      && |h.state.interventions| == |g.state.interventions|
      && (if ok && g.state.policy != p.ref
          then forall i | 0 <= i < |g.state.interventions| ::
                 SentBack(h.state.interventions[i], g.state.interventions[i], p.ref, now)
          else h.state.interventions == g.state.interventions)
  {
    hide Policy.Valid, Reconfigured;
    forall i: Intervention | i.Live()
      ensures SentBack(Forced(i.(policy := p.ref), Revalidating, now), i, p.ref, now)
    {}
  }

  /** BINDING.  Authority is bound exactly when no part of it is absent; nothing but the authority changes. */
  lemma BindingIsComplete(g: Gov, b: Binding, leaseExpiry: int)
    ensures var (h, ok) := BindAuthority(g, b, leaseExpiry);
      && (ok <==> b.epoch != 0 && b.boot != 0 && b.worker != 0 && b.lease != 0 && leaseExpiry != 0)
      && (!ok ==> h == g)
      && (ok ==> h.config == g.config.(binding := b, leaseExpiry := leaseExpiry) && h.accepting == g.accepting
                 && h.state == g.state.(epoch := b.epoch, boot := b.boot))
  {}

  /** RETIRING.  In a sane table a record is retired exactly when it is live; then it is over, and no other changes. */
  lemma RetiredExactlyWhen(g: Gov, id: nat, now: int)
    requires Sound(g)
    ensures var (rs, h, r) := (g.state.interventions, Retire(g, id, now).0, Retire(g, id, now).1);
      && (r.Ok? <==> exists i | 0 <= i < |rs| :: rs[i].id == id && rs[i].Live())
      && (r == Err(NotFound) <==> forall i | 0 <= i < |rs| :: rs[i].id != id)
      && (r == Err(IllegalTransition) <==> exists i | 0 <= i < |rs| :: rs[i].id == id && !rs[i].Live())
      && (r.Err? ==> h == g)
    ensures var (rs, h, r) := (g.state.interventions, Retire(g, id, now).0, Retire(g, id, now).1);
      r.Ok? ==>
        && h == g.(state := g.state.(interventions := h.state.interventions, generation := g.state.generation + 1))
        && |h.state.interventions| == |rs|
        && forall i | 0 <= i < |rs| :: h.state.interventions[i] ==
             if rs[i].id == id then rs[i].(state := InterventionState.Retired, updatedAt := if now != 0 then now else rs[i].updatedAt)
             else rs[i]
  {
    hide Policy.Valid, SmallIntent;
    var rs, w := g.state.interventions, IndexOf(g.state.interventions, id);
    if w < |rs| {
      assert SaneRecord(rs[w]);
      assert forall i | 0 <= i < |rs| && i != w :: rs[i].id != id;
    }
  }

  /** RESTORING.  A valid state replaces the governor's own: its tables, sequences and counters are kept, authority and streaks
      are not, and a live record awaits revalidation since the last evaluation.  An invalid state changes nothing. */
  lemma RestoringKeeps(g: Gov, s: GovernorState)
    ensures var (h, ok) := RestoreState(g, s);
      && (ok <==> s.Valid()) && (!ok ==> h == g)
      && (ok ==>
           && h.config == g.config.(binding := Binding(0, 0, 0, 0), leaseExpiry := 0) && h.accepting == g.accepting
           && h.state == s.(epoch := 0, boot := 0, recovery := RecoveryTracker(false, 0, 0, 0, 0, false), incidentStreak := 0,
                            cleanStreak := 0, requiresRevalidation := true, restoredFromDurable := true,
                            restoreCount := s.restoreCount + 1, generation := s.generation + 1,
                            interventions := h.state.interventions)
           && |h.state.interventions| == |s.interventions|
           && forall i | 0 <= i < |s.interventions| ::
                h.state.interventions[i] ==
                if s.interventions[i].state in {Authorized, Active, Relaxing, Revalidating}
                then s.interventions[i].(state := Revalidating, updatedAt := s.lastEvaluation)
                else s.interventions[i])
  {
    hide Restored, GovernorState.Valid;
  }

  /** RESETTING.  The governor has seen nothing, accepts, and keeps its configuration and authority. */
  lemma ResettingForgets(g: Gov)
    ensures var h := Reset(g);
      && h.config == g.config && h.accepting && h.state.history == [] && h.state.interventions == []
      && h.state.lastSequence == [0, 0, 0, 0, 0, 0, 0, 0] && h.state.lastSequenceBoot == 0
      && h.state.incidentStreak == 0 && h.state.cleanStreak == 0 && h.state.recovery == RecoveryTracker(false, 0, 0, 0, 0, false)
      && h.state.nextInterventionGeneration == 1 && h.state.generation == 0 && h.state.evaluationCount == 0
      && h.state.destination == g.config.destination && h.state.destinationGeneration == g.config.destinationGeneration
      && h.state.policy == g.config.policy.ref && h.state.epoch == g.config.binding.epoch && h.state.boot == g.config.binding.boot
      && h.state.requiresRevalidation && !h.state.restoredFromDurable && h.state.restoreCount == 0
      && h == Initial(g.config)
  {}

  /** SHUTTING DOWN.  Each live record is retired, the streaks are gone, and nothing else changes but that no bundle is
      accepted any more. */
  lemma ShuttingDownRetires(g: Gov, now: int)
    ensures var h := Shutdown(g, now).0;
      && h.config == g.config && !h.accepting
      && h.state == g.state.(interventions := h.state.interventions, recovery := RecoveryTracker(false, 0, 0, 0, 0, false),
                             incidentStreak := 0, cleanStreak := 0, generation := g.state.generation + 1)
      && |h.state.interventions| == |g.state.interventions|
      && forall i | 0 <= i < |g.state.interventions| ::
           var r := g.state.interventions[i];
           h.state.interventions[i] ==
           if r.Live() then r.(state := InterventionState.Retired, updatedAt := if now != 0 then now else r.updatedAt) else r
  {
    hide ShutDown;
    forall r: Intervention | r.Live()
      ensures Forced(r, InterventionState.Retired, now)
           == r.(state := InterventionState.Retired, updatedAt := if now != 0 then now else r.updatedAt)
    {}
  }

  // ----- Fencing and the gate -----

  /** FENCING.  In a bound governor a live record goes unfenced exactly when it carries the bound authority, no other worker's
      name, within the lease and within its own term. */
  lemma UnfencedExactlyWhen(r: Intervention, bound: Binding, leaseExpiry: int, now: int)
    requires SaneRecord(r) && bound.epoch != 0 && bound.boot != 0 && bound.lease != 0 && now != 0
    ensures FenceReason(r, bound, leaseExpiry, now) == NoRefusal <==>
      && r.binding.epoch == bound.epoch && r.binding.boot == bound.boot && r.binding.lease == bound.lease
      && (bound.worker == 0 || r.binding.worker == 0 || r.binding.worker == bound.worker)
      && (leaseExpiry == 0 || now <= leaseExpiry) && (r.expiresAt == 0 || now <= r.expiresAt)
    ensures FenceReason(r, bound, leaseExpiry, now) ==
      if r.binding.epoch != bound.epoch then EpochMismatch
      else if r.binding.boot != bound.boot then BootMismatch
      else if bound.worker != 0 && r.binding.worker != 0 && r.binding.worker != bound.worker then EpochMismatch
      else if r.binding.lease != bound.lease then LeaseMissing
      else if leaseExpiry != 0 && now > leaseExpiry then LeaseExpired
      else if r.expiresAt != 0 && now > r.expiresAt then AwaitingRecoveryPolicy
      else NoRefusal
  {}

  /** What is absent is not compared: parts of the authority, the record's worker and lease, the times. */
  lemma AbsentPartsDoNotFence(r: Intervention, bound: Binding, leaseExpiry: int, now: int)
    ensures var reason := FenceReason(r, bound, leaseExpiry, now);
      && (reason == EpochMismatch ==> bound.epoch != 0 || (bound.worker != 0 && r.binding.worker != 0))
      && (reason == BootMismatch ==> bound.boot != 0) && (reason == LeaseMissing ==> bound.lease != 0 && r.binding.lease != 0)
      && (reason == LeaseExpired ==> leaseExpiry != 0 && now != 0)
      && (reason == AwaitingRecoveryPolicy ==> r.expiresAt != 0 && now != 0)
  {}

  /** What a bundle differs in decides the refusal: state of the governor first, then form, destination, generation, policy, and
      the parts of the authority. */
  lemma GateNamesTheReason(g: Gov, b: Bundle)
    ensures var (k, reason) := (g.config, Gate(g, b));
      var bound := k.binding.epoch != 0 && k.binding.boot != 0 && k.binding.lease != 0;
      && (!g.accepting ==> reason == PolicyDisabled)
      && (g.accepting && !bound ==> reason == LeaseMissing)
      && (g.accepting && bound && !b.StructurallyValid() ==> reason == MalformedBundle)
      && (g.accepting && bound && b.StructurallyValid() && k.destination != 0 && b.origin.destination != k.destination ==>
            reason == DestinationMismatch)
    ensures var (k, reason) := (g.config, Gate(g, b));
      Heeded(g, b) ==>
        && (b.policyStamp.state == Contradictory ==> reason == PolicyGenerationMismatch)
        && (b.policyStamp.state != Contradictory && b.binding.epoch != k.binding.epoch ==> reason == EpochMismatch)
        && (b.policyStamp.state != Contradictory && b.binding == k.binding.(boot := b.binding.boot) != k.binding ==>
              reason == BootMismatch)
        && (b.policyStamp.state != Contradictory && b.binding == k.binding.(lease := b.binding.lease) != k.binding ==>
              reason == LeaseMissing)
        && (b.policyStamp.state != Contradictory && b.binding == k.binding && k.leaseExpiry != 0 && b.now > k.leaseExpiry ==>
              reason == LeaseExpired)
  {}

  /** The governor accepts and is bound, and the bundle is well formed, about its destination and not older. */
  predicate Heeded(g: Gov, b: Bundle) {
    && g.accepting && g.config.binding.epoch != 0 && g.config.binding.boot != 0 && g.config.binding.lease != 0
    && b.StructurallyValid() && (g.config.destination == 0 || b.origin.destination == g.config.destination)
    && (b.origin.destinationGeneration == 0 || b.origin.destinationGeneration >= g.state.destinationGeneration)
  }
}
