/** The worker side of the lease protocol: what it believes about its epoch and lease, one exchange at a time. */
module Worker {
  import opened Outcomes
  import opened Model
  import opened Ledger
  import opened Leases
  import opened CoordinatorProcess

  const NO_GRANT: Grant := Grant(0, 0, 0, 0, 0, 0, PolicyRef(0, 0), 0, 0, 1)

  datatype Identity = Identity(worker: nat, boot: nat, destination: nat, destinationGeneration: nat, policy: PolicyRef)

  datatype View = View(me: Identity, handshaken: bool, fenced: bool, epoch: nat, sequence: nat, lease: Grant)

  function Asking(w: View): Request {
    Request(w.me.worker, w.me.boot, w.me.destination, w.me.destinationGeneration, w.me.policy, 1)
  }

  function Renewing(w: View): Renewal {
    Renewal(w.lease.lease, w.epoch, w.me.boot, w.me.worker, w.lease.attempt)
  }

  function Publishing(w: View, decidedAt: int, kind: IncidentKind): Publication {
    Publication(w.lease.lease, w.epoch, w.me.boot, w.me.worker, w.me.destination, decidedAt, kind, w.sequence + 1)
  }

  /** What a request error is reported as: the coordinator sends its current epoch with every denial. */
  function DenialEpoch(c: Coord, r: Reply): nat {
    if r.Denied? then r.currentEpoch else c.epoch
  }

  function Acquired(w: View, c: Coord, r: Reply): View {
    if r.Granted? then w.(lease := r.grant, epoch := r.grant.epoch, fenced := false)
    else w.(fenced := true, epoch := DenialEpoch(c, r))
  }

  /** A renewal adopts the epoch the grant carries; only an acquisition clears the fence. */
  function Renewed(w: View, c: Coord, r: Reply): View {
    if r.Granted? then w.(lease := r.grant, epoch := r.grant.epoch)
    else w.(fenced := true, epoch := DenialEpoch(c, r))
  }

  function Answered(w: View, r: Reply): View {
    var sent := w.(sequence := w.sequence + 1);
    if r.Acknowledged? && !r.accepted && (r.reason == EpochMismatch || r.reason == BootMismatch)
    then sent.(fenced := true, epoch := r.currentEpoch)
    else sent
  }

  /** A worker that has just acquired a lease publishes successfully, unless the lease expired in between or an
      earlier holder of the same identity has already used the sequence number. */
  lemma AcquireThenPublish(w: View, c: Coord, at: int, stored: bool, now: int, decidedAt: int, kind: IncidentKind)
    requires Sound(c) && GrantLease(c, Asking(w), at, stored).1.Granted?
    ensures var (d, r) := GrantLease(c, Asking(w), at, stored);
      Accepts(Publish(d, Publishing(Acquired(w, d, r), decidedAt, kind), now).1)
      <==> now <= at + c.config.leaseDuration && w.sequence + 1 > d.leases[r.grant.lease].sequence
  {
    hide Load, Encode, LedgerBehind, Exclusive, Supersede;
    GrantIsOnRecord(c, Asking(w), at, stored);
  }

  /** A worker fenced by an epoch advance: its publication is refused and costs it the lease, its view moves to the
      new epoch, a renewal of the lost lease is then denied, and a fresh acquisition restores it. */
  lemma FencedWorkerReacquires(w: View, c: Coord, now: int, stored: bool, decidedAt: int, kind: IncidentKind)
    requires Sound(c) && w.epoch != c.epoch && w.me.worker != 0 && w.me.boot != 0 && w.me.destination != 0
    requires c.config.leaseDuration >= 0 && stored
    requires w.lease.lease in c.leases && HeldBy(c.leases[w.lease.lease], Asking(w))
    ensures var (d, r) := Publish(c, Publishing(w, decidedAt, kind), now);
      var w1 := Answered(w, r);
      var (e, s) := GrantLease(d, Asking(w1), now, stored);
      && w1.fenced && w1.epoch == c.epoch && RenewLease(d, Renewing(w1), now).1 == Denied(LeaseMissing, c.epoch)
      && s.Granted? && s.grant.lease == c.nextLease && !Acquired(w1, e, s).fenced
      && Accepts(Publish(e, Publishing(Acquired(w1, e, s), decidedAt, kind), now).1)
  {
    hide Load, Encode, LedgerBehind, Supersede;
    var (d, r) := Publish(c, Publishing(w, decidedAt, kind), now);
    var w1 := Answered(w, r);
    PublishIsSound(c, Publishing(w, decidedAt, kind), now);
    NoHolderLeft(c, d, w);
    var (e, s) := GrantLease(d, Asking(w1), now, stored);
    AcquireThenPublish(w1, d, now, stored, now, decidedAt, kind);
  }

  /** After asking for a lease the worker always believes the coordinator's epoch; it is fenced exactly when it was not
      granted one, and otherwise holds what the coordinator has on record. */
  lemma AcquiringCatchesUp(w: View, c: Coord, now: int, stored: bool)
    requires Sound(c)
    ensures var (d, r) := GrantLease(c, Asking(w), now, stored);
      var v := Acquired(w, d, r);
      && v.epoch == d.epoch && (v.fenced <==> !r.Granted?) && v == w.(epoch := d.epoch, fenced := v.fenced, lease := v.lease)
      && (if r.Granted? then v.lease.lease in d.leases && v.lease == d.leases[v.lease.lease].grant else v.lease == w.lease)
  {
    hide Sound, GrantLease, Raise;
    var (d, r) := GrantLease(c, Asking(w), now, stored);
    if r.Granted? {
      GrantIsForTheRequester(c, Asking(w), now, stored);
    } else {
      UngrantedRequestsFail(c, Asking(w), now, stored);
    }
  }

  lemma UngrantedRequestsFail(c: Coord, q: Request, now: int, stored: bool)
    ensures var r := GrantLease(c, q, now, stored).1;
      r.Granted? || r.Failed?
  {
    hide Supersede, Raise, Issue;
  }

  /** A worker keeps its lease by renewing it exactly when the lease is on record for its boot and it knows the epoch; it then
      believes the epoch of the grant, and otherwise it is fenced at the coordinator's. */
  lemma RenewingKeepsExactlyWhen(w: View, c: Coord, now: int)
    ensures var (d, r) := RenewLease(c, Renewing(w), now);
      var v, id := Renewed(w, d, r), w.lease.lease;
      if id in c.leases && !c.leases[id].revoked && w.epoch == c.epoch && w.me.boot == c.leases[id].grant.boot
      then v == w.(lease := d.leases[id].grant, epoch := c.leases[id].grant.epoch)
      else v == w.(fenced := true, epoch := c.epoch)
  {}

  /** Publishing uses up a sequence number; it fences the worker exactly when its lease is on record but under another epoch or
      for another incarnation, and only then moves its epoch. */
  lemma PublishingFencesExactlyWhen(w: View, c: Coord, decidedAt: int, kind: IncidentKind, now: int)
    ensures var (d, r) := Publish(c, Publishing(w, decidedAt, kind), now);
      var v, id := Answered(w, r), w.lease.lease;
      if id in c.leases && !c.leases[id].revoked
         && (w.epoch != c.epoch || w.me.boot != c.leases[id].grant.boot || w.me.worker != c.leases[id].grant.worker)
      then v == w.(sequence := w.sequence + 1, fenced := true, epoch := c.epoch)
      else v == w.(sequence := w.sequence + 1)
  {}

  /** Once the only unrevoked lease of a destination is revoked, nobody holds or contends for it. */
  lemma NoHolderLeft(c: Coord, d: Coord, w: View)
    requires Sound(c) && w.lease.lease in c.leases && HeldBy(c.leases[w.lease.lease], Asking(w))
    requires d.leases == c.leases[w.lease.lease := c.leases[w.lease.lease].(revoked := true)]
    ensures !HasHolder(d.leases, Asking(w)) && !Superseding(d.leases, Asking(w))
  {
    hide Load, LedgerBehind;
  }

  // ----- The worker as an object -----

  class GovernorWorker {
    const me: Identity
    var handshaken: bool
    var fenced: bool
    var epoch: nat
    var sequence: nat
    var lease: Grant

    ghost function Sees(): View
      reads this
    {
      View(me, handshaken, fenced, epoch, sequence, lease)
    }

    constructor (identity: Identity)
      ensures Sees() == View(identity, false, false, 0, 0, NO_GRANT)
    {
      me, handshaken, fenced, epoch, sequence, lease := identity, false, false, 0, 0, NO_GRANT;
    }

    method Handshake(coordinator: Coordinator)
      modifies this
      ensures Sees() == old(Sees()).(epoch := coordinator.epoch, handshaken := true, fenced := false)
    {
      epoch, handshaken, fenced := coordinator.epoch, true, false;
    }

    method AcquireLease(coordinator: Coordinator, now: int, stored: bool) returns (r: Outcome<Grant>)
      requires coordinator.Valid()
      modifies this, coordinator
      ensures coordinator.Valid()
      ensures !old(handshaken) ==> r == Err(NotAuthorized) && Sees() == old(Sees()) && coordinator.State() == old(coordinator.State())
      ensures old(handshaken) ==>
        var (c, reply) := GrantLease(old(coordinator.State()), Asking(old(Sees())), now, stored);
        coordinator.State() == c && Sees() == Acquired(old(Sees()), c, reply)
        && r == if reply.Granted? then Ok(reply.grant) else Err(FencedEpoch)
    {
      hide Sound, GrantLease;
      if !handshaken { return Err(NotAuthorized); }
      var reply := coordinator.GrantLease(Request(me.worker, me.boot, me.destination, me.destinationGeneration, me.policy, 1), now, stored);
      if !reply.Granted? {
        fenced, epoch := true, if reply.Denied? then reply.currentEpoch else coordinator.epoch;
        return Err(FencedEpoch);
      }
      lease, epoch, fenced := reply.grant, reply.grant.epoch, false;
      r := Ok(lease);
    }

    method RenewLease(coordinator: Coordinator, now: int) returns (r: Outcome<Grant>)
      requires coordinator.Valid()
      modifies this, coordinator
      ensures coordinator.Valid()
      ensures !old(handshaken) || old(lease).lease == 0 ==>
        r == Err(NotAuthorized) && Sees() == old(Sees()) && coordinator.State() == old(coordinator.State())
      ensures old(handshaken) && old(lease).lease != 0 ==>
        var (c, reply) := Leases.RenewLease(old(coordinator.State()), Renewing(old(Sees())), now);
        coordinator.State() == c && Sees() == Renewed(old(Sees()), c, reply)
        && r == if reply.Granted? then Ok(reply.grant) else Err(FencedEpoch)
    {
      hide Sound, Leases.RenewLease;
      if !handshaken { return Err(NotAuthorized); }
      if lease.lease == 0 { return Err(NotAuthorized); }
      var reply := coordinator.RenewLease(Renewal(lease.lease, epoch, me.boot, me.worker, lease.attempt), now);
      if !reply.Granted? {
        fenced, epoch := true, if reply.Denied? then reply.currentEpoch else coordinator.epoch;
        return Err(FencedEpoch);
      }
      lease, epoch := reply.grant, reply.grant.epoch;
      r := Ok(lease);
    }

    method Publish(coordinator: Coordinator, decidedAt: int, kind: IncidentKind, now: int) returns (r: Outcome<Reply>)
      requires coordinator.Valid()
      modifies this, coordinator
      ensures coordinator.Valid()
      ensures !old(handshaken) ==> r == Err(NotAuthorized) && Sees() == old(Sees()) && coordinator.State() == old(coordinator.State())
      ensures old(handshaken) ==>
        var (c, reply) := Leases.Publish(old(coordinator.State()), Publishing(old(Sees()), decidedAt, kind), now);
        coordinator.State() == c && r == Ok(reply) && Sees() == Answered(old(Sees()), reply)
    {
      hide Sound, Leases.Publish;
      if !handshaken { return Err(NotAuthorized); }
      sequence := sequence + 1;
      var reply := coordinator.Publish(
        Publication(lease.lease, epoch, me.boot, me.worker, me.destination, decidedAt, kind, sequence), now);
      if reply.Acknowledged? && !reply.accepted && (reply.reason == EpochMismatch || reply.reason == BootMismatch) {
        fenced, epoch := true, reply.currentEpoch;
      }
      r := Ok(reply);
    }

    method SendHeartbeat(coordinator: Coordinator) returns (r: Outcome<nat>)
      modifies this
      ensures r == if old(handshaken) then Ok(coordinator.epoch) else Err(NotAuthorized)
      ensures Sees() == if old(handshaken) && coordinator.epoch != old(epoch)
                        then old(Sees()).(epoch := coordinator.epoch, fenced := true) else old(Sees())
    {
      if !handshaken { return Err(NotAuthorized); }
      if coordinator.epoch != epoch {
        epoch, fenced := coordinator.epoch, true;
      }
      r := Ok(coordinator.epoch);
    }
  }
}
