/** The coordinator as the program runs it: fields updated in place, each handler equal to its step of Leases. */
module CoordinatorProcess {
  import opened Outcomes
  import opened Model
  import opened Ledger
  import opened L = Leases

  class Coordinator {
    const config: Config
    var running: bool
    var epoch: nat
    var nextLease: nat
    var leases: map<nat, LeaseRecord>
    var ledger: File

    ghost function State(): Coord
      reads this
    {
      Coord(config, running, epoch, nextLease, leases, ledger)
    }

    ghost predicate Valid()
      reads this
    {
      Sound(State())
    }

    constructor (settings: Config, file: File)
      ensures config == settings && State() == Idle(settings, file)
    {
      config := settings;
      running, nextLease, leases, ledger := false, 1, map[], file;
      epoch := if settings.initialEpoch != 0 then settings.initialEpoch else 1;
    }

    /** Starting over whatever ledger is on disk. */
    method Begin(stored: bool) returns (ok: bool)
      requires State() == Idle(config, ledger)
      modifies `running, `epoch, `ledger
      ensures State() == Start(config, old(ledger), stored).0 && Valid() && ok == running
    {
      hide Load, Encode, Sound;
      StartIsSound(config, ledger, stored);
      running := OpenLedger(stored);
      ok := running;
    }

    /** Moves the epoch past the one on disk and writes it back; an unreadable ledger stops the start. */
    method OpenLedger(stored: bool) returns (ready: bool)
      requires epoch >= 1
      modifies `epoch, `ledger
      ensures !config.durable ==> ready && epoch == old(epoch) && ledger == old(ledger)
      ensures config.durable && Load(old(ledger)).Err? ==> !ready && epoch == old(epoch) && ledger == old(ledger)
      ensures config.durable && Load(old(ledger)).Ok? ==>
        var persisted := Load(old(ledger)).value;
        ready == stored && epoch == (if persisted != 0 && persisted >= old(epoch) then persisted + 1 else old(epoch))
        && ledger == if stored then Ledger.Holding(Encode(epoch)) else old(ledger)
    {
      hide Load, Encode;
      if !config.durable { return true; }
      var persisted := Load(ledger);
      if persisted.Err? { return false; }
      if persisted.value != 0 && persisted.value >= epoch { epoch := persisted.value + 1; }
      ledger, ready := Store(ledger, epoch, stored);
    }

    /** The ledger write after the epoch has been raised. */
    method Persist(stored: bool) returns (ok: bool)
      requires epoch >= 1
      modifies `ledger
      ensures ok == (!config.durable || stored)
      ensures ledger == if config.durable && stored then Ledger.Holding(Encode(epoch)) else old(ledger)
    {
      if !config.durable { return true; }
      ledger, ok := Store(ledger, epoch, stored);
    }

    /** The scan over the lease table, in whatever order the hash map yields it, up to a lease the requester already
        holds; any other unrevoked lease of the destination is revoked on the way. */
    method FenceOthers(q: Request) returns (superseded: bool, held: Option<nat>)
      requires Valid()
      modifies `leases
      ensures held.Some? ==> held.value in leases && HeldBy(leases[held.value], q) && leases == old(leases)
      ensures held.None? ==>
        !HasHolder(old(leases), q) && leases == Supersede(old(leases), q) && superseded == Superseding(old(leases), q)
    {
      hide Sound;
      ghost var before := State();
      superseded, held := false, None;
      var left := leases.Keys;
      while left != {}
        invariant left <= leases.Keys == before.leases.Keys
        invariant forall id | id in leases && id in left :: leases[id] == before.leases[id]
        invariant forall id | id in leases && id !in left ::
          leases[id] == Supersede(before.leases, q)[id] && !HeldBy(before.leases[id], q)
        invariant superseded <==> exists id | id in before.leases && id !in left :: Contends(before.leases[id], q)
        decreases left
      {
        var id :| id in left;
        left := left - {id};
        var record := leases[id];
        if record.grant.destination != q.destination || record.revoked { continue; }
        if record.grant.boot != q.boot || record.grant.worker != q.worker {
          leases := leases[id := record.(revoked := true)];
          superseded := true;
        } else {
          OneHolder(before, q, id);
          assert leases == before.leases;
          return superseded, Some(id);
        }
      }
      assert leases == Supersede(before.leases, q);
    }

    method GrantLease(q: Request, now: int, stored: bool) returns (r: Reply)
      requires Valid()
      modifies this
      ensures Valid() && (State(), r) == L.GrantLease(old(State()), q, now, stored)
    {
      hide Load, Encode, Sound, Supersede, HeldBy, Contends;
      GrantIsSound(State(), q, now, stored);
      EpochIsPositive(State());
      if q.worker == 0 || q.boot == 0 || q.destination == 0 { return Failed(InvalidArgument); }
      var superseded, held := FenceOthers(q);
      if held.Some? {
        var record := leases[held.value];
        var g := record.grant.(attempt := q.attempt, grantedAt := now, expiresAt := now + config.leaseDuration, epoch := epoch);
        OneHolder(State(), q, held.value);
        leases := leases[held.value := record.(grant := g)];
        return Granted(g);
      }
      if superseded {
        epoch := epoch + 1;
        var ok := Persist(stored);
        if !ok { return Failed(IoFailure); }
      }
      var grant := Grant(nextLease, q.destination, q.destinationGeneration, epoch, q.boot, q.worker, q.policy, now,
                         now + config.leaseDuration, q.attempt);
      leases := leases[nextLease := LeaseRecord(grant, false, 0, 0, UnknownKind)];
      nextLease := nextLease + 1;
      r := Granted(grant);
    }

    method RenewLease(m: Renewal, now: int) returns (r: Reply)
      requires Valid()
      modifies this
      ensures Valid() && (State(), r) == L.RenewLease(old(State()), m, now)
    {
      RenewIsSound(State(), m, now);
      if m.lease !in leases || leases[m.lease].revoked { return Denied(LeaseMissing, epoch); }
      if m.epoch != epoch { return Denied(EpochMismatch, epoch); }
      if leases[m.lease].grant.boot != m.boot { return Denied(BootMismatch, epoch); }
      var grant := leases[m.lease].grant.(grantedAt := now, expiresAt := now + config.leaseDuration);
      leases := leases[m.lease := leases[m.lease].(grant := grant)];
      r := Granted(grant);
    }

    method Publish(m: Publication, now: int) returns (r: Reply)
      requires Valid()
      modifies this
      ensures Valid() && (State(), r) == L.Publish(old(State()), m, now)
    {
      PublishIsSound(State(), m, now);
      var reason := NoRefusal;
      if m.lease !in leases {
        reason := LeaseMissing;
      } else if leases[m.lease].revoked {
        reason := LeaseMissing;
      } else if m.epoch != epoch {
        reason := EpochMismatch;
        leases := leases[m.lease := leases[m.lease].(revoked := true)];
      } else if leases[m.lease].grant.boot != m.boot {
        reason := BootMismatch;
      } else if leases[m.lease].grant.worker != m.worker {
        reason := EpochMismatch;
      } else if now > leases[m.lease].grant.expiresAt {
        reason := LeaseExpired;
      } else if m.sequence <= leases[m.lease].sequence {
        reason := ReorderedEvidence;
      } else {
        leases := leases[m.lease := leases[m.lease].(sequence := m.sequence, lastDecisionAt := m.decidedAt, lastKind := m.kind)];
      }
      r := Acknowledged(reason == NoRefusal, reason, epoch);
    }

    method AdvanceEpoch(stored: bool) returns (r: Reply)
      requires Valid()
      modifies this
      ensures Valid() && (State(), r) == L.AdvanceEpoch(old(State()), stored)
    {
      hide Load, Encode, Sound;
      RaiseIsSound(State(), stored);
      EpochIsPositive(State());
      epoch := epoch + 1;
      var ok := Persist(stored);
      r := if ok then Epoch(epoch) else Failed(IoFailure);
    }

    method RevokeAll() returns (r: Reply)
      requires Valid()
      modifies this
      ensures Valid() && (State(), r) == L.RevokeAll(old(State()))
    {
      RevokeAllIsSound(State());
      ghost var before := leases;
      var left := leases.Keys;
      while left != {}
        invariant left <= leases.Keys == before.Keys
        invariant State() == old(State()).(leases := leases)
        invariant forall id | id in leases :: leases[id] == if id in left then before[id] else before[id].(revoked := true)
        decreases left
      {
        var id :| id in left;
        left := left - {id};
        leases := leases[id := leases[id].(revoked := true)];
      }
      assert leases == AllRevoked(before);
      epoch := epoch + 1;
      r := Epoch(epoch);
    }
  }

  lemma EpochIsPositive(c: Coord)
    requires Sound(c)
    ensures c.epoch >= 1
  {}
}
