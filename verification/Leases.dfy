/** The lease and epoch protocol of the coordinator: one atomic step for each message handled under its lock. */
module Leases {
  import opened Outcomes
  import opened Words
  import opened Model
  import opened Ledger

  // ----- Messages and records -----

  datatype Grant = Grant(lease: nat, destination: nat, destinationGeneration: nat, epoch: nat, boot: nat, worker: nat,
                         policy: PolicyRef, grantedAt: int, expiresAt: int, attempt: nat)

  datatype LeaseRecord = LeaseRecord(grant: Grant, revoked: bool, sequence: nat, lastDecisionAt: int,
                                     lastKind: IncidentKind)

  datatype Request = Request(worker: nat, boot: nat, destination: nat, destinationGeneration: nat, policy: PolicyRef,
                             attempt: nat)

  datatype Renewal = Renewal(lease: nat, epoch: nat, boot: nat, worker: nat, attempt: nat)

  datatype Publication = Publication(lease: nat, epoch: nat, boot: nat, worker: nat, destination: nat,
                                     decidedAt: int, kind: IncidentKind, sequence: nat)

  datatype Reply =
    | Silent
    | Granted(grant: Grant)
    | Denied(reason: RefusalReason, currentEpoch: nat)
    | Acknowledged(accepted: bool, reason: RefusalReason, currentEpoch: nat)
    | Epoch(epoch: nat)
    | Failed(code: ErrorCode)

  datatype Config = Config(leaseDuration: int, initialEpoch: nat, durable: bool)

  datatype Coord = Coord(config: Config, running: bool, epoch: nat, nextLease: nat, leases: map<nat, LeaseRecord>,
                         ledger: File)

  // ----- Grants -----

  /** An unrevoked lease of the requested destination held by the requesting incarnation. */
  predicate HeldBy(r: LeaseRecord, q: Request) {
    !r.revoked && r.grant.destination == q.destination && r.grant.boot == q.boot && r.grant.worker == q.worker
  }

  /** An unrevoked lease of the requested destination held by any other incarnation. */
  predicate Contends(r: LeaseRecord, q: Request) {
    !r.revoked && r.grant.destination == q.destination && (r.grant.boot != q.boot || r.grant.worker != q.worker)
  }

  function Supersede(leases: map<nat, LeaseRecord>, q: Request): map<nat, LeaseRecord> {
    map id | id in leases :: if Contends(leases[id], q) then leases[id].(revoked := true) else leases[id]
  }

  predicate Superseding(leases: map<nat, LeaseRecord>, q: Request) {
    exists id | id in leases :: Contends(leases[id], q)
  }

  predicate HasHolder(leases: map<nat, LeaseRecord>, q: Request) {
    exists id | id in leases :: HeldBy(leases[id], q)
  }

  function Refreshed(g: Grant, q: Request, epoch: nat, now: int, config: Config): Grant {
    g.(attempt := q.attempt, grantedAt := now, expiresAt := now + config.leaseDuration, epoch := epoch)
  }

  function NewGrant(c: Coord, q: Request, now: int): Grant {
    Grant(c.nextLease, q.destination, q.destinationGeneration, c.epoch, q.boot, q.worker, q.policy, now,
          now + c.config.leaseDuration, q.attempt)
  }

  function Issue(c: Coord, q: Request, now: int): Coord {
    c.(nextLease := c.nextLease + 1,
       leases := c.leases[c.nextLease := LeaseRecord(NewGrant(c, q, now), false, 0, 0, UnknownKind)])
  }

  /** Raises the epoch and writes it to the ledger; a failed write leaves the epoch raised. */
  function Raise(c: Coord, stored: bool): (r: (Coord, bool)) {
    var raised := c.(epoch := c.epoch + 1);
    if !c.config.durable then (raised, true)
    else if !stored then (raised, false)
    else (raised.(ledger := Ledger.Holding(Encode(raised.epoch))), true)
  }

  ghost function GrantLease(c: Coord, q: Request, now: int, stored: bool): (Coord, Reply) {
    if q.worker == 0 || q.boot == 0 || q.destination == 0 then (c, Failed(InvalidArgument))
    else if HasHolder(c.leases, q) then
      var id :| id in c.leases && HeldBy(c.leases[id], q);
      var g := Refreshed(c.leases[id].grant, q, c.epoch, now, c.config);
      (c.(leases := c.leases[id := c.leases[id].(grant := g)]), Granted(g))
    else
      var fenced := c.(leases := Supersede(c.leases, q));
      if !Superseding(c.leases, q) then (Issue(fenced, q, now), Granted(NewGrant(fenced, q, now)))
      else
        var (raised, ok) := Raise(fenced, stored);
        if !ok then (raised, Failed(IoFailure)) else (Issue(raised, q, now), Granted(NewGrant(raised, q, now)))
  }

  // ----- Renewals, publications, control -----

  function RenewLease(c: Coord, m: Renewal, now: int): (Coord, Reply) {
    if m.lease !in c.leases || c.leases[m.lease].revoked then (c, Denied(LeaseMissing, c.epoch))
    else
      var r := c.leases[m.lease];
      if m.epoch != c.epoch then (c, Denied(EpochMismatch, c.epoch))
      else if r.grant.boot != m.boot then (c, Denied(BootMismatch, c.epoch))
      else
        var g := r.grant.(grantedAt := now, expiresAt := now + c.config.leaseDuration);
        (c.(leases := c.leases[m.lease := r.(grant := g)]), Granted(g))
  }

  function Verdict(c: Coord, m: Publication, now: int): RefusalReason {
    if m.lease !in c.leases || c.leases[m.lease].revoked then LeaseMissing
    else
      var r := c.leases[m.lease];
      if m.epoch != c.epoch then EpochMismatch
      else if r.grant.boot != m.boot then BootMismatch
      else if r.grant.worker != m.worker then EpochMismatch
      else if now > r.grant.expiresAt then LeaseExpired
      else if m.sequence <= r.sequence then ReorderedEvidence
      else NoRefusal
  }

  /** A publication under a superseded epoch costs its sender the lease. */
  function Publish(c: Coord, m: Publication, now: int): (Coord, Reply) {
    var v := Verdict(c, m, now);
    var reply := Acknowledged(v == NoRefusal, v, c.epoch);
    if v == NoRefusal then
      var r := c.leases[m.lease].(sequence := m.sequence, lastDecisionAt := m.decidedAt, lastKind := m.kind);
      (c.(leases := c.leases[m.lease := r]), reply)
    else if m.lease in c.leases && !c.leases[m.lease].revoked && m.epoch != c.epoch then
      (c.(leases := c.leases[m.lease := c.leases[m.lease].(revoked := true)]), reply)
    else (c, reply)
  }

  function AdvanceEpoch(c: Coord, stored: bool): (Coord, Reply) {
    var (raised, ok) := Raise(c, stored);
    (raised, if ok then Epoch(raised.epoch) else Failed(IoFailure))
  }

  function AllRevoked(leases: map<nat, LeaseRecord>): map<nat, LeaseRecord> {
    map id | id in leases :: leases[id].(revoked := true)
  }

  /** Revokes every lease and raises the epoch in memory only: the ledger is not written. */
  function RevokeAll(c: Coord): (Coord, Reply) {
    (c.(leases := AllRevoked(c.leases), epoch := c.epoch + 1), Epoch(c.epoch + 1))
  }

  // ----- Start and restart -----

  function FirstEpoch(config: Config): (epoch: nat)
    ensures epoch >= 1
  {
    if config.initialEpoch != 0 then config.initialEpoch else 1
  }

  function StartEpoch(config: Config, persisted: nat): nat {
    if persisted != 0 && persisted >= FirstEpoch(config) then persisted + 1 else FirstEpoch(config)
  }

  /** A coordinator constructed but not started. */
  function Idle(config: Config, ledger: File): Coord { Coord(config, false, FirstEpoch(config), 1, map[], ledger) }

  /** A fresh process over what is on disk: no leases, lease numbers from 1, an epoch above the ledger's. */
  function Start(config: Config, ledger: File, stored: bool): (Coord, Reply) {
    var idle := Idle(config, ledger);
    if !config.durable then (idle.(running := true), Silent)
    else match Load(ledger)
      case Err(code) => (idle, Failed(code))
      case Ok(persisted) =>
        var epoch := StartEpoch(config, persisted);
        if !stored then (idle.(epoch := epoch), Failed(IoFailure))
        else (Coord(config, true, epoch, 1, map[], Ledger.Holding(Encode(epoch))), Silent)
  }

  // ----- Runs -----

  /** One event: a message, a control command, or the death of the process and its restart.
      `stored` says whether the ledger write of the step succeeds. */
  datatype Event =
    | OnRequest(request: Request, now: int, stored: bool)
    | OnRenew(renewal: Renewal, now: int)
    | OnPublish(publication: Publication, now: int)
    | OnAdvance(stored: bool)
    | OnRevokeAll
    | OnRestart(stored: bool)

  ghost function Next(c: Coord, e: Event): (Coord, Reply) {
    if e.OnRestart? then Start(c.config, c.ledger, e.stored)
    else if !c.running then (c, Silent)
    else match e
      case OnRequest(q, now, stored) => GrantLease(c, q, now, stored)
      case OnRenew(m, now) => RenewLease(c, m, now)
      case OnPublish(m, now) => Publish(c, m, now)
      case OnAdvance(stored) => AdvanceEpoch(c, stored)
      case OnRevokeAll => RevokeAll(c)
  }

  ghost function After(c: Coord, events: seq<Event>): Coord {
    if events == [] then c else Next(After(c, events[..|events| - 1]), events[|events| - 1]).0
  }

  ghost function ReplyAt(c: Coord, events: seq<Event>, i: nat): Reply
    requires i < |events|
  {
    Next(After(c, events[..i]), events[i]).1
  }

  // ----- The invariant -----

  ghost predicate Numbered(c: Coord) {
    forall id | id in c.leases ::
      c.leases[id].grant.lease == id && id < c.nextLease && c.leases[id].grant.epoch <= c.epoch
  }

  /** At most one unrevoked lease for each destination. */
  ghost predicate Exclusive(leases: map<nat, LeaseRecord>) {
    forall i, j | i in leases && j in leases && !leases[i].revoked && !leases[j].revoked
               && leases[i].grant.destination == leases[j].grant.destination :: i == j
  }

  /** The ledger never runs ahead of the epoch in memory. */
  ghost predicate LedgerBehind(c: Coord) {
    c.running && c.config.durable && c.epoch <= MAX_U64 ==> Load(c.ledger).Ok? && 1 <= Load(c.ledger).value <= c.epoch
  }

  ghost predicate Sound(c: Coord) {
    1 <= c.epoch && Numbered(c) && Exclusive(c.leases) && LedgerBehind(c)
  }

  lemma StartIsSound(config: Config, ledger: File, stored: bool)
    ensures Sound(Start(config, ledger, stored).0)
  {
    hide Load, Encode;
    if config.durable && Load(ledger).Ok? {
      var epoch := StartEpoch(config, Load(ledger).value);
      if epoch <= MAX_U64 { ReadBack(epoch); }
    }
  }

  lemma ReadBack(epoch: nat)
    requires epoch <= MAX_U64
    ensures Load(Ledger.Holding(Encode(epoch))) == Ok(epoch)
  {
    StoredIsLoaded(epoch, []);
    assert Encode(epoch) + [] == Encode(epoch);
  }

  lemma RaiseIsSound(c: Coord, stored: bool)
    requires Sound(c)
    ensures Sound(Raise(c, stored).0)
  {
    hide Load, Encode;
    if c.epoch + 1 <= MAX_U64 { ReadBack(c.epoch + 1); }
  }

  lemma SupersedeIsSound(c: Coord, q: Request)
    requires Sound(c)
    ensures Sound(c.(leases := Supersede(c.leases, q)))
  {
    hide Load, Encode;
  }

  lemma IssueIsSound(c: Coord, q: Request, now: int)
    requires Sound(c) && forall id | id in c.leases && c.leases[id].grant.destination == q.destination :: c.leases[id].revoked
    ensures Sound(Issue(c, q, now))
  {
    hide Load, Encode;
  }

  /** Every step keeps the invariant, whatever message arrives. */
  lemma StepIsSound(c: Coord, e: Event)
    requires Sound(c)
    ensures Sound(Next(c, e).0)
  {
    hide Load, Encode, LedgerBehind, Issue, Start, Raise;
    match e
    case OnRestart(stored) => StartIsSound(c.config, c.ledger, stored);
    case OnAdvance(stored) => RaiseIsSound(c, stored);
    case OnRequest(q, now, stored) => GrantIsSound(c, q, now, stored);
    case OnRenew(m, now) => RenewIsSound(c, m, now);
    case OnPublish(m, now) => PublishIsSound(c, m, now);
    case OnRevokeAll => RevokeAllIsSound(c);
  }

  lemma RevokeAllIsSound(c: Coord)
    requires Sound(c)
    ensures Sound(RevokeAll(c).0)
  {
    hide Load, Encode;
  }

  lemma RenewIsSound(c: Coord, m: Renewal, now: int)
    requires Sound(c)
    ensures Sound(RenewLease(c, m, now).0)
  {
    hide Load, Encode;
  }

  lemma PublishIsSound(c: Coord, m: Publication, now: int)
    requires Sound(c)
    ensures Sound(Publish(c, m, now).0)
  {
    hide Load, Encode;
  }

  lemma GrantIsSound(c: Coord, q: Request, now: int, stored: bool)
    requires Sound(c)
    ensures Sound(GrantLease(c, q, now, stored).0)
  {
    hide Load, Encode, Raise, Issue;
    if q.worker == 0 || q.boot == 0 || q.destination == 0 {
    } else if HasHolder(c.leases, q) {
      RefreshIsSound(c, q, now);
    } else {
      var fenced := c.(leases := Supersede(c.leases, q));
      SupersedeIsSound(c, q);
      RaiseIsSound(fenced, stored);
      RaiseKeepsLeases(fenced, stored);
      IssueIsSound(fenced, q, now);
      IssueIsSound(Raise(fenced, stored).0, q, now);
    }
  }

  lemma RefreshIsSound(c: Coord, q: Request, now: int)
    requires Sound(c) && HasHolder(c.leases, q) && q.worker != 0 && q.boot != 0 && q.destination != 0
    ensures forall stored :: Sound(GrantLease(c, q, now, stored).0)
  {
    hide Load, Encode, Raise, Issue;
  }

  lemma RaiseKeepsLeases(c: Coord, stored: bool)
    ensures Raise(c, stored).0.leases == c.leases && Raise(c, stored).0.nextLease == c.nextLease
    ensures Raise(c, stored).0.epoch == c.epoch + 1
  {}

  /** Every state of every run that begins with a start, over any ledger, satisfies the invariant. */
  lemma {:induction false} RunsAreSound(c: Coord, events: seq<Event>)
    requires Sound(c)
    ensures Sound(After(c, events))
  {
    if events != [] {
      RunsAreSound(c, events[..|events| - 1]);
      StepIsSound(After(c, events[..|events| - 1]), events[|events| - 1]);
    }
  }

  /** ONE HOLDER.  At every point of every run, from any ledger and through any messages, failures and restarts, at most
      one unrevoked lease exists for each destination. */
  lemma OneHolderPerDestination(config: Config, ledger: File, stored: bool, events: seq<Event>, i: nat, j: nat)
    requires var c := After(Start(config, ledger, stored).0, events);
      i in c.leases && j in c.leases && !c.leases[i].revoked && !c.leases[j].revoked
      && c.leases[i].grant.destination == c.leases[j].grant.destination
    ensures i == j
  {
    hide Start, After, Load, LedgerBehind, Numbered;
    StartIsSound(config, ledger, stored);
    RunsAreSound(Start(config, ledger, stored).0, events);
  }

  // ----- What one process never undoes -----

  predicate Uninterrupted(events: seq<Event>) {
    forall e | e in events :: !e.OnRestart?
  }

  /** Nothing a later state of the same process forgets: leases stay on record with their holder, revocation
      is permanent, and neither sequences nor the epoch fall. */
  ghost predicate Extends(c: Coord, d: Coord) {
    && d.config == c.config && d.running == c.running && c.epoch <= d.epoch && c.nextLease <= d.nextLease
    && forall id | id in c.leases ::
      && id in d.leases
      && d.leases[id].grant.destination == c.leases[id].grant.destination
      && d.leases[id].grant.boot == c.leases[id].grant.boot && d.leases[id].grant.worker == c.leases[id].grant.worker
      && (c.leases[id].revoked ==> d.leases[id].revoked) && c.leases[id].sequence <= d.leases[id].sequence
  }

  lemma IssueExtends(c: Coord, q: Request, now: int)
    requires Numbered(c)
    ensures Extends(c, Issue(c, q, now))
  {}

  lemma ExtendsThrough(c: Coord, d: Coord, e: Coord)
    requires Extends(c, d) && Extends(d, e)
    ensures Extends(c, e)
  {}

  lemma SupersedeExtends(c: Coord, q: Request, stored: bool)
    ensures Extends(c, c.(leases := Supersede(c.leases, q)))
    ensures Extends(c, Raise(c.(leases := Supersede(c.leases, q)), stored).0)
  {
    hide Encode;
  }

  lemma GrantExtends(c: Coord, q: Request, now: int, stored: bool)
    requires Sound(c)
    ensures Extends(c, GrantLease(c, q, now, stored).0)
  {
    hide Load, Encode, Issue, Exclusive, LedgerBehind, Raise, Supersede;
    if q.worker == 0 || q.boot == 0 || q.destination == 0 || HasHolder(c.leases, q) {
    } else {
      hide Extends, Numbered;
      var fenced := c.(leases := Supersede(c.leases, q));
      var raised := Raise(fenced, stored).0;
      SupersedeExtends(c, q, stored);
      SupersedeIsSound(c, q);
      RaiseIsSound(fenced, stored);
      IssueExtends(fenced, q, now);
      IssueExtends(raised, q, now);
      ExtendsThrough(c, fenced, Issue(fenced, q, now));
      ExtendsThrough(c, raised, Issue(raised, q, now));
    }
  }

  lemma StepExtends(c: Coord, e: Event)
    requires Sound(c) && !e.OnRestart?
    ensures Extends(c, Next(c, e).0)
  {
    hide GrantLease, Load, Encode, Exclusive, LedgerBehind;
    if e.OnRequest? { GrantExtends(c, e.request, e.now, e.stored); }
  }

  lemma {:induction false} RunExtends(c: Coord, events: seq<Event>)
    requires Sound(c) && Uninterrupted(events)
    ensures Extends(c, After(c, events))
  {
    hide Next, Sound;
    if events != [] {
      var before := events[..|events| - 1];
      RunExtends(c, before);
      RunsAreSound(c, before);
      StepExtends(After(c, before), events[|events| - 1]);
    }
  }

  lemma {:induction false} AfterInParts(c: Coord, a: seq<Event>, b: seq<Event>)
    ensures After(c, a + b) == After(After(c, a), b)
  {
    hide Next;
    if b == [] {
      assert a + b == a;
    } else {
      AfterInParts(c, a, b[..|b| - 1]);
      assert (a + b)[..|a + b| - 1] == a + b[..|b| - 1];
    }
  }

  /** What lies between two points of a run. */
  lemma Between(c: Coord, events: seq<Event>, i: nat, j: nat)
    requires Sound(c) && i <= j <= |events| && Uninterrupted(events[i..j])
    ensures Sound(After(c, events[..i])) && Sound(After(c, events[..j]))
    ensures Extends(After(c, events[..i]), After(c, events[..j]))
  {
    hide Next, Extends, Sound;
    RunsAreSound(c, events[..i]);
    RunsAreSound(c, events[..j]);
    AfterInParts(c, events[..i], events[i..j]);
    assert events[..i] + events[i..j] == events[..j];
    RunExtends(After(c, events[..i]), events[i..j]);
  }

  lemma AfterOne(c: Coord, events: seq<Event>, i: nat)
    requires i < |events|
    ensures After(c, events[..i + 1]) == Next(After(c, events[..i]), events[i]).0
  {
    assert events[..i + 1][..i] == events[..i];
  }

  // ----- Fencing -----

  /** A grant leaves its lease as the only unrevoked one of the destination. */
  lemma GrantStandsAlone(c: Coord, e: Event)
    requires Sound(c) && Next(c, e).1.Granted?
    ensures var d, g := Next(c, e).0, Next(c, e).1.grant;
      forall id | id in d.leases && d.leases[id].grant.destination == g.destination && id != g.lease :: d.leases[id].revoked
    ensures Next(c, e).1.grant.epoch <= Next(c, e).0.epoch
  {
    hide Load, Encode, LedgerBehind, GrantLease;
    StepIsSound(c, e);
    var d, g := Next(c, e).0, Next(c, e).1.grant;
    assert g.lease in d.leases && d.leases[g.lease].grant == g && !d.leases[g.lease].revoked by {
      if e.OnRequest? { GrantIsOnRecord(c, e.request, e.now, e.stored); }
    }
  }

  lemma GrantIsOnRecord(c: Coord, q: Request, now: int, stored: bool)
    requires Sound(c) && GrantLease(c, q, now, stored).1.Granted?
    ensures var d, g := GrantLease(c, q, now, stored).0, GrantLease(c, q, now, stored).1.grant;
      g.lease in d.leases && d.leases[g.lease].grant == g && !d.leases[g.lease].revoked
  {
    hide Load, Encode, LedgerBehind, Exclusive, Supersede;
  }

  /** FENCING.  Once a lease of a destination has been granted, no publication naming any other lease of that
      destination on record is accepted at any later point of the process, whatever messages come between. */
  lemma Fencing(c: Coord, events: seq<Event>, i: nat, j: nat, older: nat)
    requires Sound(c) && i < j < |events| && Uninterrupted(events[i + 1..j])
    requires ReplyAt(c, events, i).Granted? && older != ReplyAt(c, events, i).grant.lease
    requires var d := After(c, events[..i + 1]);
      older in d.leases && d.leases[older].grant.destination == ReplyAt(c, events, i).grant.destination
    requires events[j].OnPublish? && events[j].publication.lease == older && After(c, events[..j]).running
    ensures ReplyAt(c, events, j) == Acknowledged(false, LeaseMissing, After(c, events[..j]).epoch)
  {
    hide Sound, GrantLease;
    RunsAreSound(c, events[..i]);
    GrantStandsAlone(After(c, events[..i]), events[i]);
    AfterOne(c, events, i);
    Between(c, events, i + 1, j);
  }

  predicate Accepts(r: Reply) { r.Acknowledged? && r.accepted }

  /** The incarnation asked for the destination somewhere between two points of the run, and was granted it. */
  ghost predicate Asked(c: Coord, events: seq<Event>, i: nat, j: nat, destination: nat, boot: nat, worker: nat) {
    exists k | i < k < j && k < |events| && ReplyAt(c, events, k).Granted? ::
      var g := ReplyAt(c, events, k).grant;
      events[k].OnRequest? && g.destination == destination && g.boot == boot && g.worker == worker
  }

  /** A step hands an unrevoked lease to an incarnation only by granting its request. */
  lemma HoldersAsk(c: Coord, e: Event, id: nat)
    requires Sound(c) && id in Next(c, e).0.leases && !Next(c, e).0.leases[id].revoked
    ensures var (d, r) := Next(c, e);
      var g := d.leases[id].grant;
      || (id in c.leases && !c.leases[id].revoked && c.leases[id].grant.destination == g.destination
          && c.leases[id].grant.boot == g.boot && c.leases[id].grant.worker == g.worker)
      || (e.OnRequest? && r.Granted? && r.grant.destination == g.destination && r.grant.boot == g.boot
          && r.grant.worker == g.worker)
  {
    hide Load, Encode, LedgerBehind, Exclusive;
  }

  lemma {:induction false} HoldersAsked(c: Coord, events: seq<Event>, i: nat, j: nat, id: nat)
    requires Sound(c) && i < j <= |events| && ReplyAt(c, events, i).Granted?
    requires id in After(c, events[..j]).leases && !After(c, events[..j]).leases[id].revoked
    requires After(c, events[..j]).leases[id].grant.destination == ReplyAt(c, events, i).grant.destination
    ensures var g, h := ReplyAt(c, events, i).grant, After(c, events[..j]).leases[id].grant;
      (h.boot == g.boot && h.worker == g.worker) || Asked(c, events, i, j, g.destination, h.boot, h.worker)
    decreases j
  {
    hide Sound, GrantLease, Next;
    RunsAreSound(c, events[..j - 1]);
    var before := After(c, events[..j - 1]);
    AfterOne(c, events, j - 1);
    if j == i + 1 {
      GrantStandsAlone(before, events[i]);
      GrantIsHeld(before, events[i]);
    } else {
      HoldersAsk(before, events[j - 1], id);
      var h := After(c, events[..j]).leases[id].grant;
      if !(id in before.leases && !before.leases[id].revoked && before.leases[id].grant.destination == h.destination
           && before.leases[id].grant.boot == h.boot && before.leases[id].grant.worker == h.worker) {
        assert ReplyAt(c, events, j - 1) == Next(before, events[j - 1]).1;
      } else {
        HoldersAsked(c, events, i, j - 1, id);
      }
    }
  }

  lemma GrantIsHeld(c: Coord, e: Event)
    requires Sound(c) && Next(c, e).1.Granted?
    ensures var d, g := Next(c, e).0, Next(c, e).1.grant;
      g.lease in d.leases && d.leases[g.lease].grant == g
  {
    hide Load, Encode, LedgerBehind, GrantLease;
    if e.OnRequest? { GrantIsOnRecord(c, e.request, e.now, e.stored); }
  }

  /** FENCING THROUGH RESTARTS.  After a destination has been granted to one incarnation, a publication under a lease of
      that destination is accepted from another only if that other one has been granted the destination on a request of
      its own in between, whatever messages, failures and restarts there are. */
  lemma OnlyRequestersPublish(c: Coord, events: seq<Event>, i: nat, j: nat)
    requires Sound(c) && i < j < |events| && ReplyAt(c, events, i).Granted?
    requires events[j].OnPublish? && Accepts(ReplyAt(c, events, j))
    requires var d, m := After(c, events[..j]), events[j].publication;
      m.lease in d.leases && d.leases[m.lease].grant.destination == ReplyAt(c, events, i).grant.destination
    ensures var g, m := ReplyAt(c, events, i).grant, events[j].publication;
      (m.boot == g.boot && m.worker == g.worker) || Asked(c, events, i, j, g.destination, m.boot, m.worker)
  {
    hide Sound, GrantLease, Asked, After;
    RunsAreSound(c, events[..j]);
    var d, m := After(c, events[..j]), events[j].publication;
    AcceptedMeansHolder(d, m, events[j].now);
    HoldersAsked(c, events, i, j, m.lease);
  }

  /** MASS REVOCATION.  Once everything has been revoked, no lease then on record is renewed or published under at any later
      point of the process: its holder has to ask again. */
  lemma RevokedForGood(c: Coord, events: seq<Event>, i: nat, j: nat, lease: nat)
    requires Sound(c) && i < j < |events| && Uninterrupted(events[i + 1..j])
    requires events[i].OnRevokeAll? && After(c, events[..i]).running && lease in After(c, events[..i]).leases
    ensures events[j].OnPublish? && events[j].publication.lease == lease ==>
      ReplyAt(c, events, j) == Acknowledged(false, LeaseMissing, After(c, events[..j]).epoch)
    ensures events[j].OnRenew? && events[j].renewal.lease == lease ==>
      ReplyAt(c, events, j) == Denied(LeaseMissing, After(c, events[..j]).epoch)
  {
    hide Sound, GrantLease, After, RevokeAll;
    RevocationIsNotWritten(After(c, events[..i]));
    AfterOne(c, events, i);
    Between(c, events, i + 1, j);
  }

  /** It changes nothing but the revocations and the epoch: the ledger still holds the epoch before it. */
  lemma RevocationIsNotWritten(c: Coord)
    ensures var (d, r) := RevokeAll(c);
      && d.epoch == c.epoch + 1 && r == Epoch(c.epoch + 1) && d.leases.Keys == c.leases.Keys
      && (forall id | id in c.leases :: d.leases[id] == c.leases[id].(revoked := true))
      && d.ledger == c.ledger && d.nextLease == c.nextLease && d.running == c.running && d.config == c.config
  {}

  /** A request from another incarnation ends the holder's lease for good even when the ledger write fails. */
  lemma ContendersAreFenced(c: Coord, events: seq<Event>, i: nat, j: nat, older: nat)
    requires Sound(c) && i < j < |events| && Uninterrupted(events[i + 1..j])
    requires events[i].OnRequest? && events[i].request.worker != 0 && events[i].request.boot != 0
    requires events[i].request.destination != 0 && After(c, events[..j]).running && After(c, events[..i]).running
    requires older in After(c, events[..i]).leases && Contends(After(c, events[..i]).leases[older], events[i].request)
    requires events[j].OnPublish? && events[j].publication.lease == older
    ensures ReplyAt(c, events, j) == Acknowledged(false, LeaseMissing, After(c, events[..j]).epoch)
  {
    hide Sound, GrantLease;
    RunsAreSound(c, events[..i]);
    RequestRevokes(After(c, events[..i]), events[i].request, events[i].now, events[i].stored, older);
    AfterOne(c, events, i);
    Between(c, events, i + 1, j);
  }

  lemma RequestRevokes(c: Coord, q: Request, now: int, stored: bool, older: nat)
    requires Sound(c) && q.worker != 0 && q.boot != 0 && q.destination != 0
    requires older in c.leases && Contends(c.leases[older], q)
    ensures older in GrantLease(c, q, now, stored).0.leases && GrantLease(c, q, now, stored).0.leases[older].revoked
  {
    hide Load, Encode, LedgerBehind;
  }

  /** Accepted sequence numbers of one lease strictly increase, across any renewals between them. */
  lemma AcceptedSequencesIncrease(c: Coord, events: seq<Event>, i: nat, j: nat)
    requires Sound(c) && i < j < |events| && Uninterrupted(events[i..j])
    requires events[i].OnPublish? && events[j].OnPublish? && events[i].publication.lease == events[j].publication.lease
    requires Accepts(ReplyAt(c, events, i)) && Accepts(ReplyAt(c, events, j))
    ensures events[i].publication.sequence < events[j].publication.sequence
  {
    hide Sound, GrantLease, After, Publish;
    var c1, c2 := After(c, events[..i]), After(c, events[..j]);
    AcceptedExactlyWhen(c1, events[i].publication, events[i].now);
    AcceptedExactlyWhen(c2, events[j].publication, events[j].now);
    AfterOne(c, events, i);
    assert Uninterrupted(events[i + 1..j]) by {
      forall e | e in events[i + 1..j] ensures !e.OnRestart? { assert e in events[i..j]; }
    }
    Between(c, events, i + 1, j);
  }

  /** A publication is accepted only from the one unrevoked, unexpired holder of its destination. */
  lemma AcceptedMeansHolder(c: Coord, m: Publication, now: int)
    requires Sound(c) && Accepts(Publish(c, m, now).1)
    ensures m.lease in c.leases && m.epoch == c.epoch && now <= c.leases[m.lease].grant.expiresAt
    ensures m.boot == c.leases[m.lease].grant.boot && m.worker == c.leases[m.lease].grant.worker
    ensures forall id | id in c.leases && !c.leases[id].revoked
        && c.leases[id].grant.destination == c.leases[m.lease].grant.destination :: id == m.lease
  {
    hide Load, LedgerBehind;
  }

  /** A publication is accepted exactly from the unrevoked holder of its lease, under the current epoch, in time and with a
      new sequence number; it then replaces the last decision of that lease, and nothing else changes. */
  lemma AcceptedExactlyWhen(c: Coord, m: Publication, now: int)
    ensures Accepts(Publish(c, m, now).1) <==>
      && m.lease in c.leases && !c.leases[m.lease].revoked && m.epoch == c.epoch
      && m.boot == c.leases[m.lease].grant.boot && m.worker == c.leases[m.lease].grant.worker
      && now <= c.leases[m.lease].grant.expiresAt && m.sequence > c.leases[m.lease].sequence
    ensures Accepts(Publish(c, m, now).1) ==>
      Publish(c, m, now).0 == c.(leases := c.leases[m.lease :=
        LeaseRecord(c.leases[m.lease].grant, false, m.sequence, m.decidedAt, m.kind)])
    ensures !Accepts(Publish(c, m, now).1) && m.epoch == c.epoch ==> Publish(c, m, now).0 == c
  {}

  /** A publication under another epoch costs its lease, whoever sent it; every other refusal names its cause and costs
      nothing. */
  lemma RefusedPublications(c: Coord, m: Publication, now: int)
    requires m.lease in c.leases && !c.leases[m.lease].revoked
    ensures var (d, r) := Publish(c, m, now);
      m.epoch != c.epoch ==> r == Acknowledged(false, EpochMismatch, c.epoch)
                             && d == c.(leases := c.leases[m.lease := c.leases[m.lease].(revoked := true)])
    ensures var (r, l) := (Publish(c, m, now).1, c.leases[m.lease]);
      m.epoch == c.epoch ==>
        && (m.boot != l.grant.boot ==> r == Acknowledged(false, BootMismatch, c.epoch))
        && (m.boot == l.grant.boot && m.worker != l.grant.worker ==> r == Acknowledged(false, EpochMismatch, c.epoch))
        && (m.boot == l.grant.boot && m.worker == l.grant.worker && now > l.grant.expiresAt ==>
              r == Acknowledged(false, LeaseExpired, c.epoch))
        && (m.boot == l.grant.boot && m.worker == l.grant.worker && now <= l.grant.expiresAt && m.sequence <= l.sequence ==>
              r == Acknowledged(false, ReorderedEvidence, c.epoch))
  {}

  /** What a granted request says: the requester, the destination, and a full term from now. */
  lemma GrantIsForTheRequester(c: Coord, q: Request, now: int, stored: bool)
    requires Sound(c) && GrantLease(c, q, now, stored).1.Granted?
    ensures var (d, g) := (GrantLease(c, q, now, stored).0, GrantLease(c, q, now, stored).1.grant);
      && g.destination == q.destination && g.boot == q.boot && g.worker == q.worker && g.attempt == q.attempt
      && g.grantedAt == now && g.expiresAt == now + c.config.leaseDuration && g.epoch == d.epoch
      && g.lease in d.leases && d.leases[g.lease].grant == g && !d.leases[g.lease].revoked
      && (g.lease in c.leases ==> d.epoch == c.epoch && d.leases[g.lease].sequence == c.leases[g.lease].sequence)
      && (g.lease !in c.leases ==> g.lease == c.nextLease && g.policy == q.policy
                                   && g.destinationGeneration == q.destinationGeneration && d.leases[g.lease].sequence == 0)
  {
    hide Load, Encode, LedgerBehind, Exclusive, Supersede;
  }

  /** A renewal is granted exactly to the boot that holds the lease under the current epoch; it starts the term again and
      changes nothing else of the grant. */
  lemma RenewedExactlyWhen(c: Coord, m: Renewal, now: int)
    ensures RenewLease(c, m, now).1.Granted? <==>
      m.lease in c.leases && !c.leases[m.lease].revoked && m.epoch == c.epoch && m.boot == c.leases[m.lease].grant.boot
    ensures RenewLease(c, m, now).1.Granted? ==>
      var (d, g) := (RenewLease(c, m, now).0, RenewLease(c, m, now).1.grant);
      && g.grantedAt == now && g.expiresAt == now + c.config.leaseDuration
      && g == c.leases[m.lease].grant.(grantedAt := now, expiresAt := g.expiresAt)
      && d == c.(leases := c.leases[m.lease := c.leases[m.lease].(grant := g)])
    ensures !RenewLease(c, m, now).1.Granted? ==> RenewLease(c, m, now).0 == c
  {}

  /** A renewal that is denied names the lease, then the epoch, then the boot. */
  lemma DeniedRenewals(c: Coord, m: Renewal, now: int)
    requires !RenewLease(c, m, now).1.Granted?
    ensures RenewLease(c, m, now).1 ==
      if m.lease !in c.leases || c.leases[m.lease].revoked then Denied(LeaseMissing, c.epoch)
      else Denied(if m.epoch != c.epoch then EpochMismatch else BootMismatch, c.epoch)
  {}

  /** The step at k granted or renewed the lease. */
  ghost predicate GrantedAt(c: Coord, events: seq<Event>, k: nat, lease: nat)
    requires k < |events|
  {
    ReplyAt(c, events, k).Granted? && ReplyAt(c, events, k).grant.lease == lease
  }

  /** The time a step is handled at; only messages have one. */
  function TimeOf(e: Event): int {
    match e
    case OnRequest(_, now, _) => now
    case OnRenew(_, now) => now
    case OnPublish(_, now) => now
    case _ => 0
  }

  /** The step at k is the last one of the run that granted or renewed the lease. */
  ghost predicate LastGrantedAt(c: Coord, events: seq<Event>, k: nat, lease: nat)
    requires k < |events|
  {
    GrantedAt(c, events, k, lease) && forall l | k < l < |events| :: !GrantedAt(c, events, l, lease)
  }

  lemma ReplyOfPrefix(c: Coord, before: seq<Event>, last: Event)
    ensures forall l | 0 <= l < |before| :: ReplyAt(c, before + [last], l) == ReplyAt(c, before, l)
    ensures ReplyAt(c, before + [last], |before|) == Next(After(c, before), last).1
    ensures After(c, before + [last]) == Next(After(c, before), last).0
  {
    hide Next;
    var events := before + [last];
    assert events[..|before|] == before;
    assert forall l | 0 <= l < |before| :: before[..l] == events[..l] && before[l] == events[l];
  }

  /** Every lease runs from the last time it was granted or renewed. */
  lemma {:induction false} TermsRunFromGrants(c: Coord, events: seq<Event>, id: nat)
    requires Sound(c) && c.leases == map[] && id in After(c, events).leases
    ensures exists k | 0 <= k < |events| && LastGrantedAt(c, events, k, id) ::
      After(c, events).leases[id].grant.expiresAt == TimeOf(events[k]) + c.config.leaseDuration
    decreases |events|
  {
    hide Sound, GrantLease, Next, ReplyAt, After;
    NothingYet(c);
    var n := |events| - 1;
    var before, last := events[..n], events[n];
    assert before + [last] == events;
    ReplyOfPrefix(c, before, last);
    RunsAreSound(c, before);
    ConfigIsKept(c, before);
    TermStep(After(c, before), last, id);
    if GrantedAt(c, events, n, id) {
      assert LastGrantedAt(c, events, n, id);
    } else {
      TermsRunFromGrants(c, before, id);
      var k :| 0 <= k < n && LastGrantedAt(c, before, k, id)
               && After(c, before).leases[id].grant.expiresAt == TimeOf(before[k]) + c.config.leaseDuration;
      assert forall l | 0 <= l < n :: GrantedAt(c, events, l, id) <==> GrantedAt(c, before, l, id);
      assert LastGrantedAt(c, events, k, id);
    }
  }

  lemma NothingYet(c: Coord)
    ensures After(c, []) == c
  {}

  lemma TermStep(c: Coord, e: Event, id: nat)
    requires Sound(c) && id in Next(c, e).0.leases
    ensures var (d, r) := Next(c, e);
      if r.Granted? && r.grant.lease == id then d.leases[id].grant.expiresAt == TimeOf(e) + c.config.leaseDuration
      else id in c.leases && d.leases[id].grant.expiresAt == c.leases[id].grant.expiresAt
  {
    hide Load, Encode, LedgerBehind, Exclusive;
  }

  lemma {:induction false} ConfigIsKept(c: Coord, events: seq<Event>)
    ensures After(c, events).config == c.config
  {
    hide GrantLease, Load, Encode;
    if events != [] {
      ConfigIsKept(c, events[..|events| - 1]);
      ConfigStep(After(c, events[..|events| - 1]), events[|events| - 1]);
    }
  }

  lemma ConfigStep(c: Coord, e: Event)
    ensures Next(c, e).0.config == c.config
  {
    hide Load, Encode, Supersede;
  }

  /** TERMS.  A publication is accepted only within one term of the last grant or renewal of its lease. */
  lemma AcceptedWithinTheTerm(c: Coord, events: seq<Event>, j: nat)
    requires Sound(c) && c.leases == map[] && j < |events| && events[j].OnPublish? && Accepts(ReplyAt(c, events, j))
    ensures exists k | 0 <= k < j && LastGrantedAt(c, events[..j], k, events[j].publication.lease) ::
      events[j].now <= TimeOf(events[k]) + c.config.leaseDuration
  {
    hide Sound, GrantLease, After, LastGrantedAt;
    var before, m := events[..j], events[j].publication;
    var d := After(c, before);
    AcceptedExactlyWhen(d, m, events[j].now);
    TermsRunFromGrants(c, before, m.lease);
  }

  /** A renewal answers with the epoch the lease was granted under.  A holder that adopts it and publishes is
      accepted exactly when the epoch has not advanced since the grant; otherwise the publication costs it the
      lease it has just renewed. */
  lemma RenewThenPublish(c: Coord, m: Renewal, at: int, p: Publication, now: int)
    requires Sound(c) && RenewLease(c, m, at).1.Granted?
    requires var d, g := RenewLease(c, m, at).0, RenewLease(c, m, at).1.grant;
      p.lease == g.lease && p.epoch == g.epoch && p.boot == g.boot && p.worker == g.worker && now <= g.expiresAt
      && p.sequence > d.leases[g.lease].sequence
    ensures var d := RenewLease(c, m, at).0;
      Accepts(Publish(d, p, now).1) <==> c.leases[m.lease].grant.epoch == c.epoch
    ensures var d := RenewLease(c, m, at).0;
      !Accepts(Publish(d, p, now).1) ==> Publish(d, p, now).0.leases[m.lease].revoked
  {
    hide Load, LedgerBehind, Exclusive;
  }

  /** A holder that adopts the epoch of its renewal. */
  function Adopting(q: Request): seq<Event> {
    [OnRequest(q, 1, true), OnAdvance(true), OnRenew(Renewal(1, 2, q.boot, q.worker, 0), 1),
     OnPublish(Publication(1, 1, q.boot, q.worker, q.destination, 1, NoFanIn, 1), 1)]
  }

  /** A grant, an epoch advance, a renewal under the new epoch, and a publication under the epoch that the renewal returned:
      the holder, alone on its destination, loses the lease. */
  lemma RenewalCostsTheLease(q: Request)
    requires q.worker != 0 && q.boot != 0 && q.destination != 0
    ensures var c, events := Start(Config(1, 1, true), Absent, true).0, Adopting(q);
      && ReplyAt(c, events, 0).Granted? && ReplyAt(c, events, 0).grant.epoch == 1 && ReplyAt(c, events, 1) == Epoch(2)
      && ReplyAt(c, events, 2).Granted? && ReplyAt(c, events, 2).grant.epoch == 1
      && ReplyAt(c, events, 3) == Acknowledged(false, EpochMismatch, 2)
      && 1 in After(c, events).leases && After(c, events).leases[1].revoked
  {
    hide Load, Encode, Supersede;
    var c, events := Start(Config(1, 1, true), Absent, true).0, Adopting(q);
    assert Load(Absent) == Ok(0) by { AbsentLoads(); }
    NoneToSupersede(q);
    assert events[..0] == [] && events[..4] == events;
    AfterOne(c, events, 0);
    AfterOne(c, events, 1);
    AfterOne(c, events, 2);
    AfterOne(c, events, 3);
    assert After(c, []) == c;
  }

  lemma NoneToSupersede(q: Request)
    ensures Supersede(map[], q) == map[]
  {}

  // ----- Epochs -----

  /** An advance that is acknowledged is one above the epoch before it, and on disk when the coordinator is durable; one that
      fails has raised the epoch all the same.  No lease changes. */
  lemma AdvancesAreWritten(c: Coord, stored: bool)
    requires c.epoch < MAX_U64
    ensures var (d, r) := AdvanceEpoch(c, stored);
      && r == (if c.config.durable && !stored then Failed(IoFailure) else Epoch(c.epoch + 1))
      && d == c.(epoch := c.epoch + 1, ledger := d.ledger)
      && (if c.config.durable && stored then Load(d.ledger) == Ok(c.epoch + 1) else d.ledger == c.ledger)
  {
    hide Load, Encode;
    ReadBack(c.epoch + 1);
  }

  /** A grant that supersedes another holder carries an epoch above that of every earlier grant. */
  lemma SupersedingGrantIsNewest(c: Coord, events: seq<Event>, i: nat, j: nat)
    requires Sound(c) && i < j < |events| && Uninterrupted(events[i..j])
    requires ReplyAt(c, events, i).Granted? && ReplyAt(c, events, j).Granted?
    requires events[j].OnRequest? && Superseding(After(c, events[..j]).leases, events[j].request)
    ensures ReplyAt(c, events, i).grant.epoch < ReplyAt(c, events, j).grant.epoch
  {
    hide Sound, GrantLease, Extends, Next, Superseding;
    RunsAreSound(c, events[..i]);
    GrantStandsAlone(After(c, events[..i]), events[i]);
    AfterOne(c, events, i);
    assert Uninterrupted(events[i + 1..j]) by {
      forall e | e in events[i + 1..j] ensures !e.OnRestart? { assert e in events[i..j]; }
    }
    Between(c, events, i + 1, j);
    EpochOrder(After(c, events[..i + 1]), After(c, events[..j]));
    SupersedingRaises(After(c, events[..j]), events[j]);
  }

  lemma EpochOrder(c: Coord, d: Coord)
    requires Extends(c, d)
    ensures c.epoch <= d.epoch
  {}

  lemma SupersedingRaises(c: Coord, e: Event)
    requires Sound(c) && e.OnRequest? && Superseding(c.leases, e.request) && Next(c, e).1.Granted?
    ensures Next(c, e).1.grant.epoch == c.epoch + 1
  {
    hide Load, Encode, LedgerBehind;
  }

  // ----- Restarts -----

  /** No administrator revokes everything and no ledger write fails. */
  predicate Diligent(events: seq<Event>) {
    forall e | e in events :: !e.OnRevokeAll? && (e.OnRequest? || e.OnAdvance? || e.OnRestart? ==> e.stored)
  }

  /** The ledger holds the epoch in memory. */
  ghost predicate LedgerCurrent(c: Coord) {
    c.running && c.config.durable && 1 <= c.epoch && Load(c.ledger) == Ok(c.epoch)
  }

  ghost predicate NoOverflow(c: Coord, events: seq<Event>) {
    forall k | 0 <= k <= |events| :: After(c, events[..k]).epoch <= MAX_U64
  }

  lemma DiligentStep(c: Coord, e: Event)
    requires Sound(c) && LedgerCurrent(c) && Diligent([e]) && Next(c, e).0.epoch <= MAX_U64
    ensures LedgerCurrent(Next(c, e).0) && Next(c, e).0.epoch >= c.epoch
    ensures e.OnRestart? ==> Next(c, e).0.epoch > c.epoch
  {
    hide Load, Encode, Exclusive, Numbered;
    var n := Next(c, e).0;
    assert e in [e];
    ReadBack(n.epoch);
  }

  lemma {:induction false} DiligentRun(c: Coord, events: seq<Event>)
    requires Sound(c) && LedgerCurrent(c) && Diligent(events) && NoOverflow(c, events)
    ensures LedgerCurrent(After(c, events)) && Sound(After(c, events)) && After(c, events).epoch >= c.epoch
  {
    hide Next, Sound, LedgerCurrent;
    RunsAreSound(c, events);
    if events != [] {
      var before, last := events[..|events| - 1], events[|events| - 1];
      assert forall k | 0 <= k <= |before| :: before[..k] == events[..k];
      DiligentRun(c, before);
      assert events[..|events|] == events;
      assert Diligent([last]) by { assert last in events; }
      DiligentStep(After(c, before), last);
    } else {
      assert LedgerCurrent(After(c, events));
    }
  }

  lemma NoOverflowSuffix(c: Coord, events: seq<Event>, i: nat)
    requires i <= |events| && NoOverflow(c, events)
    ensures NoOverflow(c, events[..i]) && NoOverflow(After(c, events[..i]), events[i..])
  {
    hide Next;
    assert forall k | 0 <= k <= i :: events[..i][..k] == events[..k];
    forall k | 0 <= k <= |events| - i ensures After(After(c, events[..i]), events[i..][..k]).epoch <= MAX_U64 {
      AfterInParts(c, events[..i], events[i..][..k]);
      assert events[..i] + events[i..][..k] == events[..i + k];
    }
  }

  /** Two points of a diligent run. */
  lemma DiligentSegment(c: Coord, events: seq<Event>, i: nat, j: nat)
    requires Sound(c) && LedgerCurrent(c) && Diligent(events) && NoOverflow(c, events) && i <= j <= |events|
    ensures Sound(After(c, events[..i])) && LedgerCurrent(After(c, events[..i])) && LedgerCurrent(After(c, events[..j]))
    ensures After(c, events[..i]).epoch <= After(c, events[..j]).epoch <= MAX_U64
  {
    hide Next, Sound, LedgerCurrent, After;
    var d, middle := After(c, events[..i]), events[i..][..j - i];
    assert NoOverflow(c, events[..i]) && NoOverflow(d, middle) by {
      hide NoOverflow;
      NoOverflowSuffix(c, events, i);
      NoOverflowSuffix(d, events[i..], j - i);
    }
    SmallEpoch(c, events, j);
    assert Diligent(events[..i]) && Diligent(middle);
    DiligentRun(c, events[..i]);
    DiligentRun(d, middle);
    AfterInParts(c, events[..i], middle);
    Joined(events, i, j);
  }

  lemma Joined(events: seq<Event>, i: nat, j: nat)
    requires i <= j <= |events|
    ensures events[..i] + events[i..][..j - i] == events[..j]
  {}

  /** Across restarts the epoch outgrows every grant: while ledger writes succeed and nobody revokes everything,
      each state from a restart on has an epoch above every epoch granted before it. */
  lemma RestartOutgrowsGrants(c: Coord, events: seq<Event>, i: nat, k: nat)
    requires Sound(c) && LedgerCurrent(c) && Diligent(events) && NoOverflow(c, events)
    requires i < k < |events| && ReplyAt(c, events, i).Granted? && events[k].OnRestart?
    ensures After(c, events).running && ReplyAt(c, events, i).grant.epoch < After(c, events).epoch
  {
    hide Next, Sound, LedgerCurrent, NoOverflow, After;
    assert Diligent([events[k]]) by { assert events[k] in events; }
    hide Diligent;
    DiligentSegment(c, events, i, i + 1);
    DiligentSegment(c, events, i + 1, k);
    DiligentSegment(c, events, k, k + 1);
    DiligentSegment(c, events, k + 1, |events|);
    GrantStandsAlone(After(c, events[..i]), events[i]);
    AfterOne(c, events, i);
    AfterOne(c, events, k);
    DiligentStep(After(c, events[..k]), events[k]);
    assert events[..|events|] == events;
    CurrentRuns(After(c, events));
  }

  lemma CurrentRuns(c: Coord)
    requires LedgerCurrent(c)
    ensures c.running
  {}

  lemma SmallEpoch(c: Coord, events: seq<Event>, k: nat)
    requires NoOverflow(c, events) && k <= |events|
    ensures After(c, events[..k]).epoch <= MAX_U64
  {}

  /** So no publication that carries the epoch of a grant made before a restart is accepted after it, although the
      restarted process numbers its leases from 1 again. */
  lemma OldEpochsAreRefused(c: Coord, events: seq<Event>, i: nat, k: nat, m: Publication, now: int)
    requires Sound(c) && LedgerCurrent(c) && Diligent(events) && NoOverflow(c, events)
    requires i < k < |events| && ReplyAt(c, events, i).Granted? && events[k].OnRestart?
    requires m.epoch == ReplyAt(c, events, i).grant.epoch
    ensures !Accepts(Publish(After(c, events), m, now).1)
  {
    hide After, Next, LedgerCurrent, NoOverflow;
    RestartOutgrowsGrants(c, events, i, k);
  }

  // ----- When a restart is not above every grant -----

  /** The step raises the epoch. */
  ghost predicate Raises(c: Coord, e: Event) { Next(c, e).0.epoch != c.epoch }

  predicate Written(e: Event) { (e.OnRequest? || e.OnAdvance?) && e.stored }

  /** How many raises of the running process have not reached the ledger: mass revocations, and writes that failed. */
  ghost function Gap(c: Coord, events: seq<Event>): nat {
    if events == [] then 0
    else
      var before, last := events[..|events| - 1], events[|events| - 1];
      if last.OnRestart? then 0
      else if Raises(After(c, before), last) then if Written(last) then 0 else Gap(c, before) + 1
      else Gap(c, before)
  }

  function Less(a: nat, b: nat): nat { if a > b then a - b else 0 }

  /** How far the grants are ahead of the ledger.  A lease granted on request is ahead by the raises that have not reached
      the ledger; every raise that does, and every restart, makes up for what it adds to the ledger. */
  ghost function Lead(c: Coord, events: seq<Event>): nat {
    if events == [] then 0
    else
      var before, last := events[..|events| - 1], events[|events| - 1];
      var lead, gap := Lead(c, before), Gap(c, before);
      if last.OnRestart? then if last.stored then Less(lead, 1) else lead
      else if Raises(After(c, before), last) then if Written(last) then Less(lead, gap + 1) else lead
      else if last.OnRequest? && Next(After(c, before), last).1.Granted? && gap > lead then gap
      else lead
  }

  ghost function OnDisk(c: Coord): nat {
    if Load(c.ledger).Ok? then Load(c.ledger).value else 0
  }

  /** What one uninterrupted step does to the epoch, the ledger and the grants. */
  lemma StepAndLedger(c: Coord, e: Event)
    requires Sound(c) && c.running && c.config.durable && !e.OnRestart? && Next(c, e).0.epoch <= MAX_U64
    ensures var n, r := Next(c, e).0, Next(c, e).1;
      n.running && n.config == c.config
    ensures var n, r := Next(c, e).0, Next(c, e).1;
      Raises(c, e) && Written(e) ==> OnDisk(n) == n.epoch > c.epoch
    ensures var n, r := Next(c, e).0, Next(c, e).1;
      !(Raises(c, e) && Written(e)) ==> n.ledger == c.ledger
    ensures Raises(c, e) ==> Next(c, e).0.epoch == c.epoch + 1
    ensures Raises(c, e) && !Written(e) ==> !Next(c, e).1.Granted?
    ensures Next(c, e).1.Granted? && e.OnRequest? ==> Next(c, e).1.grant.epoch == Next(c, e).0.epoch
    ensures Next(c, e).1.Granted? && !e.OnRequest? ==>
      exists id | id in c.leases :: Next(c, e).1.grant.epoch == c.leases[id].grant.epoch
    ensures forall id | id in Next(c, e).0.leases ::
      || (id in c.leases && Next(c, e).0.leases[id].grant.epoch == c.leases[id].grant.epoch)
      || (e.OnRequest? && Next(c, e).1.Granted? && Next(c, e).0.leases[id].grant.epoch == Next(c, e).1.grant.epoch)
  {
    hide Load, Encode, Exclusive;
    ReadBack(Next(c, e).0.epoch);
  }

  /** What a restart does to the epoch, the ledger and the leases. */
  lemma RestartAndLedger(c: Coord, stored: bool)
    requires c.config.durable && Load(c.ledger).Ok? && FirstEpoch(c.config) <= OnDisk(c)
    requires Next(c, OnRestart(stored)).0.epoch <= MAX_U64
    ensures var n, r := Next(c, OnRestart(stored)).0, Next(c, OnRestart(stored)).1;
      && n.config == c.config && n.leases == map[] && !r.Granted? && Load(n.ledger).Ok?
      && (if stored then n.running && n.epoch == OnDisk(n) == OnDisk(c) + 1 else !n.running && n.ledger == c.ledger)
  {
    hide Load, Encode;
    ReadBack(OnDisk(c) + 1);
  }

  /** The epoch that no grant has passed. */
  ghost function Ceiling(c: Coord, events: seq<Event>): nat { OnDisk(After(c, events)) + Lead(c, events) }

  /** The epoch and the ledger at one point of a run. */
  ghost predicate Ledgered(c: Coord, events: seq<Event>) {
    var d := After(c, events);
    && d.config == c.config && Load(d.ledger).Ok? && FirstEpoch(c.config) <= OnDisk(d)
    && (if d.running then d.epoch == OnDisk(d) + Gap(c, events) else d.leases == map[])
  }

  /** Grants and leases at one point of a run. */
  ghost predicate Accounted(c: Coord, events: seq<Event>) {
    var d := After(c, events);
    && (forall id | id in d.leases :: d.leases[id].grant.epoch <= Ceiling(c, events))
    && (forall i | 0 <= i < |events| && ReplyAt(c, events, i).Granted? ::
          ReplyAt(c, events, i).grant.epoch <= Ceiling(c, events))
    && (Lead(c, events) > 0 ==> exists i | 0 <= i < |events| && ReplyAt(c, events, i).Granted? ::
          ReplyAt(c, events, i).grant.epoch == Ceiling(c, events))
  }

  /** One step: the ledger keeps up with the epoch, and the ceiling rises only to a new grant. */
  lemma LedgeredStep(c: Coord, before: seq<Event>, last: Event)
    requires Ledgered(c, before) && Sound(After(c, before)) && c.config.durable
    requires Next(After(c, before), last).0.epoch <= MAX_U64
    requires forall id | id in After(c, before).leases :: After(c, before).leases[id].grant.epoch <= Ceiling(c, before)
    ensures Ledgered(c, before + [last])
    ensures var r := Next(After(c, before), last).1;
      && Ceiling(c, before) <= Ceiling(c, before + [last]) && (r.Granted? ==> r.grant.epoch <= Ceiling(c, before + [last]))
      && (Lead(c, before + [last]) > 0 ==>
            || (Lead(c, before) > 0 && Ceiling(c, before + [last]) == Ceiling(c, before))
            || (r.Granted? && r.grant.epoch == Ceiling(c, before + [last])))
    ensures forall id | id in After(c, before + [last]).leases ::
      After(c, before + [last]).leases[id].grant.epoch <= Ceiling(c, before + [last])
  {
    hide Next, Sound, Load, FirstEpoch;
    var events, d := before + [last], After(c, before);
    assert events[..|before|] == before;
    if last.OnRestart? {
      RestartAndLedger(d, last.stored);
    } else if d.running {
      StepAndLedger(d, last);
    } else {
      StillIsStill(d, last);
    }
  }

  lemma {:induction false} RunsAreAccounted(c: Coord, events: seq<Event>)
    requires Sound(c) && LedgerCurrent(c) && NoOverflow(c, events) && c.leases == map[] && FirstEpoch(c.config) <= c.epoch
    ensures Ledgered(c, events) && Accounted(c, events)
  {
    hide Next, Sound, Load, FirstEpoch, Gap, OnDisk;
    if events == [] {
      NothingGranted(c);
    } else {
      var before, last := events[..|events| - 1], events[|events| - 1];
      assert forall k | 0 <= k <= |before| :: before[..k] == events[..k];
      RunsAreAccounted(c, before);
      RunsAreSound(c, before);
      assert events[..|events|] == events && before + [last] == events;
      LedgeredStep(c, before, last);
      GrantsStayBelow(c, before, last);
    }
  }

  lemma NothingGranted(c: Coord)
    requires LedgerCurrent(c) && c.leases == map[] && FirstEpoch(c.config) <= c.epoch
    ensures Ledgered(c, []) && Accounted(c, [])
  {
    hide Load, FirstEpoch;
  }

  lemma GrantsStayBelow(c: Coord, before: seq<Event>, last: Event)
    requires Accounted(c, before)
    requires var r := Next(After(c, before), last).1;
      && Ceiling(c, before) <= Ceiling(c, before + [last]) && (r.Granted? ==> r.grant.epoch <= Ceiling(c, before + [last]))
      && (Lead(c, before + [last]) > 0 ==>
            || (Lead(c, before) > 0 && Ceiling(c, before + [last]) == Ceiling(c, before))
            || (r.Granted? && r.grant.epoch == Ceiling(c, before + [last])))
    requires forall id | id in After(c, before + [last]).leases ::
      After(c, before + [last]).leases[id].grant.epoch <= Ceiling(c, before + [last])
    ensures Accounted(c, before + [last])
  {
    hide Next, After, Lead, Ceiling;
    var events := before + [last];
    assert events[..|before|] == before;
    assert forall i | 0 <= i < |before| :: before[..i] == events[..i] && before[i] == events[i];
    assert forall i | 0 <= i < |before| :: ReplyAt(c, before, i) == ReplyAt(c, events, i);
    assert ReplyAt(c, events, |before|) == Next(After(c, before), last).1;
    if Lead(c, events) > 0 && Lead(c, before) > 0 && Ceiling(c, events) == Ceiling(c, before) {
      var i :| 0 <= i < |before| && ReplyAt(c, before, i).Granted? && ReplyAt(c, before, i).grant.epoch == Ceiling(c, before);
      assert ReplyAt(c, events, i).Granted?;
    }
  }

  lemma StillIsStill(c: Coord, e: Event)
    requires !c.running && !e.OnRestart?
    ensures Next(c, e) == (c, Silent)
  {}

  /** THE EPOCH AFTER CRASHES.  Through any messages, failed writes and restarts, the process that is started next begins
      above every epoch granted before exactly when no grant is ahead of the ledger. */
  lemma RestartIsAboveExactlyWhen(c: Coord, events: seq<Event>)
    requires Sound(c) && LedgerCurrent(c) && c.leases == map[] && FirstEpoch(c.config) <= c.epoch
    requires NoOverflow(c, events) && Next(After(c, events), OnRestart(true)).0.epoch <= MAX_U64
    ensures var next := Next(After(c, events), OnRestart(true)).0;
      next.running
      && ((forall i | 0 <= i < |events| && ReplyAt(c, events, i).Granted? :: ReplyAt(c, events, i).grant.epoch < next.epoch)
          <==> Lead(c, events) == 0)
  {
    hide Load, Encode, After, ReplyAt, Lead, Gap, Sound;
    RunsAreAccounted(c, events);
  }

  /** The starts these statements are about. */
  lemma StartsAreCurrent(config: Config, ledger: File)
    requires config.durable && Load(ledger).Ok? && StartEpoch(config, Load(ledger).value) <= MAX_U64
    ensures var c := Start(config, ledger, true).0;
      Sound(c) && LedgerCurrent(c) && c.leases == map[] && FirstEpoch(config) <= c.epoch
      && c.epoch == Max(Max(1, config.initialEpoch), Load(ledger).value + 1)
  {
    hide Load, Encode;
    StartIsSound(config, ledger, true);
    ReadBack(StartEpoch(config, Load(ledger).value));
  }

  /** A mass revocation, a grant and a crash: the restarted coordinator hands out the same epoch again. */
  lemma RevokeAllReusesAnEpoch(q: Request, now: int)
    requires q.worker != 0 && q.boot != 0 && q.destination != 0
    ensures var c := Start(Config(1, 1, true), Absent, true).0;
      var events := [OnRevokeAll, OnRequest(q, now, true)];
      && ReplyAt(c, events, 1).Granted?
      && ReplyAt(c, events, 1).grant.epoch == Next(After(c, events), OnRestart(true)).0.epoch
  {
    hide Load, Encode;
    var c := Start(Config(1, 1, true), Absent, true).0;
    assert Load(Absent) == Ok(0) by { AbsentLoads(); }
    ReadBack(1);
    var events := [OnRevokeAll, OnRequest(q, now, true)];
    assert events[..1] == [OnRevokeAll] && events[..1][..0] == [] && events[..2] == events;
    assert After(c, []) == c;
    assert After(c, [OnRevokeAll]) == Next(c, OnRevokeAll).0;
    assert After(c, events) == Next(After(c, events[..1]), events[1]).0;
  }

  lemma AbsentLoads()
    ensures Load(Absent) == Ok(0)
  {}

  lemma OneHolder(c: Coord, q: Request, id: nat)
    requires Sound(c) && id in c.leases && HeldBy(c.leases[id], q)
    ensures forall other | other in c.leases :: !Contends(c.leases[other], q) && (HeldBy(c.leases[other], q) ==> other == id)
    ensures Supersede(c.leases, q) == c.leases
  {
    hide Load, LedgerBehind;
  }
}
