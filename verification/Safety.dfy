/** What every operation of the governor keeps true of its table of interventions. */
module Safety {
  import opened Model
  import opened Sorting
  import opened Collisions
  import opened Ranking
  import opened Authority
  import opened Classifier
  import opened Mitigate
  import opened Mitigation
  import opened Lifecycle
  import opened Governance

  // ----- The invariant -----

  /** Within the codec's bounds, and lasting. */
  predicate SmallIntent(i: MitigationIntent) {
    i.bounded && |i.penalized| <= MAX_PENALIZED && |i.affected| <= 6 && i.duration > 0
  }

  /** A record is running, being revalidated, or over; its intent is within the codec's bounds and active while live;
      and it carries the authority it was created under. */
  predicate SaneRecord(r: Intervention) {
    && (r.Live() <==> r.state.Active? || r.state.Relaxing? || r.state.Revalidating?)
    && (r.Live() || r.state.Retired? || r.state.Fenced?)
    && (r.Live() ==> r.intent.IsActive())
    && SmallIntent(r.intent)
    && r.refusalDetail == [] && r.binding.epoch != 0 && r.binding.boot != 0 && r.binding.lease != 0
  }

  /** At most one live intervention. */
  ghost predicate OneLive(rs: seq<Intervention>) {
    forall i, j | 0 <= i < |rs| && 0 <= j < |rs| && rs[i].Live() && rs[j].Live() :: i == j
  }

  /** Identities are nonzero, pairwise distinct and below the next one to be given out. */
  ghost predicate Numbered(rs: seq<Intervention>, next: nat) {
    && (forall i | 0 <= i < |rs| :: 0 < rs[i].id < next)
    && forall i, j | 0 <= i < j < |rs| :: rs[i].id != rs[j].id
  }

  ghost predicate SaneRecords(rs: seq<Intervention>) { forall i | 0 <= i < |rs| :: SaneRecord(rs[i]) }

  ghost predicate SaneTable(rs: seq<Intervention>, next: nat) { OneLive(rs) && Numbered(rs, next) && SaneRecords(rs) }

  ghost predicate Sane(s: GovernorState) {
    && |s.lastSequence| == CLASSES && |s.history| <= MAX_HISTORY && |s.interventions| <= MAX_INTERVENTIONS
    && 1 <= s.nextInterventionGeneration && SaneTable(s.interventions, s.nextInterventionGeneration)
  }

  ghost predicate Sound(g: Gov) { Sane(g.state) && g.config.policy.Valid() }

  // ----- Tables -----

  lemma ReplaceKeeps(rs: seq<Intervention>, w: nat, r: Intervention, next: nat)
    requires SaneTable(rs, next) && w < |rs| && rs[w].Live() && r.id == rs[w].id && SaneRecord(r)
    ensures SaneTable(rs[w := r], next)
  {
    hide SaneRecord;
  }

  lemma AppendKeeps(rs: seq<Intervention>, r: Intervention, next: nat)
    requires SaneTable(rs, next) && !HasLive(rs) && r.id == next && next > 0 && SaneRecord(r)
    ensures SaneTable(rs + [r], next + 1)
  {
    hide SaneRecord;
  }

  /** A record by record change that keeps identities and revives nothing keeps the table sane. */
  lemma PointwiseKeeps(rs: seq<Intervention>, ts: seq<Intervention>, next: nat)
    requires SaneTable(rs, next) && |ts| == |rs|
    requires forall i | 0 <= i < |rs| :: ts[i].id == rs[i].id && (ts[i].Live() ==> rs[i].Live()) && SaneRecord(ts[i])
    ensures SaneTable(ts, next)
  {
    hide SaneRecord;
  }

  lemma {:induction false} RecentMembers(rs: seq<Intervention>, room: nat)
    requires forall i, j | 0 <= i < j < |rs| :: rs[i].id != rs[j].id
    ensures forall r | r in Recent(rs, room) :: r in rs && !r.Live()
    ensures forall i, j | 0 <= i < j < |Recent(rs, room)| :: Recent(rs, room)[i].id != Recent(rs, room)[j].id
    decreases |rs|
  {
    if rs != [] && room > 0 {
      var front, last := rs[..|rs| - 1], rs[|rs| - 1];
      assert rs == front + [last];
      assert forall r | r in front :: r in rs && r.id != last.id;
      RecentMembers(front, room);
      RecentMembers(front, room - 1);
    }
  }

  lemma {:induction false} LiveOnes(rs: seq<Intervention>)
    requires OneLive(rs)
    ensures Selected(IsLive(), rs) == if HasLive(rs) then [rs[FirstLive(rs)]] else []
    decreases |rs|
  {
    if rs != [] {
      var front, last := rs[..|rs| - 1], rs[|rs| - 1];
      assert rs == front + [last];
      LiveOnes(front);
    }
  }

  lemma DifferentRecords(rs: seq<Intervention>, a: Intervention, b: Intervention)
    requires (forall i, j | 0 <= i < j < |rs| :: rs[i].id != rs[j].id) && a in rs && b in rs && a != b
    ensures a.id != b.id
  {
    var i :| 0 <= i < |rs| && rs[i] == a;
    var j :| 0 <= j < |rs| && rs[j] == b;
  }

  lemma PartsKeep(live: seq<Intervention>, recent: seq<Intervention>, rs: seq<Intervention>, next: nat)
    requires SaneTable(rs, next) && |live| <= 1
    requires (forall r | r in live :: r in rs && r.Live()) && forall r | r in recent :: r in rs && !r.Live()
    requires forall i, j | 0 <= i < j < |recent| :: recent[i].id != recent[j].id
    ensures SaneTable(live + recent, next)
  {
    hide SaneRecord;
    var t := live + recent;
    forall i | 0 <= i < |t| ensures t[i] in rs {
      assert t[i] in live || t[i] in recent;
    }
    if live != [] {
      forall r | r in recent ensures r.id != live[0].id { DifferentRecords(rs, r, live[0]); }
    }
    assert OneLive(t) by { assert forall i | 0 <= i < |t| && t[i].Live() :: i < |live|; }
    assert Numbered(t, next);
  }

  /** Trimming keeps every live record, adds none, and brings the table within its bound. */
  lemma TrimKeeps(rs: seq<Intervention>, next: nat)
    requires SaneTable(rs, next)
    ensures SaneTable(TrimInterventions(rs), next) && |TrimInterventions(rs)| <= MAX_INTERVENTIONS
    ensures forall r | r in TrimInterventions(rs) :: r in rs
    ensures forall r | r in rs && r.Live() :: r in TrimInterventions(rs)
  {
    hide SaneRecord, Recent, Selected, SaneRecords, OneLive;
    if |rs| > MAX_INTERVENTIONS {
      LiveOnes(rs);
      var live := Selected(IsLive(), rs);
      assert |live| <= 1;
      var recent := Recent(rs, MAX_INTERVENTIONS - |live|);
      RecentMembers(rs, MAX_INTERVENTIONS - |live|);
      PartsKeep(live, recent, rs, next);
      assert TrimInterventions(rs) == live + recent;
    }
  }

  // ----- Synthesized intents are small -----

  lemma {:induction false} DistinctBound<T>(s: seq<T>, universe: set<T>)
    requires Distinct(s) && forall x | x in s :: x in universe
    ensures |s| <= |universe|
    decreases |s|
  {
    if s != [] {
      var last := s[|s| - 1];
      assert s == s[..|s| - 1] + [last];
      DistinctBound(s[..|s| - 1], universe - {last});
    }
  }

  lemma {:induction false} ClassesAreDistinct(cs: seq<Contribution>, limit: nat)
    ensures Distinct(Gather(cs, limit).classes) && |Gather(cs, limit).identities| <= limit
    decreases |cs|
  {
    if cs != [] {
      ClassesAreDistinct(cs[..|cs| - 1], limit);
      DistinctAppend(Gather(cs[..|cs| - 1], limit).classes, cs[|cs| - 1].service);
      hide Distinct;
    }
  }

  const SERVICE_CLASSES: set<ServiceClass> := {BestEffort, Bulk, Interactive, LatencySensitive, Control, Replication}

  lemma OneOfSix(x: ServiceClass)
    ensures x in SERVICE_CLASSES && |SERVICE_CLASSES| == 6
  {}

  /** An authorized intent fits the codec, and is active unless a recovery has ended. */
  lemma AuthorizedIsSmall(r: SynthesisRequest)
    requires r.policy.Valid() && SynthesisOf(r).authorized
    requires r.prior.Some? ==> SmallIntent(r.prior.value)
    ensures var i := SynthesisOf(r).intent;
      SmallIntent(i) && Within(i, r.policy.bounds)
    ensures IsIncident(r.classification.kind) ==>
      SynthesisOf(r).intent.intervention == r.intervention && SynthesisOf(r).intent.generation == r.generation
  {
    hide Gather, Base, ClampBp, ApplyBp, NeededBp, PlannedDuration, Headroom, SynthesisOf, Distinct;
    AuthorizedIsWithin(r);
    if IsIncident(r.classification.kind) {
      FreshPenalizesPool(r);
      FreshIsNumbered(r);
      var classes := Gather(r.classification.contributions, r.policy.bounds.maxPenalizedSenders).classes;
      ClassesAreDistinct(r.classification.contributions, r.policy.bounds.maxPenalizedSenders);
      forall x | x in classes ensures x in SERVICE_CLASSES { OneOfSix(x); }
      OneOfSix(Bulk);
      DistinctBound(classes, SERVICE_CLASSES);
    } else {
      RecoveryKeepsClasses(r);
    }
  }

  lemma FreshIsNumbered(r: SynthesisRequest)
    requires IsIncident(r.classification.kind) && SynthesisOf(r).authorized
    ensures SynthesisOf(r).intent.intervention == r.intervention && SynthesisOf(r).intent.generation == r.generation
  {
    hide PlanOf, PlannedDuration, Headroom, RequiredReduction;
  }

  lemma RecoveryKeepsClasses(r: SynthesisRequest)
    requires !IsIncident(r.classification.kind) && SynthesisOf(r).authorized
    ensures r.prior.Some? && (SynthesisOf(r).intent.affected == r.prior.value.affected || SynthesisOf(r).intent.affected == [])
  {}

  // ----- Records -----

  lemma RecoveredStaysSane(live: Intervention, s: Synthesis, now: int)
    requires SaneRecord(live) && live.Live() && SmallIntent(s.intent)
    ensures SaneRecord(RecoveredRecord(live, s, now))
  {}

  lemma ContinuedStaysSane(live: Intervention, s: Synthesis, now: int)
    requires SaneRecord(live) && live.Live() && SmallIntent(s.intent) && s.intent.IsActive()
    ensures SaneRecord(ContinuedRecord(live, s, now))
  {}

  lemma RelaxedStaysSane(live: Intervention, s: Synthesis, now: int)
    requires SaneRecord(live) && live.Live() && SmallIntent(s.intent) && s.intent.IsActive()
    ensures SaneRecord(RelaxedRecord(live, s, now))
  {}

  lemma EndedStaySane(live: Intervention, now: int)
    requires SaneRecord(live) && live.Live()
    ensures SaneRecord(DroppedRecord(live, now)) && SaneRecord(FencedRecord(live))
  {}

  lemma HeldStaysSane(live: Intervention, now: int)
    requires SaneRecord(live) && live.Live()
    ensures SaneRecord(HeldRecord(live, now))
  {}

  lemma RecordsKeepIdentity(live: Intervention, s: Synthesis, now: int)
    ensures RecoveredRecord(live, s, now).id == live.id && DroppedRecord(live, now).id == live.id
    ensures FencedRecord(live).id == live.id && HeldRecord(live, now).id == live.id
    ensures ContinuedRecord(live, s, now).id == live.id && RelaxedRecord(live, s, now).id == live.id
  {}

  // ----- Evaluation -----

  lemma GateBinds(g: Gov, b: Bundle)
    requires Gate(g, b) == NoRefusal
    ensures b.binding.epoch == g.config.binding.epoch != 0 && b.binding.boot == g.config.binding.boot != 0
    ensures b.binding.lease == g.config.binding.lease != 0 && b.now != 0 && g.accepting
    ensures g.config.leaseExpiry == 0 || b.now <= g.config.leaseExpiry
  {}

  lemma WithLiveIsSane(rs: seq<Intervention>, w: nat, b: Bundle, c: Classification, s: Synthesis, next: nat)
    requires SaneTable(rs, next) && w < |rs| && rs[w].Live() && (s.authorized ==> SmallIntent(s.intent))
    ensures SaneTable(WithLive(rs, w, b, c, s).records, next)
  {
    hide SaneRecord, SaneTable, SmallIntent, RecoveredRecord, DroppedRecord, ContinuedRecord, RelaxedRecord;
    LiveIsSane(rs, next, w);
    EndedStaySane(rs[w], b.now);
    RecordsKeepIdentity(rs[w], s, b.now);
    if s.authorized {
      RecoveredStaysSane(rs[w], s, b.now);
      if s.intent.IsActive() {
        ContinuedStaysSane(rs[w], s, b.now);
        RelaxedStaysSane(rs[w], s, b.now);
      }
    }
    var e := WithLive(rs, w, b, c, s);
    if e.records != rs { ReplaceKeeps(rs, w, e.records[w], next); }
  }

  lemma EffectIsSane(g: Gov, b: Bundle, c: Classification)
    requires Sound(g) && Gate(g, b) == NoRefusal
    ensures var e := EffectOf(g, b, c, SynthesisOf(RequestFor(g, b, c)));
      SaneTable(e.records, g.state.nextInterventionGeneration + (if e.issued then 1 else 0))
  {
    hide SynthesisOf, SaneRecord, SaneTable, SmallIntent, HeldRecord, CreatedRecord, Gate, Policy.Valid, HeldByHysteresis, WithLive;
    var rs, next := g.state.interventions, g.state.nextInterventionGeneration;
    var r := RequestFor(g, b, c);
    var s := SynthesisOf(r);
    var w := FirstLive(rs);
    GateBinds(g, b);
    if w < |rs| { LiveIsSane(rs, next, w); }
    if s.authorized { AuthorizedIsSmall(r); }
    if w == |rs| {
      if IsIncident(c.kind) && s.authorized && s.intent.IsActive() {
        CreatedIsSane(s, b, g.config.policy.ref, next);
        AppendKeeps(rs, CreatedRecord(s, b, g.config.policy.ref, b.now), next);
      }
    } else if HeldByHysteresis(rs[w], c) {
      HeldStaysSane(rs[w], b.now);
      RecordsKeepIdentity(rs[w], s, b.now);
      ReplaceKeeps(rs, w, HeldRecord(rs[w], b.now), next);
    } else {
      WithLiveIsSane(rs, w, b, c, s, next);
      WithLiveIssuesNothing(rs, w, b, c, s);
    }
  }

  lemma WithLiveIssuesNothing(rs: seq<Intervention>, w: nat, b: Bundle, c: Classification, s: Synthesis)
    requires w < |rs|
    ensures !WithLive(rs, w, b, c, s).issued
  {}

  lemma LiveIsSane(rs: seq<Intervention>, next: nat, w: nat)
    requires SaneTable(rs, next) && w < |rs|
    ensures SaneRecord(rs[w]) && SmallIntent(rs[w].intent)
  {}

  lemma CreatedIsSane(s: Synthesis, b: Bundle, ref: PolicyRef, next: nat)
    requires s.intent.IsActive() && SmallIntent(s.intent)
    requires s.intent.intervention == next && b.binding.epoch != 0 && b.binding.boot != 0 && b.binding.lease != 0
    ensures SaneRecord(CreatedRecord(s, b, ref, b.now)) && CreatedRecord(s, b, ref, b.now).id == next
  {}

  lemma HistoryIsBounded(h: seq<WindowRecord>, limit: nat)
    ensures |TrimHistory(h, limit)| <= MAX_HISTORY
    ensures limit > 0 && h != [] ==> TrimHistory(h, limit) != [] && TrimHistory(h, limit)[|TrimHistory(h, limit)| - 1] == h[|h| - 1]
  {}

  lemma SoundIsShaped(g: Gov)
    requires Sound(g)
    ensures Shaped(g)
  {}

  lemma ActIsSound(g: Gov, b: Bundle)
    requires Sound(g) && Shaped(g) && Admits(g, b)
    ensures Sound(Act(g, b).0)
  {
    hide SaneRecord, SaneTable, SynthesisOf, ClassifyWindow, Gate, Check, EffectOf, TrimInterventions, TrimHistory,
      Policy.Valid, FencedRecord, FenceReason, Collided;
    var c, s := Verdict(g, b), Listened(g, b);
    var rs, w := g.state.interventions, FirstLive(g.state.interventions);
    if LiveFence(g, b) != NoRefusal {
      LiveIsSane(rs, g.state.nextInterventionGeneration, w);
      EndedStaySane(rs[w], b.now);
      FencedKeepsIdentity(rs[w]);
      ReplaceKeeps(rs, w, FencedRecord(rs[w]), g.state.nextInterventionGeneration);
    } else {
      EffectIsSane(g, b, c);
      var e := EffectOf(g, b, c, SynthesisOf(RequestFor(g, b, c)));
      TrimKeeps(e.records, g.state.nextInterventionGeneration + (if e.issued then 1 else 0));
      HistoryIsBounded(s.history + [RecordOf(b, c)], g.config.maxHistory);
    }
  }

  lemma FencedKeepsIdentity(live: Intervention)
    ensures FencedRecord(live).id == live.id
  {}

  lemma EvaluateIsSound(g: Gov, b: Bundle)
    requires Sound(g) && Shaped(g)
    ensures Sound(Evaluate(g, b).0)
  {
    hide SaneTable, Act, Admits, Policy.Valid;
    if Admits(g, b) { ActIsSound(g, b); }
  }

  // ----- The other operations -----

  lemma InitialIsSound(config: Config)
    requires config.policy.Valid()
    ensures Sound(Initial(config))
  {
    hide Policy.Valid;
  }

  lemma ConfigureIsSound(g: Gov, p: Policy, now: int)
    requires Sound(g)
    ensures Sound(ConfigurePolicy(g, p, now).0)
  {
    hide Policy.Valid, SaneTable;
    var rs := g.state.interventions;
    ReconfiguredIsSane(rs, p.ref, now, g.state.nextInterventionGeneration);
  }

  lemma ReconfiguredIsSane(rs: seq<Intervention>, ref: PolicyRef, now: int, next: nat)
    requires SaneTable(rs, next)
    ensures SaneTable(Reconfigured(rs, ref, now), next)
  {
    hide Reconfigured;
    PointwiseKeeps(rs, Reconfigured(rs, ref, now), next);
  }

  lemma RestoreIsSound(g: Gov, s: GovernorState)
    requires Sound(g) && Sane(s)
    ensures Sound(RestoreState(g, s).0)
  {
    hide Policy.Valid, SaneTable;
    RestoredIsSane(s.interventions, s.lastEvaluation, s.nextInterventionGeneration);
  }

  lemma RestoredIsSane(rs: seq<Intervention>, at: int, next: nat)
    requires SaneTable(rs, next)
    ensures SaneTable(Restored(rs, at), next)
  {
    hide Restored;
    PointwiseKeeps(rs, Restored(rs, at), next);
  }

  /** What the durable store returns for a sane state is sane. */
  lemma RecoveredIsSane(s: GovernorState)
    requires Sane(s)
    ensures Sane(Recovered(s)) && s.Valid()
  {
    hide Revalidated;
    PointwiseKeeps(s.interventions, Revalidated(s.interventions), s.nextInterventionGeneration);
  }

  lemma RetireIsSound(g: Gov, id: nat, now: int)
    requires Sound(g)
    ensures Sound(Retire(g, id, now).0)
  {
    hide Policy.Valid;
    var rs := g.state.interventions;
    var w := IndexOf(rs, id);
    if w < |rs| && !IsTerminalState(rs[w].state) && Transition(rs[w], InterventionState.Retired, now).Ok? {
      var moved := Transition(rs[w], InterventionState.Retired, now).value;
      assert SaneRecord(moved);
      ReplaceKeeps(rs, w, moved, g.state.nextInterventionGeneration);
    }
  }

  lemma ShutdownIsSound(g: Gov, now: int)
    requires Sound(g)
    ensures Sound(Shutdown(g, now).0)
  {
    hide Policy.Valid, SaneTable;
    ShutDownIsSane(g.state.interventions, now, g.state.nextInterventionGeneration);
  }

  lemma ShutDownIsSane(rs: seq<Intervention>, now: int, next: nat)
    requires SaneTable(rs, next)
    ensures SaneTable(ShutDown(rs, now), next)
  {
    hide ShutDown;
    PointwiseKeeps(rs, ShutDown(rs, now), next);
  }
}
