/** From one governor process to the next: commit, crash, recover, restore. */
module Continuity {
  import opened Model
  import opened StateCodec
  import D = Durable
  import opened Governance
  import opened Safety
  import opened Runs
  import opened Authorities

  /** The governor of a new process once it has restored what a crashed one committed last. */
  ghost function Successor(config: Config, r: Run): Gov
    requires config.policy.Valid() && WellFounded(r)
  {
    At(Then(Start(config), Restoring(r, true)))
  }

  /** The governor of a new process that recovers from the given disk. */
  ghost function Reborn(config: Config, d: D.Disk): Gov { RestoreState(Initial(config), D.Recovery(d).state).0 }

  /** A snapshot the durable store can take in. */
  ghost predicate Committable(s: D.Store, st: GovernorState) {
    D.Clean(s) && StorableState(st) && (D.Fits(st) ==> D.Room(s, st))
  }

  ghost predicate Committed(s: D.Store, st: GovernorState, d: D.Disk)
    requires Committable(s, st)
  {
    D.Commit(s, st).1.Ok? && d == D.Commit(s, st).0.disk
  }

  ghost predicate CrashedInCommit(s: D.Store, st: GovernorState, d: D.Disk)
    requires Committable(s, st)
  {
    d in D.CommitTrace(s, st)
  }

  lemma CommitRecovers(s: D.Store, st: GovernorState, d: D.Disk)
    requires Committable(s, st) && (CrashedInCommit(s, st, d) || Committed(s, st, d))
    ensures D.Recovery(d).state == Recovered(D.Held(s)) || D.Recovery(d).state == Recovered(st)
    ensures Committed(s, st, d) ==> D.Recovery(d).state == Recovered(st)
  {
    hide D.Raw, D.Clean, D.Commit, D.CommitTrace, D.Room, D.Fits, Recovered, StorableState;
    D.CommitIsAtomic(s, st);
  }

  /** The governor goes on from the state of an earlier process: its tables, sequences and counters, without authority,
      and with every live record awaiting revalidation. */
  predicate Resumes(h: Gov, config: Config, st: GovernorState) {
    var t := h.state;
    && h.accepting && h.config == config.(binding := Binding(0, 0, 0, 0), leaseExpiry := 0)
    && t.history == st.history && t.lastSequence == st.lastSequence && t.lastSequenceBoot == st.lastSequenceBoot
    && t.policy == st.policy && t.destination == st.destination && t.destinationGeneration == st.destinationGeneration
    && t.lastEvaluation == st.lastEvaluation && t.evaluationCount == st.evaluationCount && t.refusalCount == st.refusalCount
    && t.interventionCount == st.interventionCount && t.nextInterventionGeneration == st.nextInterventionGeneration
    && |t.interventions| == |st.interventions|
    && (forall i | 0 <= i < |st.interventions| :: AwaitsRevalidationSince(t.interventions[i], st.interventions[i], st.lastEvaluation))
    && t.epoch == 0 && t.boot == 0 && t.incidentStreak == 0 && t.cleanStreak == 0 && t.recovery == NO_RECOVERY
    && t.requiresRevalidation && t.restoredFromDurable && t.restoreCount == st.restoreCount + 2
    && t.generation == st.generation + 1
  }

  predicate AwaitsRevalidationSince(r: Intervention, i: Intervention, at: int) {
    if i.state in {Authorized, Active, Relaxing, Revalidating} then r == i.(state := Revalidating, updatedAt := at) else r == i
  }

  lemma SuccessorsResume(config: Config, st: GovernorState)
    requires Sane(st)
    ensures Resumes(RestoreState(Initial(config), Recovered(st)).0, config, st)
  {
    hide Restored, Revalidated, SaneTable;
    RecoveredIsSane(st);
  }

  /** Committing the snapshot of a reachable governor, and crashing at any point, leaves a disk from which a new governor
      either goes on from the state committed or finds what the store held before; when the commit was acknowledged it goes
      on from the state committed.  Its own runs are runs that restored the committed one, and it has no authority until it
      is bound again. */
  lemma CommittedRunsAreRestored(r: Run, s: D.Store, st: GovernorState, d: D.Disk, config: Config)
    requires WellFounded(r) && config.policy.Valid() && At(r).state == st && Committable(s, st)
    requires CrashedInCommit(s, st, d) || Committed(s, st, d)
    ensures (Resumes(Reborn(config, d), config, st) && Reborn(config, d) == Successor(config, r))
         || D.Revived(D.Recovery(d).state, D.Held(s))
    ensures Committed(s, st, d) ==> Resumes(Reborn(config, d), config, st) && Reborn(config, d) == Successor(config, r)
    ensures Successor(config, r).config.binding == UNBOUND
  {
    hide At, Committable, Committed, CrashedInCommit, Recovered, RestoreState, Initial, Sound, Policy.Valid, Resumes, D.Raw,
      D.Revived;
    CommitRecovers(s, st, d);
    RestoredRun(config, r);
    SoundIsSane(At(r));
    SuccessorsResume(config, st);
    assert Sane(Recovered(st)) by { RecoveredIsSane(st); }
    RestoreUnbinds(Initial(config), Recovered(st));
    D.RecoveryRevives(d);
    D.RecoveredIsRevived(D.Held(s));
  }

  lemma RestoredRun(config: Config, r: Run)
    requires config.policy.Valid() && WellFounded(r)
    ensures Successor(config, r) == RestoreState(Initial(config), Recovered(At(r).state)).0
  {
    hide RestoreState, Initial, Recovered, Sound, Policy.Valid;
    assert At(Start(config)) == Initial(config);
  }
}
