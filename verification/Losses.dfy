/** Runs of the store, from an empty directory, after which acknowledged work is not recovered. */
module Losses {
  import opened Words
  import opened Outcomes
  import C = Codec
  import opened Model
  import opened StateCodec
  import opened Journal
  import opened Durable

  const NOTHING: Disk := Disk(None, map[])

  /** The settings a store has unless it is configured otherwise. */
  const DEFAULTS: Settings := Settings(4096, 0x40_0000)

  // ----- States to be stored -----

  /** An otherwise empty state that names a number of senders in the intent of an intervention that is over. */
  function Naming(ids: seq<SenderIdentity>): Intervention {
    Intervention(1, 1, 1, 1, 1, 1, InterventionState.Retired, EMPTY_INTENT.(penalized := ids), Binding(1, 1, 1, 1), PolicyRef(1, 1),
                 1, 1, 1, 0, 0, 0, 0, NoRefusal, [])
  }

  function Plain(generation: nat, rs: seq<Intervention>): GovernorState {
    EMPTY_STATE.(generation := generation, interventions := rs)
  }

  lemma OnlyBounded()
    ensures FlagWord([true, false, false, false, false, false]) == 1
  {
    assert FlagWord([false, false, false]) == 0;
    assert FlagWord([false, false, false, false, false]) == 0;
    assert [true, false, false, false, false, false][1..] == [false, false, false, false, false];
  }

  lemma SmallFits(k: C.Kind, v: nat)
    requires v <= 5 && (k.Code? ==> v <= k.bound as int) && (k.Nonzero64? || k.Flag? ==> v == 1)
    ensures C.Fits(k, v)
  {}

  lemma RecordHeadFits(ids: seq<SenderIdentity>)
    ensures C.FitsRun(RECORD_HEAD, RecordHead(Naming(ids)))
  {
    hide C.Fits;
    forall k | 0 <= k < |RECORD_HEAD| ensures C.Fits(RECORD_HEAD[k], RecordHead(Naming(ids))[k]) {
      SmallFits(RECORD_HEAD[k], RecordHead(Naming(ids))[k]);
    }
  }

  lemma IntentHeadFits(ids: seq<SenderIdentity>)
    ensures C.FitsRun(INTENT_HEAD, IntentHead(Naming(ids).intent))
  {
    hide C.Fits;
    forall k | 0 <= k < |INTENT_HEAD| ensures C.Fits(INTENT_HEAD[k], IntentHead(Naming(ids).intent)[k]) {
      SmallFits(INTENT_HEAD[k], IntentHead(Naming(ids).intent)[k]);
    }
  }

  lemma TailFits(ids: seq<SenderIdentity>)
    ensures C.FitsRun(INTENT_TAIL, IntentTail(Naming(ids).intent))
  {
    hide FlagWord;
    OnlyBounded();
    assert IntentTail(Naming(ids).intent) == [0, 0, 0, 0, 0, 0, 0, 1];
    forall k | 0 <= k < |INTENT_TAIL| ensures C.Fits(INTENT_TAIL[k], IntentTail(Naming(ids).intent)[k]) {}
  }

  lemma IdentitiesFit(ids: seq<SenderIdentity>)
    requires forall i | 0 <= i < |ids| ::
      ids[i].sender <= MAX_U64 && ids[i].incarnation <= MAX_U64 && ids[i].flow <= MAX_U64
    ensures C.FitsItems(IDENTITY, Identities(ids))
  {}

  lemma NamingIsStorable(ids: seq<SenderIdentity>)
    requires |ids| <= MAX_PENALIZED
    requires forall i | 0 <= i < |ids| ::
      ids[i].sender <= MAX_U64 && ids[i].incarnation <= MAX_U64 && ids[i].flow <= MAX_U64
    ensures Storable(Naming(ids))
  {
    hide C.FitsRun, C.FitsItems, RecordHead, IntentHead, IntentTail, Identities;
    RecordHeadFits(ids);
    IntentHeadFits(ids);
    TailFits(ids);
    IdentitiesFit(ids);
  }

  lemma PlainIsStorable(generation: nat, rs: seq<Intervention>)
    requires generation <= MAX_U64 && |rs| <= 1
    requires forall i | 0 <= i < |rs| :: Storable(rs[i]) && rs[i].id != 0 && rs[i].intent.bounded
    ensures StorableState(Plain(generation, rs))
  {
    hide Storable;
    var s := Plain(generation, rs);
    var h, t := StateHead(s), Tracking(s);
    assert h == [generation, 0, 0, 0, 0, 0, 0, 0, 0, 0, 0, 0, 0, 1, 1, 0, 0];
    assert t == [0, 0, 0, 0, 0, 0, 0, 0, 0, 0, 0, 0, 0, 0, 0];
    forall i | 0 <= i < |STATE_HEAD| ensures C.Fits(STATE_HEAD[i], h[i]) {
      if i == 0 { assert h[i] == generation; } else if i == 13 { assert h[i] == 1; }
    }
  }

  lemma PlainFits(generation: nat, rs: seq<Intervention>)
    requires generation <= MAX_U64 && |rs| <= 1
    requires forall i | 0 <= i < |rs| :: Storable(rs[i]) && rs[i].id != 0 && rs[i].intent.bounded
    ensures Fits(Plain(generation, rs)) && |EncodeState(Plain(generation, rs))| <= 0x1_0000
  {
    hide StateHead, Tracking, C.PutRun, C.PutCounted, PutInterventions, C.RunWidth, Storable, C.Fits, C.FitsRun, C.FitsItems;
    var s := Plain(generation, rs);
    PlainIsStorable(generation, rs);
    ContainerLength(s);
    C.RunLength(STATE_HEAD, StateHead(s));
    RunWidthBound(STATE_HEAD);
    C.RunLength(TRACKING, Tracking(s));
    RunWidthBound(TRACKING);
    CountedLength(HISTORY, Windows(s.history), 0);
    InterventionsRoundTrip(rs);
  }

  // ----- A leftover journal and a torn tail -----

  lemma BytesLength(st: GovernorState)
    requires Fits(st)
    ensures |Bytes(st)| == RECORD_HEADER_BYTES + |EncodeState(st)|
  {
    hide EncodeRecord, EncodeState, StorableState;
    StorableIsShaped(st);
    RecordRoundTrip(CommitRecord(st), []);
  }

  lemma FirstCommit(settings: Settings, st: GovernorState)
    requires Fits(st) && |EncodeState(st)| <= settings.maxStateBytes && 1 < settings.maxRecords
    ensures var (s, r) := Commit(Open(settings, NOTHING), st);
      r.Ok? && Clean(s) && s.journal == Some(1) && s.journalEpoch == 1 && s.settings == settings && Held(s) == st
      && s.disk.journals == map[1 := FILE_HEADER + Bytes(st)] && FileCommit(s.disk.journals[1]) == Some(st)
  {
    hide Raw, FileCommit, StorableState, EncodeState, EncodeRecord, WholeFile;
    StorableIsShaped(st);
    EmptyStoresAreClean(settings, None);
    BytesLength(st);
    CommitIsAtomic(Open(settings, NOTHING), st);
    var s := Commit(Open(settings, NOTHING), st).0;
    assert s.disk.journals == map[1 := FILE_HEADER + Bytes(st)];
    FileIsFresh();
    FileAfterAppend(FILE_HEADER, st, |Bytes(st)|);
    assert Bytes(st)[..|Bytes(st)|] == Bytes(st);
  }

  /** A new store that has made one commit. */
  function Begun(): Store { Commit(Open(DEFAULTS, NOTHING), Plain(1, [])).0 }

  /** A commit; a checkpoint cut short by a crash; and, in the next process, a commit and a checkpoint, both acknowledged:
      recovery finds the first commit. */
  lemma CheckpointsAreLost()
    ensures var first, second, third, fourth := Plain(1, []), Plain(2, []), Plain(3, []), Plain(4, []);
      var s := Begun();
      Checkpoint(s, second).1.Ok?
      && var (t, r) := Commit(CutShort(s, second, DEFAULTS), third);
         var (u, q) := Checkpoint(t, fourth);
         r.Ok? && q.Ok? && Raw(u.disk).state == first != fourth
  {
    hide Raw, Commit, Checkpoint, CutShort, FileCommit, Clean, Fits, EncodeState;
    var first, second, third, fourth := Plain(1, []), Plain(2, []), Plain(3, []), Plain(4, []);
    PlainFits(1, []);
    PlainFits(2, []);
    PlainFits(3, []);
    PlainFits(4, []);
    PlainIsStorable(4, []);
    FirstCommit(DEFAULTS, first);
    var s := Begun();
    CheckpointSucceeds(s, second);
    LeftoverJournalsWin(s, second, DEFAULTS, third, fourth);
  }

  /** A commit; one torn behind its first byte by a crash; and, in the next process, an acknowledged commit: recovery finds
      the first. */
  lemma CommitsAreHidden()
    ensures var first, third := Plain(1, []), Plain(3, []);
      var s := Begun();
      var (t, r) := Commit(Resumed(Open(DEFAULTS, WithJournal(s.disk, 1, [0x49]))), third);
      r.Ok? && Raw(t.disk).state == first != third
  {
    hide Raw, Commit, FileCommit, Clean, Fits, EncodeState, Bytes, Mends, Completes, Resumed, WithJournal;
    var first, lost, third := Plain(1, []), Plain(2, []), Plain(3, []);
    PlainFits(1, []);
    PlainFits(2, []);
    PlainFits(3, []);
    FirstCommit(DEFAULTS, first);
    BytesLength(first);
    BytesLength(lost);
    BytesLength(third);
    FirstByte(lost);
    var s := Begun();
    CommitsBehindTornTails(s, lost, 1, third);
    NotMended(lost, third);
  }

  lemma FirstByte(st: GovernorState)
    requires Fits(st)
    ensures |Bytes(st)| > 1 && Bytes(st)[..1] == [0x49]
  {
    hide EncodeRecord, EncodeState, StorableState;
    StorableIsShaped(st);
    EncodedStart(CommitRecord(st));
    assert EncodeRecord(CommitRecord(st))[..4][0] == EncodeRecord(CommitRecord(st))[0];
  }

  lemma NotMended(lost: GovernorState, st: GovernorState)
    requires Fits(lost) && Fits(st) && |Bytes(lost)| > 1
    ensures !Mends(lost, 1, st)
  {
    hide EncodeRecord, EncodeState, StorableState;
  }

  lemma SecondJournal(settings: Settings, first: GovernorState, second: GovernorState, third: GovernorState)
    requires Fits(first) && Fits(second) && Fits(third) && 1 < settings.maxRecords
    requires |EncodeState(first)| <= settings.maxStateBytes && |EncodeState(second)| <= settings.maxStateBytes
    requires |EncodeState(third)| <= settings.maxStateBytes
    ensures var s := Commit(Open(settings, NOTHING), first).0;
      var u := Checkpoint(s, second).0;
      var t := Commit(u, third).0;
      t.disk.journals == map[2 := FILE_HEADER + Bytes(third)] && FileCommit(t.disk.journals[2]) == Some(third)
  {
    hide Raw, FileCommit, StorableState, EncodeState, EncodeRecord, WholeFile, Clean;
    StorableIsShaped(first);
    StorableIsShaped(second);
    StorableIsShaped(third);
    FirstCommit(settings, first);
    var s := Commit(Open(settings, NOTHING), first).0;
    var u := Checkpoint(s, second).0;
    assert u.disk.journals == map[2 := FILE_HEADER];
    var t := Commit(u, third).0;
    assert t.disk.journals == map[2 := FILE_HEADER + Bytes(third)];
    FileIsFresh();
    BytesLength(third);
    FileAfterAppend(FILE_HEADER, third, |Bytes(third)|);
    assert Bytes(third)[..|Bytes(third)|] == Bytes(third);
  }

  /** A commit, a checkpoint and another commit; then a process that opens the store without recovering, and commits:
      recovery finds what the process before it committed last. */
  lemma UnrecoveredCommitIsLost()
    ensures var s, second, third, fourth := Begun(), Plain(2, []), Plain(3, []), Plain(4, []);
      var t := Commit(Checkpoint(s, second).0, third).0;
      var (u, r) := Commit(Open(DEFAULTS, t.disk), fourth);
      r.Ok? && Raw(u.disk).state == third != fourth
  {
    hide Raw, Commit, Checkpoint, FileCommit, Fits, EncodeState;
    PlainFits(1, []);
    PlainFits(2, []);
    PlainFits(3, []);
    PlainFits(4, []);
    SecondJournal(DEFAULTS, Plain(1, []), Plain(2, []), Plain(3, []));
    var t := Commit(Checkpoint(Begun(), Plain(2, [])).0, Plain(3, [])).0;
    UnrecoveredCommitsAreLost(DEFAULTS, t.disk, 2, Plain(4, []));
  }

  // ----- A journal that is too long -----

  function Repeated(st: GovernorState, n: nat): (ops: seq<StoreOp>)
    ensures |ops| == n && forall i | 0 <= i < n :: ops[i] == Committing(st)
  {
    seq(n, _ => Committing(st))
  }

  lemma RepeatedOnce(st: GovernorState, n: nat)
    requires n > 0
    ensures Repeated(st, n)[..n - 1] == Repeated(st, n - 1)
  {}

  /** As many commits as stay below the limit on records grow one journal and write no snapshot. */
  lemma {:induction false} JournalGrows(settings: Settings, st: GovernorState, n: nat)
    requires Fits(st) && |EncodeState(st)| <= settings.maxStateBytes && n < settings.maxRecords
    ensures Storables(Repeated(st, n))
    ensures var t := After(Open(settings, NOTHING), Repeated(st, n));
      && t.settings == settings && t.records == n && t.disk.snapshot == None
      && (if n == 0 then t.journal.None? && t.journalEpoch == 0 && t.disk.journals == map[]
          else t.journal == Some(1) && t.disk.journals.Keys == {1}
               && |t.disk.journals[1]| == FILE_HEADER_BYTES + n * |Bytes(st)|)
    ensures Acknowledged(Open(settings, NOTHING), Repeated(st, n), EMPTY_STATE) == if n == 0 then EMPTY_STATE else st
  {
    hide StorableState, EncodeState, Bytes, Commit;
    StorableIsShaped(st);
    if n > 0 {
      JournalGrows(settings, st, n - 1);
      RepeatedOnce(st, n);
      OneMore(After(Open(settings, NOTHING), Repeated(st, n - 1)), st, n - 1);
      assert (n - 1) * |Bytes(st)| + |Bytes(st)| == n * |Bytes(st)|;
    }
  }

  lemma OneMore(s: Store, st: GovernorState, n: nat)
    requires Fits(st) && |EncodeState(st)| <= s.settings.maxStateBytes && n + 1 < s.settings.maxRecords
    requires s.records == n && (n == 0 ==> s.journal.None? && s.journalEpoch == 0 && s.disk.journals == map[])
    requires n > 0 ==> s.journal == Some(1) && s.disk.journals.Keys == {1}
    ensures var (t, r) := Commit(s, st);
      && r.Ok? && t.settings == s.settings && t.records == n + 1 && t.disk.snapshot == s.disk.snapshot
      && t.journal == Some(1) && t.disk.journals.Keys == {1}
      && |t.disk.journals[1]| == (if n == 0 then FILE_HEADER_BYTES else |s.disk.journals[1]|) + |Bytes(st)|
  {
    hide StorableState, EncodeState, EncodeRecord, Checkpoint;
    StorableIsShaped(st);
    FreshFile();
  }

  /** Commits that outgrow what recovery is willing to read, with room left in the limit on records, are all acknowledged
      and all lost: recovery finds an empty state. */
  lemma LongJournalsAreLost(settings: Settings, st: GovernorState, n: nat)
    requires Fits(st) && |EncodeState(st)| <= settings.maxStateBytes && 0 < n < settings.maxRecords
    requires FILE_HEADER_BYTES + n * |Bytes(st)| > MAX_READ
    ensures Storables(Repeated(st, n)) && Acknowledged(Open(settings, NOTHING), Repeated(st, n), EMPTY_STATE) == st
    ensures Raw(After(Open(settings, NOTHING), Repeated(st, n)).disk).state == EMPTY_STATE
  {
    hide StorableState, EncodeState, Bytes, After, Raw, FileCommit, Acknowledged;
    JournalGrows(settings, st, n);
    var d := After(Open(settings, NOTHING), Repeated(st, n)).disk;
    assert d.journals == map[1 := d.journals[1]];
    RecoveryReads(d);
    OneJournal(1, d.journals[1]);
    TooLong(d.journals[1]);
  }

  /** As many senders as a policy may penalize. */
  function Crowd(): (ids: seq<SenderIdentity>)
    ensures |ids| == MAX_PENALIZED
  {
    seq(MAX_PENALIZED, i requires 0 <= i < MAX_PENALIZED => SenderIdentity(i + 1, 1, 0))
  }

  /** A state of the default store that is over 16 KiB long: less than the limit on one state, too long for as many
      commits as the store makes between two checkpoints. */
  lemma CrowdedStates()
    ensures Fits(Plain(1, [Naming(Crowd())])) && |EncodeState(Plain(1, [Naming(Crowd())]))| <= DEFAULTS.maxStateBytes
    ensures |EncodeState(Plain(1, [Naming(Crowd())]))| >= 24 * MAX_PENALIZED
  {
    hide Storable, EncodeState, StorableState, C.PutRun, C.PutItems, IntentHead, IntentTail, RecordHead, StateHead, Tracking,
      Identities, C.PutString, C.RunWidth, Crowd, EncodePayload, EncodeIntervention, EncodeIntent, PutInterventions;
    var st := Plain(1, [Naming(Crowd())]);
    CrowdFits();
    NamingIsStorable(Crowd());
    PlainFits(1, [Naming(Crowd())]);
    PlainIsStorable(1, [Naming(Crowd())]);
    ContainerLength(st);
    PayloadHolds(st);
    RecordHolds(Naming(Crowd()));
  }

  lemma CrowdFits()
    ensures forall i | 0 <= i < |Crowd()| ::
      Crowd()[i].sender <= MAX_U64 && Crowd()[i].incarnation <= MAX_U64 && Crowd()[i].flow <= MAX_U64
  {}

  lemma PayloadHolds(st: GovernorState)
    requires |st.lastSequence| == CLASSES && |st.interventions| == 1
    ensures |EncodePayload(st)| >= |EncodeIntervention(st.interventions[0])|
  {
    hide C.PutRun, C.PutCounted, EncodeIntervention, StateHead, Tracking;
  }

  lemma RecordHolds(r: Intervention)
    ensures |EncodeIntervention(r)| >= 24 * |r.intent.penalized|
  {
    hide C.PutRun, C.PutItems, IntentHead, IntentTail, RecordHead, Identities, C.RunWidth;
    C.ItemsLength(IDENTITY, Identities(r.intent.penalized));
    IdentityWidth();
  }

  lemma IdentityWidth()
    ensures C.RunWidth(IDENTITY) == 24
  {
    assert C.RunWidth(IDENTITY[2..]) == 8;
    assert C.RunWidth(IDENTITY[1..]) == 16;
  }

  /** With the default settings, 4095 commits of such a state are acknowledged, none is followed by a checkpoint, and
      recovery finds an empty state. */
  lemma DefaultStoresLose()
    ensures var st := Plain(1, [Naming(Crowd())]);
      Storables(Repeated(st, 4095))
      && Acknowledged(Open(DEFAULTS, NOTHING), Repeated(st, 4095), EMPTY_STATE) == st
      && Raw(After(Open(DEFAULTS, NOTHING), Repeated(st, 4095)).disk).state == EMPTY_STATE != st
  {
    hide StorableState, EncodeState, Bytes, After, Raw, Acknowledged, Naming, Crowd, Fits;
    var st := Plain(1, [Naming(Crowd())]);
    CrowdedStates();
    BytesLength(st);
    assert 4095 * |Bytes(st)| >= 4095 * (24 * MAX_PENALIZED);
    LongJournalsAreLost(DEFAULTS, st, 4095);
  }
}
