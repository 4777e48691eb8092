/** The crash-safe store: a snapshot, rotated journals, and recovery, over a directory that a crash may catch between
    any two steps. */
module Durable {
  import opened Words
  import opened Outcomes
  import opened Model
  import opened StateCodec
  import opened Journal

  // ----- The directory -----

  const MAX_READ: nat := 0x400_0000
  const FILE_HEADER_BYTES: nat := 12
  const FILE_MAGIC: seq<byte> := [0x49, 0x47, 0x4A, 0x52, 0x4E, 0x4C, 0x30, 0x31]
  const FILE_HEADER: seq<byte> := FILE_MAGIC + [JOURNAL_VERSION % 256, JOURNAL_VERSION / 256, 0, 0]

  /** The snapshot, and the journals by rotation number. */
  datatype Disk = Disk(snapshot: Option<seq<byte>>, journals: map<nat, seq<byte>>)

  datatype Settings = Settings(maxRecords: nat, maxStateBytes: nat)

  /** An open store. */
  datatype Store = Store(settings: Settings, journal: Option<nat>, journalEpoch: nat, records: nat, disk: Disk)

  // ----- Recovery -----

  predicate Readable(file: seq<byte>) {
    FILE_HEADER_BYTES <= |file| <= MAX_READ && file[..8] == FILE_MAGIC
  }

  function ScanFile(file: seq<byte>, acc: Report): Report {
    if Readable(file) then Scan(file[FILE_HEADER_BYTES..], acc) else acc
  }

  function Above(s: set<nat>, x: nat): set<nat> { set j | j in s && j > x }

  lemma HighestExists(s: set<nat>, x: nat)
    requires x in s
    ensures exists k | k in s :: forall j | j in s :: j <= k
    decreases Above(s, x)
  {
    if y :| y in s && y > x {
      assert y in Above(s, x) && y !in Above(s, y);
      HighestExists(s, y);
    } else {
      assert forall j | j in s :: j <= x;
    }
  }

  ghost function Highest(s: set<nat>): (k: nat)
    requires s != {}
    ensures k in s && forall j | j in s :: j <= k
  {
    var x :| x in s;
    HighestExists(s, x);
    var k :| k in s && forall j | j in s :: j <= k;
    k
  }

  /** A file that is too long, or does not begin with the letters IGJRNL01, is passed over. */
  lemma ForeignFilesAreSkipped(file: seq<byte>, acc: Report)
    requires |file| < 12 || |file| > 0x400_0000 || file[..8] != [0x49, 0x47, 0x4A, 0x52, 0x4E, 0x4C, 0x30, 0x31]
    ensures ScanFile(file, acc) == acc
  {
    hide Scan;
  }

  /** The journals in the order of their numbers. */
  ghost function ScanAll(journals: map<nat, seq<byte>>, acc: Report): Report
    decreases |journals|
  {
    if journals == map[] then acc
    else
      var k := Highest(journals.Keys);
      assert |(journals - {k}).Keys| < |journals.Keys| by { Fewer(journals, k); }
      ScanFile(journals[k], ScanAll(journals - {k}, acc))
  }

  lemma Fewer(journals: map<nat, seq<byte>>, k: nat)
    requires k in journals
    ensures |journals - {k}| < |journals|
  {
    assert (journals - {k}).Keys == journals.Keys - {k};
    assert |(journals - {k}).Keys| < |journals.Keys|;
    assert |journals - {k}| == |(journals - {k}).Keys| && |journals| == |journals.Keys|;
  }

  const NO_REPORT: Report := Report(EMPTY_STATE, false, false, false, false, false, 0, 0, 0, false)

  function ReadSnapshot(snapshot: Option<seq<byte>>): Report {
    if snapshot.None? then NO_REPORT
    else
      var present := NO_REPORT.(snapshotPresent := true);
      if |snapshot.value| > MAX_READ then present.(snapshotCorrupt := true)
      else match DecodeState(snapshot.value)
        case Err(_) => present.(snapshotCorrupt := true)
        case Ok(s) => present.(snapshotLoaded := true, state := s, committed := true)
  }

  /** What is read, before live authority is dropped. */
  ghost function Raw(d: Disk): Report {
    ScanAll(d.journals, ReadSnapshot(d.snapshot).(journalPresent := d.journals != map[]))
  }

  ghost function Recovery(d: Disk): Report { Raw(d).(state := Recovered(Raw(d).state)) }

  /** The state a process goes on from is the one read, record by record and count by count, without authority, streaks and
      liveness: a live record awaits revalidation. */
  predicate Revived(r: GovernorState, st: GovernorState) {
    && r.history == st.history && r.lastSequence == st.lastSequence && r.lastSequenceBoot == st.lastSequenceBoot
    && r.policy == st.policy && r.destination == st.destination && r.destinationGeneration == st.destinationGeneration
    && r.generation == st.generation && r.lastEvaluation == st.lastEvaluation && r.evaluationCount == st.evaluationCount
    && r.refusalCount == st.refusalCount && r.interventionCount == st.interventionCount
    && r.nextInterventionGeneration == st.nextInterventionGeneration
    && |r.interventions| == |st.interventions|
    && (forall i | 0 <= i < |st.interventions| :: AwaitsRevalidation(r.interventions[i], st.interventions[i]))
    && r.epoch == 0 && r.boot == 0 && r.incidentStreak == 0 && r.cleanStreak == 0 && r.recovery == NO_RECOVERY
    && r.requiresRevalidation && r.restoredFromDurable && r.restoreCount == st.restoreCount + 1
  }

  predicate AwaitsRevalidation(r: Intervention, i: Intervention) {
    if i.state in {Authorized, Active, Relaxing, Revalidating} then r == i.(state := Revalidating) else r == i
  }

  lemma RecoveredIsRevived(st: GovernorState)
    ensures Revived(Recovered(st), st)
  {
    hide Revalidated;
  }

  lemma RecoveryRevives(d: Disk)
    ensures Revived(Recovery(d).state, Raw(d).state) && Recovery(d) == Raw(d).(state := Recovery(d).state)
  {
    hide Raw, Recovered, Revived;
    RecoveredIsRevived(Raw(d).state);
  }

  /** The snapshot holds a state that recovery can use. */
  predicate SnapshotIsUsable(snapshot: Option<seq<byte>>) {
    snapshot.Some? && |snapshot.value| <= 0x400_0000 && DecodeState(snapshot.value).Ok?
  }

  /** Some journal that recovery scans ends in a tail that may have been a commit. */
  predicate SomeTailIsAmbiguous(journals: map<nat, seq<byte>>) {
    exists k | k in journals :: Readable(journals[k]) && IsAmbiguous(Tail(journals[k][FILE_HEADER_BYTES..]))
  }

  predicate IsAmbiguous(t: seq<byte>) { IsDamaged(t) || (IsShort(t) && |t| >= 16) }

  lemma ScanFileReports(file: seq<byte>, acc: Report)
    ensures var r := ScanFile(file, acc);
      && SameFiles(r, acc) && (r.committed <==> acc.committed || FileCommit(file).Some?)
      && (r.ambiguous <==> acc.ambiguous || (Readable(file) && IsAmbiguous(Tail(file[FILE_HEADER_BYTES..]))))
  {
    hide Scan, LastCommit, Tail, IsDamaged, IsShort;
    if Readable(file) { ScanReports(file[FILE_HEADER_BYTES..], acc); }
  }

  lemma {:induction false} ScanAllReports(journals: map<nat, seq<byte>>, acc: Report)
    ensures var r := ScanAll(journals, acc);
      && SameFiles(r, acc) && (r.committed <==> acc.committed || LastIn(journals).Some?)
      && (r.ambiguous <==> acc.ambiguous || SomeTailIsAmbiguous(journals))
    decreases |journals|
  {
    hide ScanFile, FileCommit, Readable, Tail, IsAmbiguous;
    if journals != map[] {
      var k := Highest(journals.Keys);
      Fewer(journals, k);
      ScanAllReports(journals - {k}, acc);
      ScanFileReports(journals[k], ScanAll(journals - {k}, acc));
      assert forall j | j in journals :: j == k || (j in journals - {k} && (journals - {k})[j] == journals[j]);
    }
  }

  /** What recovery reports about the files: whether the snapshot is there and usable, whether some state was ever committed,
      and whether a commit may have been cut short. */
  lemma RecoveryReports(d: Disk)
    ensures var r := Recovery(d);
      && (r.snapshotPresent <==> d.snapshot.Some?) && (r.snapshotLoaded <==> SnapshotIsUsable(d.snapshot))
      && (r.snapshotCorrupt <==> d.snapshot.Some? && !SnapshotIsUsable(d.snapshot))
      && (r.journalPresent <==> d.journals != map[])
      && (r.committed <==> SnapshotIsUsable(d.snapshot) || LastIn(d.journals).Some?)
      && (r.ambiguous <==> SomeTailIsAmbiguous(d.journals))
    ensures LastIn(d.journals).None? && !SnapshotIsUsable(d.snapshot) ==> Revived(Recovery(d).state, EMPTY_STATE)
    ensures LastIn(d.journals).None? && SnapshotIsUsable(d.snapshot) ==>
      Revived(Recovery(d).state, DecodeState(d.snapshot.value).value)
  {
    hide ScanAll, LastIn, SomeTailIsAmbiguous, DecodeState, Recovered, Revived;
    ScanAllReports(d.journals, ReadSnapshot(d.snapshot).(journalPresent := d.journals != map[]));
    RecoveryReads(d);
    RecoveryRevives(d);
  }

  /** Recovery continues with the highest journal. */
  ghost function Resumed(s: Store): Store {
    if s.disk.journals == map[] then s
    else
      var k := Highest(s.disk.journals.Keys);
      s.(journal := Some(k), journalEpoch := k)
  }

  // ----- Writing -----

  function Open(settings: Settings, d: Disk): Store { Store(settings, None, 0, 0, d) }

  function Rotate(s: Store): Store {
    var k := s.journalEpoch + 1;
    s.(journalEpoch := k, journal := Some(k), records := 0, disk := s.disk.(journals := s.disk.journals[k := FILE_HEADER]))
  }

  function Contents(d: Disk, k: nat): seq<byte> { if k in d.journals then d.journals[k] else [] }

  function WithJournal(d: Disk, k: nat, more: seq<byte>): Disk {
    d.(journals := d.journals[k := Contents(d, k) + more])
  }

  /** The store with a journal to append to. */
  function Ready(s: Store): (t: Store)
    ensures t.journal.Some?
  {
    if s.journal.None? then Rotate(s) else s
  }

  /** One record, unless its payload is too long. */
  function Append(s: Store, r: Record): (Store, Outcome<()>) {
    if |r.payload| > MAX_RECORD then (s, Err(OversizedInput))
    else
      var t := Ready(s);
      (t.(records := t.records + 1, disk := WithJournal(t.disk, t.journal.value, EncodeRecord(r))), Ok(()))
  }

  function WithSnapshot(s: Store, bytes: seq<byte>): Store { s.(disk := s.disk.(snapshot := Some(bytes))) }

  /** Removes the journal that was current before the rotation. */
  function Removed(s: Store, previous: Option<nat>): Store {
    if previous.Some? && previous != s.journal then s.(disk := s.disk.(journals := s.disk.journals - {previous.value})) else s
  }

  function Checkpoint(s: Store, st: GovernorState): (Store, Outcome<()>)
    requires |st.lastSequence| == CLASSES
  {
    var encoded := EncodeState(st);
    if |encoded| > s.settings.maxStateBytes then (s, Err(OversizedInput))
    else (Removed(Rotate(WithSnapshot(s, encoded)), s.journal), Ok(()))
  }

  function Commit(s: Store, st: GovernorState): (Store, Outcome<()>)
    requires |st.lastSequence| == CLASSES
  {
    var encoded := EncodeState(st);
    if |encoded| > s.settings.maxStateBytes then (s, Err(OversizedInput))
    else
      var (t, r) := Append(s, CommitRecord(st));
      if r.Err? then (t, r)
      else if t.records >= s.settings.maxRecords then Checkpoint(t, st)
      else (t, r)
  }

  // ----- Crashes -----

  /** The disks a crash may leave during an append: the record cut anywhere. */
  function AppendTrace(d: Disk, k: nat, bytes: seq<byte>): (trace: seq<Disk>)
    ensures |trace| == |bytes| + 1
    ensures forall n | 0 <= n <= |bytes| :: trace[n] == WithJournal(d, k, bytes[..n])
  {
    seq(|bytes| + 1, n requires 0 <= n <= |bytes| => WithJournal(d, k, bytes[..n]))
  }

  function RotationTrace(s: Store): seq<Disk> { if s.journal.None? then [Rotate(s).disk] else [] }

  function RecordTrace(s: Store, bytes: seq<byte>): seq<Disk> {
    RotationTrace(s) + AppendTrace(Ready(s).disk, Ready(s).journal.value, bytes)
  }

  function CheckpointTrace(s: Store, st: GovernorState): seq<Disk>
    requires |st.lastSequence| == CLASSES
  {
    var encoded := EncodeState(st);
    if |encoded| > s.settings.maxStateBytes then []
    else
      var snapped := WithSnapshot(s, encoded);
      [snapped.disk, Rotate(snapped).disk, Removed(Rotate(snapped), s.journal).disk]
  }

  /** Every disk a commit passes through, in order. */
  function CommitTrace(s: Store, st: GovernorState): seq<Disk>
    requires |st.lastSequence| == CLASSES
  {
    if |EncodeState(st)| > s.settings.maxStateBytes || |EncodeState(st)| > MAX_RECORD then []
    else
      var appended := Append(s, CommitRecord(st)).0;
      RecordTrace(s, EncodeRecord(CommitRecord(st)))
      + (if appended.records >= s.settings.maxRecords then CheckpointTrace(appended, st) else [])
  }

  // ----- What recovery reads -----

  function FileCommit(file: seq<byte>): Option<GovernorState> {
    if Readable(file) then LastCommit(file[FILE_HEADER_BYTES..]) else None
  }

  /** The last commit of the highest journal that has one. */
  ghost function LastIn(journals: map<nat, seq<byte>>): Option<GovernorState>
    decreases |journals|
  {
    if journals == map[] then None
    else
      var k := Highest(journals.Keys);
      assert |journals - {k}| < |journals| by { Fewer(journals, k); }
      if FileCommit(journals[k]).Some? then FileCommit(journals[k]) else LastIn(journals - {k})
  }

  lemma {:induction false} ScanAllFindsLast(journals: map<nat, seq<byte>>, acc: Report)
    ensures ScanAll(journals, acc).state == Or(LastIn(journals), acc.state)
    decreases |journals|
  {
    hide Scan, LastCommit;
    if journals != map[] {
      var k := Highest(journals.Keys);
      Fewer(journals, k);
      ScanAllFindsLast(journals - {k}, acc);
      if Readable(journals[k]) {
        ScanFindsLastCommit(journals[k][FILE_HEADER_BYTES..], ScanAll(journals - {k}, acc));
      }
    }
  }

  ghost function SnapshotState(d: Disk): GovernorState { ReadSnapshot(d.snapshot).state }

  /** Recovery reads the last journalled commit, or the snapshot when there is none. */
  lemma RecoveryReads(d: Disk)
    ensures Raw(d).state == Or(LastIn(d.journals), SnapshotState(d))
  {
    hide ReadSnapshot, ScanAll, LastIn;
    ScanAllFindsLast(d.journals, ReadSnapshot(d.snapshot).(journalPresent := d.journals != map[]));
  }

  lemma OneJournal(k: nat, file: seq<byte>)
    ensures LastIn(map[k := file]) == FileCommit(file)
  {
    hide FileCommit;
    assert map[k := file].Keys == {k};
    assert map[k := file] - {k} == map[];
  }

  lemma HighestJournal(journals: map<nat, seq<byte>>, k: nat)
    requires k in journals && forall j | j in journals :: j <= k
    ensures LastIn(journals) == if FileCommit(journals[k]).Some? then FileCommit(journals[k]) else LastIn(journals - {k})
  {
    hide FileCommit;
    assert Highest(journals.Keys) == k;
  }

  lemma FreshFile()
    ensures Readable(FILE_HEADER) && |FILE_HEADER| == FILE_HEADER_BYTES && FileCommit(FILE_HEADER) == None
    ensures Whole(FILE_HEADER[FILE_HEADER_BYTES..])
  {
    assert FILE_HEADER[FILE_HEADER_BYTES..] == [];
    assert FILE_HEADER[..8] == FILE_MAGIC;
  }

  predicate WholeFile(file: seq<byte>) { Readable(file) && Whole(file[FILE_HEADER_BYTES..]) }

  predicate Fits(st: GovernorState) { StorableState(st) && |EncodeState(st)| <= MAX_RECORD }

  function Bytes(st: GovernorState): seq<byte>
    requires Fits(st)
  {
    EncodeRecord(CommitRecord(st))
  }

  /** A whole journal with part of a commit after it: the commit counts when it is complete, and a torn one leaves the
      journal recovering what it did before, but no longer whole. */
  lemma FileAfterAppend(file: seq<byte>, st: GovernorState, n: nat)
    requires WholeFile(file) && Fits(st) && n <= |Bytes(st)| && |file| + |Bytes(st)| <= MAX_READ
    ensures FileCommit(file + Bytes(st)[..n]) == if n == |Bytes(st)| then Some(st) else FileCommit(file)
    ensures WholeFile(file + Bytes(st)[..n]) <==> n == 0 || n == |Bytes(st)|
    ensures Readable(file + Bytes(st)[..n])
  {
    hide Whole, LastCommit, EncodeRecord, StorableState, EncodeState;
    var rec := Bytes(st);
    var body := file[FILE_HEADER_BYTES..];
    var more := rec[..n];
    assert (file + more)[..8] == file[..8];
    assert (file + more)[FILE_HEADER_BYTES..] == body + more;
    WholeThenMore(body, more);
    CommitIsFound(st);
    if n == |rec| { assert more == rec; }
    if n == 0 { NothingIsWhole(); }
  }

  lemma NothingIsWhole()
    ensures forall s: seq<byte> | s == [] :: Whole(s) && LastCommit(s) == None
  {}

  // ----- Clean stores -----

  /** At most one journal, the current one, every byte of which decodes. */
  ghost predicate Clean(s: Store) {
    if s.journal.None? then s.disk.journals == map[] && s.journalEpoch == 0
    else
      var k := s.journal.value;
      s.journalEpoch == k && k in s.disk.journals && s.disk.journals == map[k := s.disk.journals[k]]
      && WholeFile(s.disk.journals[k])
  }

  lemma EmptyStoresAreClean(settings: Settings, snapshot: Option<seq<byte>>)
    ensures Clean(Open(settings, Disk(snapshot, map[])))
  {}

  /** The state a store has committed to. */
  ghost function Held(s: Store): GovernorState { Raw(s.disk).state }

  /** The journal stays within what recovery is willing to read. */
  predicate Room(s: Store, st: GovernorState)
    requires Fits(st)
  {
    var file := if s.journal.None? then FILE_HEADER else Contents(s.disk, s.journal.value);
    |file| + |Bytes(st)| <= MAX_READ
  }

  lemma CleanReads(s: Store)
    requires Clean(s)
    ensures Held(s) == Or(if s.journal.None? then None else FileCommit(s.disk.journals[s.journal.value]), SnapshotState(s.disk))
  {
    hide FileCommit, ReadSnapshot, WholeFile, Raw;
    RecoveryReads(s.disk);
    if s.journal.Some? { OneJournal(s.journal.value, s.disk.journals[s.journal.value]); }
  }

  lemma ReadyIsClean(s: Store)
    requires Clean(s)
    ensures Clean(Ready(s)) && Held(Ready(s)) == Held(s) && SnapshotState(Ready(s).disk) == SnapshotState(s.disk)
    ensures Contents(Ready(s).disk, Ready(s).journal.value)
         == if s.journal.None? then FILE_HEADER else Contents(s.disk, s.journal.value)
  {
    hide FileCommit, ReadSnapshot, Raw, Readable, Whole;
    FreshFile();
    CleanReads(s);
    var t := Ready(s);
    if s.journal.None? {
      assert t.disk.journals == map[1 := FILE_HEADER];
      CleanReads(t);
    }
  }

  lemma StorableIsShaped(st: GovernorState)
    requires StorableState(st)
    ensures |st.lastSequence| == CLASSES
  {}

  lemma SnapshotReads(st: GovernorState)
    requires StorableState(st)
    ensures ReadSnapshot(Some(EncodeState(st))).state == st
  {
    hide DecodeState, EncodeState, StorableState;
    StorableIsShaped(st);
    StateRoundTrip(st, []);
    assert EncodeState(st) + [] == EncodeState(st);
    StateIsReadable(st);
  }

  lemma StateIsReadable(st: GovernorState)
    requires StorableState(st)
    ensures |EncodeState(st)| <= MAX_READ
  {
    hide EncodePayload, StorableState;
    PayloadLength(st);
  }

  /** A clean store with part of a commit appended. */
  lemma PartOfCommit(s: Store, st: GovernorState, n: nat)
    requires Clean(s) && s.journal.Some? && Fits(st) && Room(s, st) && n <= |Bytes(st)|
    ensures var d := WithJournal(s.disk, s.journal.value, Bytes(st)[..n]);
      && Raw(d).state == (if n == |Bytes(st)| then st else Held(s))
      && d.journals == map[s.journal.value := s.disk.journals[s.journal.value] + Bytes(st)[..n]]
      && (WholeFile(d.journals[s.journal.value]) <==> n == 0 || n == |Bytes(st)|)
  {
    hide FileCommit, ReadSnapshot, Raw, WholeFile, Fits, Bytes;
    var k := s.journal.value;
    var file := s.disk.journals[k];
    var d := WithJournal(s.disk, k, Bytes(st)[..n]);
    assert d.journals == map[k := file + Bytes(st)[..n]];
    FileAfterAppend(file, st, n);
    CleanReads(s);
    RecoveryReads(d);
    OneJournal(k, file + Bytes(st)[..n]);
  }

  /** A checkpoint of a clean store, step by step. */
  lemma CheckpointIsAtomic(s: Store, st: GovernorState)
    requires Clean(s) && StorableState(st)
    ensures var (t, r) := Checkpoint(s, st);
      if r.Ok? then Clean(t) && Held(t) == st else t == s
    ensures forall d | d in CheckpointTrace(s, st) :: Raw(d).state == Held(s) || Raw(d).state == st
    ensures Checkpoint(s, st).1.Ok? ==> |CheckpointTrace(s, st)| == 3 && CheckpointTrace(s, st)[2] == Checkpoint(s, st).0.disk
  {
    hide FileCommit, ReadSnapshot, Raw, Readable, Whole, StorableState, EncodeState;
    StorableIsShaped(st);
    FreshFile();
    SnapshotReads(st);
    CleanReads(s);
    var snapped := WithSnapshot(s, EncodeState(st));
    var rotated := Rotate(snapped);
    var done := Removed(rotated, s.journal);
    RecoveryReads(snapped.disk);
    RecoveryReads(rotated.disk);
    RecoveryReads(done.disk);
    var k := s.journalEpoch + 1;
    HighestJournal(rotated.disk.journals, k);
    OneJournal(k, FILE_HEADER);
    assert done.disk.journals == map[k := FILE_HEADER];
    if s.journal.Some? {
      OneJournal(s.journalEpoch, s.disk.journals[s.journalEpoch]);
      assert rotated.disk.journals - {k} == s.disk.journals;
    } else {
      assert rotated.disk.journals - {k} == map[];
    }
  }

  lemma AppendCommits(s: Store, st: GovernorState)
    requires Clean(s) && Fits(st) && Room(s, st)
    ensures var (t, r) := Append(s, CommitRecord(st));
      r.Ok? && Clean(t) && Held(t) == st
    ensures forall d | d in RecordTrace(s, Bytes(st)) :: Raw(d).state == Held(s) || Raw(d).state == st
  {
    hide FileCommit, ReadSnapshot, Raw, WholeFile, Bytes, StorableState, EncodeState;
    ReadyIsClean(s);
    var t := Ready(s);
    BytesAre(st);
    var whole := Bytes(st);
    PartOfCommit(t, st, |whole|);
    assert whole[..|whole|] == whole;
    var trace := AppendTrace(t.disk, t.journal.value, whole);
    forall d | d in trace ensures Raw(d).state == Held(s) || Raw(d).state == st {
      var n :| 0 <= n < |trace| && trace[n] == d;
      PartOfCommit(t, st, n);
    }
    hide Clean;
    forall d | d in RotationTrace(s) ensures Raw(d).state == Held(s) {
      assert d == t.disk;
    }
  }

  lemma BytesAre(st: GovernorState)
    requires Fits(st)
    ensures Bytes(st) == EncodeRecord(CommitRecord(st)) && |CommitRecord(st).payload| <= MAX_RECORD
  {}

  /** COMMIT.  A commit to a clean store either is refused and changes nothing, or leaves a clean store holding the
      state; and every disk a crash may leave on the way recovers the state held before or the state in flight. */
  lemma CommitIsAtomic(s: Store, st: GovernorState)
    requires Clean(s) && StorableState(st) && (Fits(st) ==> Room(s, st))
    ensures var (t, r) := Commit(s, st);
      if r.Ok? then Clean(t) && Held(t) == st else t == s
    ensures forall d | d in CommitTrace(s, st) :: Raw(d).state == Held(s) || Raw(d).state == st
  {
    hide Raw, Clean, Append, Checkpoint, CheckpointTrace, StorableState, EncodeState, EncodeRecord, Room, RecordTrace;
    StorableIsShaped(st);
    if Fits(st) {
      AppendCommits(s, st);
      BytesAre(st);
      var appended := Append(s, CommitRecord(st)).0;
      CheckpointIsAtomic(appended, st);
      AppendKeepsSettings(s, st);
      if |EncodeState(st)| <= s.settings.maxStateBytes { CheckpointSucceeds(appended, st); }
    } else {
      AppendRefuses(s, st);
    }
  }

  lemma AppendKeepsSettings(s: Store, st: GovernorState)
    requires |st.lastSequence| == CLASSES
    ensures Append(s, CommitRecord(st)).0.settings == s.settings
  {
    hide EncodeRecord, EncodeState;
  }

  lemma CheckpointSucceeds(s: Store, st: GovernorState)
    requires |st.lastSequence| == CLASSES && |EncodeState(st)| <= s.settings.maxStateBytes
    ensures Checkpoint(s, st).1.Ok?
  {
    hide EncodeState;
  }

  lemma AppendRefuses(s: Store, st: GovernorState)
    requires |st.lastSequence| == CLASSES && |EncodeState(st)| > MAX_RECORD
    ensures Append(s, CommitRecord(st)) == (s, Err(OversizedInput))
  {}

  // ----- Runs -----

  datatype StoreOp = Committing(st: GovernorState) | Checkpointing(st: GovernorState)

  function Perform(s: Store, op: StoreOp): (Store, Outcome<()>)
    requires |op.st.lastSequence| == CLASSES
  {
    if op.Committing? then Commit(s, op.st) else Checkpoint(s, op.st)
  }

  function Trace(s: Store, op: StoreOp): seq<Disk>
    requires |op.st.lastSequence| == CLASSES
  {
    if op.Committing? then CommitTrace(s, op.st) else CheckpointTrace(s, op.st)
  }

  /** Only storable states are written. */
  predicate Storables(ops: seq<StoreOp>) { forall i | 0 <= i < |ops| :: StorableState(ops[i].st) }

  function After(s: Store, ops: seq<StoreOp>): Store
    requires Storables(ops)
  {
    if ops == [] then s else Perform(After(s, ops[..|ops| - 1]), ops[|ops| - 1]).0
  }

  /** The state of the last acknowledged operation; the initial one when there is none. */
  function Acknowledged(s: Store, ops: seq<StoreOp>, initial: GovernorState): GovernorState
    requires Storables(ops)
  {
    if ops == [] then initial
    else
      var last := ops[|ops| - 1];
      if Perform(After(s, ops[..|ops| - 1]), last).1.Ok? then last.st else Acknowledged(s, ops[..|ops| - 1], initial)
  }

  /** No commit of the run makes a journal longer than recovery reads. */
  predicate Roomy(s: Store, ops: seq<StoreOp>)
    requires Storables(ops)
  {
    ops == []
    || (Roomy(s, ops[..|ops| - 1])
        && (ops[|ops| - 1].Committing? && Fits(ops[|ops| - 1].st) ==> Room(After(s, ops[..|ops| - 1]), ops[|ops| - 1].st)))
  }

  lemma StepIsAtomic(s: Store, op: StoreOp)
    requires Clean(s) && StorableState(op.st) && (op.Committing? && Fits(op.st) ==> Room(s, op.st))
    ensures var (t, r) := Perform(s, op);
      if r.Ok? then Clean(t) && Held(t) == op.st else t == s
    ensures forall d | d in Trace(s, op) :: Raw(d).state == Held(s) || Raw(d).state == op.st
  {
    hide Raw, Clean, Commit, Checkpoint, CommitTrace, CheckpointTrace, StorableState, Fits, Room;
    StorableIsShaped(op.st);
    if op.Committing? { CommitIsAtomic(s, op.st); } else { CheckpointIsAtomic(s, op.st); }
  }

  /** A run keeps the store clean and holding the last acknowledged state. */
  lemma {:induction false} RunsHold(s: Store, ops: seq<StoreOp>)
    requires Clean(s) && Storables(ops) && Roomy(s, ops)
    ensures Clean(After(s, ops)) && Held(After(s, ops)) == Acknowledged(s, ops, Held(s))
    decreases |ops|
  {
    hide Clean, Raw, Perform, StorableState, Fits, Room;
    if ops != [] {
      RunsHold(s, ops[..|ops| - 1]);
      StepIsAtomic(After(s, ops[..|ops| - 1]), ops[|ops| - 1]);
    }
  }

  lemma {:induction false} RoomyPrefix(s: Store, ops: seq<StoreOp>, i: nat)
    requires Storables(ops) && Roomy(s, ops) && i <= |ops|
    ensures Storables(ops[..i]) && Roomy(s, ops[..i])
    decreases |ops|
  {
    hide Fits, Room, After, StorableState;
    if i == |ops| {
      assert ops[..i] == ops;
    } else {
      RoomyPrefix(s, ops[..|ops| - 1], i);
      assert ops[..|ops| - 1][..i] == ops[..i];
    }
  }

  /** CRASH SAFETY.  From a clean store, through any series of commits and checkpoints, a crash at any point of any of
      them leaves a disk from which recovery revives either the last acknowledged state or the one in flight. */
  lemma CrashSafety(s: Store, ops: seq<StoreOp>, i: nat, d: Disk)
    requires Clean(s) && Storables(ops) && Roomy(s, ops) && i < |ops|
    requires Storables(ops[..i]) && StorableState(ops[i].st)
    requires d == After(s, ops[..i]).disk || d in Trace(After(s, ops[..i]), ops[i])
    ensures Revived(Recovery(d).state, Acknowledged(s, ops[..i], Held(s))) || Revived(Recovery(d).state, ops[i].st)
  {
    hide Clean, Raw, Perform, StorableState, Fits, Room, Trace, Recovery, Revived, After;
    RecoveryRevives(d);
    RoomyPrefix(s, ops, i);
    RunsHold(s, ops[..i]);
    RoomyPrefix(s, ops, i + 1);
    RoomAt(s, ops, i);
    StepIsAtomic(After(s, ops[..i]), ops[i]);
  }

  /** Without a crash, recovery revives the state of the last acknowledged operation, every table and count of it. */
  lemma AcknowledgedIsRevived(s: Store, ops: seq<StoreOp>)
    requires Clean(s) && Storables(ops) && Roomy(s, ops)
    ensures Revived(Recovery(After(s, ops).disk).state, Acknowledged(s, ops, Held(s)))
  {
    hide Clean, Raw, Perform, StorableState, Fits, Room, Recovery, Revived, After;
    RunsHold(s, ops);
    RecoveryRevives(After(s, ops).disk);
  }

  lemma RoomAt(s: Store, ops: seq<StoreOp>, i: nat)
    requires i < |ops| && Storables(ops[..i + 1]) && Roomy(s, ops[..i + 1]) && Storables(ops[..i])
    ensures ops[i].Committing? && Fits(ops[i].st) ==> Room(After(s, ops[..i]), ops[i].st)
  {
    hide Fits, Room, After, StorableState;
    assert ops[..i + 1][..i] == ops[..i];
  }

  // ----- Which crashes leave a directory that is not clean -----

  /** A disk a new process can go on from: recovering over it gives a clean store. */
  ghost predicate CleanDisk(d: Disk) { Clean(Resumed(Open(Settings(0, 0), d))) }

  lemma CleanOne(d: Disk, k: nat)
    requires k in d.journals && d.journals == map[k := d.journals[k]]
    ensures CleanDisk(d) <==> WholeFile(d.journals[k])
  {
    hide WholeFile;
    assert d.journals.Keys == {k};
    assert Highest(d.journals.Keys) == k;
  }

  /** An append may be cut short only at its very start or end. */
  lemma TornExactly(s: Store, st: GovernorState, n: nat)
    requires Clean(s) && s.journal.Some? && Fits(st) && Room(s, st) && n <= |Bytes(st)|
    ensures CleanDisk(WithJournal(s.disk, s.journal.value, Bytes(st)[..n])) <==> n == 0 || n == |Bytes(st)|
  {
    hide WholeFile, Fits, Bytes, Raw, CleanDisk, Room;
    PartOfCommit(s, st, n);
    CleanOne(WithJournal(s.disk, s.journal.value, Bytes(st)[..n]), s.journal.value);
  }

  /** A checkpoint leaves a directory that is not clean exactly between the rotation and the removal of the previous
      journal. */
  lemma CheckpointCrashes(s: Store, st: GovernorState)
    requires Clean(s) && StorableState(st) && Checkpoint(s, st).1.Ok?
    ensures CleanDisk(CheckpointTrace(s, st)[0]) && CleanDisk(CheckpointTrace(s, st)[2])
    ensures CleanDisk(CheckpointTrace(s, st)[1]) <==> s.journal.None?
  {
    hide WholeFile, StorableState, EncodeState;
    StorableIsShaped(st);
    var trace := CheckpointTrace(s, st);
    var k := s.journalEpoch + 1;
    FileIsFresh();
    if s.journal.Some? {
      CleanOne(trace[0], s.journalEpoch);
      assert s.journalEpoch in trace[1].journals && k in trace[1].journals;
      assert trace[2].journals == map[k := FILE_HEADER];
    } else {
      assert trace[1].journals == map[k := FILE_HEADER];
      CleanOne(trace[1], k);
    }
    CleanOne(trace[2], k);
  }

  lemma FileIsFresh()
    ensures WholeFile(FILE_HEADER)
  {
    FreshFile();
  }

  /** CRASHES MAY REPEAT.  After a crash that leaves a clean directory the next process, once it has recovered, has a
      clean store again, holding the state before or the one in flight: crash safety starts over from there. */
  lemma CrashesMayRepeat(s: Store, op: StoreOp, d: Disk, settings: Settings)
    requires Clean(s) && StorableState(op.st) && (op.Committing? && Fits(op.st) ==> Room(s, op.st))
    requires d in Trace(s, op) && CleanDisk(d)
    ensures var next := Resumed(Open(settings, d));
      Clean(next) && (Held(next) == Held(s) || Held(next) == op.st)
  {
    hide Raw, WholeFile, Trace, StorableState, Fits, Room;
    StepIsAtomic(s, op);
  }

  // ----- Directories that are not clean -----

  lemma CheckpointDisk(s: Store, st: GovernorState)
    requires |st.lastSequence| == CLASSES && Checkpoint(s, st).1.Ok? && s.journal == Some(s.journalEpoch)
    ensures Checkpoint(s, st).0.disk
         == Disk(Some(EncodeState(st)), s.disk.journals[s.journalEpoch + 1 := FILE_HEADER] - {s.journalEpoch})
  {
    hide EncodeState;
  }

  lemma CheckpointReads(s: Store, st: GovernorState)
    requires StorableState(st) && Checkpoint(s, st).1.Ok? && s.journal == Some(s.journalEpoch)
    requires forall k | k in s.disk.journals :: k <= s.journalEpoch
    ensures Raw(Checkpoint(s, st).0.disk).state == Or(LastIn(s.disk.journals - {s.journalEpoch}), st)
  {
    hide FileCommit, ReadSnapshot, Raw, StorableState, EncodeState, Checkpoint;
    StorableIsShaped(st);
    var k := s.journalEpoch;
    CheckpointDisk(s, st);
    var d := Checkpoint(s, st).0.disk;
    SnapshotReads(st);
    RecoveryReads(d);
    FreshFile();
    HighestJournal(d.journals, k + 1);
    assert d.journals - {k + 1} == s.disk.journals - {k};
  }

  /** A checkpoint removes only the journal that was current.  What it acknowledges is recovered exactly when no other
      journal holds a commit of a different state: a journal left over by an earlier crash overrides the snapshot. */
  lemma CheckpointIsRecoveredExactlyWhen(s: Store, st: GovernorState)
    requires StorableState(st) && Checkpoint(s, st).1.Ok? && s.journal == Some(s.journalEpoch)
    requires forall k | k in s.disk.journals :: k <= s.journalEpoch
    ensures var others := LastIn(s.disk.journals - {s.journalEpoch});
      Raw(Checkpoint(s, st).0.disk).state == st <==> others.None? || others == Some(st)
  {
    hide Raw, StorableState, EncodeState, Checkpoint, LastIn;
    CheckpointReads(s, st);
  }

  /** The store of the next process when a checkpoint was cut short between its rotation and its removal. */
  ghost function CutShort(s: Store, b: GovernorState, settings: Settings): Store
    requires |b.lastSequence| == CLASSES && Checkpoint(s, b).1.Ok?
  {
    Resumed(Open(settings, CheckpointTrace(s, b)[1]))
  }

  lemma CutShortIs(s: Store, b: GovernorState, settings: Settings)
    requires Clean(s) && s.journal.Some? && |b.lastSequence| == CLASSES && Checkpoint(s, b).1.Ok?
    ensures var k, next := s.journalEpoch, CutShort(s, b, settings);
      && next.disk.journals == map[k := s.disk.journals[k], k + 1 := FILE_HEADER]
      && next.journal == Some(k + 1) && next.journalEpoch == k + 1 && next.records == 0 && next.settings == settings
  {
    hide EncodeState, WholeFile;
    var k := s.journalEpoch;
    var d := CheckpointTrace(s, b)[1];
    assert d.journals == s.disk.journals[k + 1 := FILE_HEADER];
    assert d.journals.Keys == {k, k + 1};
    assert Highest(d.journals.Keys) == k + 1;
  }

  /** A crash between the rotation and the removal of a checkpoint leaves a journal that no later checkpoint removes:
      whatever the next process commits and checkpoints, recovery goes back to the last commit of that journal. */
  lemma LeftoverJournalsWin(s: Store, b: GovernorState, settings: Settings, c: GovernorState, st: GovernorState)
    requires Clean(s) && s.journal.Some? && FileCommit(s.disk.journals[s.journalEpoch]).Some?
    requires |b.lastSequence| == CLASSES && Checkpoint(s, b).1.Ok?
    requires Fits(c) && |EncodeState(c)| <= settings.maxStateBytes && 1 < settings.maxRecords
    requires StorableState(st) && |EncodeState(st)| <= settings.maxStateBytes
    ensures var (t, r) := Commit(CutShort(s, b, settings), c);
      var (u, q) := Checkpoint(t, st);
      r.Ok? && q.Ok? && Raw(u.disk).state == FileCommit(s.disk.journals[s.journalEpoch]).value
  {
    hide FileCommit, Raw, StorableState, EncodeState, EncodeRecord, Checkpoint, CutShort, WholeFile;
    StorableIsShaped(c);
    StorableIsShaped(st);
    CutShortIs(s, b, settings);
    var k := s.journalEpoch;
    var t := Commit(CutShort(s, b, settings), c).0;
    var file := s.disk.journals[k];
    assert t.disk.journals == map[k := file, k + 1 := FILE_HEADER + Bytes(c)];
    assert t.disk.journals - {k + 1} == map[k := file];
    OneJournal(k, file);
    CheckpointSucceeds(t, st);
    CheckpointReads(t, st);
  }

  /** A process that opens the store without recovering writes its first commit to journal 1: whenever a later journal
      holds a commit, that older state is what the next recovery finds. */
  lemma UnrecoveredCommitsAreLost(settings: Settings, d: Disk, k: nat, st: GovernorState)
    requires Fits(st) && |EncodeState(st)| <= settings.maxStateBytes && 1 < settings.maxRecords
    requires 2 <= k && k in d.journals && (forall j | j in d.journals :: j <= k) && FileCommit(d.journals[k]).Some?
    ensures var (t, r) := Commit(Open(settings, d), st);
      r.Ok? && Raw(t.disk).state == FileCommit(d.journals[k]).value
  {
    hide FileCommit, ReadSnapshot, Raw, StorableState, EncodeState, EncodeRecord;
    StorableIsShaped(st);
    var t := Commit(Open(settings, d), st).0;
    RecoveryReads(t.disk);
    assert t.disk.journals[k] == d.journals[k] && forall j | j in t.disk.journals :: j <= k;
    HighestJournal(t.disk.journals, k);
  }

  /** A commit to a directory that may hold other journals, left over by earlier crashes, is acknowledged.  It is
      recovered exactly when, if it ends in a checkpoint, no other journal holds a commit of a different state, and
      otherwise when the journal stays within what recovery is willing to read, or the rest of the directory recovers the
      same state anyway. */
  lemma CommitIsRecoveredExactlyWhen(s: Store, st: GovernorState)
    requires Fits(st) && |EncodeState(st)| <= s.settings.maxStateBytes
    requires s.journal == Some(s.journalEpoch) && s.journalEpoch in s.disk.journals
    requires (forall k | k in s.disk.journals :: k <= s.journalEpoch) && WholeFile(s.disk.journals[s.journalEpoch])
    ensures Commit(s, st).1.Ok?
    ensures var others := LastIn(s.disk.journals - {s.journalEpoch});
      Raw(Commit(s, st).0.disk).state == st <==>
        if s.records + 1 >= s.settings.maxRecords then others.None? || others == Some(st)
        else Room(s, st) || Or(others, SnapshotState(s.disk)) == st
  {
    hide FileCommit, ReadSnapshot, Raw, StorableState, EncodeState, EncodeRecord, WholeFile, Checkpoint;
    StorableIsShaped(st);
    var k := s.journalEpoch;
    var appended := Append(s, CommitRecord(st)).0;
    var file, whole := s.disk.journals[k], Bytes(st);
    assert appended.disk.journals == s.disk.journals[k := file + whole];
    assert appended.disk.journals - {k} == s.disk.journals - {k};
    if s.records + 1 >= s.settings.maxRecords {
      CheckpointSucceeds(appended, st);
      CheckpointIsRecoveredExactlyWhen(appended, st);
    } else {
      RecoveryReads(appended.disk);
      HighestJournal(appended.disk.journals, k);
      assert whole[..|whole|] == whole;
      if Room(s, st) { FileAfterAppend(file, st, |whole|); } else { TooLong(file + whole); }
    }
  }

  lemma TooLong(file: seq<byte>)
    requires |file| > MAX_READ
    ensures FileCommit(file) == None
  {}

  // ----- Behind a torn tail -----

  /** What the journal ends with after a crash inside an append and a commit of the next process. */
  function Splice(lost: GovernorState, n: nat, st: GovernorState): seq<byte>
    requires Fits(lost) && Fits(st) && n <= |Bytes(lost)|
  {
    Bytes(lost)[..n] + Bytes(st)
  }

  /** The bytes of the next commit complete the torn one. */
  predicate Mends(lost: GovernorState, n: nat, st: GovernorState)
    requires Fits(lost) && Fits(st) && 1 <= n < |Bytes(lost)|
  {
    StorableIsShaped(lost);
    StorableIsShaped(st);
    Completes(CommitRecord(lost), n, CommitRecord(st), [])
  }

  lemma SplicesDecodeExactlyWhen(lost: GovernorState, n: nat, st: GovernorState)
    requires Fits(lost) && Fits(st) && 1 <= n < |Bytes(lost)|
    ensures DecodeRecord(Splice(lost, n, st)).Ok? <==> Mends(lost, n, st)
    ensures !Mends(lost, n, st) ==> LastCommit(Splice(lost, n, st)) == None
  {
    hide EncodeRecord, StorableState, EncodeState, DecodeRecord, Completes;
    StorableIsShaped(lost);
    StorableIsShaped(st);
    TornRecordDecodesExactlyWhen(CommitRecord(lost), n, CommitRecord(st), []);
    assert Splice(lost, n, st) + [] == Splice(lost, n, st);
    if !Mends(lost, n, st) { StoppedAtOnce(Splice(lost, n, st)); }
  }

  lemma StoppedAtOnce(bytes: seq<byte>)
    requires bytes == [] || DecodeRecord(bytes).Err?
    ensures LastCommit(bytes) == None
  {}

  lemma SplicedFile(file: seq<byte>, tail: seq<byte>)
    requires WholeFile(file)
    ensures FileCommit(file + tail) ==
      if |file| + |tail| > MAX_READ then None
      else if LastCommit(tail).Some? then LastCommit(tail)
      else FileCommit(file)
  {
    hide Whole, LastCommit;
    assert (file + tail)[..8] == file[..8];
    assert (file + tail)[FILE_HEADER_BYTES..] == file[FILE_HEADER_BYTES..] + tail;
    WholeThenMore(file[FILE_HEADER_BYTES..], tail);
  }

  /** The store of the next process: it has recovered from a disk whose journal ends in part of a record. */
  ghost function Reopened(s: Store, torn: seq<byte>): Store
    requires s.journal.Some?
  {
    Resumed(Open(s.settings, WithJournal(s.disk, s.journal.value, torn)))
  }

  lemma ReopenedIs(s: Store, torn: seq<byte>)
    requires Clean(s) && s.journal.Some?
    ensures Reopened(s, torn).disk.journals == map[s.journal.value := s.disk.journals[s.journal.value] + torn]
    ensures Reopened(s, torn).journal == Some(s.journal.value) && Reopened(s, torn).journalEpoch == s.journal.value
    ensures Reopened(s, torn).records == 0 && Reopened(s, torn).settings == s.settings
    ensures Reopened(s, torn).disk.snapshot == s.disk.snapshot
  {
    hide WholeFile;
    var k := s.journal.value;
    var d := WithJournal(s.disk, k, torn);
    assert d.journals == map[k := s.disk.journals[k] + torn] && d.journals.Keys == {k};
  }

  /** BEHIND A TORN TAIL.  A commit torn anywhere stays in the journal, and the next process appends behind it.  What it
      commits is acknowledged; what the next recovery then finds is the state before the crash unless the appended bytes
      complete the torn record, the snapshot when the journal has become too long to be read, and the commit itself only
      when the settings make every commit a checkpoint. */
  lemma CommitsBehindTornTails(s: Store, lost: GovernorState, n: nat, st: GovernorState)
    requires Clean(s) && s.journal.Some? && Fits(lost) && Fits(st) && 1 <= n < |Bytes(lost)|
    requires |EncodeState(st)| <= s.settings.maxStateBytes
    ensures var (t, r) := Commit(Reopened(s, Bytes(lost)[..n]), st);
      r.Ok? && Raw(t.disk).state ==
        if s.settings.maxRecords <= 1 then st
        else if |s.disk.journals[s.journal.value]| + n + |Bytes(st)| > MAX_READ then SnapshotState(s.disk)
        else if Mends(lost, n, st) then Or(LastCommit(Splice(lost, n, st)), Held(s))
        else Held(s)
  {
    hide FileCommit, ReadSnapshot, Raw, StorableState, EncodeState, EncodeRecord, WholeFile, Whole, Reopened, Checkpoint,
      LastCommit, Mends;
    StorableIsShaped(st);
    var k := s.journal.value;
    var file := s.disk.journals[k];
    var reopened := Reopened(s, Bytes(lost)[..n]);
    ReopenedIs(s, Bytes(lost)[..n]);
    var appended := Append(reopened, CommitRecord(st)).0;
    var last := (file + Bytes(lost)[..n]) + Bytes(st);
    assert appended.disk.journals == map[k := last];
    if s.settings.maxRecords <= 1 {
      CheckpointSucceeds(appended, st);
      CheckpointIsRecoveredExactlyWhen(appended, st);
      assert appended.disk.journals - {k} == map[];
    } else {
      RecoveryReads(appended.disk);
      OneJournal(k, last);
      CleanReads(s);
      assert last == file + Splice(lost, n, st);
      SplicedFile(file, Splice(lost, n, st));
      SplicesDecodeExactlyWhen(lost, n, st);
    }
  }
}
