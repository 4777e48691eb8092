/** The store as the program runs it: its fields and the files of its directory change step by step. */
module DurableProcess {
  import opened Words
  import opened Outcomes
  import opened Codec
  import opened Crc32c
  import opened Model
  import opened StateCodec
  import opened Serializer
  import opened Journal
  import D = Durable
  import opened Durable

  /** The directory.  Writing a whole file is atomic; an append may be caught at any byte.  `passed` lists every content
      a crash could have left so far. */
  class Directory {
    var disk: Disk
    ghost var passed: seq<Disk>

    constructor (d: Disk)
      ensures disk == d && passed == []
    {
      disk, passed := d, [];
    }

    method WriteSnapshot(bytes: seq<byte>)
      modifies this
      ensures disk == old(disk).(snapshot := Some(bytes)) && passed == old(passed) + [disk]
    {
      disk := disk.(snapshot := Some(bytes));
      passed := passed + [disk];
    }

    method WriteJournal(k: nat, bytes: seq<byte>)
      modifies this
      ensures disk == old(disk).(journals := old(disk).journals[k := bytes]) && passed == old(passed) + [disk]
    {
      disk := disk.(journals := disk.journals[k := bytes]);
      passed := passed + [disk];
    }

    /** The bytes reach the file one after the other. */
    method AppendJournal(k: nat, bytes: seq<byte>)
      modifies this
      ensures disk == WithJournal(old(disk), k, bytes)
      ensures passed == old(passed) + AppendTrace(old(disk), k, bytes)
    {
      ghost var start := disk;
      ghost var before := passed;
      disk := WithJournal(disk, k, []);
      passed := passed + [disk];
      for n := 0 to |bytes|
        invariant disk == WithJournal(start, k, bytes[..n])
        invariant passed == before + AppendTrace(start, k, bytes)[..n + 1]
      {
        assert Contents(disk, k) + [bytes[n]] == Contents(start, k) + bytes[..n + 1];
        disk := WithJournal(disk, k, [bytes[n]]);
        passed := passed + [disk];
      }
      assert bytes[..|bytes|] == bytes;
    }

    /** A step that removes nothing. */
    ghost method Settle()
      modifies `passed
      ensures passed == old(passed) + [disk]
    {
      passed := passed + [disk];
    }

    method RemoveJournal(k: nat)
      modifies this
      ensures disk == old(disk).(journals := old(disk).journals - {k}) && passed == old(passed) + [disk]
    {
      disk := disk.(journals := disk.journals - {k});
      passed := passed + [disk];
    }
  }

  class DurableStore {
    const directory: Directory
    const settings: Settings
    var journal: Option<nat>
    var journalEpoch: nat
    var records: nat

    ghost function View(): Store
      reads this, directory
    {
      Store(settings, journal, journalEpoch, records, directory.disk)
    }

    constructor (where: Directory, limits: Settings)
      ensures directory == where && settings == limits && View() == Open(limits, where.disk)
    {
      directory, settings := where, limits;
      journal, journalEpoch, records := None, 0, 0;
    }

    method RotateJournal()
      modifies this, directory
      ensures View() == Rotate(old(View())) && directory.passed == old(directory.passed) + [directory.disk]
    {
      journalEpoch := journalEpoch + 1;
      directory.WriteJournal(journalEpoch, FILE_HEADER);
      journal := Some(journalEpoch);
      records := 0;
    }

    method AppendRecord(r: Record) returns (ok: Outcome<()>)
      modifies this, directory
      ensures (View(), ok) == Append(old(View()), r)
      ensures ok.Err? ==> directory.passed == old(directory.passed)
      ensures ok.Ok? ==> directory.passed == old(directory.passed) + RecordTrace(old(View()), EncodeRecord(r))
    {
      hide EncodeRecord, AppendTrace;
      if |r.payload| > MAX_RECORD { return Err(OversizedInput); }
      ghost var before := View();
      if journal.None? { RotateJournal(); }
      assert View() == Ready(before);
      var bytes := WriteRecord(r);
      directory.AppendJournal(journal.value, bytes);
      records := records + 1;
      ok := Ok(());
    }

    method Checkpoint(st: GovernorState) returns (ok: Outcome<()>)
      requires |st.lastSequence| == CLASSES
      modifies this, directory
      ensures (View(), ok) == D.Checkpoint(old(View()), st)
      ensures directory.passed == old(directory.passed) + CheckpointTrace(old(View()), st)
    {
      hide EncodeState;
      var encoded := WriteState(st);
      if |encoded| > settings.maxStateBytes { return Err(OversizedInput); }
      directory.WriteSnapshot(encoded);
      var previous := journal;
      RotateJournal();
      ghost var rotated := directory.disk;
      if previous.Some? && previous != journal {
        directory.RemoveJournal(previous.value);
      } else {
        directory.Settle();
      }
      ok := Ok(());
    }

    method Commit(st: GovernorState) returns (ok: Outcome<()>)
      requires |st.lastSequence| == CLASSES
      modifies this, directory
      ensures (View(), ok) == D.Commit(old(View()), st)
      ensures directory.passed == old(directory.passed) + CommitTrace(old(View()), st)
    {
      hide EncodeState, EncodeRecord, AppendTrace, CheckpointTrace, D.Checkpoint, RotationTrace, Ready;
      var encoded := WriteState(st);
      if |encoded| > settings.maxStateBytes { return Err(OversizedInput); }
      var appended := AppendRecord(Record(STATE_COMMIT, encoded));
      if appended.Err? { return appended; }
      if records >= settings.maxRecords {
        ok := Checkpoint(st);
      } else {
        ok := appended;
      }
    }

    method Recover() returns (report: Report)
      modifies this
      ensures View() == Resumed(old(View())) && report == D.Recovery(directory.disk)
    {
      hide Recovered, ScanAll, DecodeState;
      report := LoadSnapshot();
      var journals := directory.disk.journals;
      if journals != map[] {
        report := report.(journalPresent := true);
        var any :| any in journals.Keys;
        HighestExists(journals.Keys, any);
        var last :| last in journals.Keys && forall j | j in journals.Keys :: j <= last;
        journal, journalEpoch := Some(last), last;
      }
      report := ScanJournals(journals, report);
      report := report.(state := Recovered(report.state));
    }

    /** The journals are read in the order of their numbers, whatever order the directory lists them in. */
    static method ScanJournals(journals: map<nat, seq<byte>>, start: Report) returns (report: Report)
      ensures report == ScanAll(journals, start)
    {
      hide Scan, ScanAll, FILE_HEADER;
      report := start;
      var left := journals.Keys;
      assert journals - left == map[];
      NothingToScan(start);
      while left != {}
        invariant left <= journals.Keys
        invariant forall j, k | j in journals.Keys - left && k in left :: j < k
        invariant report == ScanAll(journals - left, start)
        decreases left
      {
        var any :| any in left;
        LowestExists(left, any);
        var k :| k in left && forall j | j in left :: k <= j;
        ScanNext(journals, left, k, start);
        var file := journals[k];
        if FILE_HEADER_BYTES <= |file| <= MAX_READ && file[..8] == FILE_MAGIC {
          report := ScanBytes(file, FILE_HEADER_BYTES, report);
        }
        forall j, i | j in journals.Keys - (left - {k}) && i in left - {k} ensures j < i {
          assert j == k || j in journals.Keys - left;
          assert i in left;
        }
        left := left - {k};
      }
      assert journals - {} == journals;
    }

    method LoadSnapshot() returns (report: Report)
      ensures report == ReadSnapshot(directory.disk.snapshot)
    {
      hide DecodeState;
      report := NO_REPORT;
      var snapshot := directory.disk.snapshot;
      if snapshot.None? { return; }
      report := report.(snapshotPresent := true);
      if |snapshot.value| > MAX_READ { return report.(snapshotCorrupt := true); }
      var state := ReadState(snapshot.value);
      if state.Err? {
        report := report.(snapshotCorrupt := true);
      } else {
        report := report.(snapshotLoaded := true, state := state.value, committed := true);
      }
    }
  }

  method WriteRecord(r: Record) returns (bytes: seq<byte>)
    requires |r.payload| <= MAX_RECORD
    ensures bytes == EncodeRecord(r)
  {
    hide PutRun;
    var writer := new Writer();
    var crc := Compute(r.payload);
    writer.PushRun(RECORD_FIELDS, [RECORD_MAGIC, JOURNAL_VERSION, r.kind, |r.payload|, RegisterValue(crc)]);
    assert writer.buffer == HeaderOf(r.kind, r.payload);
    writer.Raw(r.payload);
    bytes := writer.buffer;
  }

  lemma NothingToScan(start: Report)
    ensures ScanAll(map[], start) == start
  {}

  lemma LowestExists(s: set<nat>, x: nat)
    requires x in s
    ensures exists k | k in s :: forall j | j in s :: k <= j
    decreases x
  {
    if y :| y in s && y < x {
      LowestExists(s, y);
    } else {
      assert forall j | j in s :: x <= j;
    }
  }

  /** Reading the next journal in order. */
  lemma ScanNext(journals: map<nat, seq<byte>>, left: set<nat>, k: nat, start: Report)
    requires left <= journals.Keys && k in left && forall j | j in left :: k <= j
    requires forall j, i | j in journals.Keys - left && i in left :: j < i
    ensures ScanAll(journals - (left - {k}), start) == ScanFile(journals[k], ScanAll(journals - left, start))
  {
    hide Scan, Readable;
    var more := journals - (left - {k});
    forall j | j in more ensures j <= k {
      assert j == k || j in journals.Keys - left;
    }
    assert k in more;
    assert Highest(more.Keys) == k;
    assert more - {k} == journals - left;
  }
}
