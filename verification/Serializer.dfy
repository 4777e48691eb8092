/** The encoders and decoders of the governor state as the program runs them: a writer that grows a buffer
    and a reader that advances over the bytes, each equal to the format of StateCodec. */
module Serializer {
  import opened Words
  import opened Outcomes
  import opened Codec
  import opened Crc32c
  import opened Model
  import opened StateCodec

  method WriteIntent(i: MitigationIntent) returns (bytes: seq<byte>)
    ensures bytes == EncodeIntent(i)
  {
    hide PutRun, PutCounted, IntentHead, IntentTail, Identities, Services;
    var writer := new Writer();
    writer.PushRun(INTENT_HEAD, IntentHead(i));
    writer.PushCounted(IDENTITY, Identities(i.penalized));
    writer.PushCounted(SERVICE, Services(i.affected));
    writer.PushRun(INTENT_TAIL, IntentTail(i));
    bytes := writer.buffer;
    assert bytes == EncodeIntent(i);
  }

  method ReadIntent(bytes: seq<byte>) returns (r: Outcome<MitigationIntent>)
    ensures r == DecodeIntent(bytes)
  {
    hide TakeRun, TakeCounted, IntentFrom;
    var reader := new Reader(bytes);
    var head := reader.PullRun(INTENT_HEAD);
    if head.Err? { return Err(head.code); }
    var ids := reader.PullCounted(IDENTITY, MAX_PENALIZED);
    if ids.Err? { return Err(ids.code); }
    var services := reader.PullCounted(SERVICE, |SERVICES|);
    if services.Err? { return Err(services.code); }
    var tail := reader.PullRun(INTENT_TAIL);
    if tail.Err? { return Err(tail.code); }
    var left := reader.Remaining();
    if left != 0 { return Err(MalformedInput); }
    r := Ok(IntentFrom(head.value, ids.value, services.value, tail.value));
  }

  method WriteIntervention(i: Intervention) returns (bytes: seq<byte>)
    ensures bytes == EncodeIntervention(i)
  {
    hide PutRun, PutString, Put, RecordHead, EncodeIntent;
    var writer := new Writer();
    writer.PushRun(RECORD_HEAD, RecordHead(i));
    writer.String(i.refusalDetail);
    var intent := WriteIntent(i.intent);
    writer.Push(U32, |intent|);
    writer.Raw(intent);
    bytes := writer.buffer;
    assert bytes == EncodeIntervention(i);
  }

  method PullNested(reader: Reader) returns (r: Outcome<seq<byte>>)
    requires reader.Valid()
    modifies reader`position
    ensures reader.Valid()
    ensures r.Ok? <==> TakeNested(old(reader.Rest())).Ok?
    ensures r.Ok? ==> TakeNested(old(reader.Rest())) == Ok((r.value, reader.Rest()))
    ensures r.Err? ==> TakeNested(old(reader.Rest())) == Err(r.code)
  {
    var length := reader.Pull(U32);
    if length.Err? { return Err(length.code); }
    if length.value > MAX_RECORD_BYTES { return Err(OversizedInput); }
    r := reader.Raw(length.value);
  }

  method ReadIntervention(bytes: seq<byte>) returns (r: Outcome<Intervention>)
    ensures r == DecodeIntervention(bytes)
  {
    hide TakeRun, TakeString, TakeNested, RecordFrom, DecodeIntent;
    var reader := new Reader(bytes);
    var head := reader.PullRun(RECORD_HEAD);
    if head.Err? { return Err(head.code); }
    var detail := reader.String();
    if detail.Err? { return Err(detail.code); }
    var nested := PullNested(reader);
    if nested.Err? { return Err(nested.code); }
    var intent := ReadIntent(nested.value);
    if intent.Err? { return Err(intent.code); }
    var left := reader.Remaining();
    if left != 0 { return Err(MalformedInput); }
    r := Ok(RecordFrom(head.value, detail.value, intent.value));
  }

  method PushInterventions(writer: Writer, rs: seq<Intervention>)
    modifies writer
    ensures writer.buffer == old(writer.buffer) + PutInterventions(rs)
  {
    hide Put, EncodeIntervention;
    var i := 0;
    assert rs[0..] == rs;
    while i < |rs|
      invariant 0 <= i <= |rs|
      invariant writer.buffer + PutInterventions(rs[i..]) == old(writer.buffer) + PutInterventions(rs)
    {
      ghost var before := writer.buffer;
      var nested := WriteIntervention(rs[i]);
      writer.Push(U32, |nested|);
      writer.Raw(nested);
      assert rs[i..][0] == rs[i] && rs[i..][1..] == rs[i + 1..];
      assert writer.buffer == before + PutNested(nested);
      i := i + 1;
    }
  }

  method WriteState(s: GovernorState) returns (bytes: seq<byte>)
    requires |s.lastSequence| == CLASSES
    ensures bytes == EncodeState(s)
  {
    hide PutRun, PutCounted, Put, StateHead, Tracking, Windows, PutInterventions, Checksum;
    var writer := new Writer();
    writer.PushRun(STATE_HEAD, StateHead(s));
    writer.PushRun(TRACKING, Tracking(s));
    writer.PushCounted(HISTORY, Windows(s.history));
    writer.Push(U32, |s.interventions|);
    PushInterventions(writer, s.interventions);
    var payload := writer.buffer;
    assert payload == EncodePayload(s);
    var crc := Compute(payload);
    assert RegisterValue(crc) == Checksum(payload) by {
      ChecksumIs(payload);
    }
    bytes := WriteContainer(s, payload, RegisterValue(crc));
  }

  lemma ChecksumIs(payload: seq<byte>)
    ensures Checksum(payload) == RegisterValue(Crc(payload))
  {}

  method WriteContainer(s: GovernorState, payload: seq<byte>, checksum: nat) returns (bytes: seq<byte>)
    ensures bytes == Put(U32, STATE_MAGIC) + (Put(U16, SNAPSHOT_VERSION) + (Put(U64, s.generation)
                     + (Put(U32, |payload|) + (Put(U32, checksum) + payload))))
  {
    hide Put;
    var container := new Writer();
    container.Push(U32, STATE_MAGIC);
    container.Push(U16, SNAPSHOT_VERSION);
    container.Push(U64, s.generation);
    container.Push(U32, |payload|);
    container.Push(U32, checksum);
    container.Raw(payload);
    bytes := container.buffer;
  }

  /** What is still to be read, put behind what has been. */
  function Behind(records: seq<Intervention>, later: Outcome<(seq<Intervention>, seq<byte>)>): Outcome<(seq<Intervention>, seq<byte>)> {
    if later.Ok? then Ok((records + later.value.0, later.value.1)) else later
  }

  lemma NextRecord(records: seq<Intervention>, n: nat, bs: seq<byte>)
    requires n > 0
    ensures TakeNested(bs).Err? ==> TakeInterventions(n, bs) == Err(TakeNested(bs).code)
    ensures TakeNested(bs).Ok? && DecodeIntervention(TakeNested(bs).value.0).Err? ==>
      TakeInterventions(n, bs) == Err(DecodeIntervention(TakeNested(bs).value.0).code)
    ensures TakeNested(bs).Ok? && DecodeIntervention(TakeNested(bs).value.0).Ok? ==>
      Behind(records, TakeInterventions(n, bs))
      == Behind(records + [DecodeIntervention(TakeNested(bs).value.0).value], TakeInterventions(n - 1, TakeNested(bs).value.1))
  {
    hide TakeNested, DecodeIntervention;
    if TakeNested(bs).Ok? && DecodeIntervention(TakeNested(bs).value.0).Ok? {
      var record := DecodeIntervention(TakeNested(bs).value.0).value;
      var later := TakeInterventions(n - 1, TakeNested(bs).value.1);
      assert later.Ok? ==> records + ([record] + later.value.0) == (records + [record]) + later.value.0;
    }
  }

  lemma NoMoreRecords(records: seq<Intervention>, bs: seq<byte>)
    ensures Behind(records, TakeInterventions(0, bs)) == Ok((records, bs))
  {
    assert records + [] == records;
  }

  lemma NothingBehind(later: Outcome<(seq<Intervention>, seq<byte>)>)
    ensures Behind([], later) == later
  {
    if later.Ok? { assert [] + later.value.0 == later.value.0; }
  }

  method PullInterventions(reader: Reader, n: nat) returns (r: Outcome<seq<Intervention>>)
    requires reader.Valid()
    modifies reader`position
    ensures reader.Valid()
    ensures r.Ok? <==> TakeInterventions(n, old(reader.Rest())).Ok?
    ensures r.Ok? ==> TakeInterventions(n, old(reader.Rest())) == Ok((r.value, reader.Rest()))
    ensures r.Err? ==> TakeInterventions(n, old(reader.Rest())) == Err(r.code)
  {
    hide TakeNested, DecodeIntervention, TakeInterventions;
    var records, i := [], 0;
    ghost var all := TakeInterventions(n, reader.Rest());
    NothingBehind(all);
    while i < n
      invariant reader.Valid() && 0 <= i <= n
      invariant all == Behind(records, TakeInterventions(n - i, reader.Rest()))
    {
      NextRecord(records, n - i, reader.Rest());
      var nested := PullNested(reader);
      if nested.Err? { return Err(nested.code); }
      var record := ReadIntervention(nested.value);
      if record.Err? { return Err(record.code); }
      records := records + [record.value];
      i := i + 1;
    }
    NoMoreRecords(records, reader.Rest());
    r := Ok(records);
  }

  /** The counted records at the end of a state. */
  function TakeTable(bs: seq<byte>): Outcome<(seq<Intervention>, seq<byte>)> {
    var (count, rest) :- Take(U32, bs);
    if count > MAX_INTERVENTIONS then Err(OversizedInput) else TakeInterventions(count, rest)
  }

  method PullTable(reader: Reader) returns (r: Outcome<seq<Intervention>>)
    requires reader.Valid()
    modifies reader`position
    ensures reader.Valid()
    ensures r.Ok? ==> TakeTable(old(reader.Rest())).Ok? && TakeTable(old(reader.Rest())).value.0 == r.value
    ensures r.Err? ==> TakeTable(old(reader.Rest())) == Err(r.code)
  {
    hide TakeInterventions;
    var count := reader.Pull(U32);
    if count.Err? { return Err(count.code); }
    if count.value > MAX_INTERVENTIONS { return Err(OversizedInput); }
    r := PullInterventions(reader, count.value);
  }

  function PayloadWith(head: seq<int>, tracking: seq<int>, windows: seq<seq<int>>, table: Outcome<(seq<Intervention>, seq<byte>)>,
                       generation: int): Outcome<GovernorState>
    requires FitsRun(STATE_HEAD, head) && FitsRun(TRACKING, tracking) && FitsItems(HISTORY, windows)
  {
    var (records, _) :- table;
    var s := StateFrom(head, tracking, windows, records);
    if !s.Valid() || s.generation != generation then Err(CorruptState) else Ok(s)
  }

  lemma PayloadInParts(payload: seq<byte>, generation: int)
    ensures TakeRun(STATE_HEAD, payload).Err? ==> DecodePayload(payload, generation) == Err(TakeRun(STATE_HEAD, payload).code)
    ensures TakeRun(STATE_HEAD, payload).Ok? ==>
      var (head, r1) := TakeRun(STATE_HEAD, payload).value;
      if TakeRun(TRACKING, r1).Err? then DecodePayload(payload, generation) == Err(TakeRun(TRACKING, r1).code)
      else
        var (tracking, r2) := TakeRun(TRACKING, r1).value;
        if TakeCounted(HISTORY, MAX_HISTORY, r2).Err?
        then DecodePayload(payload, generation) == Err(TakeCounted(HISTORY, MAX_HISTORY, r2).code)
        else
          var (windows, r3) := TakeCounted(HISTORY, MAX_HISTORY, r2).value;
          DecodePayload(payload, generation) == PayloadWith(head, tracking, windows, TakeTable(r3), generation)
  {
    hide TakeRun, TakeCounted, TakeInterventions, StateFrom;
  }

  method ReadPayload(payload: seq<byte>, generation: int) returns (r: Outcome<GovernorState>)
    ensures r == DecodePayload(payload, generation)
  {
    hide TakeRun, TakeCounted, TakeTable, StateFrom, DecodePayload;
    PayloadInParts(payload, generation);
    var reader := new Reader(payload);
    var head := reader.PullRun(STATE_HEAD);
    if head.Err? { return Err(head.code); }
    var tracking := reader.PullRun(TRACKING);
    if tracking.Err? { return Err(tracking.code); }
    var windows := reader.PullCounted(HISTORY, MAX_HISTORY);
    if windows.Err? { return Err(windows.code); }
    var records := PullTable(reader);
    if records.Err? { return Err(records.code); }
    var s := StateFrom(head.value, tracking.value, windows.value, records.value);
    if !s.Valid() || s.generation != generation { return Err(CorruptState); }
    r := Ok(s);
  }

  method ReadState(bytes: seq<byte>) returns (r: Outcome<GovernorState>)
    ensures r == DecodeState(bytes)
  {
    hide Take, DecodePayload, Checksum;
    var reader := new Reader(bytes);
    var magic := reader.Pull(U32);
    if magic.Err? { return Err(magic.code); }
    if magic.value != STATE_MAGIC { return Err(CorruptState); }
    var version := reader.Pull(U16);
    if version.Err? { return Err(version.code); }
    if version.value != SNAPSHOT_VERSION { return Err(UnsupportedVersion); }
    var generation := reader.Pull(U64);
    if generation.Err? { return Err(generation.code); }
    var length := reader.Pull(U32);
    if length.Err? { return Err(length.code); }
    if length.value > MAX_PAYLOAD_BYTES { return Err(OversizedInput); }
    var checksum := reader.Pull(U32);
    if checksum.Err? { return Err(checksum.code); }
    var left := reader.Remaining();
    if left < length.value { return Err(TruncatedInput); }
    var payload := reader.Raw(length.value);
    var crc := Compute(payload.value);
    ChecksumIs(payload.value);
    if RegisterValue(crc) != checksum.value { return Err(ChecksumMismatch); }
    r := ReadPayload(payload.value, generation.value);
  }
}
