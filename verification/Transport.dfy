/** The framed transport: a twenty-byte header, a checked payload, and reassembly from partial reads. */
module Transport {
  import opened Words
  import opened Outcomes
  import opened Codec
  import opened Crc32c

  const FRAME_MAGIC: nat := 0x3146_4749
  const WIRE_VERSION: nat := 1
  const HEADER_BYTES: nat := 20
  const MAX_FRAME_BYTES: nat := 0x10_0000
  const MAX_FRAME_TYPE: nat := 17

  type FrameType = t: nat | 1 <= t <= MAX_FRAME_TYPE witness 15

  datatype Frame = Frame(kind: FrameType, flags: nat, payload: seq<byte>)

  // ----- The frame format -----

  const HEADER_FIELDS: seq<Kind> := [U32, U16, U16, U16, U16, U32, U32]

  function HeaderValues(kind: nat, flags: nat, length: nat, checksum: nat): seq<int> {
    [FRAME_MAGIC, WIRE_VERSION, kind, flags, 0, length, checksum]
  }

  function Header(f: Frame): seq<byte> {
    PutRun(HEADER_FIELDS, HeaderValues(f.kind, f.flags, |f.payload|, Checksum(f.payload)))
  }

  /** The frame on the wire. */
  function Wire(f: Frame): seq<byte> { Header(f) + f.payload }

  /** A frame whose payload is too long is refused, never truncated. */
  method EncodeFrame(f: Frame) returns (r: Outcome<seq<byte>>)
    ensures r == if |f.payload| > MAX_FRAME_BYTES then Err(OversizedInput) else Ok(Wire(f))
  {
    if |f.payload| > MAX_FRAME_BYTES {
      return Err(OversizedInput);
    }
    var writer := new Writer();
    var crc := Compute(f.payload);
    writer.PushRun(HEADER_FIELDS, HeaderValues(f.kind, f.flags, |f.payload|, RegisterValue(crc)));
    assert writer.buffer == Header(f);
    writer.Raw(f.payload);
    r := Ok(writer.buffer);
  }

  lemma HeaderSize()
    ensures RunWidth(HEADER_FIELDS) == HEADER_BYTES
  {
    assert RunWidth(HEADER_FIELDS[6..]) == 4;
    assert RunWidth(HEADER_FIELDS[5..]) == 8;
    assert RunWidth(HEADER_FIELDS[4..]) == 10;
    assert RunWidth(HEADER_FIELDS[3..]) == 12;
    assert RunWidth(HEADER_FIELDS[2..]) == 14;
    assert RunWidth(HEADER_FIELDS[1..]) == 16;
  }

  datatype Preamble = Preamble(kind: FrameType, flags: nat, length: nat, checksum: int)

  /** Checks a header in the order of the program: magic, version, type, reserved field, length. */
  function DecodeHeader(header: seq<byte>): (r: Outcome<Preamble>)
    ensures r.Ok? ==> |header| >= HEADER_BYTES && r.value.length <= MAX_FRAME_BYTES
    ensures r.Err? ==> r.code != Closed
  {
    if |header| < HEADER_BYTES then Err(TruncatedInput)
    else
      HeaderSize();
      TakeRunShort(HEADER_FIELDS, header);
      var vs := TakeRun(HEADER_FIELDS, header).value.0;
      if vs[0] != FRAME_MAGIC then Err(ProtocolViolation)
      else if vs[1] != WIRE_VERSION then Err(UnsupportedVersion)
      else if vs[2] <= 0 || vs[2] > MAX_FRAME_TYPE then Err(ProtocolViolation)
      else if vs[4] != 0 then Err(ProtocolViolation)
      else if vs[5] > MAX_FRAME_BYTES then Err(OversizedInput)
      else
        assert vs[3] >= 0 && vs[5] >= 0 by { PutRunAfterTakeRun(HEADER_FIELDS, header); }
        Ok(Preamble(vs[2], vs[3], vs[5], vs[6]))
  }

  function DecodeFrame(bytes: seq<byte>): Outcome<Frame> {
    var p :- DecodeHeader(bytes);
    if |bytes| < HEADER_BYTES + p.length then Err(TruncatedInput)
    else
      var payload := bytes[HEADER_BYTES..HEADER_BYTES + p.length];
      if Checksum(payload) != p.checksum then Err(ChecksumMismatch)
      else Ok(Frame(p.kind, p.flags, payload))
  }

  predicate Encodable(f: Frame) {
    f.flags < 0x1_0000 && |f.payload| <= MAX_FRAME_BYTES
  }

  lemma HeaderThenAnything(f: Frame, rest: seq<byte>)
    requires Encodable(f)
    ensures |Header(f)| == HEADER_BYTES
    ensures DecodeHeader(Header(f) + rest) == Ok(Preamble(f.kind, f.flags, |f.payload|, Checksum(f.payload)))
  {
    hide TakeRun, PutRun, Checksum;
    HeaderSize();
    var vs := HeaderValues(f.kind, f.flags, |f.payload|, Checksum(f.payload));
    RunLength(HEADER_FIELDS, vs);
    TakeRunAfterPutRun(HEADER_FIELDS, vs, rest);
  }

  /** Every frame begins with the letters IGF1. */
  lemma FramesBegin(f: Frame)
    ensures |Wire(f)| >= 4 && Wire(f)[..4] == [0x49, 0x47, 0x46, 0x31]
  {
    hide Checksum;
    BytesOfWord(FRAME_MAGIC);
    var vs := HeaderValues(f.kind, f.flags, |f.payload|, Checksum(f.payload));
    assert PutRun(HEADER_FIELDS, vs) == Put(U32, FRAME_MAGIC) + PutRun(HEADER_FIELDS[1..], vs[1..]);
  }

  lemma EncodingsDecode(f: Frame, rest: seq<byte>)
    requires Encodable(f)
    ensures DecodeFrame(Wire(f) + rest) == Ok(f)
  {
    HeaderThenAnything(f, f.payload + rest);
    assert Wire(f) + rest == Header(f) + (f.payload + rest);
    assert (Wire(f) + rest)[HEADER_BYTES..HEADER_BYTES + |f.payload|] == f.payload;
  }

  lemma FlagsFit(vs: seq<int>)
    requires FitsRun(HEADER_FIELDS, vs)
    ensures 0 <= vs[3] < 0x1_0000
  {
    assert HEADER_FIELDS[3] == U16;
  }

  lemma DecodedIsEncoded(bytes: seq<byte>)
    requires DecodeFrame(bytes).Ok?
    ensures Encodable(DecodeFrame(bytes).value) && Wire(DecodeFrame(bytes).value) <= bytes
  {
    hide Checksum, TakeRun, PutRun, Fits;
    var f := DecodeFrame(bytes).value;
    HeaderSize();
    assert forall i | 0 <= i < |HEADER_FIELDS| :: HEADER_FIELDS[i] != Flag && HEADER_FIELDS[i] in {U16, U32};
    TakeRunShort(HEADER_FIELDS, bytes);
    PutRunAfterTakeRun(HEADER_FIELDS, bytes);
    var vs := TakeRun(HEADER_FIELDS, bytes).value.0;
    FlagsFit(vs);
    assert vs == HeaderValues(f.kind, f.flags, |f.payload|, Checksum(f.payload));
    assert bytes[HEADER_BYTES..] == f.payload + bytes[HEADER_BYTES + |f.payload|..];
    assert bytes == Wire(f) + bytes[HEADER_BYTES + |f.payload|..];
  }

  /** A header is refused for the first of its fields that is wrong. */
  lemma RefusedHeaders(vs: seq<int>, rest: seq<byte>)
    requires FitsRun(HEADER_FIELDS, vs)
    ensures var r := DecodeHeader(PutRun(HEADER_FIELDS, vs) + rest);
      && (vs[0] != 0x3146_4749 ==> r == Err(ProtocolViolation))
      && (vs[0] == 0x3146_4749 && vs[1] != WIRE_VERSION ==> r == Err(UnsupportedVersion))
      && (vs[0] == 0x3146_4749 && vs[1] == WIRE_VERSION && !(1 <= vs[2] <= MAX_FRAME_TYPE && vs[4] == 0) ==>
            r == Err(ProtocolViolation))
      && (vs[0] == 0x3146_4749 && vs[1] == WIRE_VERSION && 1 <= vs[2] <= MAX_FRAME_TYPE && vs[4] == 0 ==>
            if vs[5] > MAX_FRAME_BYTES then r == Err(OversizedInput) else r == Ok(Preamble(vs[2], vs[3], vs[5], vs[6])))
  {
    hide TakeRun, PutRun;
    HeaderSize();
    RunLength(HEADER_FIELDS, vs);
    TakeRunAfterPutRun(HEADER_FIELDS, vs, rest);
    assert Fits(HEADER_FIELDS[3], vs[3]) && Fits(HEADER_FIELDS[5], vs[5]);
  }

  /** A byte string decodes to a frame exactly when it begins with the encoding of that frame. */
  lemma DecodesExactlyEncodings(f: Frame, bytes: seq<byte>)
    ensures DecodeFrame(bytes) == Ok(f) <==> Encodable(f) && Wire(f) <= bytes
  {
    hide DecodeFrame, Wire;
    if DecodeFrame(bytes) == Ok(f) {
      DecodedIsEncoded(bytes);
    }
    if Encodable(f) && Wire(f) <= bytes {
      EncodingsDecode(f, bytes[|Wire(f)|..]);
      assert bytes == Wire(f) + bytes[|Wire(f)|..];
    }
  }

  /** No proper prefix of an encoded frame decodes. */
  lemma PrefixesAreRejected(f: Frame, bytes: seq<byte>)
    requires Encodable(f) && bytes < Wire(f)
    ensures DecodeFrame(bytes).Err?
  {
    if DecodeFrame(bytes).Ok? {
      var g := DecodeFrame(bytes).value;
      DecodesExactlyEncodings(g, bytes);
      DecodesExactlyEncodings(g, Wire(f));
      DecodesExactlyEncodings(f, Wire(f));
      assert false;
    }
  }

  /** A payload altered only within four consecutive bytes is always refused. */
  lemma DamageIsDetected(f: Frame, damaged: seq<byte>, start: nat)
    requires Encodable(f) && |damaged| == |f.payload| && damaged != f.payload
    requires forall k | 0 <= k < |damaged| && !(start <= k < start + 4) :: damaged[k] == f.payload[k]
    ensures DecodeFrame(Header(f) + damaged) == Err(ChecksumMismatch)
  {
    hide Header, DecodeHeader, Checksum;
    HeaderThenAnything(f, damaged);
    BurstChangesChecksum(f.payload, damaged, start);
    assert (Header(f) + damaged)[HEADER_BYTES..HEADER_BYTES + |damaged|] == damaged;
  }

  // ----- Streams of frames -----

  /** The bytes of a sequence of frames sent one after the other. */
  function Stream(frames: seq<Frame>): seq<byte>
  {
    if frames == [] then [] else Wire(frames[0]) + Stream(frames[1..])
  }

  /** What one receive takes from the bytes a peer sent before it closed, and what it leaves. */
  function ReceiveFrom(stream: seq<byte>): (r: (Outcome<Frame>, seq<byte>))
    ensures r.0.Ok? ==> |r.1| + HEADER_BYTES <= |stream|
  {
    if |stream| < HEADER_BYTES then (Err(Closed), [])
    else
      var rest := stream[HEADER_BYTES..];
      var p := DecodeHeader(stream[..HEADER_BYTES]);
      if p.Err? then (Err(p.code), rest)
      else if |rest| < p.value.length then (Err(TruncatedInput), [])
      else if Checksum(rest[..p.value.length]) != p.value.checksum then
        (Err(ChecksumMismatch), rest[p.value.length..])
      else (Ok(Frame(p.value.kind, p.value.flags, rest[..p.value.length])), rest[p.value.length..])
  }

  /** Receiving until the first failure. */
  function Drain(stream: seq<byte>): (seq<Frame>, ErrorCode)
    decreases |stream|
  {
    match ReceiveFrom(stream)
    case (Err(e), _) => ([], e)
    case (Ok(f), rest) => var (frames, e) := Drain(rest); ([f] + frames, e)
  }

  lemma HeaderAlone(bytes: seq<byte>)
    requires |bytes| >= HEADER_BYTES
    ensures DecodeHeader(bytes[..HEADER_BYTES]) == DecodeHeader(bytes)
  {
    hide TakeRun, PutRun;
    HeaderSize();
    var head := bytes[..HEADER_BYTES];
    assert forall i | 0 <= i < |HEADER_FIELDS| :: HEADER_FIELDS[i] != Flag && HEADER_FIELDS[i] in {U16, U32};
    TakeRunShort(HEADER_FIELDS, head);
    PutRunAfterTakeRun(HEADER_FIELDS, head);
    var vs := TakeRun(HEADER_FIELDS, head).value.0;
    TakeRunAfterPutRun(HEADER_FIELDS, vs, bytes[HEADER_BYTES..]);
    assert bytes == PutRun(HEADER_FIELDS, vs) + bytes[HEADER_BYTES..];
  }

  /** Receive accepts what the whole-frame decoder accepts, and leaves the rest. */
  lemma ReceiveIsDecode(stream: seq<byte>)
    ensures ReceiveFrom(stream).0.Ok? <==> DecodeFrame(stream).Ok?
    ensures DecodeFrame(stream).Ok? ==>
              var f := DecodeFrame(stream).value;
              Encodable(f) && ReceiveFrom(stream).0 == Ok(f) && stream == Wire(f) + ReceiveFrom(stream).1
  {
    hide Checksum, DecodeHeader;
    if |stream| >= HEADER_BYTES {
      HeaderAlone(stream);
      var p := DecodeHeader(stream);
      if p.Ok? && |stream| >= HEADER_BYTES + p.value.length {
        assert stream[HEADER_BYTES..][..p.value.length] == stream[HEADER_BYTES..HEADER_BYTES + p.value.length];
        if DecodeFrame(stream).Ok? {
          var f := DecodeFrame(stream).value;
          DecodedIsEncoded(stream);
          HeaderThenAnything(f, []);
          assert stream[HEADER_BYTES..][p.value.length..] == stream[|Wire(f)|..];
        }
      }
    }
  }

  /** A payload damaged only within four consecutive bytes is refused, and the frames behind it are still received. */
  lemma DamageIsSkipped(f: Frame, damaged: seq<byte>, start: nat, rest: seq<byte>)
    requires Encodable(f) && |damaged| == |f.payload| && damaged != f.payload
    requires forall k | 0 <= k < |damaged| && !(start <= k < start + 4) :: damaged[k] == f.payload[k]
    ensures ReceiveFrom(Header(f) + damaged + rest) == (Err(ChecksumMismatch), rest)
  {
    hide Header, DecodeHeader, Checksum;
    HeaderThenAnything(f, []);
    assert Header(f) + [] == Header(f);
    BurstChangesChecksum(f.payload, damaged, start);
    var stream := Header(f) + damaged + rest;
    assert stream[..HEADER_BYTES] == Header(f);
    assert stream[HEADER_BYTES..] == damaged + rest;
    assert stream[HEADER_BYTES..][..|damaged|] == damaged && stream[HEADER_BYTES..][|damaged|..] == rest;
  }

  /** A stream that ends between two frames, or within a header, has been closed; one that ends within a payload is cut. */
  lemma EndsAreTold(f: Frame, n: nat)
    requires Encodable(f) && n < |Wire(f)|
    ensures ReceiveFrom(Wire(f)[..n]) == (Err(if n < HEADER_BYTES then Closed else TruncatedInput), [])
  {
    hide Header, DecodeHeader, Checksum;
    HeaderThenAnything(f, []);
    assert Header(f) + [] == Header(f);
    if n >= HEADER_BYTES {
      assert Wire(f)[..n][..HEADER_BYTES] == Header(f);
    }
  }

  lemma ReceiveFirst(f: Frame, rest: seq<byte>)
    requires Encodable(f)
    ensures ReceiveFrom(Wire(f) + rest) == (Ok(f), rest)
  {
    hide DecodeFrame, ReceiveFrom, Wire;
    var stream := Wire(f) + rest;
    EncodingsDecode(f, rest);
    ReceiveIsDecode(stream);
    assert ReceiveFrom(stream).1 == stream[|Wire(f)|..] == rest;
  }

  /** Exactly the frames that were sent come out of the stream, in order, and then it ends. */
  lemma {:induction false} StreamRoundTrip(frames: seq<Frame>)
    requires forall i | 0 <= i < |frames| :: Encodable(frames[i])
    ensures Drain(Stream(frames)) == (frames, Closed)
  {
    if frames != [] {
      hide ReceiveFrom, Wire;
      ReceiveFirst(frames[0], Stream(frames[1..]));
      StreamRoundTrip(frames[1..]);
      assert Drain(Stream(frames)) == ([frames[0]] + Drain(Stream(frames[1..])).0, Closed);
      assert frames == [frames[0]] + frames[1..];
    } else {
      assert ReceiveFrom([]) == (Err(Closed), []);
    }
  }

  /** From any bytes at all, what is received is a prefix of the stream, frame by frame. */
  lemma {:induction false} NothingIsInvented(stream: seq<byte>)
    ensures forall i | 0 <= i < |Drain(stream).0| :: Encodable(Drain(stream).0[i])
    ensures Stream(Drain(stream).0) <= stream
    decreases |stream|
  {
    hide DecodeFrame, Wire, ReceiveFrom;
    ReceiveIsDecode(stream);
    if ReceiveFrom(stream).0.Ok? {
      var rest := ReceiveFrom(stream).1;
      NothingIsInvented(rest);
      var later := Drain(rest).0;
      assert Drain(stream).0[1..] == later;
      assert stream == Wire(Drain(stream).0[0]) + rest;
    }
  }

  // ----- The channel -----

  /** A connection whose peer sends some bytes and then closes.  Each read returns some nonempty part of
      what is left, of any size up to the room offered. */
  class Connection {
    var incoming: seq<byte>

    constructor (bytes: seq<byte>)
      ensures incoming == bytes
    {
      incoming := bytes;
    }

    method ReceiveSome(buffer: array<byte>, start: nat) returns (n: nat)
      requires start <= buffer.Length
      modifies this, buffer
      ensures n <= |old(incoming)| && start + n <= buffer.Length
      ensures n == 0 <==> old(incoming) == [] || start == buffer.Length
      ensures incoming == old(incoming)[n..]
      ensures buffer[..start] == old(buffer[..start])
      ensures buffer[start..start + n] == old(incoming)[..n]
    {
      var room := if |incoming| < buffer.Length - start then |incoming| else buffer.Length - start;
      if room == 0 {
        return 0;
      }
      n :| 1 <= n <= room;
      forall i | 0 <= i < n {
        buffer[start + i] := incoming[i];
      }
      incoming := incoming[n..];
    }
  }

  class FramedChannel {
    const connection: Connection
    var framesReceived: nat
    var protocolErrors: nat

    constructor (peer: Connection)
      ensures connection == peer && framesReceived == 0 && protocolErrors == 0
    {
      connection := peer;
      framesReceived := 0;
      protocolErrors := 0;
    }

    /** Fills the buffer from the connection, or stops at its end. */
    method Fill(buffer: array<byte>) returns (whole: bool)
      modifies connection, buffer
      ensures whole <==> |old(connection.incoming)| >= buffer.Length
      ensures whole ==> buffer[..] == old(connection.incoming)[..buffer.Length]
      ensures whole ==> connection.incoming == old(connection.incoming)[buffer.Length..]
      ensures !whole ==> connection.incoming == []
    {
      var filled := 0;
      ghost var all := connection.incoming;
      while filled < buffer.Length
        invariant 0 <= filled <= buffer.Length && filled <= |all|
        invariant connection.incoming == all[filled..]
        invariant buffer[..filled] == all[..filled]
      {
        var chunk := connection.ReceiveSome(buffer, filled);
        if chunk == 0 {
          return false;
        }
        assert buffer[..filled + chunk] == buffer[..filled] + buffer[filled..filled + chunk];
        assert all[..filled + chunk] == all[..filled] + all[filled..][..chunk];
        filled := filled + chunk;
      }
      assert buffer[..] == buffer[..filled];
      whole := true;
    }

    method Receive() returns (r: Outcome<Frame>)
      modifies this, connection
      ensures (r, connection.incoming) == ReceiveFrom(old(connection.incoming))
      ensures framesReceived == old(framesReceived) + (if r.Ok? then 1 else 0)
      ensures protocolErrors == old(protocolErrors) + (if r.Err? && r.code != Closed then 1 else 0)
    {
      hide DecodeHeader, Crc, Low;
      ghost var stream := connection.incoming;
      var header := new byte[HEADER_BYTES](_ => 0);
      var whole := Fill(header);
      if !whole {
        return Err(Closed);
      }
      assert header[..] == stream[..HEADER_BYTES];
      var p := DecodeHeader(header[..]);
      if p.Err? {
        protocolErrors := protocolErrors + 1;
        return Err(p.code);
      }
      var payload := new byte[p.value.length](_ => 0);
      whole := Fill(payload);
      if !whole {
        protocolErrors := protocolErrors + 1;
        return Err(TruncatedInput);
      }
      var crc := Compute(payload[..]);
      if RegisterValue(crc) != p.value.checksum {
        protocolErrors := protocolErrors + 1;
        return Err(ChecksumMismatch);
      }
      framesReceived := framesReceived + 1;
      r := Ok(Frame(p.value.kind, p.value.flags, payload[..]));
    }

    /** Receives until the first failure; however the bytes are split into reads, the frames are the same. */
    method ReceiveAll() returns (frames: seq<Frame>, last: ErrorCode)
      modifies this, connection
      ensures (frames, last) == Drain(old(connection.incoming))
      ensures framesReceived == old(framesReceived) + |frames|
    {
      hide ReceiveFrom;
      frames := [];
      ghost var all := Drain(connection.incoming);
      assert [] + all.0 == all.0;
      while true
        invariant all == (frames + Drain(connection.incoming).0, Drain(connection.incoming).1)
        invariant framesReceived == old(framesReceived) + |frames|
        decreases |connection.incoming|
      {
        var r := Receive();
        if r.Err? {
          assert frames + [] == frames;
          return frames, r.code;
        }
        assert frames + ([r.value] + Drain(connection.incoming).0) == (frames + [r.value]) + Drain(connection.incoming).0;
        frames := frames + [r.value];
      }
    }
  }
}
