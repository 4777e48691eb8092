/** The coordinator's durable epoch: eighteen bytes, rewritten atomically. */
module Ledger {
  import opened Words
  import opened Outcomes
  import opened Codec
  import opened Crc32c

  const LEDGER_MAGIC: nat := 0x5045_4749
  const LEDGER_VERSION: nat := 1
  const LEDGER_BYTES: nat := 18
  const BODY_BYTES: nat := 14

  /** The ledger file: missing, or some bytes. */
  datatype File = Absent | Holding(bytes: seq<byte>)

  function Body(epoch: nat): (b: seq<byte>)
    ensures |b| == BODY_BYTES
  {
    Put(U32, LEDGER_MAGIC) + (Put(U16, LEDGER_VERSION) + Put(U64, epoch))
  }

  function Encode(epoch: nat): seq<byte> { Body(epoch) + Put(U32, Checksum(Body(epoch))) }

  /** The epoch on disk, 0 when there is no ledger yet; only the first eighteen bytes are looked at. */
  function Load(file: File): (r: Outcome<nat>) {
    if file.Absent? then Ok(0)
    else if |file.bytes| < LEDGER_BYTES then Err(TruncatedInput)
    else
      var body := file.bytes[..BODY_BYTES];
      var (magic, afterMagic) :- Take(U32, file.bytes[..LEDGER_BYTES]);
      if magic != LEDGER_MAGIC then Err(CorruptState)
      else
        var (version, afterVersion) :- Take(U16, afterMagic);
        if version != LEDGER_VERSION then Err(UnsupportedVersion)
        else
          var (epoch, afterEpoch) :- Take(U64, afterVersion);
          var (checksum, _) :- Take(U32, afterEpoch);
          if Checksum(body) != checksum then Err(ChecksumMismatch)
          else Ok(epoch)
  }

  /** Every ledger begins with the letters IGEP. */
  lemma LedgersBegin(epoch: nat)
    ensures Encode(epoch)[..4] == [0x49, 0x47, 0x45, 0x50]
  {
    hide Checksum, Put;
    BytesOfWord(LEDGER_MAGIC);
  }

  /** A stored epoch is read back exactly, whatever follows it. */
  lemma StoredIsLoaded(epoch: nat, rest: seq<byte>)
    requires epoch <= MAX_U64
    ensures Load(Holding(Encode(epoch) + rest)) == Ok(epoch)
  {
    hide Put, Take, Checksum;
    var bytes := Encode(epoch) + rest;
    var sum := Put(U32, Checksum(Body(epoch)));
    assert bytes[..BODY_BYTES] == Body(epoch);
    assert bytes[..LEDGER_BYTES]
        == Put(U32, LEDGER_MAGIC) + (Put(U16, LEDGER_VERSION) + (Put(U64, epoch) + (sum + [])));
    TakeAfterPut(U32, LEDGER_MAGIC, Put(U16, LEDGER_VERSION) + (Put(U64, epoch) + (sum + [])));
    TakeAfterPut(U16, LEDGER_VERSION, Put(U64, epoch) + (sum + []));
    TakeAfterPut(U64, epoch, sum + []);
    TakeAfterPut(U32, Checksum(Body(epoch)), []);
  }

  /** A ledger holds an epoch exactly when it begins with the encoding of that epoch. */
  lemma LoadsExactlyEpochs(bytes: seq<byte>, epoch: nat)
    ensures Load(Holding(bytes)) == Ok(epoch) <==> epoch <= MAX_U64 && Encode(epoch) <= bytes
  {
    hide Put, Take, Checksum, Body, Encode, Load;
    if epoch <= MAX_U64 && Encode(epoch) <= bytes {
      StoredIsLoaded(epoch, bytes[|Encode(epoch)|..]);
      assert bytes == Encode(epoch) + bytes[|Encode(epoch)|..];
    }
    if Load(Holding(bytes)) == Ok(epoch) { LoadedIsStored(bytes, epoch); }
  }

  lemma LoadedIsStored(bytes: seq<byte>, epoch: nat)
    requires Load(Holding(bytes)) == Ok(epoch)
    ensures epoch <= MAX_U64 && |bytes| >= LEDGER_BYTES && Encode(epoch) == bytes[..LEDGER_BYTES]
  {
    hide Put, GetInt, Checksum;
    var front := bytes[..LEDGER_BYTES];
    PutAfterTake(U32, front);
    PutAfterTake(U16, front[4..]);
    PutAfterTake(U64, front[4..][2..]);
    PutAfterTake(U32, front[4..][2..][8..]);
    Widths();
    assert bytes[..BODY_BYTES] == front[..4] + (front[4..][..2] + front[4..][2..][..8]);
    assert bytes[..BODY_BYTES] == Body(epoch);
    assert front == front[..BODY_BYTES] + front[4..][2..][8..][..4];
    assert front[..BODY_BYTES] == bytes[..BODY_BYTES];
  }

  /** A ledger cut short is never read as an epoch. */
  lemma TornLedgerIsRefused(epoch: nat, bytes: seq<byte>)
    requires bytes < Encode(epoch)
    ensures Load(Holding(bytes)) == Err(TruncatedInput)
  {}

  /** The program's store: an absent epoch is refused, and the write either replaces the whole file or fails. */
  method Store(file: File, epoch: nat, durable: bool) returns (r: File, ok: bool)
    ensures ok == (epoch != 0 && durable)
    ensures r == if ok then Holding(Encode(epoch)) else file
  {
    if epoch == 0 || !durable {
      return file, false;
    }
    hide Put, Checksum;
    var writer := new Writer();
    writer.Push(U32, LEDGER_MAGIC);
    writer.Push(U16, LEDGER_VERSION);
    writer.Push(U64, epoch);
    assert writer.buffer == Body(epoch);
    var crc := Compute(writer.buffer);
    writer.Push(U32, RegisterValue(crc));
    ChecksumOfBody(epoch);
    return Holding(writer.buffer), true;
  }

  lemma ChecksumOfBody(epoch: nat)
    ensures Checksum(Body(epoch)) == RegisterValue(Crc(Body(epoch)))
  {}
}
