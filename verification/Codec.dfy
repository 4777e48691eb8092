/** The bounded binary codec: little-endian integers, length-prefixed strings, no padding.

    A record is written and read as runs of fixed-width fields.  The functions describe the
    format; the classes are the growing buffer and the advancing cursor of the program. */
module Codec {
  import opened Words
  import opened Outcomes

  const MAX_STRING: nat := 768

  // ----- Integers -----

  function Pow256(n: nat): (p: nat)
    ensures p > 0
  {
    if n == 0 then 1 else 256 * Pow256(n - 1)
  }

  /** The lowest n bytes of a number, lowest first. */
  function PutInt(v: nat, n: nat): (bs: seq<byte>)
    ensures |bs| == n
  {
    if n == 0 then [] else [v % 256] + PutInt(v / 256, n - 1)
  }

  function GetInt(bs: seq<byte>): (v: nat)
    ensures v < Pow256(|bs|)
  {
    if bs == [] then 0 else bs[0] as int + 256 * GetInt(bs[1..])
  }

  lemma {:induction false} GetAfterPut(v: nat, n: nat)
    requires v < Pow256(n)
    ensures GetInt(PutInt(v, n)) == v
  {
    if n > 0 {
      GetAfterPut(v / 256, n - 1);
      assert PutInt(v, n)[1..] == PutInt(v / 256, n - 1);
    }
  }

  lemma {:induction false} PutAfterGet(bs: seq<byte>)
    ensures PutInt(GetInt(bs), |bs|) == bs
  {
    if bs != [] {
      PutAfterGet(bs[1..]);
      var rest := GetInt(bs[1..]);
      assert GetInt(bs) % 256 == bs[0] && GetInt(bs) / 256 == rest;
      assert bs == [bs[0]] + bs[1..];
    }
  }

  lemma QuotientOfQuotient(v: nat, p: nat)
    requires p > 0
    ensures v / 256 / p == v / (256 * p)
  {
    var q, r := v / 256 / p, v / 256 % p;
    assert v / 256 == q * p + r;
    assert v == 256 * (q * p + r) + v % 256;
    var rest := 256 * r + v % 256;
    assert 0 <= rest < 256 * p by { assert 256 * r <= 256 * (p - 1); }
    assert v == q * (256 * p) + rest;
    assert v / (256 * p) == q by { QuotientIs(v, 256 * p, q, rest); }
  }

  lemma QuotientIs(v: nat, d: nat, q: nat, r: nat)
    requires d > 0 && v == q * d + r && r < d
    ensures v / d == q
  {
    var e := v / d - q;
    assert v == (v / d) * d + v % d;
    assert e * d == r - v % d;
    assert e >= 1 ==> e * d >= d;
    assert e <= -1 ==> e * d + d <= 0;
  }

  /** Integers are stored lowest byte first. */
  lemma {:induction false} LittleEndian(v: nat, n: nat, i: nat)
    requires i < n
    ensures PutInt(v, n)[i] == v / Pow256(i) % 256
  {
    if i > 0 {
      LittleEndian(v / 256, n - 1, i - 1);
      QuotientOfQuotient(v, Pow256(i - 1));
    }
  }

  lemma {:induction false} GetIntExtends(bs: seq<byte>, b: byte)
    ensures GetInt(bs + [b]) == GetInt(bs) + Pow256(|bs|) * b as int
  {
    if bs == [] {
      assert [b][1..] == [];
      assert GetInt([b]) == b as int;
    } else {
      GetIntExtends(bs[1..], b);
      assert (bs + [b])[1..] == bs[1..] + [b];
      var p := Pow256(|bs| - 1);
      assert 256 * (p * b as int) == (256 * p) * b as int;
    }
  }

  lemma Widths()
    ensures Pow256(1) == 0x100 && Pow256(2) == 0x1_0000 && Pow256(4) == 0x1_0000_0000
    ensures Pow256(8) == MAX_U64 + 1
  {
    assert Pow256(3) == 0x100_0000;
    assert Pow256(5) == 0x100_0000_0000;
    assert Pow256(6) == 0x1_0000_0000_0000;
    assert Pow256(7) == 0x100_0000_0000_0000;
  }

  // ----- Fields -----

  /** The fixed-width fields of the format.  A code is one byte holding an enumerator no larger
      than its bound; a flag is one byte, any nonzero value of which reads as true. */
  datatype Kind = U16 | U32 | U64 | I64 | Nonzero64 | Flag | Code(bound: byte)

  function Width(k: Kind): nat {
    match k
    case U16 => 2
    case U32 => 4
    case U64 => 8
    case I64 => 8
    case Nonzero64 => 8
    case Flag => 1
    case Code(_) => 1
  }

  predicate Fits(k: Kind, v: int) {
    match k
    case U16 => 0 <= v < 0x1_0000
    case U32 => 0 <= v < 0x1_0000_0000
    case U64 => 0 <= v <= MAX_U64
    case I64 => -0x8000_0000_0000_0000 <= v < 0x8000_0000_0000_0000
    case Nonzero64 => 0 < v <= MAX_U64
    case Flag => v == 0 || v == 1
    case Code(bound) => 0 <= v <= bound as int
  }

  /** A number as an unsigned 64-bit word; a negative one becomes its two's complement. */
  function Wrapped(v: int): (w: nat)
    ensures w <= MAX_U64
    ensures -MAX_U64 - 1 <= v < 0 ==> w == v + MAX_U64 + 1
  {
    if 0 <= v <= MAX_U64 then v else v % (MAX_U64 + 1)
  }

  /** The bytes of one field. */
  function Put(k: Kind, v: int): (bs: seq<byte>)
    ensures |bs| == Width(k)
  {
    PutInt(Wrapped(v), Width(k))
  }

  /** Reads a field from the front of some bytes; the result is its value and what follows it. */
  function Take(k: Kind, bs: seq<byte>): (r: Outcome<(int, seq<byte>)>)
    ensures r.Ok? ==> |bs| == Width(k) + |r.value.1| && r.value.1 == bs[Width(k)..]
    ensures r.Ok? ==> Fits(k, r.value.0)
  {
    if |bs| < Width(k) then Err(TruncatedInput)
    else
      Widths();
      var v := GetInt(bs[..Width(k)]);
      var rest := bs[Width(k)..];
      match k
      case I64 => Ok((if v < 0x8000_0000_0000_0000 then v else v - (MAX_U64 + 1), rest))
      case Nonzero64 => if v == 0 then Err(CorruptState) else Ok((v, rest))
      case Flag => Ok((if v != 0 then 1 else 0, rest))
      case Code(bound) => if v > bound as int then Err(CorruptState) else Ok((v, rest))
      case U16 => Ok((v, rest))
      case U32 => Ok((v, rest))
      case U64 => Ok((v, rest))
  }

  lemma TakeAfterPut(k: Kind, v: int, rest: seq<byte>)
    requires Fits(k, v)
    ensures Take(k, Put(k, v) + rest) == Ok((v, rest))
  {
    Widths();
    GetAfterPut(Wrapped(v), Width(k));
    hide GetInt, PutInt, Pow256;
    assert (Put(k, v) + rest)[..Width(k)] == Put(k, v);
    assert (Put(k, v) + rest)[Width(k)..] == rest;
  }

  /** The bytes of a word, lowest first. */
  lemma BytesOfWord(v: nat)
    requires v < 0x1_0000_0000
    ensures Put(U32, v) == [v % 256, v / 256 % 256, v / 0x1_0000 % 256, v / 0x100_0000 % 256]
  {
    Widths();
    assert Pow256(3) == 0x100_0000 && Pow256(0) == 1;
    LittleEndian(v, 4, 0);
    LittleEndian(v, 4, 1);
    LittleEndian(v, 4, 2);
    LittleEndian(v, 4, 3);
  }

  /** Any nonzero byte reads as a set flag; a code above its bound and a zero where none may be are corrupt. */
  lemma OddFieldsAreJudged(b: byte, bound: byte, rest: seq<byte>)
    ensures Take(Flag, [b] + rest) == Ok((if b == 0 then 0 else 1, rest))
    ensures Take(Code(bound), [b] + rest) == if b > bound then Err(CorruptState) else Ok((b as int, rest))
    ensures Take(Nonzero64, Put(U64, 0) + rest) == Err(CorruptState)
  {
    hide Put;
    assert ([b] + rest)[..1] == [b] && ([b] + rest)[1..] == rest;
    assert GetInt([b]) == b as int;
    TakeAfterPut(U64, 0, rest);
    assert (Put(U64, 0) + rest)[..8] == Put(U64, 0);
  }

  // ----- Runs of fields -----

  function PutRun(ks: seq<Kind>, vs: seq<int>): seq<byte>
    requires |ks| == |vs|
  {
    if ks == [] then [] else Put(ks[0], vs[0]) + PutRun(ks[1..], vs[1..])
  }

  function TakeRun(ks: seq<Kind>, bs: seq<byte>): (r: Outcome<(seq<int>, seq<byte>)>)
    ensures r.Ok? ==> FitsRun(ks, r.value.0) && |r.value.1| <= |bs|
  {
    if ks == [] then Ok(([], bs))
    else
      var (v, afterFirst) :- Take(ks[0], bs);
      var (vs, rest) :- TakeRun(ks[1..], afterFirst);
      Ok(([v] + vs, rest))
  }

  predicate FitsRun(ks: seq<Kind>, vs: seq<int>) {
    |ks| == |vs| && forall i | 0 <= i < |ks| :: Fits(ks[i], vs[i])
  }

  lemma {:induction false} TakeRunAfterPutRun(ks: seq<Kind>, vs: seq<int>, rest: seq<byte>)
    requires FitsRun(ks, vs)
    ensures TakeRun(ks, PutRun(ks, vs) + rest) == Ok((vs, rest))
  {
    hide Put, Take, Fits;
    if ks == [] {
      assert PutRun(ks, vs) + rest == rest;
    } else {
      var tail := PutRun(ks[1..], vs[1..]);
      assert PutRun(ks, vs) + rest == Put(ks[0], vs[0]) + (tail + rest);
      TakeAfterPut(ks[0], vs[0], tail + rest);
      TakeRunAfterPutRun(ks[1..], vs[1..], rest);
      assert vs == [vs[0]] + vs[1..];
    }
  }

  /** A field other than a flag is stored in only one way. */
  lemma {:induction false} PutRunAfterTakeRun(ks: seq<Kind>, bs: seq<byte>)
    requires forall i | 0 <= i < |ks| :: ks[i] != Flag
    requires TakeRun(ks, bs).Ok?
    ensures bs == PutRun(ks, TakeRun(ks, bs).value.0) + TakeRun(ks, bs).value.1
  {
    hide Put, Take, Fits;
    if ks != [] {
      PutAfterTake(ks[0], bs);
      PutRunAfterTakeRun(ks[1..], bs[Width(ks[0])..]);
    }
  }

  lemma PutAfterTake(k: Kind, bs: seq<byte>)
    requires k != Flag && Take(k, bs).Ok?
    ensures Put(k, Take(k, bs).value.0) == bs[..Width(k)]
  {
    var v := GetInt(bs[..Width(k)]);
    Widths();
    PutAfterGet(bs[..Width(k)]);
    assert Wrapped(Take(k, bs).value.0) == v;
  }

  /** A run of fields is either read whole or the bytes are too few or invalid. */
  lemma {:induction false} TakeRunShort(ks: seq<Kind>, bs: seq<byte>)
    requires forall i | 0 <= i < |ks| :: ks[i] in {U16, U32, U64, I64, Flag}
    ensures TakeRun(ks, bs).Ok? <==> |bs| >= RunWidth(ks)
    ensures TakeRun(ks, bs).Ok? ==> TakeRun(ks, bs).value.1 == bs[RunWidth(ks)..]
  {
    if ks != [] && |bs| >= Width(ks[0]) {
      TakeRunShort(ks[1..], bs[Width(ks[0])..]);
    }
  }

  function RunWidth(ks: seq<Kind>): nat {
    if ks == [] then 0 else Width(ks[0]) + RunWidth(ks[1..])
  }

  lemma {:induction false} RunLength(ks: seq<Kind>, vs: seq<int>)
    requires |ks| == |vs|
    ensures |PutRun(ks, vs)| == RunWidth(ks)
  {
    if ks != [] {
      RunLength(ks[1..], vs[1..]);
    }
  }

  // ----- Counted lists of runs -----

  predicate FitsItems(ks: seq<Kind>, items: seq<seq<int>>) {
    forall i | 0 <= i < |items| :: FitsRun(ks, items[i])
  }

  function PutItems(ks: seq<Kind>, items: seq<seq<int>>): seq<byte>
    requires forall i | 0 <= i < |items| :: |items[i]| == |ks|
  {
    if items == [] then [] else PutRun(ks, items[0]) + PutItems(ks, items[1..])
  }

  function TakeItems(ks: seq<Kind>, n: nat, bs: seq<byte>): (r: Outcome<(seq<seq<int>>, seq<byte>)>)
    ensures r.Ok? ==> |r.value.0| == n && FitsItems(ks, r.value.0)
  {
    if n == 0 then Ok(([], bs))
    else
      var (item, afterFirst) :- TakeRun(ks, bs);
      var (items, rest) :- TakeItems(ks, n - 1, afterFirst);
      Ok(([item] + items, rest))
  }

  /** The number of items, then the items. */
  function PutCounted(ks: seq<Kind>, items: seq<seq<int>>): seq<byte>
    requires forall i | 0 <= i < |items| :: |items[i]| == |ks|
  {
    Put(U32, |items|) + PutItems(ks, items)
  }

  function TakeCounted(ks: seq<Kind>, limit: nat, bs: seq<byte>): (r: Outcome<(seq<seq<int>>, seq<byte>)>)
    ensures r.Ok? ==> |r.value.0| <= limit && FitsItems(ks, r.value.0)
  {
    var (n, rest) :- Take(U32, bs);
    if n > limit then Err(OversizedInput) else TakeItems(ks, n, rest)
  }

  lemma {:induction false} TakeItemsAfterPutItems(ks: seq<Kind>, items: seq<seq<int>>, rest: seq<byte>)
    requires FitsItems(ks, items)
    ensures TakeItems(ks, |items|, PutItems(ks, items) + rest) == Ok((items, rest))
  {
    hide PutRun, TakeRun, Fits;
    if items == [] {
      assert PutItems(ks, items) + rest == rest;
    } else {
      var tail := PutItems(ks, items[1..]);
      assert PutItems(ks, items) + rest == PutRun(ks, items[0]) + (tail + rest);
      TakeRunAfterPutRun(ks, items[0], tail + rest);
      TakeItemsAfterPutItems(ks, items[1..], rest);
      assert items == [items[0]] + items[1..];
    }
  }

  lemma TakeCountedAfterPutCounted(ks: seq<Kind>, limit: nat, items: seq<seq<int>>, rest: seq<byte>)
    requires FitsItems(ks, items) && |items| <= limit < 0x1_0000_0000
    ensures TakeCounted(ks, limit, PutCounted(ks, items) + rest) == Ok((items, rest))
  {
    hide Put, PutItems, TakeItems;
    assert PutCounted(ks, items) + rest == Put(U32, |items|) + (PutItems(ks, items) + rest);
    TakeAfterPut(U32, |items|, PutItems(ks, items) + rest);
    TakeItemsAfterPutItems(ks, items, rest);
  }

  lemma {:induction false} ItemsLength(ks: seq<Kind>, items: seq<seq<int>>)
    requires forall i | 0 <= i < |items| :: |items[i]| == |ks|
    ensures |PutItems(ks, items)| == |items| * RunWidth(ks)
  {
    hide PutRun, RunWidth;
    if items != [] {
      RunLength(ks, items[0]);
      ItemsLength(ks, items[1..]);
      var n, w := |items| - 1, RunWidth(ks);
      assert w + n * w == (n + 1) * w;
    }
  }

  // ----- Raw bytes and strings -----

  /** A string is its length and its bytes; the writer keeps no more than MAX_STRING of them. */
  function PutString(text: seq<byte>): seq<byte> {
    var kept := if |text| > MAX_STRING then text[..MAX_STRING] else text;
    Put(U32, |kept|) + kept
  }

  function TakeRaw(n: nat, bs: seq<byte>): (r: Outcome<(seq<byte>, seq<byte>)>)
    ensures r.Ok? ==> |r.value.0| == n && bs == r.value.0 + r.value.1
  {
    if |bs| < n then Err(TruncatedInput) else Ok((bs[..n], bs[n..]))
  }

  function TakeString(bs: seq<byte>): (r: Outcome<(seq<byte>, seq<byte>)>) {
    var (length, rest) :- Take(U32, bs);
    if length > MAX_STRING then Err(OversizedInput) else TakeRaw(length, rest)
  }

  lemma TakeRawAfter(a: seq<byte>, rest: seq<byte>)
    ensures TakeRaw(|a|, a + rest) == Ok((a, rest))
  {
    assert (a + rest)[..|a|] == a && (a + rest)[|a|..] == rest;
  }

  /** A string reads back exactly when the writer kept all of it. */
  lemma TakeStringAfterPutString(text: seq<byte>, rest: seq<byte>)
    ensures TakeString(PutString(text) + rest) == Ok((text, rest)) <==> |text| <= MAX_STRING
  {
    var kept := if |text| > MAX_STRING then text[..MAX_STRING] else text;
    assert PutString(text) + rest == Put(U32, |kept|) + (kept + rest);
    TakeAfterPut(U32, |kept|, kept + rest);
    TakeRawAfter(kept, rest);
  }

  // ----- The buffer being written -----

  class Writer {
    var buffer: seq<byte>

    constructor ()
      ensures buffer == []
    {
      buffer := [];
    }

    method PushInt(value: nat, width: nat)
      modifies this
      ensures buffer == old(buffer) + PutInt(value, width)
    {
      var rest, done := value, 0;
      while done < width
        invariant 0 <= done <= width
        invariant buffer + PutInt(rest, width - done) == old(buffer) + PutInt(value, width)
      {
        buffer := buffer + [rest % 256];
        rest := rest / 256;
        done := done + 1;
      }
    }

    method Push(k: Kind, value: int)
      modifies this
      ensures buffer == old(buffer) + Put(k, value)
    {
      PushInt(Wrapped(value), Width(k));
    }

    method PushRun(ks: seq<Kind>, vs: seq<int>)
      requires |ks| == |vs|
      modifies this
      ensures buffer == old(buffer) + PutRun(ks, vs)
    {
      hide Put;
      var i := 0;
      while i < |ks|
        invariant 0 <= i <= |ks|
        invariant buffer + PutRun(ks[i..], vs[i..]) == old(buffer) + PutRun(ks, vs)
      {
        Push(ks[i], vs[i]);
        i := i + 1;
      }
    }

    method PushCounted(ks: seq<Kind>, items: seq<seq<int>>)
      requires forall i | 0 <= i < |items| :: |items[i]| == |ks|
      modifies this
      ensures buffer == old(buffer) + PutCounted(ks, items)
    {
      hide Put, PutRun;
      Push(U32, |items|);
      var i := 0;
      while i < |items|
        invariant 0 <= i <= |items|
        invariant buffer + PutItems(ks, items[i..]) == old(buffer) + PutCounted(ks, items)
      {
        PushRun(ks, items[i]);
        i := i + 1;
      }
    }

    method Raw(bytes: seq<byte>)
      modifies this
      ensures buffer == old(buffer) + bytes
    {
      buffer := buffer + bytes;
    }

    method String(text: seq<byte>)
      modifies this
      ensures buffer == old(buffer) + PutString(text)
    {
      var capped := if |text| > MAX_STRING then MAX_STRING else |text|;
      Push(U32, capped);
      Raw(text[..capped]);
      assert text[..|text|] == text;
    }
  }

  // ----- The cursor being advanced -----

  /** A run read behind values read before it. */
  ghost function Behind(vs: seq<int>, later: Outcome<(seq<int>, seq<byte>)>): Outcome<(seq<int>, seq<byte>)> {
    if later.Ok? then Ok((vs + later.value.0, later.value.1)) else later
  }

  lemma NothingBefore(later: Outcome<(seq<int>, seq<byte>)>)
    ensures Behind([], later) == later
  {
    if later.Ok? { assert [] + later.value.0 == later.value.0; }
  }

  lemma BehindOneMore(vs: seq<int>, v: int, later: Outcome<(seq<int>, seq<byte>)>)
    ensures Behind(vs, Behind([v], later)) == Behind(vs + [v], later)
  {
    if later.Ok? { assert vs + ([v] + later.value.0) == vs + [v] + later.value.0; }
  }

  lemma NothingToTake(bs: seq<byte>)
    ensures TakeRun([], bs) == Ok(([], bs))
  {}

  lemma TakeRunStep(ks: seq<Kind>, i: nat, bs: seq<byte>)
    requires i < |ks|
    ensures Take(ks[i], bs).Ok? ==>
      TakeRun(ks[i..], bs) == Behind([Take(ks[i], bs).value.0], TakeRun(ks[i + 1..], Take(ks[i], bs).value.1))
    ensures Take(ks[i], bs).Err? ==> TakeRun(ks[i..], bs) == Err(Take(ks[i], bs).code)
  {
    hide Take;
    assert ks[i..][0] == ks[i] && ks[i..][1..] == ks[i + 1..];
  }

  class Reader {
    const data: seq<byte>
    var position: nat

    ghost predicate Valid()
      reads this
    {
      position <= |data|
    }

    /** What is still to be read. */
    ghost function Rest(): seq<byte>
      requires Valid()
      reads this
    {
      data[position..]
    }

    constructor (bytes: seq<byte>)
      ensures Valid() && Rest() == bytes && data == bytes
    {
      data := bytes;
      position := 0;
    }

    method Remaining() returns (n: nat)
      requires Valid()
      ensures n == |Rest()|
    {
      n := |data| - position;
    }

    method PullInt(width: nat) returns (r: Outcome<nat>)
      requires Valid()
      modifies this`position
      ensures Valid()
      ensures |old(Rest())| < width ==> r == Err(TruncatedInput) && Rest() == old(Rest())
      ensures |old(Rest())| >= width ==> r == Ok(GetInt(old(Rest())[..width])) && Rest() == old(Rest())[width..]
    {
      if width > |data| - position {
        return Err(TruncatedInput);
      }
      var value, scale, start, index := 0, 1, position, 0;
      while index < width
        invariant 0 <= index <= width && start + width <= |data|
        invariant position == start + index
        invariant scale == Pow256(index) && value == GetInt(data[start..position])
      {
        GetIntExtends(data[start..position], data[position]);
        assert data[start..position + 1] == data[start..position] + [data[position]];
        value := value + scale * data[position] as int;
        scale := 256 * scale;
        position := position + 1;
        index := index + 1;
      }
      assert data[start..][..width] == data[start..start + width];
      assert data[start..][width..] == data[position..];
      r := Ok(value);
    }

    method Pull(k: Kind) returns (r: Outcome<int>)
      requires Valid()
      modifies this`position
      ensures Valid()
      ensures r.Ok? <==> Take(k, old(Rest())).Ok?
      ensures r.Ok? ==> Take(k, old(Rest())) == Ok((r.value, Rest()))
      ensures r.Err? ==> Take(k, old(Rest())) == Err(r.code)
    {
      var raw := PullInt(Width(k));
      if raw.Err? {
        return Err(raw.code);
      }
      var v := raw.value;
      match k
      case I64 => r := Ok(if v < 0x8000_0000_0000_0000 then v else v - (MAX_U64 + 1));
      case Nonzero64 => r := if v == 0 then Err(CorruptState) else Ok(v);
      case Flag => r := Ok(if v != 0 then 1 else 0);
      case Code(bound) => r := if v > bound as int then Err(CorruptState) else Ok(v);
      case U16 => r := Ok(v);
      case U32 => r := Ok(v);
      case U64 => r := Ok(v);
    }

    method PullRun(ks: seq<Kind>) returns (r: Outcome<seq<int>>)
      requires Valid()
      modifies this`position
      ensures Valid()
      ensures r.Ok? <==> TakeRun(ks, old(Rest())).Ok?
      ensures r.Ok? ==> TakeRun(ks, old(Rest())) == Ok((r.value, Rest()))
      ensures r.Err? ==> TakeRun(ks, old(Rest())) == Err(r.code)
    {
      hide Take, Fits, TakeRun;
      var vs, i := [], 0;
      assert ks[0..] == ks;
      ghost var all := TakeRun(ks, Rest());
      NothingBefore(all);
      while i < |ks|
        invariant Valid() && 0 <= i <= |ks|
        invariant all == Behind(vs, TakeRun(ks[i..], Rest()))
      {
        TakeRunStep(ks, i, Rest());
        var v := Pull(ks[i]);
        if v.Err? {
          return Err(v.code);
        }
        BehindOneMore(vs, v.value, TakeRun(ks[i + 1..], Rest()));
        vs := vs + [v.value];
        i := i + 1;
      }
      NothingToTake(Rest());
      assert ks[i..] == [] && vs + [] == vs;
      r := Ok(vs);
    }

    method PullItems(ks: seq<Kind>, n: nat) returns (r: Outcome<seq<seq<int>>>)
      requires Valid()
      modifies this`position
      ensures Valid()
      ensures r.Ok? <==> TakeItems(ks, n, old(Rest())).Ok?
      ensures r.Ok? ==> TakeItems(ks, n, old(Rest())) == Ok((r.value, Rest()))
      ensures r.Err? ==> TakeItems(ks, n, old(Rest())) == Err(r.code)
    {
      hide TakeRun, Fits;
      var items, i := [], 0;
      ghost var all := TakeItems(ks, n, Rest());
      assert all.Ok? ==> [] + all.value.0 == all.value.0;
      while i < n
        invariant Valid() && 0 <= i <= n
        invariant var later := TakeItems(ks, n - i, Rest());
                  all == if later.Ok? then Ok((items + later.value.0, later.value.1)) else later
      {
        var item := PullRun(ks);
        if item.Err? {
          return Err(item.code);
        }
        ghost var later := TakeItems(ks, n - i - 1, Rest());
        assert later.Ok? ==> items + ([item.value] + later.value.0) == (items + [item.value]) + later.value.0;
        items := items + [item.value];
        i := i + 1;
      }
      assert items + [] == items;
      r := Ok(items);
    }

    method PullCounted(ks: seq<Kind>, limit: nat) returns (r: Outcome<seq<seq<int>>>)
      requires Valid()
      modifies this`position
      ensures Valid()
      ensures r.Ok? <==> TakeCounted(ks, limit, old(Rest())).Ok?
      ensures r.Ok? ==> TakeCounted(ks, limit, old(Rest())) == Ok((r.value, Rest()))
      ensures r.Err? ==> TakeCounted(ks, limit, old(Rest())) == Err(r.code)
    {
      hide TakeItems;
      var n := Pull(U32);
      if n.Err? {
        return Err(n.code);
      }
      if n.value > limit {
        return Err(OversizedInput);
      }
      r := PullItems(ks, n.value);
    }

    method Raw(n: nat) returns (r: Outcome<seq<byte>>)
      requires Valid()
      modifies this`position
      ensures Valid()
      ensures r.Ok? <==> TakeRaw(n, old(Rest())).Ok?
      ensures r.Ok? ==> TakeRaw(n, old(Rest())) == Ok((r.value, Rest()))
      ensures r.Err? ==> TakeRaw(n, old(Rest())) == Err(r.code)
    {
      if n > |data| - position {
        return Err(TruncatedInput);
      }
      r := Ok(data[position..position + n]);
      assert data[position..][..n] == data[position..position + n];
      position := position + n;
    }

    method String() returns (r: Outcome<seq<byte>>)
      requires Valid()
      modifies this`position
      ensures Valid()
      ensures r.Ok? <==> TakeString(old(Rest())).Ok?
      ensures r.Ok? ==> TakeString(old(Rest())) == Ok((r.value, Rest()))
      ensures r.Err? ==> TakeString(old(Rest())) == Err(r.code)
    {
      var length := Pull(U32);
      if length.Err? {
        return Err(length.code);
      }
      if length.value > MAX_STRING {
        return Err(OversizedInput);
      }
      r := Raw(length.value);
    }
  }
}
