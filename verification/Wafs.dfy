/**
 The WAFS object of internal/livelist/wafs.go: the parser as a loop over a byte
 slice, the encoder it undoes, and the proofs that the two are inverse.
 */
module Wafs {
  import opened Bytes

  // ---- Little-endian numbers ----

  function Pow256(n: nat): nat {
    if n == 0 then 1 else 256 * Pow256(n - 1)
  }

  function LE(n: nat, x: nat): (b: seq<byte>)
    ensures |b| == n
  {
    if n == 0 then [] else [x % 256] + LE(n - 1, x / 256)
  }

  function FromLE(b: seq<byte>): (x: nat)
    ensures x < Pow256(|b|)
  {
    if b == [] then 0 else b[0] + 256 * FromLE(b[1..])
  }

  lemma {:induction false} LEInverse(n: nat, x: nat)
    requires x < Pow256(n)
    ensures FromLE(LE(n, x)) == x
  {
    if n > 0 {
      LEInverse(n - 1, x / 256);
      assert LE(n, x)[1..] == LE(n - 1, x / 256);
    }
  }

  lemma {:induction false} FromLEInverse(b: seq<byte>)
    ensures LE(|b|, FromLE(b)) == b
  {
    if b != [] {
      FromLEInverse(b[1..]);
      assert FromLE(b) / 256 == FromLE(b[1..]) && FromLE(b) % 256 == b[0];
    }
  }

  /** The two widths a record uses, written out. */
  function U16(b: seq<byte>): (x: nat)
    requires |b| == 2
  {
    b[0] as int + 256 * b[1] as int
  }

  function U64(b: seq<byte>): (x: nat)
    requires |b| == 8
  {
    b[0] as int + 0x100 * b[1] as int + 0x1_0000 * b[2] as int + 0x100_0000 * b[3] as int
    + 0x1_0000_0000 * b[4] as int + 0x100_0000_0000 * b[5] as int + 0x1_0000_0000_0000 * b[6] as int
    + 0x100_0000_0000_0000 * b[7] as int
  }

  lemma U16Is(b: seq<byte>)
    requires |b| == 2
    ensures U16(b) == FromLE(b) < 0x1_0000
  {
    assert FromLE(b[1..]) == b[1] + 256 * FromLE(b[1..][1..]);
  }

  lemma U64Is(b: seq<byte>)
    requires |b| == 8
    ensures U64(b) == FromLE(b) < TWO64
  {
    assert forall k :: 0 <= k < 8 ==> b[k..][1..] == b[k + 1..];
    assert FromLE(b[8..]) == 0;
    assert FromLE(b[7..]) == b[7] && FromLE(b[6..]) == b[6] + 256 * FromLE(b[7..]);
    assert FromLE(b[5..]) == b[5] + 256 * FromLE(b[6..]) && FromLE(b[4..]) == b[4] + 256 * FromLE(b[5..]);
    assert FromLE(b[3..]) == b[3] + 256 * FromLE(b[4..]) && FromLE(b[2..]) == b[2] + 256 * FromLE(b[3..]);
    assert FromLE(b[1..]) == b[1] + 256 * FromLE(b[2..]);
    assert FromLE(b) == b[0] + 256 * FromLE(b[1..]);
  }

  lemma LE2(x: nat)
    requires x < 0x1_0000
    ensures U16(LE(2, x)) == x
  {
    Widths();
    LEInverse(2, x);
    U16Is(LE(2, x));
  }

  lemma LE8(x: nat)
    requires x < TWO64
    ensures U64(LE(8, x)) == x
  {
    Widths();
    LEInverse(8, x);
    U64Is(LE(8, x));
  }

  lemma FromLE2(b: seq<byte>)
    requires |b| == 2
    ensures LE(2, U16(b)) == b && U16(b) < 0x1_0000
  {
    U16Is(b);
    FromLEInverse(b);
  }

  lemma FromLE8(b: seq<byte>)
    requires |b| == 8
    ensures LE(8, U64(b)) == b && U64(b) < TWO64
  {
    U64Is(b);
    FromLEInverse(b);
  }

  const TWO64: int := 0x1_0000_0000_0000_0000

  lemma Widths()
    ensures Pow256(2) == 0x1_0000 && Pow256(4) == 0x1_0000_0000 && Pow256(8) == TWO64
  {
    assert Pow256(0) == 1 && Pow256(1) == 256 && Pow256(2) == 0x1_0000;
    assert Pow256(3) == 0x100_0000 && Pow256(4) == 0x1_0000_0000;
    assert Pow256(5) == 0x100_0000_0000 && Pow256(6) == 0x1_0000_0000_0000;
    assert Pow256(7) == 0x100_0000_0000_0000 && Pow256(8) == TWO64;
  }

  /** int64(u): two's complement. */
  function Signed(u: nat): int {
    if u >= TWO63 then u - TWO64 else u
  }

  function Unsigned(e: int): nat
    requires -TWO63 <= e < TWO63
  {
    if e < 0 then e + TWO64 else e
  }

  // ---- Objects ----

  const VERSION: byte := 1
  const CIDR: byte := 1
  const STRING: byte := 2
  const ADD: byte := 1
  const SNAPSHOT: byte := 1
  const PACKAGE: byte := 2
  const HEADER: nat := 52
  const MAGIC: seq<byte> := [0x57, 0x41, 0x46, 0x53]  // "WAFS"

  /** A netip.Prefix: bits is -1 when it does not fit the address, as netip.PrefixFrom has it. */
  datatype Prefix = Prefix(addr: seq<byte>, bits: int) {
    predicate V4() { |addr| == 4 }
  }

  function PrefixFrom(addr: seq<byte>, bits: nat): Prefix {
    Prefix(addr, if bits <= 8 * |addr| then bits else -1)
  }

  datatype Record =
    | Net(op: byte, prefix: Prefix, exp: int)
    | Str(op: byte, value: seq<byte>, exp: int, reason: seq<byte>)

  datatype Head = Head(kind: byte, typ: byte, flags: byte, epoch: nat, sn: nat, hash: nat, key: seq<byte>, count: nat)

  datatype Error = Short | BadMagic | BadVersion | BadFamily(family: byte) | BadType(typ: byte)

  datatype Parsed = Ok(head: Head, recs: seq<Record>) | Fail(error: Error)

  /** A record at the front of some bytes, and how many it takes. */
  datatype Taken = Got(rec: Record, used: nat) | Bad(error: Error)

  predicate HasReasons(flags: byte) { flags % 2 == 1 }

  function TakeNet(op: byte, addr: seq<byte>, bits: byte, rest: seq<byte>): (r: Record)
    requires |rest| >= 8
  {
    Net(op, PrefixFrom(addr, bits), Signed(U64(rest[..8])))
  }

  function TakeRecord(typ: byte, flags: byte, d: seq<byte>): (t: Taken)
    ensures t.Got? ==> 1 <= t.used <= |d|
  {
    if |d| < 1 then Bad(Short)
    else if typ == CIDR then
      if |d| < 3 then Bad(Short)
      else if d[1] == 4 then
        if |d| < 15 then Bad(Short) else Got(TakeNet(d[0], d[3..7], d[2], d[7..]), 15)
      else if d[1] == 6 then
        if |d| < 27 then Bad(Short) else Got(TakeNet(d[0], d[3..19], d[2], d[19..]), 27)
      else Bad(BadFamily(d[1]))
    else if typ == STRING then
      if |d| < 3 then Bad(Short) else
      var n := U16(d[1..3]);
      if |d| < 3 + n + 8 then Bad(Short) else
      var value, exp := d[3..3 + n], Signed(U64(d[3 + n..11 + n]));
      if !HasReasons(flags) then Got(Str(d[0], value, exp, []), 11 + n)
      else if |d| < 13 + n then Bad(Short) else
      var m := U16(d[11 + n..13 + n]);
      if |d| < 13 + n + m then Bad(Short)
      else Got(Str(d[0], value, exp, d[13 + n..13 + n + m]), 13 + n + m)
    else Bad(BadType(typ))
  }

  /** A reader of one record. */
  type Taker = seq<byte> -> Taken

  function RecordTaker(typ: byte, flags: byte): Taker {
    (d: seq<byte>) => TakeRecord(typ, flags, d)
  }

  ghost predicate TakerOf(take: Taker, typ: byte, flags: byte) {
    forall d {:trigger TakeRecord(typ, flags, d)} :: take(d) == TakeRecord(typ, flags, d)
  }

  /** A run of records at the front of some bytes, and how many bytes it takes. */
  datatype Many = Many(recs: seq<Record>, used: nat) | Stop(error: Error)

  /** More records behind those already taken. */
  function Behind(recs: seq<Record>, used: nat, more: Many): Many {
    if more.Many? then Many(recs + more.recs, used + more.used) else more
  }

  function TakeRecords(take: Taker, d: seq<byte>, n: nat): (m: Many)
    decreases n
  {
    if n == 0 then Many([], 0) else
    match take(d)
    case Bad(e) => Stop(e)
    case Got(r, used) =>
      if used > |d| then Stop(Short) else Behind([r], used, TakeRecords(take, d[used..], n - 1))
  }

  lemma {:induction false} TakenSize(take: Taker, d: seq<byte>, n: nat)
    ensures var m := TakeRecords(take, d, n); m.Many? ==> |m.recs| == n && m.used <= |d|
    decreases n
  {
    if n > 0 && take(d).Got? && take(d).used <= |d| {
      TakenSize(take, d[take(d).used..], n - 1);
    }
  }

  function ReadHead(data: seq<byte>): (h: Head)
    requires |data| >= HEADER
  {
    Head(data[5], data[6], data[7], FromLE(data[8..16]), FromLE(data[16..24]), FromLE(data[24..32]),
         data[32..48], FromLE(data[48..52]))
  }

  /** What unpack answers. */
  function Parse(data: seq<byte>): (p: Parsed) {
    if |data| < HEADER then Fail(Short)
    else if data[..4] != MAGIC then Fail(BadMagic)
    else if data[4] != VERSION then Fail(BadVersion)
    else
      var h := ReadHead(data);
      var body := TakeRecords(RecordTaker(h.typ, h.flags), data[HEADER..], h.count);
      if body.Many? then Ok(h, body.recs) else Fail(body.error)
  }

  // ---- unpack, as it runs ----

  lemma Slice(data: seq<byte>, p: nat, a: nat, b: nat)
    requires p <= |data| && a <= b <= |data| - p
    ensures data[p..][a..b] == data[p + a..p + b]
  {
  }

  /** The body of the loop in unpack, the cursor moving through the record. */
  method UnpackRecord(typ: byte, flags: byte, data: seq<byte>, start: nat, ghost take: Taker) returns (t: Taken)
    requires start <= |data| && TakerOf(take, typ, flags)
    ensures t == take(data[start..]) && (t.Got? ==> t.used <= |data| - start)
  {
    t := ReadRecord(typ, flags, data, start);
  }

  method ReadRecord(typ: byte, flags: byte, data: seq<byte>, start: nat) returns (t: Taken)
    requires start <= |data|
    ensures t == TakeRecord(typ, flags, data[start..])
  {
    if start + 1 > |data| { return Bad(Short); }
    if typ == CIDR {
      t := ReadNet(flags, data, start);
    } else if typ == STRING {
      t := ReadStr(flags, data, start);
    } else {
      return Bad(BadType(typ));
    }
  }

  method ReadNet(flags: byte, data: seq<byte>, start: nat) returns (t: Taken)
    requires start < |data|
    ensures t == TakeRecord(CIDR, flags, data[start..])
  {
    ghost var d := data[start..];
    var op, pos := data[start], start + 1;
    if pos + 2 > |data| { return Bad(Short); }
    var fam, bits := data[pos], data[pos + 1];
    pos := pos + 2;
    var width := 0;
    if fam == 4 { width := 4; } else if fam == 6 { width := 16; } else { return Bad(BadFamily(fam)); }
    if pos + width + 8 > |data| { return Bad(Short); }
    var prefix := PrefixFrom(data[pos..pos + width], bits);
    pos := pos + width;
    var exp := Signed(U64(data[pos..pos + 8]));
    pos := pos + 8;
    Slice(data, start, 3, 3 + width);
    assert d[3 + width..][..8] == data[pos - 8..pos];
    return Got(Net(op, prefix, exp), pos - start);
  }

  method ReadStr(flags: byte, data: seq<byte>, start: nat) returns (t: Taken)
    requires start < |data|
    ensures t == TakeRecord(STRING, flags, data[start..])
  {
    var op, pos := data[start], start + 1;
    if pos + 2 > |data| { return Bad(Short); }
    var n := U16(data[pos..pos + 2]);
    Slice(data, start, 1, 3);
    pos := pos + 2;
    if pos + n + 8 > |data| { return Bad(Short); }
    var value := data[pos..pos + n];
    Slice(data, start, 3, 3 + n);
    pos := pos + n;
    var exp := Signed(U64(data[pos..pos + 8]));
    Slice(data, start, 3 + n, 11 + n);
    pos := pos + 8;
    if !HasReasons(flags) { return Got(Str(op, value, exp, []), pos - start); }
    if pos + 2 > |data| { return Bad(Short); }
    var m := U16(data[pos..pos + 2]);
    Slice(data, start, 11 + n, 13 + n);
    pos := pos + 2;
    if pos + m > |data| { return Bad(Short); }
    Slice(data, start, 13 + n, 13 + n + m);
    return Got(Str(op, value, exp, data[pos..pos + m]), pos - start + m);
  }

  /** One record moves from what is left to what is taken. */
  lemma TakeStep(take: Taker, data: seq<byte>, pos: nat, n: nat, recs: seq<Record>)
    requires HEADER <= pos <= |data| && n > 0 && take(data[pos..]).Got?
    requires take(data[pos..]).used <= |data| - pos
    ensures var t := take(data[pos..]);
            Behind(recs, pos - HEADER, TakeRecords(take, data[pos..], n))
            == Behind(recs + [t.rec], pos + t.used - HEADER, TakeRecords(take, data[pos + t.used..], n - 1))
  {
    var t := take(data[pos..]);
    assert data[pos..][t.used..] == data[pos + t.used..];
    var more := TakeRecords(take, data[pos + t.used..], n - 1);
    if more.Many? {
      assert (recs + [t.rec]) + more.recs == recs + ([t.rec] + more.recs);
    }
  }

  lemma BehindNothing(m: Many)
    ensures Behind([], 0, m) == m
  {
    if m.Many? {
      assert [] + m.recs == m.recs;
    }
  }

  /** The loop of unpack: the cursor `pos` passes over the records one by one. */
  method UnpackRecords(typ: byte, flags: byte, data: seq<byte>, count: nat, ghost take: Taker) returns (m: Many)
    requires HEADER <= |data| && TakerOf(take, typ, flags)
    ensures m == TakeRecords(take, data[HEADER..], count)
  {
    var recs, pos := [], HEADER;
    BehindNothing(TakeRecords(take, data[HEADER..], count));
    for i := 0 to count
      invariant HEADER <= pos <= |data|
      invariant TakeRecords(take, data[HEADER..], count)
             == Behind(recs, pos - HEADER, TakeRecords(take, data[pos..], count - i))
    {
      var t := UnpackRecord(typ, flags, data, pos, take);
      if t.Bad? { return Stop(t.error); }
      TakeStep(take, data, pos, count - i, recs);
      recs := recs + [t.rec];
      pos := pos + t.used;
    }
    m := Many(recs, pos - HEADER);
    assert recs + [] == recs;
  }

  method Unpack(data: seq<byte>) returns (p: Parsed)
    ensures p == Parse(data)
  {
    if |data| < HEADER { return Fail(Short); }
    if data[..4] != MAGIC { return Fail(BadMagic); }
    if data[4] != VERSION { return Fail(BadVersion); }
    var h := ReadHead(data);
    var m := UnpackRecords(h.typ, h.flags, data, h.count, RecordTaker(h.typ, h.flags));
    p := if m.Many? then Ok(h, m.recs) else Fail(m.error);
  }

  // ---- Where things stand in an object ----

  /** Reasons are there when the lowest bit of the flags is set. */
  lemma ReasonsFlag(flags: byte)
    ensures HasReasons(flags) <==> exists half :: flags == 2 * half + 1
  {
    if HasReasons(flags) { assert flags == 2 * (flags / 2) + 1; }
  }

  /** An accepted object begins with WAFS and version 1, has its head at fixed places, and `count` records. */
  lemma HeadStands(data: seq<byte>)
    requires Parse(data).Ok?
    ensures var h := Parse(data).head;
      && |data| >= 52 && data[..5] == [0x57, 0x41, 0x46, 0x53, 1]
      && h.kind == data[5] && h.typ == data[6] && h.flags == data[7]
      && h.epoch == U64(data[8..16]) && h.sn == U64(data[16..24]) && h.hash == U64(data[24..32])
      && h.key == data[32..48]
      && h.count == U32(data[48..52])
      && |Parse(data).recs| == h.count && (h.count > 0 ==> h.typ == 1 || h.typ == 2)
  {
    U64Is(data[8..16]);
    U64Is(data[16..24]);
    U64Is(data[24..32]);
    U32Is(data[48..52]);
    var h := ReadHead(data);
    TakenCount(RecordTaker(h.typ, h.flags), h.typ, h.flags, data[HEADER..], h.count);
    assert data[..5] == data[..4] + [data[4]];
  }

  function U32(b: seq<byte>): (x: nat)
    requires |b| == 4
  {
    b[0] as int + 0x100 * b[1] as int + 0x1_0000 * b[2] as int + 0x100_0000 * b[3] as int
  }

  /** Where the parts of an address record stand: operation, family 4 or 6, length, address, expiry. */
  lemma NetStands(flags: byte, op: byte, bits: byte, addr: seq<byte>, exp: seq<byte>, tail: seq<byte>)
    requires (|addr| == 4 || |addr| == 16) && |exp| == 8
    ensures var d := [op, if |addr| == 4 then 4 else 6, bits] + addr + exp + tail;
      TakeRecord(1, flags, d) ==
        Got(Net(op, Prefix(addr, if bits <= 8 * |addr| then bits else -1), Signed(U64(exp))), 11 + |addr|)
  {
    var d := [op, if |addr| == 4 then 4 else 6, bits] + addr + exp + tail;
    NetCuts([op, if |addr| == 4 then 4 else 6, bits], addr, exp, tail, d);
  }

  /** An expiry is a number in two's complement. */
  lemma SignedMeans(u: nat)
    requires u < TWO64
    ensures Int64(Signed(u)) && (Signed(u) == u || Signed(u) == u - TWO64)
  {
  }

  lemma U32Is(b: seq<byte>)
    requires |b| == 4
    ensures FromLE(b) == U32(b)
  {
    var b1, b2, b3 := b[1..], b[1..][1..], b[1..][1..][1..];
    assert b1[0] == b[1] && b2[0] == b[2] && b3[0] == b[3] && b3[1..] == [];
    assert FromLE(b3) == b3[0] && FromLE(b2) == b2[0] + 256 * FromLE(b3);
    assert FromLE(b1) == b1[0] + 256 * FromLE(b2);
  }

  lemma {:induction false} TakenCount(take: Taker, typ: byte, flags: byte, d: seq<byte>, n: nat)
    requires TakerOf(take, typ, flags) && TakeRecords(take, d, n).Many?
    ensures |TakeRecords(take, d, n).recs| == n && (n > 0 ==> typ == 1 || typ == 2)
    decreases n
  {
    if n > 0 {
      var t := TakeRecord(typ, flags, d);
      assert take(d) == t;
      TakenCount(take, typ, flags, d[t.used..], n - 1);
    }
  }

  // ---- The encoder ----

  predicate GoodPrefix(p: Prefix) {
    (|p.addr| == 4 || |p.addr| == 16) && 0 <= p.bits <= 8 * |p.addr|
  }

  /** A record the format can carry in a set of this type and these flags. */
  predicate GoodRecord(typ: byte, flags: byte, r: Record) {
    && -TWO63 <= r.exp < TWO63
    && (r.Net? ==> typ == CIDR && GoodPrefix(r.prefix))
    && (r.Str? ==> typ == STRING && |r.value| < 0x1_0000 && |r.reason| < 0x1_0000
                   && (HasReasons(flags) || r.reason == []))
  }

  predicate GoodHead(h: Head) {
    h.epoch < TWO64 && h.sn < TWO64 && h.hash < TWO64 && |h.key| == 16 && h.count < 0x1_0000_0000
  }

  predicate GoodRecords(typ: byte, flags: byte, recs: seq<Record>) {
    forall r :: r in recs ==> GoodRecord(typ, flags, r)
  }

  predicate GoodObject(h: Head, recs: seq<Record>) {
    GoodHead(h) && h.count == |recs| && GoodRecords(h.typ, h.flags, recs)
  }

  function EncodeRecord(typ: byte, flags: byte, r: Record): (d: seq<byte>)
    requires GoodRecord(typ, flags, r)
  {
    match r
    case Net(op, p, exp) =>
      [op, if p.V4() then 4 else 6, p.bits] + p.addr + LE(8, Unsigned(exp))
    case Str(op, value, exp, reason) =>
      [op] + LE(2, |value|) + value + LE(8, Unsigned(exp))
      + if HasReasons(flags) then LE(2, |reason|) + reason else []
  }

  function EncodeRecords(typ: byte, flags: byte, recs: seq<Record>): (d: seq<byte>)
    requires GoodRecords(typ, flags, recs)
  {
    if recs == [] then [] else EncodeRecord(typ, flags, recs[0]) + EncodeRecords(typ, flags, recs[1..])
  }

  function EncodeHead(h: Head): (d: seq<byte>)
    requires GoodHead(h)
    ensures |d| == HEADER
  {
    MAGIC + [VERSION, h.kind, h.typ, h.flags] + LE(8, h.epoch) + LE(8, h.sn) + LE(8, h.hash) + h.key + LE(4, h.count)
  }

  function Encode(h: Head, recs: seq<Record>): (d: seq<byte>)
    requires GoodObject(h, recs)
  {
    EncodeHead(h) + EncodeRecords(h.typ, h.flags, recs)
  }

  // ---- The two are inverse ----

  lemma NetRoundTrip(flags: byte, r: Record, tail: seq<byte>)
    requires r.Net? && GoodRecord(CIDR, flags, r)
    ensures var d := EncodeRecord(CIDR, flags, r);
            TakeRecord(CIDR, flags, d + tail) == Got(r, |d|)
  {
    var d := EncodeRecord(CIDR, flags, r) + tail;
    var w := |r.prefix.addr|;
    Widths();
    LE8(Unsigned(r.exp));
    NetCuts([r.op, if r.prefix.V4() then 4 else 6, r.prefix.bits], r.prefix.addr, LE(8, Unsigned(r.exp)), tail, d);
    assert |d| >= 11 + w;
  }

  lemma NetCuts(lead: seq<byte>, a: seq<byte>, e: seq<byte>, tail: seq<byte>, d: seq<byte>)
    requires |lead| == 3 && |e| == 8 && d == lead + a + e + tail
    ensures d[0] == lead[0] && d[1] == lead[1] && d[2] == lead[2]
    ensures d[3..3 + |a|] == a && d[3 + |a|..][..8] == e
  {
    assert d[3 + |a|..] == e + tail;
  }

  lemma StrRoundTrip(flags: byte, r: Record, tail: seq<byte>)
    requires r.Str? && GoodRecord(STRING, flags, r)
    ensures var d := EncodeRecord(STRING, flags, r);
            TakeRecord(STRING, flags, d + tail) == Got(r, |d|)
  {
    var d := EncodeRecord(STRING, flags, r) + tail;
    var n, m := |r.value|, |r.reason|;
    Widths();
    LE2(n);
    LE2(m);
    LE8(Unsigned(r.exp));
    if HasReasons(flags) {
      StrCuts(r.op, LE(2, n), r.value, LE(8, Unsigned(r.exp)), LE(2, m) + r.reason, tail, d);
      ReasonCuts(d, 11 + n, LE(2, m), r.reason);
      TakesReason(flags, d, r);
    } else {
      StrCuts(r.op, LE(2, n), r.value, LE(8, Unsigned(r.exp)), [], tail, d);
      TakesBare(flags, d, r);
    }
  }

  /** The fields that stand in front of every string record. */
  predicate Leads(d: seq<byte>, r: Record)
    requires r.Str?
  {
    var n := |r.value|;
    && |d| >= 11 + n && d[0] == r.op && U16(d[1..3]) == n && d[3..3 + n] == r.value
    && Signed(U64(d[3 + n..11 + n])) == r.exp
  }

  lemma TakesBare(flags: byte, d: seq<byte>, r: Record)
    requires r.Str? && !HasReasons(flags) && r.reason == [] && Leads(d, r)
    ensures TakeRecord(STRING, flags, d) == Got(r, 11 + |r.value|)
  {
  }

  lemma TakesReason(flags: byte, d: seq<byte>, r: Record)
    requires r.Str? && HasReasons(flags) && Leads(d, r) && |d| >= 13 + |r.value| + |r.reason|
    requires U16(d[11 + |r.value|..13 + |r.value|]) == |r.reason|
    requires d[13 + |r.value|..13 + |r.value| + |r.reason|] == r.reason
    ensures TakeRecord(STRING, flags, d) == Got(r, 13 + |r.value| + |r.reason|)
  {
  }

  lemma StrCuts(op: byte, a: seq<byte>, v: seq<byte>, e: seq<byte>, more: seq<byte>, tail: seq<byte>, d: seq<byte>)
    requires |a| == 2 && |e| == 8 && d == [op] + a + v + e + more + tail
    ensures d[0] == op && d[1..3] == a && d[3..3 + |v|] == v && d[3 + |v|..11 + |v|] == e
    ensures d[11 + |v|..11 + |v| + |more|] == more
  {
  }

  lemma ReasonCuts(d: seq<byte>, k: nat, b: seq<byte>, r: seq<byte>)
    requires |b| == 2 && k + 2 + |r| <= |d| && d[k..k + 2 + |r|] == b + r
    ensures d[k..k + 2] == b && d[k + 2..k + 2 + |r|] == r
  {
    var s := d[k..k + 2 + |r|];
    assert s[..2] == b && s[2..] == r;
    assert d[k..k + 2] == s[..2] && d[k + 2..k + 2 + |r|] == s[2..];
  }

  lemma RecordRoundTrip(typ: byte, flags: byte, r: Record, tail: seq<byte>)
    requires GoodRecord(typ, flags, r)
    ensures var d := EncodeRecord(typ, flags, r);
            TakeRecord(typ, flags, d + tail) == Got(r, |d|)
  {
    if r.Net? { NetRoundTrip(flags, r, tail); } else { StrRoundTrip(flags, r, tail); }
  }

  lemma {:induction false} RecordsRoundTrip(take: Taker, typ: byte, flags: byte, recs: seq<Record>, tail: seq<byte>)
    requires TakerOf(take, typ, flags) && GoodRecords(typ, flags, recs)
    ensures var d := EncodeRecords(typ, flags, recs);
            TakeRecords(take, d + tail, |recs|) == Many(recs, |d|)
  {
    if recs != [] {
      var first, rest := EncodeRecord(typ, flags, recs[0]), EncodeRecords(typ, flags, recs[1..]);
      TakerTrip(take, typ, flags, recs[0], rest + tail);
      RecordsRoundTrip(take, typ, flags, recs[1..], tail);
      assert (first + rest) + tail == first + (rest + tail);
      assert (first + (rest + tail))[|first|..] == rest + tail;
      assert [recs[0]] + recs[1..] == recs;
    }
  }

  lemma TakerTrip(take: Taker, typ: byte, flags: byte, r: Record, tail: seq<byte>)
    requires TakerOf(take, typ, flags) && GoodRecord(typ, flags, r)
    ensures var d := EncodeRecord(typ, flags, r); take(d + tail) == Got(r, |d|)
  {
    RecordRoundTrip(typ, flags, r, tail);
  }

  lemma HeadRoundTrip(h: Head, tail: seq<byte>)
    requires GoodHead(h)
    ensures var d := EncodeHead(h) + tail;
            d[..4] == MAGIC && d[4] == VERSION && ReadHead(d) == h && d[HEADER..] == tail
  {
    var d := EncodeHead(h) + tail;
    Widths();
    LEInverse(8, h.epoch);
    LEInverse(8, h.sn);
    LEInverse(8, h.hash);
    LEInverse(4, h.count);
    assert d[8..16] == LE(8, h.epoch) && d[16..24] == LE(8, h.sn) && d[24..32] == LE(8, h.hash);
    assert d[32..48] == h.key && d[48..52] == LE(4, h.count);
  }

  function Answer(h: Head, m: Many): Parsed {
    if m.Many? then Ok(h, m.recs) else Fail(m.error)
  }

  /** Behind a well-formed head the answer is that of the records. */
  lemma ParseBehindHead(h: Head, body: seq<byte>)
    requires GoodHead(h)
    ensures Parse(EncodeHead(h) + body) == Answer(h, TakeRecords(RecordTaker(h.typ, h.flags), body, h.count))
  {
    HeadRoundTrip(h, body);
  }

  /** Whatever follows the object, unpack gives back the head and the records that were encoded. */
  lemma ParseEncode(h: Head, recs: seq<Record>, tail: seq<byte>)
    requires GoodObject(h, recs)
    ensures Parse(Encode(h, recs) + tail) == Ok(h, recs)
  {
    var body := EncodeRecords(h.typ, h.flags, recs);
    assert Encode(h, recs) + tail == EncodeHead(h) + (body + tail);
    ParseBehindHead(h, body + tail);
    RecordsRoundTrip(RecordTaker(h.typ, h.flags), h.typ, h.flags, recs, tail);
  }

  // ---- Truncation ----

  lemma RecordCut(typ: byte, flags: byte, r: Record, k: nat)
    requires GoodRecord(typ, flags, r) && k < |EncodeRecord(typ, flags, r)|
    ensures TakeRecord(typ, flags, EncodeRecord(typ, flags, r)[..k]) == Bad(Short)
  {
    var e := EncodeRecord(typ, flags, r);
    var d := e[..k];
    Widths();
    if r.Net? && k >= 2 {
      assert d[1] == e[1] == if r.prefix.V4() then 4 else 6;
    }
    if r.Str? && k >= 3 {
      var n, m := |r.value|, |r.reason|;
      LE2(n);
      assert d[1..3] == LE(2, n);
      if HasReasons(flags) && k >= 13 + n {
        LE2(m);
        assert e[11 + n..13 + n] == LE(2, m);
        assert d[11 + n..13 + n] == LE(2, m);
      }
    }
  }

  lemma TakerCut(take: Taker, typ: byte, flags: byte, r: Record, k: nat)
    requires TakerOf(take, typ, flags) && GoodRecord(typ, flags, r) && k < |EncodeRecord(typ, flags, r)|
    ensures take(EncodeRecord(typ, flags, r)[..k]) == Bad(Short)
  {
    RecordCut(typ, flags, r, k);
  }

  lemma {:induction false} RecordsCut(take: Taker, typ: byte, flags: byte, recs: seq<Record>, k: nat)
    requires TakerOf(take, typ, flags) && GoodRecords(typ, flags, recs) && k < |EncodeRecords(typ, flags, recs)|
    ensures TakeRecords(take, EncodeRecords(typ, flags, recs)[..k], |recs|) == Stop(Short)
  {
    var first, rest := EncodeRecord(typ, flags, recs[0]), EncodeRecords(typ, flags, recs[1..]);
    if k < |first| {
      TakerCut(take, typ, flags, recs[0], k);
      assert (first + rest)[..k] == first[..k];
    } else {
      TakerTrip(take, typ, flags, recs[0], rest[..k - |first|]);
      RecordsCut(take, typ, flags, recs[1..], k - |first|);
      assert (first + rest)[..k] == first + rest[..k - |first|];
      assert (first + rest[..k - |first|])[|first|..] == rest[..k - |first|];
    }
  }

  /** Every strict prefix of a well-formed object is refused as truncated. */
  lemma ParseCut(h: Head, recs: seq<Record>, k: nat)
    requires GoodObject(h, recs) && k < |Encode(h, recs)|
    ensures Parse(Encode(h, recs)[..k]) == Fail(Short)
  {
    var head, body := EncodeHead(h), EncodeRecords(h.typ, h.flags, recs);
    if k >= HEADER {
      assert (head + body)[..k] == head + body[..k - HEADER];
      ParseBehindHead(h, body[..k - HEADER]);
      RecordsCut(RecordTaker(h.typ, h.flags), h.typ, h.flags, recs, k - HEADER);
    }
  }

  // ---- Re-encoding ----

  /** The one thing the parser lets through that the format cannot express. */
  predicate InRange(r: Record) {
    r.Net? ==> r.prefix.bits != -1
  }

  lemma SignedInverse(u: nat)
    requires u < TWO64
    ensures -TWO63 <= Signed(u) < TWO63 && Unsigned(Signed(u)) == u
  {
  }

  lemma StrReencode(flags: byte, d: seq<byte>)
    requires TakeRecord(STRING, flags, d).Got?
    ensures var t := TakeRecord(STRING, flags, d);
            GoodRecord(STRING, flags, t.rec) && EncodeRecord(STRING, flags, t.rec) == d[..t.used]
  {
    var n := U16(d[1..3]);
    var r := Str(d[0], d[3..3 + n], Signed(U64(d[3 + n..11 + n])), []);
    StrFields(d, n);
    if HasReasons(flags) {
      var m := U16(d[11 + n..13 + n]);
      r := r.(reason := d[13 + n..13 + n + m]);
      TakesReason(flags, d, r);
      ReencodeReason(flags, d, r, n, m);
    } else {
      TakesBare(flags, d, r);
      StrJoined(flags, d, r, n, 0);
    }
  }

  lemma ReencodeReason(flags: byte, d: seq<byte>, r: Record, n: nat, m: nat)
    requires r.Str? && HasReasons(flags) && |d| >= 13 + n + m && n < 0x1_0000 && |r.value| == n
    requires -TWO63 <= r.exp < TWO63 && m == U16(d[11 + n..13 + n]) && r.reason == d[13 + n..13 + n + m]
    requires r.op == d[0] && LE(2, n) == d[1..3] && r.value == d[3..3 + n]
    requires LE(8, Unsigned(r.exp)) == d[3 + n..11 + n]
    ensures GoodRecord(STRING, flags, r) && EncodeRecord(STRING, flags, r) == d[..13 + n + m]
  {
    FromLE2(d[11 + n..13 + n]);
    ReasonJoined(d, 11 + n, m);
    StrJoined(flags, d, r, n, 2 + m);
  }

  lemma ReasonJoined(d: seq<byte>, k: nat, m: nat)
    requires k + 2 + m <= |d|
    ensures d[k..k + 2 + m] == d[k..k + 2] + d[k + 2..k + 2 + m]
  {
  }

  /** The fields of a record, written one behind the other, are the bytes they were read from. */
  lemma StrJoined(flags: byte, d: seq<byte>, r: Record, n: nat, more: nat)
    requires r.Str? && GoodRecord(STRING, flags, r) && 11 + n + more <= |d|
    requires r.op == d[0] && LE(2, |r.value|) == d[1..3] && r.value == d[3..3 + n]
    requires LE(8, Unsigned(r.exp)) == d[3 + n..11 + n]
    requires d[11 + n..11 + n + more] == if HasReasons(flags) then LE(2, |r.reason|) + r.reason else []
    ensures EncodeRecord(STRING, flags, r) == d[..11 + n + more]
  {
    StrPieces(d, n, more);
  }

  lemma StrFields(d: seq<byte>, n: nat)
    requires |d| >= 3 && n == U16(d[1..3]) && |d| >= 11 + n
    ensures n < 0x1_0000 && LE(2, n) == d[1..3]
    ensures var exp := Signed(U64(d[3 + n..11 + n]));
      -TWO63 <= exp < TWO63 && LE(8, Unsigned(exp)) == d[3 + n..11 + n]
  {
    Widths();
    FromLE2(d[1..3]);
    FromLE8(d[3 + n..11 + n]);
    SignedInverse(U64(d[3 + n..11 + n]));
  }

  lemma StrPieces(d: seq<byte>, n: nat, m: nat)
    requires 11 + n + m <= |d|
    ensures d[..11 + n + m] == [d[0]] + d[1..3] + d[3..3 + n] + d[3 + n..11 + n] + d[11 + n..11 + n + m]
  {
  }

  lemma NetReencode(flags: byte, d: seq<byte>)
    requires TakeRecord(CIDR, flags, d).Got? && InRange(TakeRecord(CIDR, flags, d).rec)
    ensures var t := TakeRecord(CIDR, flags, d);
            GoodRecord(CIDR, flags, t.rec) && EncodeRecord(CIDR, flags, t.rec) == d[..t.used]
  {
    Widths();
    var w := if d[1] == 4 then 4 else 16;
    var e := d[3 + w..][..8];
    FromLE8(e);
    SignedInverse(U64(e));
    assert d[..3 + w + 8] == [d[0], d[1], d[2]] + d[3..3 + w] + e;
  }

  lemma TakerReencode(take: Taker, typ: byte, flags: byte, d: seq<byte>)
    requires TakerOf(take, typ, flags) && take(d).Got? && take(d).used <= |d| && InRange(take(d).rec)
    ensures GoodRecord(typ, flags, take(d).rec) && EncodeRecord(typ, flags, take(d).rec) == d[..take(d).used]
  {
    var t := TakeRecord(typ, flags, d);
    if typ == CIDR { NetReencode(flags, d); } else { StrReencode(flags, d); }
  }

  lemma {:induction false} RecordsReencode(take: Taker, typ: byte, flags: byte, d: seq<byte>, n: nat)
    requires TakerOf(take, typ, flags) && TakeRecords(take, d, n).Many?
    requires forall r :: r in TakeRecords(take, d, n).recs ==> InRange(r)
    ensures var m := TakeRecords(take, d, n);
            m.used <= |d| && GoodRecords(typ, flags, m.recs) && EncodeRecords(typ, flags, m.recs) == d[..m.used]
    decreases n
  {
    if n > 0 {
      var t := take(d);
      var m, more := TakeRecords(take, d, n), TakeRecords(take, d[t.used..], n - 1);
      assert m == Many([t.rec] + more.recs, t.used + more.used);
      assert t.rec in m.recs;
      TakerReencode(take, typ, flags, d);
      RecordsReencode(take, typ, flags, d[t.used..], n - 1);
      EncodeCons(typ, flags, t.rec, more.recs);
      TwoPieces(d, t.used, more.used);
    }
  }

  lemma TwoPieces(d: seq<byte>, a: nat, b: nat)
    requires a + b <= |d|
    ensures d[..a + b] == d[..a] + d[a..][..b]
  {
  }

  lemma EncodeCons(typ: byte, flags: byte, r: Record, rest: seq<Record>)
    requires GoodRecord(typ, flags, r) && GoodRecords(typ, flags, rest)
    ensures GoodRecords(typ, flags, [r] + rest)
    ensures EncodeRecords(typ, flags, [r] + rest) == EncodeRecord(typ, flags, r) + EncodeRecords(typ, flags, rest)
  {
    assert ([r] + rest)[1..] == rest;
  }

  /**
   An accepted object can be encoded exactly when its prefixes are in range, and
   then the encoding is, byte for byte, what was consumed.
   */
  lemma EncodeParse(data: seq<byte>)
    requires Parse(data).Ok?
    ensures var p := Parse(data);
      && (GoodObject(p.head, p.recs) <==> forall r :: r in p.recs ==> InRange(r))
      && (GoodObject(p.head, p.recs) ==> Encode(p.head, p.recs) <= data)
  {
    var h, recs := ReadHead(data), Parse(data).recs;
    HeadReencode(data);
    if forall r :: r in recs ==> InRange(r) {
      BodyReencode(RecordTaker(h.typ, h.flags), data, h, recs);
    }
  }

  lemma BodyReencode(take: Taker, data: seq<byte>, h: Head, recs: seq<Record>)
    requires |data| >= HEADER && GoodHead(h) && EncodeHead(h) == data[..HEADER] && TakerOf(take, h.typ, h.flags)
    requires TakeRecords(take, data[HEADER..], h.count).Many?
    requires recs == TakeRecords(take, data[HEADER..], h.count).recs && forall r :: r in recs ==> InRange(r)
    ensures GoodObject(h, recs) && Encode(h, recs) <= data
  {
    TakenSize(take, data[HEADER..], h.count);
    RecordsReencode(take, h.typ, h.flags, data[HEADER..], h.count);
    JoinBody(data, h, recs, TakeRecords(take, data[HEADER..], h.count).used);
  }

  lemma JoinBody(data: seq<byte>, h: Head, recs: seq<Record>, used: nat)
    requires HEADER + used <= |data| && GoodObject(h, recs) && EncodeHead(h) == data[..HEADER]
    requires EncodeRecords(h.typ, h.flags, recs) == data[HEADER..][..used]
    ensures Encode(h, recs) <= data
  {
    Pieces(data, EncodeHead(h), EncodeRecords(h.typ, h.flags, recs), used);
  }

  lemma Pieces(data: seq<byte>, head: seq<byte>, body: seq<byte>, used: nat)
    requires HEADER + used <= |data| && head == data[..HEADER] && body == data[HEADER..][..used]
    ensures head + body <= data
  {
    assert head + body == data[..HEADER + used];
  }

  lemma HeadReencode(data: seq<byte>)
    requires |data| >= HEADER && data[..4] == MAGIC && data[4] == VERSION
    ensures GoodHead(ReadHead(data)) && EncodeHead(ReadHead(data)) == data[..HEADER]
  {
    Widths();
    FromLEInverse(data[8..16]);
    FromLEInverse(data[16..24]);
    FromLEInverse(data[24..32]);
    FromLEInverse(data[48..52]);
    assert data[..HEADER] == data[..4] + [data[4], data[5], data[6], data[7]] + data[8..16] + data[16..24]
                             + data[24..32] + data[32..48] + data[48..52];
  }
}
