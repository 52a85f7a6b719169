/**
 The contents of one mirrored set (internal/livelist/livelist.go, composition):
 the declarative set, and the object that keeps it with an incremental XOR hash
 and a table of prefix lengths.
 */
module Composition {
  import opened Bytes
  import opened Wafs

  datatype Entry = Entry(exp: int, reason: seq<byte>)

  /** What a set holds: string values, or address prefixes, with their expiries. */
  datatype Contents = Contents(entries: map<seq<byte>, Entry>, nets: map<Prefix, int>)

  const EMPTY := Contents(map[], map[])

  /**
   Hash words and how they combine: in the source 64-bit words, XOR and SipHash
   under the set's key. Here any words with an XOR that obeys its laws, and any
   keyed function; Xor64Lawful says that 64-bit words are such.
   */
  datatype Hasher<!W> = Hasher(xor: (W, W) -> W, zero: W, sip: (seq<byte>, seq<byte>) -> W, word: nat -> W)

  ghost predicate Commutes<W>(hs: Hasher<W>, a: W, b: W) { hs.xor(a, b) == hs.xor(b, a) }
  ghost predicate Associates<W>(hs: Hasher<W>, a: W, b: W, c: W) { hs.xor(hs.xor(a, b), c) == hs.xor(a, hs.xor(b, c)) }
  ghost predicate Cancels<W>(hs: Hasher<W>, a: W) { hs.xor(a, a) == hs.zero && hs.xor(hs.zero, a) == a }

  ghost predicate Lawful<W(!new)>(hs: Hasher<W>) {
    && (forall a, b :: Commutes(hs, a, b))
    && (forall a, b, c :: Associates(hs, a, b, c))
    && (forall a :: Cancels(hs, a))
  }

  function Xor64(sip: (seq<byte>, seq<byte>) -> bv64, word: nat -> bv64): Hasher<bv64> {
    Hasher((a: bv64, b: bv64) => a ^ b, 0, sip, word)
  }

  lemma Xor64Lawful(sip: (seq<byte>, seq<byte>) -> bv64, word: nat -> bv64)
    ensures Lawful(Xor64(sip, word))
  {
    forall a, b { Xor64Commutes(Xor64(sip, word), a, b); }
    forall a, b, c { Xor64Associates(Xor64(sip, word), a, b, c); }
  }

  ghost predicate IsXor64(hs: Hasher<bv64>) {
    hs.zero == 0 && forall a, b :: hs.xor(a, b) == a ^ b
  }

  lemma Xor64Commutes(hs: Hasher<bv64>, a: bv64, b: bv64)
    requires IsXor64(hs)
    ensures Commutes(hs, a, b) && Cancels(hs, a)
  {
    XorBasics(a, b);
  }

  lemma Xor64Associates(hs: Hasher<bv64>, a: bv64, b: bv64, c: bv64)
    requires IsXor64(hs)
    ensures Associates(hs, a, b, c)
  {
    XorRegroups(a, b, c);
  }

  lemma XorBasics(a: bv64, b: bv64)
    ensures a ^ b == b ^ a && a ^ a == 0 && 0 ^ a == a
  {
  }

  lemma XorRegroups(a: bv64, b: bv64, c: bv64)
    ensures (a ^ b) ^ c == a ^ (b ^ c)
  {
  }

  /** A prefix as netip.PrefixFrom makes it: its length fits the address, or is -1. */
  predicate Formed(p: Prefix) {
    GoodPrefix(p) || ((|p.addr| == 4 || |p.addr| == 16) && p.bits == -1)
  }

  /** A record of the kind a set of this type holds. */
  predicate Fits(typ: byte, r: Record) {
    (r.Net? <==> typ == CIDR) && (r.Net? ==> Formed(r.prefix))
  }

  predicate AllFit(typ: byte, recs: seq<Record>) {
    forall r :: r in recs ==> Fits(typ, r)
  }

  /** Adding the record indexes outside the length table, which ends the program. */
  predicate Breaks(r: Record) {
    r.Net? && r.op == ADD && !(0 <= r.prefix.bits < LENGTHS)
  }

  predicate Harmless(recs: seq<Record>) {
    forall r :: r in recs ==> !Breaks(r)
  }

  /** The number of prefix lengths, for each family. */
  const LENGTHS: nat := 129

  /** The length of an accepted prefix is inside the table exactly when it is in range. */
  lemma InTableIffInRange(r: Record)
    requires r.Net? && Fits(CIDR, r)
    ensures 0 <= r.prefix.bits < LENGTHS <==> InRange(r)
    ensures InRange(r) <==> GoodPrefix(r.prefix)
    ensures Breaks(r) <==> r.op == ADD && !InRange(r)
  {
  }

  function Apply(c: Contents, r: Record): Contents {
    match r
    case Net(op, p, exp) => c.(nets := if op == ADD then c.nets[p := exp] else c.nets - {p})
    case Str(op, v, exp, why) => c.(entries := if op == ADD then c.entries[v := Entry(exp, why)] else c.entries - {v})
  }

  function ApplyAll(c: Contents, recs: seq<Record>): Contents {
    if recs == [] then c else Apply(ApplyAll(c, recs[..|recs| - 1]), recs[|recs| - 1])
  }

  /** Only the map of the set's type has anything in it. */
  predicate OfType(typ: byte, c: Contents) {
    if typ == CIDR then c.entries == map[] else c.nets == map[]
  }

  predicate Ranged(c: Contents) {
    forall p :: p in c.nets ==> GoodPrefix(p)
  }

  lemma {:induction false} ApplyAllOfType(typ: byte, c: Contents, recs: seq<Record>)
    requires OfType(typ, c) && AllFit(typ, recs)
    ensures OfType(typ, ApplyAll(c, recs))
  {
    if recs != [] {
      ApplyAllOfType(typ, c, recs[..|recs| - 1]);
      assert recs[|recs| - 1] in recs;
    }
  }

  // ---- What a history of records leaves: the last word on each key ----

  /** Record i is the last of the records about the prefix. */
  predicate LastOnNet(recs: seq<Record>, p: Prefix, i: nat) {
    && i < |recs| && recs[i].Net? && recs[i].prefix == p
    && forall j :: i < j < |recs| ==> !(recs[j].Net? && recs[j].prefix == p)
  }

  predicate NoneOnNet(recs: seq<Record>, p: Prefix) {
    forall j :: 0 <= j < |recs| ==> !(recs[j].Net? && recs[j].prefix == p)
  }

  predicate LastOnValue(recs: seq<Record>, v: seq<byte>, i: nat) {
    && i < |recs| && recs[i].Str? && recs[i].value == v
    && forall j :: i < j < |recs| ==> !(recs[j].Str? && recs[j].value == v)
  }

  predicate NoneOnValue(recs: seq<Record>, v: seq<byte>) {
    forall j :: 0 <= j < |recs| ==> !(recs[j].Str? && recs[j].value == v)
  }

  predicate HoldsNet(c: Contents, p: Prefix, exp: int) {
    p in c.nets && c.nets[p] == exp
  }

  predicate HoldsValue(c: Contents, v: seq<byte>, exp: int, reason: seq<byte>) {
    v in c.entries && c.entries[v] == Entry(exp, reason)
  }

  /**
   A prefix is held with an expiry exactly when the last record about it adds it
   with that expiry, or no record is about it and it was held so before: a second
   addition replaces the expiry, and a removal removes.
   */
  lemma {:induction false} NetByLastRecord(c: Contents, recs: seq<Record>, p: Prefix, exp: int)
    ensures HoldsNet(ApplyAll(c, recs), p, exp) <==>
      || (exists i: nat :: LastOnNet(recs, p, i) && recs[i].op == 1 && recs[i].exp == exp)
      || (NoneOnNet(recs, p) && HoldsNet(c, p, exp))
  {
    if recs != [] {
      var n := |recs| - 1;
      var before, r := recs[..n], recs[n];
      if r.Net? && r.prefix == p {
        assert LastOnNet(recs, p, n);
        assert forall i: nat :: LastOnNet(recs, p, i) ==> i == n;
      } else {
        NetByLastRecord(c, before, p, exp);
        forall i: nat ensures LastOnNet(recs, p, i) <==> LastOnNet(before, p, i) {
        }
        assert NoneOnNet(recs, p) <==> NoneOnNet(before, p);
      }
    }
  }

  /** The same for a value, with its expiry and its reason. */
  lemma {:induction false} ValueByLastRecord(c: Contents, recs: seq<Record>, v: seq<byte>, exp: int, why: seq<byte>)
    ensures HoldsValue(ApplyAll(c, recs), v, exp, why) <==>
      || (exists i: nat :: LastOnValue(recs, v, i) && recs[i].op == 1 && recs[i].exp == exp && recs[i].reason == why)
      || (NoneOnValue(recs, v) && HoldsValue(c, v, exp, why))
  {
    if recs != [] {
      var n := |recs| - 1;
      var before, r := recs[..n], recs[n];
      if r.Str? && r.value == v {
        assert LastOnValue(recs, v, n);
        assert forall i: nat :: LastOnValue(recs, v, i) ==> i == n;
      } else {
        ValueByLastRecord(c, before, v, exp, why);
        forall i: nat ensures LastOnValue(recs, v, i) <==> LastOnValue(before, v, i) {
        }
        assert NoneOnValue(recs, v) <==> NoneOnValue(before, v);
      }
    }
  }

  // ---- The hash: XOR over a set, in no order ----

  ghost function Choose<T>(s: set<T>): (x: T)
    requires s != {}
    ensures x in s
  {
    var x :| x in s;
    x
  }

  ghost function XorSet<T, W>(hs: Hasher<W>, h: T -> W, s: set<T>): W {
    if s == {} then hs.zero else hs.xor(h(Choose(s)), XorSet(hs, h, s - {Choose(s)}))
  }

  lemma {:induction false} XorPick<T, W(!new)>(hs: Hasher<W>, h: T -> W, s: set<T>, x: T)
    requires Lawful(hs) && x in s
    ensures XorSet(hs, h, s) == hs.xor(h(x), XorSet(hs, h, s - {x}))
  {
    var y := Choose(s);
    if x != y {
      XorPick(hs, h, s - {y}, x);
      XorPick(hs, h, s - {x}, y);
      assert s - {y} - {x} == s - {x} - {y};
      XorSwap(hs, h(y), h(x), XorSet(hs, h, s - {x} - {y}));
    }
  }

  lemma XorSwap<W(!new)>(hs: Hasher<W>, a: W, b: W, c: W)
    requires Lawful(hs)
    ensures hs.xor(a, hs.xor(b, c)) == hs.xor(b, hs.xor(a, c))
  {
    assert Associates(hs, a, b, c) && Commutes(hs, a, b) && Associates(hs, b, a, c);
  }

  lemma XorUndo<W(!new)>(hs: Hasher<W>, a: W, c: W)
    requires Lawful(hs)
    ensures hs.xor(hs.xor(a, c), a) == c && hs.xor(c, a) == hs.xor(a, c)
  {
    assert Commutes(hs, hs.xor(a, c), a) && Associates(hs, a, a, c) && Cancels(hs, a) && Cancels(hs, c);
    assert Commutes(hs, c, a);
  }

  lemma XorMove<W(!new)>(hs: Hasher<W>, a: W, b: W, x: W)
    requires Lawful(hs)
    ensures hs.xor(hs.xor(a, b), x) == hs.xor(a, hs.xor(b, x)) == hs.xor(hs.xor(a, x), b)
  {
    assert Associates(hs, a, b, x) && Commutes(hs, b, x) && Associates(hs, a, x, b);
  }

  /** A key more, or a key less, is its hash flipped in. */
  lemma XorToggle<T, W(!new)>(hs: Hasher<W>, h: T -> W, s: set<T>, x: T)
    requires Lawful(hs)
    ensures XorSet(hs, h, if x in s then s - {x} else s + {x}) == hs.xor(XorSet(hs, h, s), h(x))
  {
    if x in s {
      XorPick(hs, h, s, x);
      XorUndo(hs, h(x), XorSet(hs, h, s - {x}));
    } else {
      XorPick(hs, h, s + {x}, x);
      assert s + {x} - {x} == s;
      XorUndo(hs, h(x), XorSet(hs, h, s));
    }
  }

  /** prefixMaterial: the bytes hashed for a prefix. */
  function Material(p: Prefix): seq<byte> {
    [if p.V4() then 4 else 6, if 0 <= p.bits < 256 then p.bits else 255] + p.addr
  }

  ghost function NetHash<W>(hs: Hasher<W>, key: seq<byte>): Prefix -> W {
    (p: Prefix) => hs.sip(key, Material(p))
  }

  ghost function StrHash<W>(hs: Hasher<W>, key: seq<byte>): seq<byte> -> W {
    (v: seq<byte>) => hs.sip(key, v)
  }

  /** The hash of a set: XOR of the keyed hash over exactly the keys it holds. */
  ghost function HashOf<W>(hs: Hasher<W>, key: seq<byte>, c: Contents): W {
    hs.xor(XorSet(hs, StrHash(hs, key), c.entries.Keys), XorSet(hs, NetHash(hs, key), c.nets.Keys))
  }

  /** The record adds a key that is not there or removes one that is. */
  predicate Toggles(c: Contents, r: Record) {
    match r
    case Net(op, p, _) => (op == ADD) != (p in c.nets)
    case Str(op, v, _, _) => (op == ADD) != (v in c.entries)
  }

  function KeyBytes(r: Record): seq<byte> {
    match r
    case Net(_, p, _) => Material(p)
    case Str(_, v, _, _) => v
  }

  /** The hash of a map's keys when one key is set or removed. */
  lemma MapToggle<K, V, W(!new)>(hs: Hasher<W>, h: K -> W, m: map<K, V>, k: K, v: V)
    requires Lawful(hs)
    ensures var x := XorSet(hs, h, m.Keys);
      && XorSet(hs, h, m[k := v].Keys) == (if k in m then x else hs.xor(x, h(k)))
      && XorSet(hs, h, (m - {k}).Keys) == (if k in m then hs.xor(x, h(k)) else x)
  {
    XorToggle(hs, h, m.Keys, k);
    assert m[k := v].Keys == m.Keys + {k} && (m - {k}).Keys == m.Keys - {k};
    if k in m {
      assert m.Keys + {k} == m.Keys;
    } else {
      assert m.Keys - {k} == m.Keys;
    }
  }

  /**
   The incremental hash: a record flips the hash by its key's hash exactly when
   it changes which keys are held, so re-adds and order leave no trace.
   */
  lemma HashApply<W(!new)>(hs: Hasher<W>, key: seq<byte>, c: Contents, r: Record)
    requires Lawful(hs)
    ensures var h := HashOf(hs, key, c);
      HashOf(hs, key, Apply(c, r)) == if Toggles(c, r) then hs.xor(h, hs.sip(key, KeyBytes(r))) else h
  {
    var strs, nets := XorSet(hs, StrHash(hs, key), c.entries.Keys), XorSet(hs, NetHash(hs, key), c.nets.Keys);
    match r
    case Net(_, p, exp) =>
      MapToggle(hs, NetHash(hs, key), c.nets, p, exp);
      XorMove(hs, strs, nets, hs.sip(key, Material(p)));
    case Str(_, v, exp, why) =>
      MapToggle(hs, StrHash(hs, key), c.entries, v, Entry(exp, why));
      XorMove(hs, strs, nets, hs.sip(key, v));
  }

  /** Nothing hashes to zero, one value to the hash of its bytes, one prefix to that of its own. */
  lemma HashOfOne<W(!new)>(hs: Hasher<W>, key: seq<byte>, p: Prefix, exp: int, v: seq<byte>, e: Entry)
    requires Lawful(hs)
    ensures HashOf(hs, key, EMPTY) == hs.zero
    ensures HashOf(hs, key, Contents(map[v := e], map[])) == hs.sip(key, v)
    ensures HashOf(hs, key, Contents(map[], map[p := exp])) == hs.sip(key, Material(p))
  {
    assert Cancels(hs, hs.zero);
    HashApply(hs, key, EMPTY, Str(ADD, v, e.exp, e.reason));
    assert Apply(EMPTY, Str(ADD, v, e.exp, e.reason)) == Contents(map[v := e], map[]);
    HashApply(hs, key, EMPTY, Net(ADD, p, exp));
    assert Apply(EMPTY, Net(ADD, p, exp)) == Contents(map[], map[p := exp]);
    assert Cancels(hs, hs.sip(key, v)) && Cancels(hs, hs.sip(key, Material(p)));
  }

  // ---- The length table ----

  function Family(p: Prefix): int {
    if p.V4() then 0 else 1
  }

  ghost function OfLength(nets: map<Prefix, int>, fam: int, bits: int): set<Prefix> {
    set p | p in nets && Family(p) == fam && p.bits == bits
  }

  // ---- Addresses ----

  function Pow2(k: nat): nat
    requires k <= 8
  {
    match k
    case 0 => 1 case 1 => 2 case 2 => 4 case 3 => 8 case 4 => 16
    case 5 => 32 case 6 => 64 case 7 => 128 case _ => 256
  }

  /** Bit j of a byte, the highest first. */
  function BitOf(x: byte, j: nat): int
    requires j < 8
  {
    (x / Pow2(7 - j)) % 2
  }

  /** The number its first k bits make. */
  function Top(x: byte, k: nat): nat
    requires k <= 8
  {
    x / Pow2(8 - k)
  }

  /** A byte with all but its first k bits cleared. */
  function MaskByte(x: byte, k: nat): byte
    requires k <= 8
  {
    Top(x, k) * Pow2(8 - k)
  }

  lemma TopStep(x: byte, k: nat)
    requires k < 8
    ensures Top(x, k + 1) == 2 * Top(x, k) + BitOf(x, k)
  {
    var d := Pow2(7 - k);
    assert Pow2(8 - k) == 2 * d;
    HalfOf(x, d);
  }

  lemma HalfOf(x: nat, d: nat)
    requires d > 0
    ensures x / d / 2 == x / (2 * d)
  {
    var a, r := x / d, x % d;
    var b, s := a / 2, a % 2;
    assert x == a * d + r && a == 2 * b + s;
    assert (2 * b + s) * d == b * (2 * d) + s * d;
    assert s * d + r < 2 * d;
    QuotientIs(x, 2 * d, b, s * d + r);
  }

  lemma QuotientIs(x: nat, d: nat, q: nat, r: nat)
    requires r < d && x == q * d + r
    ensures x / d == q
  {
    var p := x / d;
    assert x == p * d + x % d;
    if p > q { MulGap(p, q, d); } else if p < q { MulGap(q, p, d); }
  }

  lemma MulGap(p: nat, q: nat, d: nat)
    requires p > q
    ensures p * d >= q * d + d
  {
    assert p * d == q * d + (p - q) * d && (p - q) * d == (p - q - 1) * d + d;
  }

  lemma {:induction false} TopBits(x: byte, y: byte, k: nat)
    requires k <= 8
    ensures Top(x, k) == Top(y, k) <==> forall j :: 0 <= j < k ==> BitOf(x, j) == BitOf(y, j)
  {
    if k > 0 {
      TopBits(x, y, k - 1);
      TopStep(x, k - 1);
      TopStep(y, k - 1);
    }
  }

  lemma MaskTop(x: byte, k: nat)
    requires k <= 8
    ensures Top(MaskByte(x, k), k) == Top(x, k)
  {
    match k
    case 0 => case 1 => case 2 => case 3 => case 4 => case 5 => case 6 => case 7 => case _ =>
  }

  lemma MaskByteBits(x: byte, y: byte, k: nat)
    requires k <= 8
    ensures MaskByte(x, k) == MaskByte(y, k) <==> forall j :: 0 <= j < k ==> BitOf(x, j) == BitOf(y, j)
  {
    MaskTop(x, k);
    MaskTop(y, k);
    TopBits(x, y, k);
  }

  /** How many of byte i's bits lie within the first `bits` bits. */
  function KeptBits(bits: nat, i: nat): (k: nat)
    ensures k <= 8
  {
    if bits >= 8 * i + 8 then 8 else if bits <= 8 * i then 0 else bits - 8 * i
  }

  function MaskTo(a: seq<byte>, bits: nat): seq<byte> {
    seq(|a|, i requires 0 <= i < |a| => MaskByte(a[i], KeptBits(bits, i)))
  }

  predicate Masked(p: Prefix) {
    p.bits >= 0 && p.addr == MaskTo(p.addr, p.bits)
  }

  function Bit(a: seq<byte>, i: nat): int
    requires i < 8 * |a|
  {
    BitOf(a[i / 8], i % 8)
  }

  /** The address agrees with the prefix on each of the prefix's bits. */
  ghost predicate Covers(p: Prefix, a: seq<byte>) {
    |p.addr| == |a| && 0 <= p.bits <= 8 * |a| && forall i :: 0 <= i < p.bits ==> Bit(p.addr, i) == Bit(a, i)
  }

  lemma MaskToBits(a: seq<byte>, b: seq<byte>, bits: nat)
    requires |a| == |b| && bits <= 8 * |a|
    ensures MaskTo(a, bits) == MaskTo(b, bits) <==> forall i :: 0 <= i < bits ==> Bit(a, i) == Bit(b, i)
  {
    if MaskTo(a, bits) == MaskTo(b, bits) {
      forall i | 0 <= i < bits ensures Bit(a, i) == Bit(b, i) {
        assert MaskTo(a, bits)[i / 8] == MaskTo(b, bits)[i / 8];
        MaskByteBits(a[i / 8], b[i / 8], KeptBits(bits, i / 8));
      }
    }
    if forall i :: 0 <= i < bits ==> Bit(a, i) == Bit(b, i) {
      forall n | 0 <= n < |a| ensures MaskTo(a, bits)[n] == MaskTo(b, bits)[n] {
        BitsToByte(a, b, bits, n);
      }
    }
  }

  lemma BitsToByte(a: seq<byte>, b: seq<byte>, bits: nat, n: nat)
    requires |a| == |b| && bits <= 8 * |a| && n < |a|
    requires forall i :: 0 <= i < bits ==> Bit(a, i) == Bit(b, i)
    ensures MaskByte(a[n], KeptBits(bits, n)) == MaskByte(b[n], KeptBits(bits, n))
  {
    var k := KeptBits(bits, n);
    forall j | 0 <= j < k ensures BitOf(a[n], j) == BitOf(b[n], j) {
      assert Bit(a, 8 * n + j) == Bit(b, 8 * n + j);
    }
    MaskByteBits(a[n], b[n], k);
  }

  /** A masked prefix covers an address exactly when it is the address cut to the prefix's length. */
  lemma CoversIsProbe(p: Prefix, a: seq<byte>)
    requires Masked(p) && |p.addr| == |a| && p.bits <= 8 * |a|
    ensures Covers(p, a) <==> p == Prefix(MaskTo(a, p.bits), p.bits)
  {
    MaskToBits(p.addr, a, p.bits);
  }

  lemma ProbeIsMasked(a: seq<byte>, bits: nat)
    requires bits <= 8 * |a|
    ensures Masked(Prefix(MaskTo(a, bits), bits))
  {
    var m := MaskTo(a, bits);
    forall n | 0 <= n < |a| ensures MaskTo(m, bits)[n] == m[n] {
      MaskTop(a[n], KeptBits(bits, n));
    }
  }

  /** netip.Addr.Unmap: an IPv4-mapped address becomes its last four bytes. */
  function Unmap(a: seq<byte>): seq<byte> {
    if |a| == 16 && a[..12] == [0, 0, 0, 0, 0, 0, 0, 0, 0, 0, 255, 255] then a[12..] else a
  }

  predicate Alive(exp: int, now: int) {
    exp == 0 || exp > now
  }

  /** No expiry is no end; any other is the first instant at which the entry is gone. */
  lemma AliveUntil(exp: int, now: int)
    ensures exp == 0 ==> Alive(exp, now)
    ensures exp != 0 ==> (!Alive(exp, now) <==> now >= exp)
  {
  }

  /** An IPv4 address written as an IPv6 one is that IPv4 address; every other address is itself. */
  lemma UnmapMeans(a: seq<byte>, four: seq<byte>)
    requires |four| == 4
    ensures Unmap([0, 0, 0, 0, 0, 0, 0, 0, 0, 0, 255, 255] + four) == four
    ensures |a| == 16 && (a[10] != 255 || a[11] != 255 || exists i :: 0 <= i < 10 && a[i] != 0) ==> Unmap(a) == a
    ensures |a| == 4 ==> Unmap(a) == a
  {
    var m := [0, 0, 0, 0, 0, 0, 0, 0, 0, 0, 255, 255] + four;
    assert m[..12] == [0, 0, 0, 0, 0, 0, 0, 0, 0, 0, 255, 255] && m[12..] == four;
    if |a| == 16 && a[..12] == [0, 0, 0, 0, 0, 0, 0, 0, 0, 0, 255, 255] {
      assert forall i :: 0 <= i < 12 ==> a[i] == a[..12][i];
    }
  }

  /** Different prefixes are hashed as different bytes. */
  lemma MaterialInjective(p: Prefix, q: Prefix)
    requires GoodPrefix(p) && GoodPrefix(q) && Material(p) == Material(q)
    ensures p == q
  {
    assert p.addr == Material(p)[2..] && q.addr == Material(q)[2..];
    assert Material(p)[1] == p.bits && Material(q)[1] == q.bits;
  }

  /** The bytes begin with the family, 4 or 6, and the length. */
  lemma MaterialBegins(p: Prefix)
    requires GoodPrefix(p)
    ensures Material(p) == [if |p.addr| == 4 then 4 else 6] + [p.bits] + p.addr
  {
  }

  /** The simple lookup: some unexpired masked prefix of the set covers the address. */
  ghost predicate Covered(c: Contents, a: seq<byte>, now: int) {
    exists p :: p in c.nets && Masked(p) && Covers(p, a) && Alive(c.nets[p], now)
  }

  /** The same without the demand that the prefix be masked, which unpack does not check. */
  ghost predicate CoveredByAny(c: Contents, a: seq<byte>, now: int) {
    exists p :: p in c.nets && Covers(p, a) && Alive(c.nets[p], now)
  }

  /** The two agree on every address and instant when all stored prefixes are masked. */
  lemma MaskedSuffice(c: Contents)
    requires forall p :: p in c.nets ==> Masked(p)
    ensures forall a, now :: Covered(c, a, now) <==> CoveredByAny(c, a, now)
  {
  }

  /** A prefix covers its own address. */
  lemma CoversItself(p: Prefix)
    requires GoodPrefix(p)
    ensures Covers(p, p.addr)
  {
  }

  /**
   A stored prefix with bits beyond its length is not found, not even by its own
   address, unless another stored prefix covers that.
   */
  lemma UnmaskedIsMissed(c: Contents, p: Prefix, now: int)
    requires p in c.nets && GoodPrefix(p) && Alive(c.nets[p], now) && !Masked(p)
    requires forall q :: q in c.nets && q != p ==> !Covers(q, p.addr)
    ensures CoveredByAny(c, p.addr, now) && !Covered(c, p.addr, now)
  {
    CoversItself(p);
  }

  /** Put the other way: a prefix stored alone is found wherever it covers if and only if it is masked. */
  lemma FoundIffMasked(p: Prefix, exp: int)
    requires GoodPrefix(p)
    ensures var c := Contents(map[], map[p := exp]);
      (forall a, now :: Covered(c, a, now) <==> CoveredByAny(c, a, now)) <==> Masked(p)
  {
    var c := Contents(map[], map[p := exp]);
    if Masked(p) {
      MaskedSuffice(c);
    } else {
      var now := exp - 1;
      UnmaskedIsMissed(c, p, now);
    }
  }

  /** Such a prefix: 10.0.0.1/8 has a bit set behind its eighth. */
  lemma SomeUnmasked()
    ensures var p := Prefix([10, 0, 0, 1], 8); GoodPrefix(p) && !Masked(p)
  {
    StrayBit(Prefix([10, 0, 0, 1], 8), 3);
  }

  lemma StrayBit(p: Prefix, i: nat)
    requires GoodPrefix(p) && i < |p.addr| && p.bits <= 8 * i && p.addr[i] != 0
    ensures !Masked(p)
  {
    assert MaskByte(p.addr[i], 0) == 0;
    assert MaskTo(p.addr, p.bits)[i] == MaskByte(p.addr[i], KeptBits(p.bits, i));
  }

  // ---- The composition object ----

  class Composed<W(!new)> {
    const hs: Hasher<W>
    var entries: map<seq<byte>, Entry>
    var nets: map<Prefix, int>
    const lens: array2<int>
    var hash: W

    ghost function Value(): Contents
      reads this
    {
      Contents(entries, nets)
    }

    /** The index agrees with the contents: the hash and each counter are what a recount gives. */
    ghost predicate Valid(key: seq<byte>, typ: byte)
      reads this, lens
    {
      && Lawful(hs)
      && lens.Length0 == 2 && lens.Length1 == LENGTHS
      && OfType(typ, Value()) && Ranged(Value())
      && hash == HashOf(hs, key, Value())
      && forall f, b :: 0 <= f < 2 && 0 <= b < LENGTHS ==> lens[f, b] == |OfLength(nets, f, b)|
    }

    constructor (hs: Hasher<W>)
      requires Lawful(hs)
      ensures this.hs == hs && Value() == EMPTY && fresh(lens)
      ensures forall key, typ :: Valid(key, typ)
    {
      this.hs := hs;
      entries, nets, hash := map[], map[], hs.zero;
      lens := new int[2, LENGTHS]((i, j) => 0);
      new;
      forall f, b | 0 <= f < 2 && 0 <= b < LENGTHS ensures OfLength(nets, f, b) == {} {
      }
      forall key ensures HashOf(hs, key, EMPTY) == hs.zero {
        assert Cancels(hs, hs.zero);
      }
    }

    /** `crash` when the program ends here, at an index outside the table. */
    method ApplyNet(key: seq<byte>, r: Record) returns (crash: bool)
      requires Valid(key, CIDR) && Fits(CIDR, r)
      modifies this, lens
      ensures crash == Breaks(r)
      ensures !crash ==> Valid(key, CIDR) && Value() == Apply(old(Value()), r)
    {
      var p := r.prefix;
      var had := p in nets;
      crash := false;
      HashApply(hs, key, Value(), r);
      LengthsApply(Value(), r);
      if r.op == ADD {
        if !had {
          hash := hs.xor(hash, hs.sip(key, Material(p)));
          if p.bits < 0 || p.bits >= LENGTHS { return true; }
          Count(Family(p), p.bits, 1);
        }
        nets := nets[p := r.exp];
      } else if had {
        hash := hs.xor(hash, hs.sip(key, Material(p)));
        Count(Family(p), p.bits, -1);
        nets := nets - {p};
      } else {
        assert nets - {p} == nets;
      }
    }

    method Count(f: int, b: int, step: int)
      requires 0 <= f < lens.Length0 && 0 <= b < lens.Length1
      modifies lens
      ensures forall i, j :: 0 <= i < lens.Length0 && 0 <= j < lens.Length1 ==>
        lens[i, j] == old(lens[i, j]) + if i == f && j == b then step else 0
    {
      lens[f, b] := lens[f, b] + step;
    }

    method ApplyStr(key: seq<byte>, typ: byte, r: Record)
      requires Valid(key, typ) && typ != CIDR && r.Str?
      modifies this
      ensures Valid(key, typ) && Value() == Apply(old(Value()), r)
    {
      var had := r.value in entries;
      HashApply(hs, key, Value(), r);
      if r.op == ADD {
        if !had {
          hash := hs.xor(hash, hs.sip(key, r.value));
        }
        entries := entries[r.value := Entry(r.exp, r.reason)];
      } else if had {
        hash := hs.xor(hash, hs.sip(key, r.value));
        entries := entries - {r.value};
      } else {
        assert entries - {r.value} == entries;
      }
    }

    /** The loop over the records of a package or a snapshot. */
    method ApplyRecords(key: seq<byte>, typ: byte, recs: seq<Record>) returns (crash: bool)
      requires Valid(key, typ) && AllFit(typ, recs)
      modifies this, lens
      ensures crash == !Harmless(recs)
      ensures !crash ==> Valid(key, typ) && Value() == ApplyAll(old(Value()), recs)
    {
      for i := 0 to |recs|
        invariant Valid(key, typ) && Value() == ApplyAll(old(Value()), recs[..i])
        invariant forall k :: 0 <= k < i ==> !Breaks(recs[k])
      {
        assert recs[..i + 1][..i] == recs[..i] && recs[i] in recs;
        if typ == CIDR {
          crash := ApplyNet(key, recs[i]);
          if crash { return; }
        } else {
          ApplyStr(key, typ, recs[i]);
        }
      }
      assert recs[..|recs|] == recs;
      return false;
    }

    /** The fast lookup: probe the cut address at each length the table says is in use. */
    method ContainsAddr(ip: seq<byte>, now: int, ghost key: seq<byte>, ghost typ: byte) returns (found: bool)
      requires Valid(key, typ) && (|ip| == 4 || |ip| == 16)
      ensures found <==> Covered(Value(), Unmap(ip), now)
    {
      var a := Unmap(ip);
      var fam := if |a| == 4 then 0 else 1;
      var bits := 8 * |a|;
      while bits >= 0
        invariant -1 <= bits <= 8 * |a|
        invariant forall p :: p in nets && Masked(p) && Covers(p, a) && Alive(nets[p], now) ==> p.bits <= bits
      {
        if lens[fam, bits] != 0 {
          var p := Prefix(MaskTo(a, bits), bits);
          if p in nets && Alive(nets[p], now) {
            ProbeIsMasked(a, bits);
            CoversIsProbe(p, a);
            return true;
          }
        }
        forall p | p in nets && Masked(p) && Covers(p, a) && Alive(nets[p], now) ensures p.bits != bits {
          CoversIsProbe(p, a);
          InUse(nets, p);
        }
        bits := bits - 1;
      }
      return false;
    }
  }

  /** A stored prefix has its length counted. */
  lemma InUse(nets: map<Prefix, int>, p: Prefix)
    requires p in nets
    ensures |OfLength(nets, Family(p), p.bits)| > 0
  {
    assert p in OfLength(nets, Family(p), p.bits);
  }

  /** How the counter of one family and length changes. */
  function LengthStep(c: Contents, r: Record, f: int, b: int): int
    requires r.Net?
  {
    if Toggles(c, r) && f == Family(r.prefix) && b == r.prefix.bits then (if r.op == ADD then 1 else -1) else 0
  }

  lemma LengthApply(c: Contents, r: Record, f: int, b: int)
    requires r.Net?
    ensures |OfLength(Apply(c, r).nets, f, b)| == |OfLength(c.nets, f, b)| + LengthStep(c, r, f, b)
  {
    var p := r.prefix;
    var here := if f == Family(p) && b == p.bits then {p} else {};
    if r.op == ADD {
      assert OfLength(Apply(c, r).nets, f, b) == OfLength(c.nets, f, b) + here;
    } else {
      assert OfLength(Apply(c, r).nets, f, b) == OfLength(c.nets, f, b) - {p};
    }
  }

  /** The counters change with the keys, at the length of the record's prefix only. */
  lemma LengthsApply(c: Contents, r: Record)
    requires r.Net?
    ensures forall f, b :: |OfLength(Apply(c, r).nets, f, b)| == |OfLength(c.nets, f, b)| + LengthStep(c, r, f, b)
  {
    forall f, b { LengthApply(c, r, f, b); }
  }
}
