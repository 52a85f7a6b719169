/**
 A mirrored set as the source keeps it: fields updated in place, frame by frame.
 A record that indexes outside the length table ends the program; each method
 says exactly when that happens (`crash`), and what it does otherwise.
 */
module MirrorSet {
  import opened Bytes
  import opened Text
  import opened Wafs
  import opened Composition
  import opened Mirror
  import MirrorTheorems

  /** What netip makes of the text of a value: an address, a network, or neither. */
  datatype Query = Address(ip: seq<byte>) | Network(addr: seq<byte>, bits: nat) | Neither {
    predicate Valid() {
      match this
      case Address(ip) => |ip| == 4 || |ip| == 16
      case Network(addr, bits) => (|addr| == 4 || |addr| == 16) && bits <= 8 * |addr|
      case Neither => true
    }
  }

  /** A live masked prefix of exactly this length is stored and covers the address. */
  ghost predicate Holds(c: Contents, a: seq<byte>, bits: nat, now: int) {
    exists p :: p in c.nets && Masked(p) && p.bits == bits && Covers(p, a) && Alive(c.nets[p], now)
  }

  /** Whether a set of this type with these contents has the value. */
  ghost predicate Has(typ: byte, c: Contents, value: seq<byte>, query: Query, now: int) {
    if typ != CIDR then value in c.entries && Alive(c.entries[value].exp, now)
    else match query
      case Address(ip) => Covered(c, Unmap(ip), now)
      case Network(addr, bits) => Holds(c, Unmap(addr), bits, now)
      case Neither => false
  }

  class Mirrored<W(==, !new)> {
    const w: Rules<W>
    var ready: bool
    var epoch: nat
    var sn: nat
    var key: seq<byte>
    var typ: byte
    var comp: Composed<W>
    var snapBad: bool
    ghost var hist: seq<Event>

    ghost function Repr(): set<object>
      reads this
    {
      {this, comp, comp.lens}
    }

    ghost predicate Valid()
      reads this, comp, comp.lens
    {
      comp.hs == w.hs && MirrorTheorems.Decodes(w.unpack) && comp.Valid(key, typ)
    }

    ghost function Value(): State
      reads this, comp
    {
      State(ready, epoch, sn, key, typ, comp.Value(), snapBad, hist, true)
    }

    constructor (w: Rules<W>)
      requires Lawful(w.hs) && MirrorTheorems.Decodes(w.unpack)
      ensures this.w == w && Valid() && Value() == START && fresh(Repr())
    {
      var c := new Composed(w.hs);
      this.w, comp := w, c;
      ready, epoch, sn, key, typ, snapBad, hist := false, 0, 0, [], 0, false, [];
    }

    method Decode(data: seq<byte>) returns (p: Parsed)
      requires MirrorTheorems.Decodes(w.unpack)
      ensures p == w.unpack(data) && (p.Ok? ==> AllFit(p.head.typ, p.recs))
    {
      p := Unpack(data);
      if p.Ok? {
        MirrorTheorems.DecodedFits(w.unpack, data);
      }
    }

    /** A composition made of a snapshot's records, and whether its hash fails to come out. */
    method Build(head: Head, recs: seq<Record>) returns (c: Composed<W>, bad: bool, crash: bool)
      requires Lawful(w.hs) && AllFit(head.typ, recs)
      ensures fresh(c) && fresh(c.lens) && c.hs == w.hs && crash == !Harmless(recs)
      ensures !crash ==> c.Valid(head.key, head.typ) && c.Value() == ApplyAll(EMPTY, recs)
      ensures !crash ==> bad == (HashOf(w.hs, head.key, c.Value()) != w.hs.word(head.hash))
    {
      c := new Composed(w.hs);
      crash := c.ApplyRecords(head.key, head.typ, recs);
      bad := c.hash != w.hs.word(head.hash);
    }

    method Snapshot(env: Env) returns (crash: bool)
      requires Valid()
      modifies Repr()
      ensures crash == !Mirror.Snapshot(w, old(Value()), env).intact
      ensures !crash ==> Valid() && fresh(Repr() - old(Repr()))
      ensures !crash ==> Value() == Mirror.Snapshot(w, old(Value()), env)
    {
      crash := false;
      if snapBad { return; }
      hist := hist + [Asked];
      if !env.snap.Object? || !env.blobs { return; }
      var p := Decode(env.snap.data);
      if p.Fail? || p.head.kind != SNAPSHOT { return; }
      crash := Replace(p.head, p.recs);
    }

    /** The end of snapshot: a composition built aside takes the place of the old one. */
    method Replace(head: Head, recs: seq<Record>) returns (crash: bool)
      requires Valid() && AllFit(head.typ, recs)
      modifies this
      ensures crash == !Harmless(recs)
      ensures !crash ==> Valid() && fresh(Repr() - old(Repr()))
      ensures !crash ==> Value() == Install(w, old(Value()), head, recs)
    {
      var c, bad;
      c, bad, crash := Build(head, recs);
      if crash { return; }
      epoch, key, sn, typ, comp := head.epoch, head.key, head.sn, head.typ, c;
      ready, snapBad := true, bad;
      hist := hist + [Installed(epoch, sn, bad)];
    }

    method Verify(want: Want<W>, env: Env) returns (ok: bool, crash: bool)
      requires Valid()
      modifies Repr()
      ensures crash == !Mirror.Verify(w, old(Value()), want, env).0.intact
      ensures !crash ==> Valid() && fresh(Repr() - old(Repr()))
      ensures !crash ==> (Value(), ok) == Mirror.Verify(w, old(Value()), want, env)
    {
      if want.Anything? || want == Is(comp.hash) { return true, false; }
      ok, crash := false, false;
      if snapBad { return; }
      crash := Snapshot(env);
    }

    method ApplyPackage(data: seq<byte>, want: nat, env: Env) returns (ok: bool, crash: bool)
      requires Valid()
      modifies Repr()
      ensures crash == !Mirror.ApplyPackage(w, old(Value()), data, want, env).0.intact
      ensures !crash ==> Valid() && fresh(Repr() - old(Repr()))
      ensures !crash ==> (Value(), ok) == Mirror.ApplyPackage(w, old(Value()), data, want, env)
    {
      ok := false;
      var p := Decode(data);
      if p.Fail? || p.head.kind != PACKAGE || p.head.epoch != epoch || p.head.sn != want || p.head.typ != typ {
        crash := Snapshot(env);
        return;
      }
      ghost var s := Advance(Value(), p.head, p.recs);
      VerifyDown(w, s, Is(w.hs.word(p.head.hash)), env);
      crash := Take(p.head, p.recs);
      if crash { return; }
      ok, crash := Verify(Is(w.hs.word(p.head.hash)), env);
    }

    /** The locked part of applyPackage. */
    method Take(head: Head, recs: seq<Record>) returns (crash: bool)
      requires Valid() && AllFit(typ, recs) && head.epoch == epoch
      modifies this, comp, comp.lens
      ensures crash == !Harmless(recs) && comp == old(comp)
      ensures !crash ==> Valid() && Value() == Advance(old(Value()), head, recs)
    {
      crash := comp.ApplyRecords(key, typ, recs);
      if crash { return; }
      sn := head.sn;
      hist := hist + [Applied(head.epoch, head.sn)];
    }

    /** `h` is what catching up to `want` does on this set. */
    ghost predicate Drives(h: Handlers, want: Want<W>, env: Env) {
      && Steps(h) && StaysBroken(h)
      && (forall s, data, n {:trigger Mirror.ApplyPackage(w, s, data, n, env)} ::
            h.take(s, data, n) == Mirror.ApplyPackage(w, s, data, n, env))
      && (forall s {:trigger Mirror.Snapshot(w, s, env)} :: h.gone(s) == Mirror.Snapshot(w, s, env))
      && (forall s {:trigger Mirror.Verify(w, s, want, env)} :: h.last(s) == Mirror.Verify(w, s, want, env).0)
    }

    /** One slot of a read. */
    method ApplySlot(obj: Option<seq<byte>>, n: nat, env: Env, ghost h: Handlers, ghost want: Want<W>)
      returns (go: bool, crash: bool)
      requires Valid() && Drives(h, want, env)
      modifies Repr()
      ensures var r := Slotted(h, old(Value()), obj, n);
        crash == !r.0.intact && (!crash ==> (Value(), go) == r)
      ensures !crash ==> Valid() && fresh(Repr() - old(Repr()))
    {
      if obj.None? {
        go := false;
        crash := Snapshot(env);
        return;
      }
      go, crash := ApplyPackage(obj.value, n, env);
    }

    /** The loop over the slots of one read. */
    method ApplyBatch(objs: seq<Option<seq<byte>>>, first: nat, env: Env, ghost h: Handlers, ghost want: Want<W>)
      returns (go: bool, crash: bool)
      requires Valid() && Drives(h, want, env)
      modifies Repr()
      ensures crash == !Mirror.ApplyBatch(h, old(Value()), objs, first).0.intact
      ensures !crash ==> Valid() && fresh(Repr() - old(Repr()))
      ensures !crash ==> (Value(), go) == Mirror.ApplyBatch(h, old(Value()), objs, first)
    {
      assert objs[0..] == objs;
      for i := 0 to |objs|
        invariant Valid() && fresh(Repr() - old(Repr()))
        invariant Mirror.ApplyBatch(h, old(Value()), objs, first) == Mirror.ApplyBatch(h, Value(), objs[i..], first + i)
      {
        SlotStep(h, Value(), objs, i, first);
        go, crash := ApplySlot(objs[i], first + i, env, h, want);
        if crash || !go { return; }
      }
      return true, false;
    }

    /** One read of catchUp, of at most 256 packages; `go` when they were all taken. */
    method ReadOnce(upto: nat, want: Want<W>, env: Env, ghost h: Handlers) returns (go: bool, crash: bool)
      requires Valid() && SlotPerKey(env) && Drives(h, want, env) && sn < upto
      modifies Repr()
      ensures crash ==> !Mirror.CatchUp(h, old(Value()), upto, env).intact
      ensures !crash ==> Valid() && fresh(Repr() - old(Repr()))
      ensures !crash && go ==> old(sn) < sn
      ensures !crash && go ==> Mirror.CatchUp(h, old(Value()), upto, env) == Mirror.CatchUp(h, Value(), upto, env)
      ensures !crash && !go ==> Value() == Mirror.CatchUp(h, old(Value()), upto, env)
    {
      var n := BatchSize(sn, upto);
      var got := env.fetch(sn + 1, n);
      if got.None? { return false, false; }
      ghost var s := Value();
      ReadStep(h, s, got.value, upto, env);
      go, crash := ApplyBatch(got.value, sn + 1, env, h, want);
    }

    /** The loop of catchUp, until `upto` is held or something fails. */
    method CatchUp(upto: nat, want: Want<W>, env: Env, ghost h: Handlers) returns (crash: bool)
      requires Valid() && SlotPerKey(env) && Drives(h, want, env)
      modifies Repr()
      ensures var s := if env.blobs then Mirror.CatchUp(h, old(Value()), upto, env) else old(Value());
        crash == !s.intact && (!crash ==> Value() == s)
      ensures !crash ==> Valid() && fresh(Repr() - old(Repr()))
    {
      if !env.blobs { return false; }
      while sn < upto
        invariant Valid() && fresh(Repr() - old(Repr()))
        invariant Mirror.CatchUp(h, old(Value()), upto, env) == Mirror.CatchUp(h, Value(), upto, env)
        decreases if sn < upto then upto - sn else 0
      {
        var go;
        go, crash := ReadOnce(upto, want, env, h);
        if crash || !go { return; }
      }
      crash := Finish(want, env, h);
    }

    method Finish(want: Want<W>, env: Env, ghost h: Handlers) returns (crash: bool)
      requires Valid() && Drives(h, want, env)
      modifies Repr()
      ensures crash == !h.last(old(Value())).intact
      ensures !crash ==> Valid() && fresh(Repr() - old(Repr())) && Value() == h.last(old(Value()))
    {
      var _, c := Verify(want, env);
      crash := c;
    }

    method OnFrame(f: Frame<W>, env: Env) returns (crash: bool)
      requires Valid() && SlotPerKey(env)
      modifies Repr()
      ensures crash == !Mirror.OnFrame(w, old(Value()), f, env).intact
      ensures !crash ==> Valid() && fresh(Repr() - old(Repr()))
      ensures !crash ==> Value() == Mirror.OnFrame(w, old(Value()), f, env)
    {
      crash := false;
      if f.v != VERSION3 { return; }
      if !ready {
        crash := Snapshot(env);
        return;
      }
      if f.op == Resync || f.epoch.None? { return; }
      if f.epoch.value != epoch {
        snapBad, hist := false, hist + [NewEpoch];
        crash := Snapshot(env);
        return;
      }
      if f.sn < sn {
      } else if f.sn == sn {
        if f.op == Tick || f.op == Diff {
          var _, c := Verify(f.hash, env);
          crash := c;
        }
      } else {
        if f.op == Diff && f.inline.Bytes? && f.sn == sn + 1 {
          var _, c := ApplyPackage(f.inline.data, f.sn, env);
          crash := c;
          return;
        }
        HandlersStayBroken(w, f.hash, env);
        crash := CatchUp(f.sn, f.hash, env, HandlersOf(w, f.hash, env));
      }
    }

    /**
     The loop of run: a snapshot first, then frame after frame. The set is what the
     specified run gives, hash and length table included, or the program has ended.
     */
    method Follow(first: Env, frames: seq<(Frame<W>, Env)>) returns (crash: bool)
      requires Valid() && Value() == START && forall i :: 0 <= i < |frames| ==> SlotPerKey(frames[i].1)
      modifies Repr()
      ensures crash == !Run(w, first, frames).intact
      ensures !crash ==> Valid() && fresh(Repr() - old(Repr())) && Value() == Run(w, first, frames)
    {
      crash := Snapshot(first);
      if crash {
        RunDown(w, first, frames, 0);
        return;
      }
      for i := 0 to |frames|
        invariant Valid() && fresh(Repr() - old(Repr())) && Value() == Run(w, first, frames[..i])
      {
        RunStep(w, first, frames, i);
        crash := OnFrame(frames[i].0, frames[i].1);
        if crash {
          RunDown(w, first, frames, i + 1);
          return;
        }
      }
      assert frames[..|frames|] == frames;
      return false;
    }

    /** Contains, with what netip makes of the value. */
    method Contains(value: seq<byte>, query: Query, now: int) returns (found: bool, known: bool)
      requires Valid() && query.Valid()
      ensures known == (value != [] && ready)
      ensures found <==> known && Has(typ, Value().c, value, query, now)
    {
      if value == [] || !ready { return false, false; }
      known := true;
      if typ != CIDR {
        found := value in comp.entries && Alive(comp.entries[value].exp, now);
        return;
      }
      match query
      case Address(ip) => found := comp.ContainsAddr(ip, now, key, typ);
      case Network(addr, bits) => found := HoldsNetwork(Unmap(addr), bits, now);
      case Neither => found := false;
    }

    /** The lookup of a network; a length that does not fit the unmapped address makes no prefix. */
    method HoldsNetwork(a: seq<byte>, bits: nat, now: int) returns (found: bool)
      requires Valid()
      ensures found <==> Holds(Value().c, a, bits, now)
    {
      if bits > 8 * |a| { return false; }
      var p := Prefix(MaskTo(a, bits), bits);
      found := p in comp.nets && Alive(comp.nets[p], now);
      ProbeIsMasked(a, bits);
      CoversIsProbe(p, a);
      forall q | q in comp.nets && Masked(q) && q.bits == bits && Covers(q, a) ensures q == p {
        CoversIsProbe(q, a);
      }
    }

    /** ContainsAddr: whether the set, as mirrored, covers the address. */
    method ContainsAddr(ip: seq<byte>, now: int) returns (found: bool, known: bool)
      requires Valid() && (|ip| == 4 || |ip| == 16)
      ensures known == ready
      ensures found <==> known && Covered(Value().c, Unmap(ip), now)
    {
      if !ready { return false, false; }
      found := comp.ContainsAddr(ip, now, key, typ);
      known := true;
    }
  }

  // ---- Steps of the loops ----

  lemma RunStep<W>(w: Rules<W>, first: Env, frames: seq<(Frame<W>, Env)>, i: nat)
    requires i < |frames| && forall j :: 0 <= j < |frames| ==> SlotPerKey(frames[j].1)
    ensures Run(w, first, frames[..i + 1]) ==
      Mirror.OnFrame(w, Run(w, first, frames[..i]), frames[i].0, frames[i].1)
  {
    assert frames[..i + 1][..i] == frames[..i] && frames[..i + 1][i] == frames[i];
  }

  lemma VerifyDown<W>(w: Rules<W>, s: State, want: Want<W>, env: Env)
    ensures !s.intact ==> !Mirror.Verify(w, s, want, env).0.intact
  {
    if !s.intact { SnapshotDown(w, s, env); }
  }

  /** What one slot of a read does. */
  ghost function Slotted(h: Handlers, s: State, obj: Option<seq<byte>>, n: nat): (State, bool) {
    if obj.None? then (h.gone(s), false) else h.take(s, obj.value, n)
  }

  lemma SlotStep(h: Handlers, s: State, objs: seq<Option<seq<byte>>>, i: nat, first: nat)
    requires StaysBroken(h) && i < |objs|
    ensures var r := Slotted(h, s, objs[i], first + i);
      var all := Mirror.ApplyBatch(h, s, objs[i..], first + i);
      && all == (if r.1 then Mirror.ApplyBatch(h, r.0, objs[i + 1..], first + (i + 1)) else r)
      && (!r.0.intact ==> !all.0.intact)
  {
    assert objs[i..][0] == objs[i] && objs[i..][1..] == objs[i + 1..];
    var r := Slotted(h, s, objs[i], first + i);
    if !r.0.intact { BatchDown(h, r.0, objs[i + 1..], first + (i + 1)); }
  }

  lemma ReadStep(h: Handlers, s: State, objs: seq<Option<seq<byte>>>, upto: nat, env: Env)
    requires SlotPerKey(env) && Steps(h) && StaysBroken(h) && s.sn < upto
    requires env.fetch(s.sn + 1, BatchSize(s.sn, upto)) == Some(objs)
    ensures var r := Mirror.ApplyBatch(h, s, objs, s.sn + 1);
      var all := Mirror.CatchUp(h, s, upto, env);
      && all == (if r.1 then Mirror.CatchUp(h, r.0, upto, env) else r.0)
      && (r.1 ==> s.sn < r.0.sn)
      && (!r.0.intact ==> !all.intact)
  {
    var r := Mirror.ApplyBatch(h, s, objs, s.sn + 1);
    if r.1 {
      BatchHeld(h, s, objs, s.sn + 1);
      OnePass(h, s, objs, r.0, upto, env);
      if !r.0.intact { CatchUpDown(h, r.0, upto, env); }
    }
  }
}
