/**
 The replication protocol of internal/livelist/livelist.go: what one frame does
 to the mirror of a set, whatever the broker and the object store answer.
 */
module Mirror {
  import opened Text
  import opened Bytes
  import opened Wafs
  import opened Composition

  const VERSION3 := 3
  const PACKAGES_PER_READ: nat := 256

  datatype Op = Diff | Tick | Resync | Other

  /** The hash a frame asks for: none, a word, or text that is the hash of nothing. */
  datatype Want<+W> = Anything | Is(word: W) | Never

  datatype Inline = Absent | NotBase64 | Bytes(data: seq<byte>)

  /** A frame as it arrives; the epoch is None when it is not a hexadecimal number. */
  datatype Frame<+W> = Frame(v: int, op: Op, epoch: Option<nat>, sn: nat, hash: Want<W>, inline: Inline)

  /** What comes of asking for a snapshot. */
  datatype SnapAnswer = RequestFailed | Refused | Unreadable | Gone | Object(data: seq<byte>)

  /** A read of several packages: None when the store fails, a None slot when the package is gone. */
  type Reads = (nat, nat) -> Option<seq<Option<seq<byte>>>>

  /** How the outside answers while one frame is handled. */
  datatype Env = Env(blobs: bool, snap: SnapAnswer, fetch: Reads)

  /** The history of a mirror, for the statements about whole runs. */
  datatype Event =
    | Asked
    | Installed(epoch: nat, sn: nat, bad: bool)
    | Applied(epoch: nat, sn: nat)
    | NewEpoch

  /** How words are hashed and how an object is unpacked: for these statements, by any decoder. */
  datatype Rules<!W> = Rules(hs: Hasher<W>, unpack: seq<byte> -> Parsed)

  /** `intact` while no record applied has indexed outside the length table, which ends the program. */
  datatype State = State(ready: bool, epoch: nat, sn: nat, key: seq<byte>, typ: byte, c: Contents, snapBad: bool,
                         hist: seq<Event>, intact: bool)

  const START := State(false, 0, 0, [], 0, EMPTY, false, [], true)

  // ---- What the handlers do ----

  ghost function Install<W>(w: Rules<W>, s: State, h: Head, recs: seq<Record>): State {
    var c := ApplyAll(EMPTY, recs);
    var bad := HashOf(w.hs, h.key, c) != w.hs.word(h.hash);
    State(true, h.epoch, h.sn, h.key, h.typ, c, bad, s.hist + [Installed(h.epoch, h.sn, bad)],
          s.intact && Harmless(recs))
  }

  ghost function Snapshot<W>(w: Rules<W>, s: State, env: Env): State {
    if s.snapBad then s else
    var asked := s.(hist := s.hist + [Asked]);
    if !env.snap.Object? || !env.blobs then asked else
    var p := w.unpack(env.snap.data);
    if p.Fail? || p.head.kind != SNAPSHOT then asked else Install(w, asked, p.head, p.recs)
  }

  /** The state after a check and whether the check passed. */
  ghost function Verify<W>(w: Rules<W>, s: State, want: Want<W>, env: Env): (State, bool) {
    if want.Anything? || want == Is(HashOf(w.hs, s.key, s.c)) then (s, true)
    else if s.snapBad then (s, false)
    else (Snapshot(w, s, env), false)
  }

  predicate Matches(s: State, h: Head, want: nat) {
    h.kind == PACKAGE && h.epoch == s.epoch && h.sn == want && h.typ == s.typ
  }

  function Advance(s: State, h: Head, recs: seq<Record>): State {
    s.(c := ApplyAll(s.c, recs), sn := h.sn, hist := s.hist + [Applied(h.epoch, h.sn)],
       intact := s.intact && Harmless(recs))
  }

  ghost function ApplyPackage<W>(w: Rules<W>, s: State, data: seq<byte>, want: nat, env: Env): (r: (State, bool))
    ensures r.1 ==> r.0.sn == want
  {
    var p := w.unpack(data);
    if p.Fail? || !Matches(s, p.head, want) then (Snapshot(w, s, env), false)
    else Verify(w, Advance(s, p.head, p.recs), Is(w.hs.word(p.head.hash)), env)
  }

  /** The store gives one slot per key it was asked for. */
  ghost predicate SlotPerKey(env: Env) {
    forall from, n {:trigger env.fetch(from, n)} :: env.fetch(from, n).Some? ==> |env.fetch(from, n).value| == n
  }

  /**
   What the catch-up loops are made of: taking one package, meeting a package
   that is gone, and the check at the end.
   */
  datatype Handlers = Handlers(
    take: (State, seq<byte>, nat) -> (State, bool),
    gone: State -> State,
    last: State -> State)

  ghost function HandlersOf<W>(w: Rules<W>, want: Want<W>, env: Env): (h: Handlers)
    ensures Steps(h)
  {
    Handlers((s: State, data: seq<byte>, n: nat) => ApplyPackage(w, s, data, n, env),
          (s: State) => Snapshot(w, s, env),
          (s: State) => Verify(w, s, want, env).0)
  }

  /** A package taken is the one wanted. */
  ghost predicate Steps(h: Handlers) {
    forall s, data, n {:trigger h.take(s, data, n)} :: h.take(s, data, n).1 ==> h.take(s, data, n).0.sn == n
  }

  /** The loop over the slots of one read; `first` is the sequence of the first slot. */
  ghost function ApplyBatch(h: Handlers, s: State, objs: seq<Option<seq<byte>>>, first: nat): (State, bool)
    decreases |objs|
  {
    if objs == [] then (s, true)
    else if objs[0].None? then (h.gone(s), false)
    else
      var r := h.take(s, objs[0].value, first);
      if r.1 then ApplyBatch(h, r.0, objs[1..], first + 1) else r
  }

  lemma {:induction false} BatchHeld(h: Handlers, s: State, objs: seq<Option<seq<byte>>>, first: nat)
    requires Steps(h) && ApplyBatch(h, s, objs, first).1 && objs != []
    ensures ApplyBatch(h, s, objs, first).0.sn + 1 == first + |objs|
    decreases |objs|
  {
    var r := h.take(s, objs[0].value, first);
    if |objs| > 1 {
      BatchHeld(h, r.0, objs[1..], first + 1);
    }
  }

  function BatchSize(held: nat, upto: nat): (n: nat)
    requires held < upto
    ensures 1 <= n <= upto - held && n <= 256 && (n < upto - held ==> n == 256)
  {
    if upto - held > PACKAGES_PER_READ then PACKAGES_PER_READ else upto - held
  }

  /** The loop of catchUp; what is left, upto - s.sn, falls on every pass that does not return. */
  ghost function CatchUp(h: Handlers, s: State, upto: nat, env: Env): State
    requires SlotPerKey(env) && Steps(h)
    decreases if s.sn < upto then upto - s.sn else 0
  {
    if s.sn >= upto then h.last(s) else
    var n := BatchSize(s.sn, upto);
    match env.fetch(s.sn + 1, n)
    case None => s
    case Some(objs) =>
      var r := ApplyBatch(h, s, objs, s.sn + 1);
      if !r.1 then r.0 else
      BatchHeld(h, s, objs, s.sn + 1);
      CatchUp(h, r.0, upto, env)
  }

  /** A read whose packages are all taken is one pass of the loop. */
  lemma OnePass(h: Handlers, s: State, objs: seq<Option<seq<byte>>>, s': State, upto: nat, env: Env)
    requires SlotPerKey(env) && Steps(h) && s.sn < upto
    requires env.fetch(s.sn + 1, BatchSize(s.sn, upto)) == Some(objs)
    requires ApplyBatch(h, s, objs, s.sn + 1) == (s', true)
    ensures CatchUp(h, s, upto, env) == CatchUp(h, s', upto, env)
  {
  }

  ghost function OnFrame<W>(w: Rules<W>, s: State, f: Frame<W>, env: Env): State
    requires SlotPerKey(env)
  {
    if f.v != VERSION3 then s
    else if !s.ready then Snapshot(w, s, env)
    else if f.op == Resync || f.epoch.None? then s
    else if f.epoch.value != s.epoch then
      Snapshot(w, s.(snapBad := false, hist := s.hist + [NewEpoch]), env)
    else if f.sn < s.sn then s
    else if f.sn == s.sn then
      if f.op == Tick || f.op == Diff then Verify(w, s, f.hash, env).0 else s
    else if f.op == Diff && f.inline.Bytes? && f.sn == s.sn + 1 then
      ApplyPackage(w, s, f.inline.data, f.sn, env).0
    else if env.blobs then CatchUp(HandlersOf(w, f.hash, env), s, f.sn, env)
    else s
  }

  // ---- A crash is not undone ----

  lemma SnapshotDown<W>(w: Rules<W>, s: State, env: Env)
    requires !s.intact
    ensures !Snapshot(w, s, env).intact
  {
  }

  lemma PackageDown<W>(w: Rules<W>, s: State, data: seq<byte>, want: nat, env: Env)
    requires !s.intact
    ensures !ApplyPackage(w, s, data, want, env).0.intact
  {
  }

  /** Handlers that leave a broken state broken. */
  ghost predicate StaysBroken(h: Handlers) {
    && (forall s: State, data, n {:trigger h.take(s, data, n)} :: !s.intact ==> !h.take(s, data, n).0.intact)
    && (forall s: State {:trigger h.gone(s)} :: !s.intact ==> !h.gone(s).intact)
    && (forall s: State {:trigger h.last(s)} :: !s.intact ==> !h.last(s).intact)
  }

  lemma HandlersStayBroken<W>(w: Rules<W>, want: Want<W>, env: Env)
    ensures StaysBroken(HandlersOf(w, want, env))
  {
    forall s: State, data: seq<byte>, n: nat | !s.intact
      ensures !ApplyPackage(w, s, data, n, env).0.intact
    {
      PackageDown(w, s, data, n, env);
    }
  }

  lemma {:induction false} BatchDown(h: Handlers, s: State, objs: seq<Option<seq<byte>>>, first: nat)
    requires StaysBroken(h) && !s.intact
    ensures !ApplyBatch(h, s, objs, first).0.intact
    decreases |objs|
  {
    if objs != [] && objs[0].Some? {
      var r := h.take(s, objs[0].value, first);
      if r.1 { BatchDown(h, r.0, objs[1..], first + 1); }
    }
  }

  lemma {:induction false} CatchUpDown(h: Handlers, s: State, upto: nat, env: Env)
    requires SlotPerKey(env) && Steps(h) && StaysBroken(h) && !s.intact
    ensures !CatchUp(h, s, upto, env).intact
    decreases if s.sn < upto then upto - s.sn else 0
  {
    if s.sn < upto {
      var n := BatchSize(s.sn, upto);
      var got := env.fetch(s.sn + 1, n);
      if got.Some? {
        BatchDown(h, s, got.value, s.sn + 1);
        var r := ApplyBatch(h, s, got.value, s.sn + 1);
        if r.1 {
          BatchHeld(h, s, got.value, s.sn + 1);
          CatchUpDown(h, r.0, upto, env);
        }
      }
    }
  }

  /** A run: the snapshot asked for at the start, then frames, each met by its own answers. */
  ghost function Run<W>(w: Rules<W>, first: Env, frames: seq<(Frame<W>, Env)>): State
    requires forall i :: 0 <= i < |frames| ==> SlotPerKey(frames[i].1)
  {
    if frames == [] then Snapshot(w, START, first) else
      var n := |frames| - 1;
      OnFrame(w, Run(w, first, frames[..n]), frames[n].0, frames[n].1)
  }

  lemma FrameDown<W>(w: Rules<W>, s: State, f: Frame<W>, env: Env)
    requires SlotPerKey(env) && !s.intact
    ensures !OnFrame(w, s, f, env).intact
  {
    HandlersStayBroken(w, f.hash, env);
    if f.sn > s.sn && f.op == Diff && f.inline.Bytes? && f.sn == s.sn + 1 {
      PackageDown(w, s, f.inline.data, f.sn, env);
    }
    if f.sn > s.sn { CatchUpDown(HandlersOf(w, f.hash, env), s, f.sn, env); }
  }

  /** A run that has crashed by one frame has crashed by all later ones. */
  lemma {:induction false} RunDown<W>(w: Rules<W>, first: Env, frames: seq<(Frame<W>, Env)>, i: nat)
    requires forall j :: 0 <= j < |frames| ==> SlotPerKey(frames[j].1)
    requires i <= |frames| && !Run(w, first, frames[..i]).intact
    ensures !Run(w, first, frames).intact
  {
    if i == |frames| {
      assert frames[..i] == frames;
    } else {
      var n := |frames| - 1;
      assert frames[..n][..i] == frames[..i];
      RunDown(w, first, frames[..n], i);
      FrameDown(w, Run(w, first, frames[..n]), frames[n].0, frames[n].1);
    }
  }

  /**
   An invariant of the mirror: kept by an installed snapshot, by a package taken
   in sequence, and by the two bare history entries. `ok` says which objects the
   outside may show.
   */
  ghost predicate Kept<W(!new)>(w: Rules<W>, inv: State -> bool, ok: seq<byte> -> bool) {
    && inv(START)
    && (forall s, data ::
      inv(s) && !s.snapBad && ok(data) && w.unpack(data).Ok? && w.unpack(data).head.kind == SNAPSHOT ==>
        inv(Install(w, s.(hist := s.hist + [Asked]), w.unpack(data).head, w.unpack(data).recs)))
    && (forall s :: inv(s) && !s.snapBad ==> inv(s.(hist := s.hist + [Asked])))
    && (forall s, data, n {:trigger Matches(s, w.unpack(data).head, n)} ::
      inv(s) && s.ready && ok(data) && w.unpack(data).Ok? && n == s.sn + 1 && Matches(s, w.unpack(data).head, n) ==>
        inv(Advance(s, w.unpack(data).head, w.unpack(data).recs)))
    && (forall s :: inv(s) && s.ready ==> inv(s.(snapBad := false, hist := s.hist + [NewEpoch])))
  }

  ghost predicate Shows(env: Env, ok: seq<byte> -> bool) {
    && SlotPerKey(env)
    && (env.snap.Object? ==> ok(env.snap.data))
    && (forall from, n, i {:trigger env.fetch(from, n).value[i]} ::
          env.fetch(from, n).Some? && 0 <= i < |env.fetch(from, n).value| && env.fetch(from, n).value[i].Some? ==>
          ok(env.fetch(from, n).value[i].value))
  }

  ghost predicate ShowsAll<W>(frames: seq<(Frame<W>, Env)>, ok: seq<byte> -> bool) {
    forall i :: 0 <= i < |frames| ==>
      Shows(frames[i].1, ok) && (frames[i].0.inline.Bytes? ==> ok(frames[i].0.inline.data))
  }

  lemma KeptSnapshot<W(!new)>(w: Rules<W>, inv: State -> bool, ok: seq<byte> -> bool, s: State, env: Env)
    requires Kept(w, inv, ok) && inv(s) && Shows(env, ok)
    ensures inv(Snapshot(w, s, env)) && (s.ready ==> Snapshot(w, s, env).ready)
  {
  }

  lemma KeptVerify<W(!new)>(w: Rules<W>, inv: State -> bool, ok: seq<byte> -> bool, s: State, want: Want<W>, env: Env)
    requires Kept(w, inv, ok) && inv(s) && Shows(env, ok)
    ensures var r := Verify(w, s, want, env); inv(r.0) && (s.ready ==> r.0.ready) && (r.1 ==> r.0 == s)
  {
    KeptSnapshot(w, inv, ok, s, env);
  }

  lemma KeptPackage<W(!new)>(w: Rules<W>, inv: State -> bool, ok: seq<byte> -> bool, s: State, data: seq<byte>,
                             want: nat, env: Env)
    requires Kept(w, inv, ok) && inv(s) && s.ready && Shows(env, ok) && ok(data) && want == s.sn + 1
    ensures var r := ApplyPackage(w, s, data, want, env); inv(r.0) && r.0.ready
  {
    var p := w.unpack(data);
    KeptSnapshot(w, inv, ok, s, env);
    if p.Ok? && Matches(s, p.head, want) {
      KeptVerify(w, inv, ok, Advance(s, p.head, p.recs), Is(w.hs.word(p.head.hash)), env);
    }
  }

  /** The handlers keep the invariant. */
  ghost predicate KeepsInvariant(h: Handlers, inv: State -> bool, ok: seq<byte> -> bool) {
    && Steps(h)
    && (forall s, data, n {:trigger h.take(s, data, n)} :: inv(s) && s.ready && ok(data) && n == s.sn + 1 ==>
          inv(h.take(s, data, n).0) && h.take(s, data, n).0.ready)
    && (forall s {:trigger h.gone(s)} :: inv(s) && s.ready ==> inv(h.gone(s)) && h.gone(s).ready)
    && (forall s {:trigger h.last(s)} :: inv(s) && s.ready ==> inv(h.last(s)) && h.last(s).ready)
  }

  lemma HandlersKeep<W(!new)>(w: Rules<W>, inv: State -> bool, ok: seq<byte> -> bool, want: Want<W>, env: Env)
    requires Kept(w, inv, ok) && Shows(env, ok)
    ensures KeepsInvariant(HandlersOf(w, want, env), inv, ok)
  {
    forall s, data, n | inv(s) && s.ready && ok(data) && n == s.sn + 1
      ensures inv(ApplyPackage(w, s, data, n, env).0) && ApplyPackage(w, s, data, n, env).0.ready
    {
      KeptPackage(w, inv, ok, s, data, n, env);
    }
    forall s | inv(s) && s.ready
      ensures inv(Snapshot(w, s, env)) && Snapshot(w, s, env).ready
      ensures inv(Verify(w, s, want, env).0) && Verify(w, s, want, env).0.ready
    {
      KeptSnapshot(w, inv, ok, s, env);
      KeptVerify(w, inv, ok, s, want, env);
    }
  }

  lemma {:induction false} KeptBatch(h: Handlers, inv: State -> bool, ok: seq<byte> -> bool, s: State,
                                     objs: seq<Option<seq<byte>>>)
    requires KeepsInvariant(h, inv, ok) && inv(s) && s.ready
    requires forall i :: 0 <= i < |objs| && objs[i].Some? ==> ok(objs[i].value)
    ensures var r := ApplyBatch(h, s, objs, s.sn + 1); inv(r.0) && r.0.ready
    decreases |objs|
  {
    if objs != [] && objs[0].Some? {
      var r := h.take(s, objs[0].value, s.sn + 1);
      if r.1 {
        KeptBatch(h, inv, ok, r.0, objs[1..]);
      }
    }
  }

  lemma {:induction false} KeptCatchUp(h: Handlers, inv: State -> bool, ok: seq<byte> -> bool, s: State,
                                       upto: nat, env: Env)
    requires KeepsInvariant(h, inv, ok) && inv(s) && s.ready && Shows(env, ok)
    ensures inv(CatchUp(h, s, upto, env)) && CatchUp(h, s, upto, env).ready
    decreases if s.sn < upto then upto - s.sn else 0
  {
    if s.sn < upto {
      var n := BatchSize(s.sn, upto);
      var got := env.fetch(s.sn + 1, n);
      if got.Some? {
        forall i | 0 <= i < |got.value| && got.value[i].Some? ensures ok(got.value[i].value) {
          assert env.fetch(s.sn + 1, n).value[i] == got.value[i];
        }
        KeptBatch(h, inv, ok, s, got.value);
        var r := ApplyBatch(h, s, got.value, s.sn + 1);
        if r.1 {
          BatchHeld(h, s, got.value, s.sn + 1);
          KeptCatchUp(h, inv, ok, r.0, upto, env);
        }
      }
    }
  }

  /** One frame keeps any such invariant, and a ready mirror ready. */
  lemma KeptFrame<W(!new)>(w: Rules<W>, inv: State -> bool, ok: seq<byte> -> bool, s: State, f: Frame<W>, env: Env)
    requires Kept(w, inv, ok) && inv(s) && Shows(env, ok) && (f.inline.Bytes? ==> ok(f.inline.data))
    ensures inv(OnFrame(w, s, f, env)) && (s.ready ==> OnFrame(w, s, f, env).ready)
  {
    if f.v != VERSION3 {
    } else if !s.ready {
      KeptSnapshot(w, inv, ok, s, env);
    } else if f.op == Resync || f.epoch.None? {
    } else if f.epoch.value != s.epoch {
      KeptSnapshot(w, inv, ok, s.(snapBad := false, hist := s.hist + [NewEpoch]), env);
    } else if f.sn == s.sn {
      KeptVerify(w, inv, ok, s, f.hash, env);
    } else if f.sn > s.sn {
      if f.inline.Bytes? && f.sn == s.sn + 1 {
        KeptPackage(w, inv, ok, s, f.inline.data, f.sn, env);
      }
      HandlersKeep(w, inv, ok, f.hash, env);
      KeptCatchUp(HandlersOf(w, f.hash, env), inv, ok, s, f.sn, env);
    }
  }

  /** Every run keeps it. */
  lemma {:induction false} KeptRun<W(!new)>(w: Rules<W>, inv: State -> bool, ok: seq<byte> -> bool, first: Env,
                                            frames: seq<(Frame<W>, Env)>)
    requires Kept(w, inv, ok) && Shows(first, ok) && ShowsAll(frames, ok)
    ensures inv(Run(w, first, frames))
  {
    if frames == [] {
      KeptSnapshot(w, inv, ok, START, first);
    } else {
      var n := |frames| - 1;
      assert ShowsAll(frames[..n], ok) by {
        assert forall i :: 0 <= i < n ==> frames[..n][i] == frames[i];
      }
      KeptRun(w, inv, ok, first, frames[..n]);
      KeptFrame(w, inv, ok, Run(w, first, frames[..n]), frames[n].0, frames[n].1);
    }
  }
}
