/** What every run of the mirror has, under lost, repeated and reordered frames and failing reads. */
module MirrorTheorems {
  import opened Text
  import opened Bytes
  import opened Wafs
  import opened Composition
  import opened Mirror

  // ---- Agreement with the keeper ----

  /** The keeper's log of one epoch: a fixed key and type, and the packages in order. */
  datatype Log = Log(key: seq<byte>, typ: byte, packages: seq<seq<Record>>)

  type Keeper = map<nat, Log>

  /** The keeper's set after the first n packages of an epoch. */
  function Replay(log: Log, n: nat): Contents
    requires n <= |log.packages|
  {
    if n == 0 then EMPTY else ApplyAll(Replay(log, n - 1), log.packages[n - 1])
  }

  /** Whatever parses as a package or a snapshot is the keeper's for its epoch and sequence. */
  predicate Authentic(unpack: seq<byte> -> Parsed, k: Keeper, data: seq<byte>) {
    var p := unpack(data);
    p.Ok? && (p.head.kind == PACKAGE || p.head.kind == SNAPSHOT) ==>
      var h := p.head;
      && h.epoch in k
      && h.sn <= |k[h.epoch].packages|
      && h.typ == k[h.epoch].typ
      && (h.kind == PACKAGE ==> 1 <= h.sn && p.recs == k[h.epoch].packages[h.sn - 1])
      && (h.kind == SNAPSHOT ==> h.key == k[h.epoch].key && ApplyAll(EMPTY, p.recs) == Replay(k[h.epoch], h.sn))
  }

  predicate Agrees(k: Keeper, s: State) {
    s.ready ==>
      && s.epoch in k
      && s.sn <= |k[s.epoch].packages|
      && s.key == k[s.epoch].key && s.typ == k[s.epoch].typ
      && s.c == Replay(k[s.epoch], s.sn)
  }

  /**
   Agreement. Whatever frames arrive and whichever reads fail, a ready mirror
   holds exactly the keeper's set (values, expiries and reasons) at the epoch and
   sequence it holds, by whichever road it got there.
   */
  lemma Agreement<W(!new)>(w: Rules<W>, k: Keeper, first: Env, frames: seq<(Frame<W>, Env)>)
    requires Shows(first, d => Authentic(w.unpack, k, d)) && ShowsAll(frames, d => Authentic(w.unpack, k, d))
    ensures Agrees(k, Run(w, first, frames))
  {
    var inv, ok := (s: State) => Agrees(k, s), (d: seq<byte>) => Authentic(w.unpack, k, d);
    forall s, data { AgreesStep(w, k, s, data); }
    assert Kept(w, inv, ok);
    KeptRun(w, inv, ok, first, frames);
  }

  lemma AgreesStep<W>(w: Rules<W>, k: Keeper, s: State, data: seq<byte>)
    ensures Authentic(w.unpack, k, data) && w.unpack(data).Ok? && w.unpack(data).head.kind == SNAPSHOT ==>
              Agrees(k, Install(w, s.(hist := s.hist + [Asked]), w.unpack(data).head, w.unpack(data).recs))
    ensures Authentic(w.unpack, k, data) && w.unpack(data).Ok? && s.ready && Agrees(k, s)
            && Matches(s, w.unpack(data).head, s.sn + 1) ==>
              Agrees(k, Advance(s, w.unpack(data).head, w.unpack(data).recs))
  {
    var p := w.unpack(data);
    if Authentic(w.unpack, k, data) && p.Ok? && s.ready && Agrees(k, s) && Matches(s, p.head, s.sn + 1) {
      AgreesAdvance(k, s, p.head, p.recs);
    }
  }

  lemma AgreesAdvance(k: Keeper, s: State, h: Head, recs: seq<Record>)
    requires s.ready && Agrees(k, s) && Matches(s, h, s.sn + 1)
    requires h.sn <= |k[h.epoch].packages| && recs == k[h.epoch].packages[h.sn - 1]
    ensures Agrees(k, Advance(s, h, recs))
  {
    assert Replay(k[s.epoch], h.sn) == ApplyAll(Replay(k[s.epoch], h.sn - 1), recs);
  }

  // ---- Honest hashes raise no alarm ----

  /** The hash in the head is that of the keeper's set. */
  ghost predicate Honest<W>(w: Rules<W>, k: Keeper, data: seq<byte>) {
    && Authentic(w.unpack, k, data)
    && (w.unpack(data).Ok? && (w.unpack(data).head.kind == PACKAGE || w.unpack(data).head.kind == SNAPSHOT) ==>
          var h := w.unpack(data).head;
          w.hs.word(h.hash) == HashOf(w.hs, k[h.epoch].key, Replay(k[h.epoch], h.sn)))
  }

  /** With honest objects no snapshot is ever found bad. */
  lemma NoFalseAlarm<W(!new)>(w: Rules<W>, k: Keeper, honest: seq<byte> -> bool, first: Env,
                              frames: seq<(Frame<W>, Env)>)
    requires forall d :: honest(d) ==> Honest(w, k, d)
    requires Shows(first, honest) && ShowsAll(frames, honest)
    ensures Agrees(k, Run(w, first, frames)) && !Run(w, first, frames).snapBad
  {
    var inv := (s: State) => Agrees(k, s) && !s.snapBad;
    forall s, data { AgreesStep(w, k, s, data); }
    forall s, data | honest(data) && w.unpack(data).Ok? && w.unpack(data).head.kind == SNAPSHOT
      ensures !Install(w, s, w.unpack(data).head, w.unpack(data).recs).snapBad
    {
    }
    assert Kept(w, inv, honest);
    KeptRun(w, inv, honest, first, frames);
  }

  /** And a package in sequence is taken without asking for a snapshot. */
  lemma HonestPackage<W(!new)>(w: Rules<W>, k: Keeper, s: State, data: seq<byte>, env: Env)
    requires s.ready && Agrees(k, s) && Honest(w, k, data)
    requires w.unpack(data).Ok? && Matches(s, w.unpack(data).head, s.sn + 1)
    ensures ApplyPackage(w, s, data, s.sn + 1, env) == (Advance(s, w.unpack(data).head, w.unpack(data).recs), true)
  {
  }

  // ---- A store that has the packages brings the mirror up to date ----

  /** The object is the keeper's honest package of this epoch and sequence. */
  ghost predicate PackageOf<W>(w: Rules<W>, k: Keeper, epoch: nat, n: nat, data: seq<byte>) {
    && Honest(w, k, data)
    && w.unpack(data).Ok? && w.unpack(data).head.kind == PACKAGE
    && w.unpack(data).head.epoch == epoch && w.unpack(data).head.sn == n
  }

  /** The keeper's packages of the epoch up to `upto`, for whoever asks. */
  ghost predicate Stocks<W>(w: Rules<W>, k: Keeper, epoch: nat, upto: nat, env: Env) {
    && SlotPerKey(env) && env.blobs
    && forall from: nat, n: nat {:trigger env.fetch(from, n)} :: 1 <= from && from + n <= upto + 1 ==>
      env.fetch(from, n).Some? && Slots(w, k, epoch, from, env.fetch(from, n).value)
  }

  ghost predicate Slots<W>(w: Rules<W>, k: Keeper, epoch: nat, from: nat, objs: seq<Option<seq<byte>>>) {
    forall i :: 0 <= i < |objs| ==> objs[i].Some? && PackageOf(w, k, epoch, from + i, objs[i].value)
  }

  /** Handlers that take every package of the keeper in its turn. */
  ghost predicate TakesInTurn<W(!new)>(w: Rules<W>, k: Keeper, h: Handlers) {
    forall s: State, data: seq<byte>, n: nat {:trigger h.take(s, data, n)} ::
      s.ready && Agrees(k, s) && n == s.sn + 1 && PackageOf(w, k, s.epoch, n, data) ==>
        h.take(s, data, n) == (Advance(s, w.unpack(data).head, w.unpack(data).recs), true)
  }

  lemma HandlersTakeInTurn<W(!new)>(w: Rules<W>, k: Keeper, want: Want<W>, env: Env)
    ensures TakesInTurn(w, k, HandlersOf(w, want, env))
  {
    forall s: State, data: seq<byte>, n: nat |
      s.ready && Agrees(k, s) && n == s.sn + 1 && PackageOf(w, k, s.epoch, n, data)
      ensures ApplyPackage(w, s, data, n, env) == (Advance(s, w.unpack(data).head, w.unpack(data).recs), true)
    {
      HonestPackage(w, k, s, data, env);
    }
  }

  /** Up to date: the same epoch at a later sequence, by packages alone. */
  predicate Follows(k: Keeper, s: State, s': State, n: nat) {
    && s'.ready && Agrees(k, s') && s'.epoch == s.epoch && s'.sn == n && s'.snapBad == s.snapBad
    && s.hist <= s'.hist && forall i :: |s.hist| <= i < |s'.hist| ==> s'.hist[i].Applied?
  }

  lemma {:induction false} BatchFollows<W(!new)>(w: Rules<W>, k: Keeper, h: Handlers, s: State,
                                                 objs: seq<Option<seq<byte>>>)
    requires TakesInTurn(w, k, h) && s.ready && Agrees(k, s) && Slots(w, k, s.epoch, s.sn + 1, objs)
    ensures var r := ApplyBatch(h, s, objs, s.sn + 1); r.1 && Follows(k, s, r.0, s.sn + |objs|)
    decreases |objs|
  {
    if objs != [] {
      assert PackageOf(w, k, s.epoch, s.sn + 1, objs[0].value);
      var s1 := TakeFollows(w, k, h, s, objs[0].value);
      SlotsRest(w, k, s.epoch, s.sn + 1, objs);
      BatchFollows(w, k, h, s1, objs[1..]);
      FollowsOn(k, s, s1, ApplyBatch(h, s, objs, s.sn + 1).0, s.sn + 1, s.sn + |objs|);
    }
  }

  lemma TakeFollows<W(!new)>(w: Rules<W>, k: Keeper, h: Handlers, s: State, data: seq<byte>) returns (s': State)
    requires TakesInTurn(w, k, h) && s.ready && Agrees(k, s) && PackageOf(w, k, s.epoch, s.sn + 1, data)
    ensures h.take(s, data, s.sn + 1) == (s', true) && Follows(k, s, s', s.sn + 1)
  {
    s' := Advance(s, w.unpack(data).head, w.unpack(data).recs);
    AgreesStep(w, k, s, data);
    assert h.take(s, data, s.sn + 1) == (s', true);
  }

  lemma SlotsRest<W>(w: Rules<W>, k: Keeper, epoch: nat, from: nat, objs: seq<Option<seq<byte>>>)
    requires objs != [] && Slots(w, k, epoch, from, objs)
    ensures Slots(w, k, epoch, from + 1, objs[1..])
  {
    forall i | 0 <= i < |objs| - 1
      ensures objs[1..][i].Some? && PackageOf(w, k, epoch, from + 1 + i, objs[1..][i].value)
    {
      assert objs[1..][i] == objs[i + 1];
    }
  }

  /** The loop of catchUp goes all the way when every read succeeds; the check at the end is left. */
  lemma {:induction false} CatchUpFollows<W(!new)>(w: Rules<W>, k: Keeper, h: Handlers, s: State, upto: nat, env: Env)
    returns (s': State)
    requires TakesInTurn(w, k, h) && Steps(h) && s.ready && Agrees(k, s)
    requires s.sn <= upto && Stocks(w, k, s.epoch, upto, env)
    ensures Follows(k, s, s', upto) && CatchUp(h, s, upto, env) == h.last(s')
    decreases upto - s.sn
  {
    if s.sn == upto {
      s' := s;
    } else {
      var s1 := PassFollows(w, k, h, s, upto, env);
      s' := CatchUpFollows(w, k, h, s1, upto, env);
      FollowsOn(k, s, s1, s', s1.sn, upto);
    }
  }

  /** One read of catchUp. */
  lemma PassFollows<W(!new)>(w: Rules<W>, k: Keeper, h: Handlers, s: State, upto: nat, env: Env) returns (s': State)
    requires TakesInTurn(w, k, h) && Steps(h) && s.ready && Agrees(k, s)
    requires s.sn < upto && Stocks(w, k, s.epoch, upto, env)
    ensures s.sn < s'.sn <= upto && Follows(k, s, s', s'.sn)
    ensures CatchUp(h, s, upto, env) == CatchUp(h, s', upto, env)
  {
    var n := BatchSize(s.sn, upto);
    var objs := StockedSlots(w, k, s.epoch, upto, env, s.sn + 1, n);
    BatchFollows(w, k, h, s, objs);
    s' := ApplyBatch(h, s, objs, s.sn + 1).0;
    OnePass(h, s, objs, s', upto, env);
  }

  lemma StockedSlots<W>(w: Rules<W>, k: Keeper, epoch: nat, upto: nat, env: Env, from: nat, n: nat)
    returns (objs: seq<Option<seq<byte>>>)
    requires Stocks(w, k, epoch, upto, env) && 1 <= from && from + n <= upto + 1
    ensures env.fetch(from, n) == Some(objs) && |objs| == n && Slots(w, k, epoch, from, objs)
  {
    objs := env.fetch(from, n).value;
  }

  lemma FollowsOn(k: Keeper, s: State, s1: State, s2: State, n: nat, m: nat)
    requires Follows(k, s, s1, n) && Follows(k, s1, s2, m)
    ensures Follows(k, s, s2, m)
  {
    assert s.hist <= s2.hist;
    assert forall i :: |s.hist| <= i < |s1.hist| ==> s2.hist[i] == s1.hist[i];
  }

  /**
   A frame ahead of the mirror, with the keeper's hash or none, brings it to
   exactly that sequence when the store has the packages, and no snapshot is
   asked for. A package inside the frame counts only when it is the next one.
   */
  lemma FrameFollows<W(!new)>(w: Rules<W>, k: Keeper, s: State, f: Frame<W>, env: Env)
    requires s.ready && Agrees(k, s) && Stocks(w, k, s.epoch, f.sn, env)
    requires f.v == VERSION3 && f.op != Resync && f.epoch == Some(s.epoch) && s.sn < f.sn
    requires f.sn <= |k[s.epoch].packages|
    requires f.hash.Anything? || f.hash == Is(HashOf(w.hs, k[s.epoch].key, Replay(k[s.epoch], f.sn)))
    requires f.op == Diff && f.inline.Bytes? && f.sn == s.sn + 1 ==> PackageOf(w, k, s.epoch, f.sn, f.inline.data)
    ensures Follows(k, s, OnFrame(w, s, f, env), f.sn)
  {
    if f.op == Diff && f.inline.Bytes? && f.sn == s.sn + 1 {
      InlineFollows(w, k, s, f, env);
    } else {
      var h := HandlersOf(w, f.hash, env);
      HandlersTakeInTurn(w, k, f.hash, env);
      var s' := CatchUpFollows(w, k, h, s, f.sn, env);
      assert h.last(s') == Verify(w, s', f.hash, env).0;
    }
  }

  /** The same for the next package inside the frame, without any read. */
  lemma InlineFollows<W(!new)>(w: Rules<W>, k: Keeper, s: State, f: Frame<W>, env: Env)
    requires s.ready && Agrees(k, s) && SlotPerKey(env)
    requires f.v == VERSION3 && f.op == Diff && f.epoch == Some(s.epoch) && f.sn == s.sn + 1 && f.inline.Bytes?
    requires PackageOf(w, k, s.epoch, f.sn, f.inline.data)
    ensures Follows(k, s, OnFrame(w, s, f, env), f.sn)
  {
    HonestPackage(w, k, s, f.inline.data, env);
    AgreesStep(w, k, s, f.inline.data);
  }

  // ---- Replay without gaps, and no storm of snapshot requests ----

  /** The epoch and sequence a history ends at. */
  function Held(h: seq<Event>): Option<(nat, nat)> {
    if h == [] then None else
    match h[|h| - 1]
    case Installed(e, n, _) => Some((e, n))
    case Applied(e, n) => Some((e, n))
    case _ => Held(h[..|h| - 1])
  }

  /** Each package applied is the successor of what was held. */
  predicate GapFree(h: seq<Event>) {
    h == [] ||
    (var before, last := h[..|h| - 1], h[|h| - 1];
     GapFree(before) && (last.Applied? ==> last.sn >= 1 && Held(before) == Some((last.epoch, last.sn - 1))))
  }

  /** The last snapshot was bad and no other epoch has been seen since. */
  predicate Muted(h: seq<Event>) {
    h != [] &&
    match h[|h| - 1]
    case Installed(_, _, bad) => bad
    case NewEpoch => false
    case _ => Muted(h[..|h| - 1])
  }

  /** A snapshot is asked for only when the mirror is not muted, and installed only when asked for. */
  predicate Calm(h: seq<Event>) {
    h == [] ||
    (var before, last := h[..|h| - 1], h[|h| - 1];
     && Calm(before)
     && (last.Asked? ==> !Muted(before))
     && (last.Installed? ==> before != [] && before[|before| - 1].Asked?))
  }

  predicate Recorded(s: State) {
    && GapFree(s.hist) && Calm(s.hist)
    && Held(s.hist) == (if s.ready then Some((s.epoch, s.sn)) else None)
    && s.snapBad == Muted(s.hist)
  }

  lemma RecordedMore(s: State, e: Event, s': State)
    requires Recorded(s) && s'.hist == s.hist + [e]
    requires match e
      case Asked => !s.snapBad && s' == s.(hist := s'.hist)
      case Installed(epoch, sn, bad) => s.hist != [] && s.hist[|s.hist| - 1].Asked?
        && s'.ready && s'.epoch == epoch && s'.sn == sn && s'.snapBad == bad
      case Applied(epoch, sn) => s.ready && epoch == s.epoch && sn == s.sn + 1
        && s'.ready && s'.epoch == epoch && s'.sn == sn && s'.snapBad == s.snapBad
      case NewEpoch => !s'.snapBad && s' == s.(snapBad := false, hist := s'.hist)
    ensures Recorded(s')
  {
    assert s'.hist[..|s'.hist| - 1] == s.hist;
  }

  lemma KeepsRecords<W(!new)>(w: Rules<W>)
    ensures Kept(w, (s: State) => Recorded(s), (d: seq<byte>) => true)
  {
    forall s | Recorded(s) && !s.snapBad ensures Recorded(s.(hist := s.hist + [Asked])) {
      RecordedMore(s, Asked, s.(hist := s.hist + [Asked]));
    }
    forall s, data | Recorded(s) && !s.snapBad && w.unpack(data).Ok?
      ensures Recorded(Install(w, s.(hist := s.hist + [Asked]), w.unpack(data).head, w.unpack(data).recs))
    {
      var asked := s.(hist := s.hist + [Asked]);
      var s' := Install(w, asked, w.unpack(data).head, w.unpack(data).recs);
      RecordedMore(s, Asked, asked);
      RecordedMore(asked, Installed(s'.epoch, s'.sn, s'.snapBad), s');
    }
    forall s, data, want | Recorded(s) && s.ready && w.unpack(data).Ok? && want == s.sn + 1
                           && Matches(s, w.unpack(data).head, want)
      ensures Recorded(Advance(s, w.unpack(data).head, w.unpack(data).recs))
    {
      RecordedMore(s, Applied(s.epoch, s.sn + 1), Advance(s, w.unpack(data).head, w.unpack(data).recs));
    }
    forall s | Recorded(s) && s.ready ensures Recorded(s.(snapBad := false, hist := s.hist + [NewEpoch])) {
      RecordedMore(s, NewEpoch, s.(snapBad := false, hist := s.hist + [NewEpoch]));
    }
  }

  /** Gap-free replay: on every run, with any answers at all. */
  lemma GapFreeReplay<W(!new)>(w: Rules<W>, first: Env, frames: seq<(Frame<W>, Env)>)
    requires Shows(first, d => true) && ShowsAll(frames, d => true)
    ensures var s := Run(w, first, frames);
      GapFree(s.hist) && Held(s.hist) == (if s.ready then Some((s.epoch, s.sn)) else None)
  {
    var inv, ok := (s: State) => Recorded(s), (d: seq<byte>) => true;
    KeepsRecords(w);
    KeptRun(w, inv, ok, first, frames);
  }

  function Bads(h: seq<Event>): nat {
    if h == [] then 0 else
      Bads(h[..|h| - 1]) + if h[|h| - 1].Installed? && h[|h| - 1].bad then 1 else 0
  }

  function Epochs(h: seq<Event>): nat {
    if h == [] then 0 else Epochs(h[..|h| - 1]) + if h[|h| - 1].NewEpoch? then 1 else 0
  }

  lemma {:induction false} CalmBound(h: seq<Event>)
    requires Calm(h)
    ensures Bads(h) + (if Muted(h) then 0 else 1) <= 1 + Epochs(h)
  {
    if h != [] {
      CalmBound(h[..|h| - 1]);
    }
  }

  lemma {:induction false} MutedStays(h: seq<Event>, i: nat, j: nat)
    requires Calm(h) && i < j <= |h| && h[i].Installed? && h[i].bad
    requires forall k :: i < k < j ==> !h[k].NewEpoch?
    ensures Calm(h[..j]) && Muted(h[..j])
  {
    CalmPrefix(h, j);
    assert h[..j][..j - 1] == h[..j - 1] && h[..j][j - 1] == h[j - 1];
    if j > i + 1 {
      MutedStays(h, i, j - 1);
      if h[j - 1].Installed? {
        assert false;
      }
    }
  }

  lemma {:induction false} CalmPrefix(h: seq<Event>, j: nat)
    requires Calm(h) && j <= |h|
    ensures Calm(h[..j])
    decreases |h|
  {
    if j < |h| {
      CalmPrefix(h[..|h| - 1], j);
      assert h[..|h| - 1][..j] == h[..j];
    } else {
      assert h[..j] == h;
    }
  }

  /**
   No resync storm. After a bad snapshot there is no request until a frame of
   another epoch, and bad snapshots are at most one more than such frames.
   */
  lemma NoResyncStorm<W(!new)>(w: Rules<W>, first: Env, frames: seq<(Frame<W>, Env)>)
    requires Shows(first, d => true) && ShowsAll(frames, d => true)
    ensures var h := Run(w, first, frames).hist;
      && Bads(h) <= 1 + Epochs(h)
      && forall i, j :: 0 <= i < j < |h| && h[i].Installed? && h[i].bad && h[j].Asked? ==>
           exists k :: i < k < j && h[k].NewEpoch?
  {
    var inv, ok := (s: State) => Recorded(s), (d: seq<byte>) => true;
    KeepsRecords(w);
    KeptRun(w, inv, ok, first, frames);
    CalmBound(Run(w, first, frames).hist);
    QuietAfterBad(Run(w, first, frames).hist);
  }

  lemma QuietAfterBad(h: seq<Event>)
    requires Calm(h)
    ensures forall i, j :: 0 <= i < j < |h| && h[i].Installed? && h[i].bad && h[j].Asked? ==>
              exists k :: i < k < j && h[k].NewEpoch?
  {
    forall i, j | 0 <= i < j < |h| && h[i].Installed? && h[i].bad && h[j].Asked?
      ensures exists k :: i < k < j && h[k].NewEpoch?
    {
      AskedOpen(h, j);
      if forall k :: i < k < j ==> !h[k].NewEpoch? {
        MutedStays(h, i, j);
        assert false;
      }
    }
  }

  lemma AskedOpen(h: seq<Event>, j: nat)
    requires Calm(h) && j < |h| && h[j].Asked?
    ensures !Muted(h[..j])
  {
    CalmPrefix(h, j + 1);
    assert h[..j + 1][..j] == h[..j] && h[..j + 1][j] == h[j];
  }

  /** A mirror that is ready stays ready, whatever comes. */
  lemma ReadyStays<W(!new)>(w: Rules<W>, s: State, f: Frame<W>, env: Env)
    requires SlotPerKey(env) && s.ready
    ensures OnFrame(w, s, f, env).ready
  {
    KeptFrame(w, (_: State) => true, (_: seq<byte>) => true, s, f, env);
  }

  // ---- The records a mirror takes fit its type ----

  lemma {:induction false} TakenFit(take: Taker, typ: byte, flags: byte, d: seq<byte>, n: nat)
    requires TakerOf(take, typ, flags) && TakeRecords(take, d, n).Many?
    ensures AllFit(typ, TakeRecords(take, d, n).recs)
    decreases n
  {
    if n > 0 {
      TakerFit(take, typ, flags, d);
      TakenFit(take, typ, flags, d[take(d).used..], n - 1);
    }
  }

  lemma TakerFit(take: Taker, typ: byte, flags: byte, d: seq<byte>)
    requires TakerOf(take, typ, flags) && take(d).Got?
    ensures Fits(typ, take(d).rec)
  {
    var t := TakeRecord(typ, flags, d);
  }

  ghost predicate Decodes(unpack: seq<byte> -> Parsed) {
    forall d {:trigger Parse(d)} :: unpack(d) == Parse(d)
  }

  /** unpack never mixes the two kinds of record. */
  lemma ParseFits(data: seq<byte>)
    requires Parse(data).Ok?
    ensures AllFit(Parse(data).head.typ, Parse(data).recs)
  {
    var h := ReadHead(data);
    TakenFit(RecordTaker(h.typ, h.flags), h.typ, h.flags, data[HEADER..], h.count);
  }

  lemma DecodedFits(unpack: seq<byte> -> Parsed, data: seq<byte>)
    requires Decodes(unpack) && unpack(data).Ok?
    ensures AllFit(unpack(data).head.typ, unpack(data).recs)
  {
    assert unpack(data) == Parse(data);
    ParseFits(data);
  }

  predicate Typed(s: State) {
    OfType(s.typ, s.c)
  }

  /** On every run, whatever is shown, only the map of the set's type is ever filled. */
  lemma OneMapFilled<W(!new)>(w: Rules<W>, first: Env, frames: seq<(Frame<W>, Env)>)
    requires Decodes(w.unpack) && Shows(first, d => true) && ShowsAll(frames, d => true)
    ensures OfType(Run(w, first, frames).typ, Run(w, first, frames).c)
  {
    var inv, ok := (s: State) => Typed(s), (d: seq<byte>) => true;
    forall s, data { TypedStep(w.unpack, s, data); }
    assert Kept(w, inv, ok);
    KeptRun(w, inv, ok, first, frames);
  }

  lemma TypedStep(unpack: seq<byte> -> Parsed, s: State, data: seq<byte>)
    requires Decodes(unpack)
    ensures var p := unpack(data);
      p.Ok? ==>
        && OfType(p.head.typ, ApplyAll(EMPTY, p.recs))
        && (Typed(s) && s.typ == p.head.typ ==> OfType(s.typ, ApplyAll(s.c, p.recs)))
  {
    var p := unpack(data);
    if p.Ok? {
      DecodedFits(unpack, data);
      ApplyAllOfType(p.head.typ, EMPTY, p.recs);
      if Typed(s) && s.typ == p.head.typ {
        ApplyAllOfType(s.typ, s.c, p.recs);
      }
    }
  }

  // ---- When a run survives ----

  /** An object none of whose additions is out of range, if it is one. */
  predicate Sane(p: Parsed) {
    p.Ok? ==> Harmless(p.recs)
  }

  /** On objects without such additions no run ends in a crash. */
  lemma SaneSurvives<W(!new)>(w: Rules<W>, first: Env, frames: seq<(Frame<W>, Env)>)
    requires Shows(first, d => Sane(w.unpack(d))) && ShowsAll(frames, d => Sane(w.unpack(d)))
    ensures Run(w, first, frames).intact
  {
    var inv, ok := (s: State) => s.intact, (d: seq<byte>) => Sane(w.unpack(d));
    assert Kept(w, inv, ok);
    KeptRun(w, inv, ok, first, frames);
  }

  /** The snapshot that is there to be installed. */
  predicate Offers<W>(w: Rules<W>, env: Env) {
    env.blobs && env.snap.Object? && w.unpack(env.snap.data).Ok? && w.unpack(env.snap.data).head.kind == 1
  }

  /**
   When an object ends the program. A snapshot that is asked for is survived if and
   only if none of its additions is out of range; and so is any package that fits
   the set and the next sequence, where the check behind it may install one more
   snapshot.
   */
  lemma SurvivesIffSane<W(!new)>(w: Rules<W>, s: State, data: seq<byte>, env: Env)
    requires s.intact
    ensures Offers(w, env) && !s.snapBad ==> (Snapshot(w, s, env).intact <==> Sane(w.unpack(env.snap.data)))
    ensures w.unpack(data).Ok? && Matches(s, w.unpack(data).head, s.sn + 1) ==>
      var s1 := Advance(s, w.unpack(data).head, w.unpack(data).recs);
      var checked := Verify(w, s1, Is(w.hs.word(w.unpack(data).head.hash)), env);
      ApplyPackage(w, s, data, s.sn + 1, env).0.intact <==>
        Sane(w.unpack(data)) && (checked.1 || s.snapBad || !Offers(w, env) || Sane(w.unpack(env.snap.data)))
  {
  }

  /** An honest package in sequence needs no such snapshot: it is survived if and only if it is sane. */
  lemma PackageSurvivesIffSane<W(!new)>(w: Rules<W>, k: Keeper, s: State, data: seq<byte>, env: Env)
    requires s.ready && Agrees(k, s) && s.intact && PackageOf(w, k, s.epoch, s.sn + 1, data)
    ensures ApplyPackage(w, s, data, s.sn + 1, env).0.intact <==> Sane(w.unpack(data))
  {
    HonestPackage(w, k, s, data, env);
  }

  /**
   unpack accepts an IPv4 prefix longer than 32 bits, and the record it makes of
   it is one that breaks the table when it is added.
   */
  lemma TooLongAccepted(h: Head, addr: seq<byte>, bits: byte, exp: seq<byte>)
    requires GoodHead(h) && h.typ == CIDR && h.count == 1 && |addr| == 4 && bits > 32 && |exp| == 8
    ensures var p := Parse(EncodeHead(h) + ([ADD, 4, bits] + addr + exp));
      p == Ok(h, [Net(ADD, Prefix(addr, -1), Signed(U64(exp)))]) && !Sane(p)
  {
    var body := [ADD, 4, bits] + addr + exp;
    ParseBehindHead(h, body);
    TooLongTaken(RecordTaker(h.typ, h.flags), h.flags, addr, bits, exp);
    var r := Net(ADD, Prefix(addr, -1), Signed(U64(exp)));
    assert Breaks(r) && r in [r];
  }

  lemma TooLongTaken(take: Taker, flags: byte, addr: seq<byte>, bits: byte, exp: seq<byte>)
    requires TakerOf(take, CIDR, flags) && |addr| == 4 && bits > 32 && |exp| == 8
    ensures TakeRecords(take, [ADD, 4, bits] + addr + exp, 1) ==
      Many([Net(ADD, Prefix(addr, -1), Signed(U64(exp)))], 15)
  {
    var d := [ADD, 4, bits] + addr + exp;
    assert d[3..7] == addr && d[7..] == exp && exp[..8] == exp;
    var t := TakeRecord(CIDR, flags, d);
    assert take(d) == t == Got(Net(ADD, Prefix(addr, -1), Signed(U64(exp))), 15);
    assert TakeRecords(take, d[15..], 0) == Many([], 0);
  }
}
