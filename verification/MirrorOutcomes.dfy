/**
 What each kind of frame does to a mirrored set, by the states before and after it:
 what is ignored, what is checked, and when the snapshot on offer is taken.
 */
module MirrorOutcomes {
  import opened Bytes
  import opened Text
  import opened Wafs
  import opened Composition
  import opened Mirror
  import opened MirrorTheorems

  /** The set now is the snapshot on offer, and the history says that it was asked for and installed. */
  ghost predicate Took<W>(w: Rules<W>, s: State, s': State, env: Env)
    requires Offers(w, env)
  {
    var p := w.unpack(env.snap.data);
    && s'.ready && s'.epoch == p.head.epoch && s'.sn == p.head.sn && s'.key == p.head.key && s'.typ == p.head.typ
    && s'.c == ApplyAll(EMPTY, p.recs)
    && s'.snapBad == (HashOf(w.hs, p.head.key, s'.c) != w.hs.word(p.head.hash))
    && s'.hist == s.hist + [Asked] + [Installed(p.head.epoch, p.head.sn, s'.snapBad)]
  }

  /** A snapshot is asked for, unless the last one was bad, and taken when there is one. */
  ghost predicate Resyncs<W>(w: Rules<W>, s: State, s': State, env: Env) {
    if s.snapBad then s' == s
    else if Offers(w, env) then Took(w, s, s', env)
    else s' == s.(hist := s.hist + [Asked])
  }

  /** A frame of this protocol for a ready set, in the epoch it holds. */
  predicate Current<W>(s: State, f: Frame<W>) {
    f.v == 3 && s.ready && f.op != Resync && f.epoch == Some(s.epoch)
  }

  /** Whatever comes first, a set that is not ready tries to become so. */
  lemma UnreadyResyncs<W>(w: Rules<W>, s: State, f: Frame<W>, env: Env)
    requires SlotPerKey(env) && f.v == 3 && !s.ready
    ensures Resyncs(w, s, OnFrame(w, s, f, env), env)
  {
  }

  /** A frame of another epoch lifts the mute and asks for a snapshot. */
  lemma NewEpochResyncs<W>(w: Rules<W>, s: State, f: Frame<W>, env: Env)
    requires SlotPerKey(env) && f.v == 3 && s.ready && f.op != Resync && f.epoch.Some? && f.epoch.value != s.epoch
    ensures Resyncs(w, s.(snapBad := false, hist := s.hist + [NewEpoch]), OnFrame(w, s, f, env), env)
  {
  }

  /** A check that passes changes nothing; one that fails asks for the snapshot and takes it, unless muted. */
  lemma CheckMeans<W>(w: Rules<W>, s: State, want: Want<W>, env: Env)
    ensures var (s', ok) := Verify(w, s, want, env);
      && (ok <==> want == Anything || want == Is(HashOf(w.hs, s.key, s.c)))
      && if ok then s' == s else Resyncs(w, s, s', env)
  {
  }

  /** At the sequence held, a tick or a diff is a check: nothing happens when the hash is right, else a resync. */
  lemma HeldIsChecked<W>(w: Rules<W>, s: State, f: Frame<W>, env: Env)
    requires SlotPerKey(env) && Current(s, f) && f.sn == s.sn && (f.op == Tick || f.op == Diff)
    ensures var s' := OnFrame(w, s, f, env);
      if f.hash == Anything || f.hash == Is(HashOf(w.hs, s.key, s.c)) then s' == s else Resyncs(w, s, s', env)
  {
  }

  /** Frames of other versions, calls for a resync, unreadable epochs, and what is already held change nothing. */
  lemma StaleIsIgnored<W>(w: Rules<W>, s: State, f: Frame<W>, env: Env)
    requires SlotPerKey(env)
    requires f.v != 3 || (s.ready && (f.op == Resync || f.epoch.None?)) || (Current(s, f) && f.sn < s.sn)
    ensures OnFrame(w, s, f, env) == s
  {
  }

  /** The next package, inside the frame, must be a package of this epoch, sequence and type; else a resync. */
  lemma WrongInlineResyncs<W>(w: Rules<W>, s: State, f: Frame<W>, env: Env)
    requires SlotPerKey(env) && Current(s, f) && f.op == Diff && f.inline.Bytes? && f.sn == s.sn + 1
    requires var p := w.unpack(f.inline.data);
      p.Fail? || p.head.kind != 2 || p.head.epoch != s.epoch || p.head.sn != s.sn + 1 || p.head.typ != s.typ
    ensures Resyncs(w, s, OnFrame(w, s, f, env), env)
  {
  }

  /** The records of a package are in, and it is what is held. */
  predicate Moved(s: State, s1: State, p: Parsed)
    requires p.Ok?
  {
    && s1.c == ApplyAll(s.c, p.recs) && s1.sn == p.head.sn && s1.hist == s.hist + [Applied(p.head.epoch, p.head.sn)]
    && s1 == s.(c := s1.c, sn := s1.sn, hist := s1.hist, intact := s1.intact)
  }

  /** A package that fits is applied, and its hash checked: a wrong one is a resync. */
  lemma PackageIsChecked<W>(w: Rules<W>, s: State, f: Frame<W>, env: Env) returns (s1: State)
    requires SlotPerKey(env) && Current(s, f) && f.op == Diff && f.inline.Bytes? && f.sn == s.sn + 1
    requires var p := w.unpack(f.inline.data);
      p.Ok? && p.head.kind == 2 && p.head.epoch == s.epoch && p.head.sn == s.sn + 1 && p.head.typ == s.typ
    ensures var p, s' := w.unpack(f.inline.data), OnFrame(w, s, f, env);
      && Moved(s, s1, p)
      && if HashOf(w.hs, s1.key, s1.c) == w.hs.word(p.head.hash) then s' == s1 else Resyncs(w, s1, s', env)
  {
    var p := w.unpack(f.inline.data);
    s1 := Advance(s, p.head, p.recs);
  }

  /** Behind by more, or without a package in the frame, and nothing can be read: all stays as it is. */
  lemma UnreadableKeeps<W>(w: Rules<W>, s: State, f: Frame<W>, env: Env)
    requires SlotPerKey(env) && Current(s, f) && f.sn > s.sn
    requires !(f.op == Diff && f.inline.Bytes? && f.sn == s.sn + 1)
    requires !env.blobs || env.fetch(s.sn + 1, BatchSize(s.sn, f.sn)).None?
    ensures OnFrame(w, s, f, env) == s
  {
  }

  /** Caught up by the keeper's packages, the set is checked against the hash of the frame. */
  lemma CaughtUpIsChecked<W(!new)>(w: Rules<W>, k: Keeper, s: State, f: Frame<W>, env: Env) returns (s1: State)
    requires Current(s, f) && Agrees(k, s) && f.sn > s.sn && Stocks(w, k, s.epoch, f.sn, env)
    requires !(f.op == Diff && f.inline.Bytes? && f.sn == s.sn + 1)
    ensures Follows(k, s, s1, f.sn)
    ensures var s' := OnFrame(w, s, f, env);
      if f.hash == Anything || f.hash == Is(HashOf(w.hs, s1.key, s1.c)) then s' == s1 else Resyncs(w, s1, s', env)
  {
    HandlersTakeInTurn(w, k, f.hash, env);
    s1 := CatchUpFollows(w, k, HandlersOf(w, f.hash, env), s, f.sn, env);
    AheadCatchesUp(w, s, f, env);
    CheckMeans(w, s1, f.hash, env);
    assert HandlersOf(w, f.hash, env).last(s1) == Verify(w, s1, f.hash, env).0;
  }

  lemma AheadCatchesUp<W>(w: Rules<W>, s: State, f: Frame<W>, env: Env)
    requires SlotPerKey(env) && Current(s, f) && f.sn > s.sn && env.blobs
    requires !(f.op == Diff && f.inline.Bytes? && f.sn == s.sn + 1)
    ensures OnFrame(w, s, f, env) == CatchUp(HandlersOf(w, f.hash, env), s, f.sn, env)
  {
  }

  /** The next package is gone from the store: a resync. */
  lemma GoneResyncs<W>(w: Rules<W>, s: State, f: Frame<W>, env: Env)
    requires SlotPerKey(env) && Current(s, f) && f.sn > s.sn && env.blobs
    requires !(f.op == Diff && f.inline.Bytes? && f.sn == s.sn + 1)
    requires env.fetch(s.sn + 1, BatchSize(s.sn, f.sn)).Some?
    requires env.fetch(s.sn + 1, BatchSize(s.sn, f.sn)).value[0].None?
    ensures Resyncs(w, s, OnFrame(w, s, f, env), env)
  {
  }

  /**
   A resync brings the keeper's set. When a set that is not ready and not muted
   meets any frame, or a ready one meets a frame of another epoch, and an honest
   snapshot is on offer, the set is the keeper's at the epoch and sequence of that
   snapshot, whatever it was before.
   */
  lemma FrameSyncs<W>(w: Rules<W>, k: Keeper, s: State, f: Frame<W>, env: Env)
    requires SlotPerKey(env) && f.v == 3 && Offers(w, env) && Honest(w, k, env.snap.data)
    requires || (!s.ready && !s.snapBad)
             || (s.ready && f.op != Resync && f.epoch.Some? && f.epoch.value != s.epoch)
    ensures var s', h := OnFrame(w, s, f, env), w.unpack(env.snap.data).head;
      s'.ready && s'.epoch == h.epoch && s'.sn == h.sn && Agrees(k, s') && !s'.snapBad
  {
    if !s.ready {
      UnreadyResyncs(w, s, f, env);
    } else {
      NewEpochResyncs(w, s, f, env);
    }
  }

  /** So it is when a check finds the set wrong: an honest snapshot puts it right. */
  lemma DivergenceHeals<W>(w: Rules<W>, k: Keeper, s: State, f: Frame<W>, env: Env)
    requires SlotPerKey(env) && Current(s, f) && f.sn == s.sn && (f.op == Tick || f.op == Diff) && !s.snapBad
    requires f.hash != Anything && f.hash != Is(HashOf(w.hs, s.key, s.c))
    requires Offers(w, env) && Honest(w, k, env.snap.data)
    ensures var s', h := OnFrame(w, s, f, env), w.unpack(env.snap.data).head;
      s'.ready && s'.epoch == h.epoch && s'.sn == h.sn && Agrees(k, s') && !s'.snapBad
  {
    HeldIsChecked(w, s, f, env);
  }
}
