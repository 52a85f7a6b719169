/**
 Manifests one after another (internal/desired/desired.go, handle and the loop of
 Watch): what is recorded as applied, what memory serves and what is tried again,
 over every run.
 */
module RolloutWatch {
  import opened Text
  import opened Rollout

  /** The parts whose inner workings are not modelled, and whether a list store is configured. */
  datatype Rig<!P> = Rig(
    load: Tree -> Option<P>,
    parse: string -> Option<Manifest>,
    sum: string -> string,
    configured: bool)

  datatype Verdict = Unset | ApplyOK | ApplyFailed

  datatype Applied = Applied(hash: string, rev: nat, verdict: Verdict, names: set<string>)

  /** `pending` with a running timer is a manifest to try again. */
  datatype World<P> = World(host: Host<P>, applied: Applied, pending: Option<string>, armed: bool)

  /** The list store during one attempt: None when it does not answer. */
  type Blobs = Option<map<string, string>>

  datatype Event =
    | Entry(raw: string, blobs: Blobs, faults: Faults)
    | Skip  // a deletion, a purge or the end of the first batch
    | Tick(blobs: Blobs, faults: Faults)

  /** Every list is there and has the hash the manifest gives. */
  predicate Fetchable<P>(rig: Rig<P>, m: Manifest, blobs: Blobs) {
    m.lists == map[] ||
    (rig.configured && blobs.Some? &&
      forall n :: n in m.lists ==> m.lists[n] in blobs.value && rig.sum(blobs.value[m.lists[n]]) == m.lists[n])
  }

  function Bodies<P>(rig: Rig<P>, m: Manifest, blobs: Blobs): map<string, string>
    requires Fetchable(rig, m, blobs)
  {
    map n | n in m.lists :: blobs.value[m.lists[n]]
  }

  predicate Known(a: Applied, m: Manifest) {
    a.verdict == ApplyOK && a.hash == m.hash && a.rev == m.rev
  }

  /** handle: the new world and whether to try again. */
  function Handled<P>(rig: Rig<P>, w: World<P>, raw: string, blobs: Blobs, f: Faults): (World<P>, bool) {
    var m := rig.parse(raw);
    if m.None? || Known(w.applied, m.value) then (w, false) else
    if !Fetchable(rig, m.value, blobs) then (w.(applied := w.applied.(verdict := ApplyFailed)), rig.configured) else
    (Settled(w, m.value, ApplyTo(rig.load, w.host, Files(m.value, Bodies(rig, m.value, blobs)), f)), false)
  }

  /** The outcome of an Apply, with the record. */
  function Settled<P>(w: World<P>, m: Manifest, r: (Host<P>, bool)): World<P> {
    w.(host := r.0, applied := if r.1 then RecordOf(m) else w.applied.(verdict := ApplyFailed))
  }

  /** The record of a manifest that was applied. */
  function RecordOf(m: Manifest): Applied {
    Applied(m.hash, m.rev, ApplyOK, m.profiles.Keys)
  }

  /** One turn of the loop of Watch. */
  function Stepped<P>(rig: Rig<P>, w: World<P>, e: Event): World<P> {
    match e
    case Skip => w
    case Entry(raw, blobs, f) =>
      var (w', again) := Handled(rig, w.(pending := None, armed := false), raw, blobs, f);
      if again then w'.(pending := Some(raw), armed := true) else w'
    case Tick(blobs, f) =>
      if !w.armed then w else
      if w.pending.None? then w.(armed := false) else
      var (w', again) := Handled(rig, w.(armed := false), w.pending.value, blobs, f);
      if again then w'.(armed := true) else w'.(pending := None)
  }

  function Ran<P>(rig: Rig<P>, w: World<P>, events: seq<Event>): World<P> {
    if events == [] then w else Stepped(rig, Ran(rig, w, events[..|events| - 1]), events[|events| - 1])
  }

  // ---- What a run did ----

  /** The manifest an event brings to handle. */
  function Brought<P>(w: World<P>, e: Event): Option<string> {
    match e
    case Skip => None
    case Entry(raw, _, _) => Some(raw)
    case Tick(_, _) => if w.armed then w.pending else None
  }

  /** The manifest and the files an event hands to Apply: it is new, and its lists are there. */
  function Tried<P>(rig: Rig<P>, w: World<P>, e: Event): Option<(Manifest, Option<Tree>)> {
    var raw := Brought(w, e);
    if raw.None? then None else
    var m := rig.parse(raw.value);
    if m.None? || Known(w.applied, m.value) || !Fetchable(rig, m.value, e.blobs) then None
    else Some((m.value, Files(m.value, Bodies(rig, m.value, e.blobs))))
  }

  datatype Generation = Generation(manifest: Manifest, files: Tree)

  /** The generation an event puts into service. */
  function Won<P>(rig: Rig<P>, w: World<P>, e: Event): Option<Generation> {
    var t := Tried(rig, w, e);
    if t.Some? && t.value.1.Some? && ApplyTo(rig.load, w.host, t.value.1, e.faults).1
    then Some(Generation(t.value.0, t.value.1.value)) else None
  }

  /** Event by event, what a run put into service. */
  function Wins<P>(rig: Rig<P>, w: World<P>, events: seq<Event>): (wins: seq<Option<Generation>>)
    ensures |wins| == |events|
  {
    if events == [] then [] else
    var before := events[..|events| - 1];
    Wins(rig, w, before) + [Won(rig, Ran(rig, w, before), events[|events| - 1])]
  }

  function Last(wins: seq<Option<Generation>>): Option<Generation> {
    if wins == [] then None
    else if wins[|wins| - 1].Some? then wins[|wins| - 1]
    else Last(wins[..|wins| - 1])
  }

  lemma LastStep<P>(rig: Rig<P>, w: World<P>, before: seq<Event>, e: Event)
    ensures Ran(rig, w, before + [e]) == Stepped(rig, Ran(rig, w, before), e)
    ensures var won := Won(rig, Ran(rig, w, before), e);
      && Wins(rig, w, before + [e]) == Wins(rig, w, before) + [won]
      && Last(Wins(rig, w, before + [e])) == if won.Some? then won else Last(Wins(rig, w, before))
  {
    assert (before + [e])[..|before|] == before;
    var wins := Wins(rig, w, before);
    assert (wins + [Won(rig, Ran(rig, w, before), e)])[..|wins|] == wins;
  }

  /** One event, as far as the host is concerned. */
  lemma StepHost<P>(rig: Rig<P>, w: World<P>, e: Event)
    ensures var w', t := Stepped(rig, w, e), Tried(rig, w, e);
      w'.host == if t.Some? then ApplyTo(rig.load, w.host, t.value.1, e.faults).0 else w.host
  {
  }

  /** One event, as far as the record is concerned. */
  lemma StepRecord<P>(rig: Rig<P>, w: World<P>, e: Event)
    ensures var a, won := Stepped(rig, w, e).applied, Won(rig, w, e);
      if won.Some? then a == RecordOf(won.value.manifest)
      else a.(verdict := Unset) == w.applied.(verdict := Unset)
  {
    HandledRecord(rig, w, e);
    WonIsTried(rig, w, e);
  }

  lemma WonIsTried<P>(rig: Rig<P>, w: World<P>, e: Event)
    ensures var won, t := Won(rig, w, e), Tried(rig, w, e);
      && won.Some? == (t.Some? && ApplyTo(rig.load, w.host, t.value.1, e.faults).1)
      && (won.Some? ==> won.value.manifest == t.value.0 && Some(won.value.files) == t.value.1)
  {
    var t := Tried(rig, w, e);
    if t.Some? && t.value.1.None? { NoFiles(rig.load, w.host, e.faults); }
  }

  lemma HandledRecord<P>(rig: Rig<P>, w: World<P>, e: Event)
    ensures var a, t := Stepped(rig, w, e).applied, Tried(rig, w, e);
      if t.Some? && ApplyTo(rig.load, w.host, t.value.1, e.faults).1
      then a == RecordOf(t.value.0)
      else a.(verdict := Unset) == w.applied.(verdict := Unset)
  {
  }

  lemma NoFiles<P>(load: Tree -> Option<P>, h: Host<P>, f: Faults)
    ensures !ApplyTo(load, h, None, f).1
  {
  }

  /**
   Over every run, the recorded hash, revision and names are those of the last
   generation whose Apply succeeded.
   */
  lemma {:induction false} RecordIsLast<P>(rig: Rig<P>, w: World<P>, events: seq<Event>)
    ensures var a, won := Ran(rig, w, events).applied, Last(Wins(rig, w, events));
      if won.Some?
      then var m := won.value.manifest; a.hash == m.hash && a.rev == m.rev && a.names == m.profiles.Keys
      else a.hash == w.applied.hash && a.rev == w.applied.rev && a.names == w.applied.names
  {
    if events != [] {
      var before, e := events[..|events| - 1], events[|events| - 1];
      assert events == before + [e];
      RecordIsLast(rig, w, before);
      LastStep(rig, w, before, e);
      StepRecord(rig, Ran(rig, w, before), e);
    }
  }

  // ---- What memory serves ----

  /** The removals of staging and of a rejected live tree are complete. */
  predicate Clean(e: Event) {
    !e.Skip? ==> e.faults.clear.None? && e.faults.wipe.None?
  }

  /** Memory serves this tree, and the live directory, if there, holds it. */
  predicate Serves<P(==)>(load: Tree -> Option<P>, h: Host<P>, tree: Tree) {
    load(tree) == Some(h.memory) && (Live in h.disk ==> h.disk[Live] == tree)
  }

  lemma WinServes<P>(load: Tree -> Option<P>, h: Host<P>, files: Tree, f: Faults)
    requires f.clear.None? && ApplyTo(load, h, Some(files), f).1
    ensures Serves(load, ApplyTo(load, h, Some(files), f).0, files)
  {
    Done(load, h, Some(files), f);
    assert Leftover(h.disk, f.clear) == map[];
  }

  lemma LossServes<P>(load: Tree -> Option<P>, h: Host<P>, files: Option<Tree>, f: Faults, tree: Tree)
    requires f.wipe.None? && !ApplyTo(load, h, files, f).1 && Serves(load, h, tree)
    ensures Serves(load, ApplyTo(load, h, files, f).0, tree)
  {
    Undone(load, h, files, f);
  }

  /**
   Over every run of clean removals that began with memory serving a generation,
   whatever else failed, memory serves the last generation put into service.
   */
  lemma {:induction false} ServesLast<P>(rig: Rig<P>, w: World<P>, events: seq<Event>, first: Tree)
    requires Serves(rig.load, w.host, first) && forall i :: 0 <= i < |events| ==> Clean(events[i])
    ensures var won := Last(Wins(rig, w, events));
      Serves(rig.load, Ran(rig, w, events).host, if won.Some? then won.value.files else first)
  {
    if events != [] {
      var before, e := events[..|events| - 1], events[|events| - 1];
      assert events == before + [e];
      ServesLast(rig, w, before, first);
      LastStep(rig, w, before, e);
      var won := Last(Wins(rig, w, before));
      StepServes(rig, Ran(rig, w, before), e, if won.Some? then won.value.files else first);
    }
  }

  lemma StepServes<P>(rig: Rig<P>, w: World<P>, e: Event, tree: Tree)
    requires Serves(rig.load, w.host, tree) && Clean(e)
    ensures var won := Won(rig, w, e);
      Serves(rig.load, Stepped(rig, w, e).host, if won.Some? then won.value.files else tree)
  {
    var won, t := Won(rig, w, e), Tried(rig, w, e);
    StepHost(rig, w, e);
    if won.Some? {
      WinServes(rig.load, w.host, won.value.files, e.faults);
    } else if t.Some? {
      if t.value.1.None? { NoFiles(rig.load, w.host, e.faults); }
      LossServes(rig.load, w.host, t.value.1, e.faults, tree);
    }
  }

  // ---- What is tried again ----

  /** The position of the last manifest received; the length when there is none. */
  function Latest(events: seq<Event>): (k: nat)
    ensures k <= |events|
    ensures k < |events| ==> events[k].Entry? && forall j :: k < j < |events| ==> !events[j].Entry?
    ensures k == |events| ==> forall j :: 0 <= j < |events| ==> !events[j].Entry?
  {
    if events == [] then 0 else
    var n := |events| - 1;
    if events[n].Entry? then n else
    var k := Latest(events[..n]);
    assert forall j :: 0 <= j < n ==> events[..n][j] == events[j];
    if k == n then n + 1 else k
  }

  /** From event k on, nothing was put into service. */
  predicate NoneFrom(wins: seq<Option<Generation>>, k: nat) {
    forall j :: k <= j < |wins| ==> wins[j].None?
  }

  predicate Due<P>(rig: Rig<P>, w: World<P>) {
    && w.armed == w.pending.Some?
    && (w.armed ==> rig.configured && rig.parse(w.pending.value).Some? && w.applied.verdict == ApplyFailed)
  }

  /**
   Over every run from the start of Watch: a retry is due exactly while a manifest
   is pending; that manifest is the last one received, it is well formed, and no
   generation has gone into service since it came.
   */
  lemma {:induction false} PendingIsLatest<P>(rig: Rig<P>, w: World<P>, events: seq<Event>)
    requires w.pending.None? && !w.armed
    ensures Due(rig, Ran(rig, w, events))
    ensures var pending, k := Ran(rig, w, events).pending, Latest(events);
      pending.Some? ==> k < |events| && events[k].raw == pending.value && NoneFrom(Wins(rig, w, events), k)
  {
    if events != [] {
      var before, e := events[..|events| - 1], events[|events| - 1];
      assert events == before + [e];
      PendingIsLatest(rig, w, before);
      LastStep(rig, w, before, e);
      StepPending(rig, Ran(rig, w, before), e);
    }
  }

  lemma StepPending<P>(rig: Rig<P>, w: World<P>, e: Event)
    requires Due(rig, w)
    ensures var w' := Stepped(rig, w, e);
      && Due(rig, w')
      && (w'.armed ==> Won(rig, w, e).None? && w'.pending == if e.Entry? then Some(e.raw) else w.pending)
  {
  }

  // ---- What one manifest does ----

  /** The generation of a manifest whose lists are there. */
  function FilesOf<P>(rig: Rig<P>, m: Manifest, blobs: Blobs): (t: Tree)
    requires Fetchable(rig, m, blobs)
    ensures Files(m, Bodies(rig, m, blobs)) == Some(t)
  {
    ProfileTree(m.profiles) + ListTree(m.lists.Keys, Bodies(rig, m, blobs))
  }

  /** Every profile with its text, every list with a body of the hash given for it, and nothing else. */
  lemma FilesMean<P>(rig: Rig<P>, m: Manifest, blobs: Blobs, p: Path)
    requires Fetchable(rig, m, blobs)
    ensures var t := FilesOf(rig, m, blobs);
      match p
      case ProfileFile(n) => (p in t <==> n in m.profiles) && (p in t ==> t[p] == m.profiles[n])
      case ListFile(n) => (p in t <==> n in m.lists) && (p in t ==> rig.sum(t[p]) == m.lists[n])
  {
  }

  /** A manifest that is malformed, or recorded as applied already, changes nothing and gives up what was pending. */
  lemma SkippedEntry<P>(rig: Rig<P>, w: World<P>, raw: string, blobs: Blobs, f: Faults)
    requires rig.parse(raw).None? ||
      (w.applied.verdict == ApplyOK && w.applied.hash == rig.parse(raw).value.hash
       && w.applied.rev == rig.parse(raw).value.rev)
    ensures Stepped(rig, w, Entry(raw, blobs, f)) == w.(pending := None, armed := false)
  {
  }

  /** A manifest that is not recorded as applied: another hash, another revision, or a failure last time. */
  predicate Fresh(a: Applied, m: Manifest) {
    a.verdict != ApplyOK || a.hash != m.hash || a.rev != m.rev
  }

  /** Without its lists nothing is touched, the failure is noted, and it is due again iff there is a store. */
  lemma RetryIffConfigured<P>(rig: Rig<P>, w: World<P>, raw: string, blobs: Blobs, f: Faults)
    requires rig.parse(raw).Some? && Fresh(w.applied, rig.parse(raw).value)
    requires !Fetchable(rig, rig.parse(raw).value, blobs)
    ensures var w' := Stepped(rig, w, Entry(raw, blobs, f));
      && w'.host == w.host && w'.applied == w.applied.(verdict := ApplyFailed)
      && (rig.configured ==> w'.pending == Some(raw) && w'.armed)
      && (!rig.configured ==> w'.pending == None && !w'.armed)
  {
  }

  /** When they can be had and nothing fails, a generation that loads is in service, recorded, and nothing is due. */
  lemma EntryWins<P>(rig: Rig<P>, w: World<P>, raw: string, blobs: Blobs)
    requires rig.parse(raw).Some? && Fresh(w.applied, rig.parse(raw).value)
    requires Fetchable(rig, rig.parse(raw).value, blobs)
    requires rig.load(FilesOf(rig, rig.parse(raw).value, blobs)).Some?
    ensures var m, e := rig.parse(raw).value, Entry(raw, blobs, NO_FAULTS);
      && Won(rig, w, e) == Some(Generation(m, FilesOf(rig, m, blobs)))
      && InService(rig, Stepped(rig, w, e), m, FilesOf(rig, m, blobs))
  {
    var m, e := rig.parse(raw).value, Entry(raw, blobs, NO_FAULTS);
    BroughtTried(rig, w, e, raw);
    TriedWins(rig, w, e, m, FilesOf(rig, m, blobs));
  }

  /** A fresh manifest whose lists are there is handed to Apply. */
  lemma BroughtTried<P>(rig: Rig<P>, w: World<P>, e: Event, raw: string)
    requires !e.Skip? && Brought(w, e) == Some(raw) && rig.parse(raw).Some?
    requires Fresh(w.applied, rig.parse(raw).value) && Fetchable(rig, rig.parse(raw).value, e.blobs)
    ensures var m := rig.parse(raw).value; Tried(rig, w, e) == Some((m, Some(FilesOf(rig, m, e.blobs))))
  {
  }

  /** What is handed to Apply and loads, with nothing failing, is in service. */
  lemma TriedWins<P>(rig: Rig<P>, w: World<P>, e: Event, m: Manifest, files: Tree)
    requires !e.Skip? && e.faults == NO_FAULTS && Tried(rig, w, e) == Some((m, Some(files))) && rig.load(files).Some?
    ensures Won(rig, w, e) == Some(Generation(m, files)) && InService(rig, Stepped(rig, w, e), m, files)
  {
    Succeeds(rig.load, w.host, Some(files));
    WonIsTried(rig, w, e);
    StepHost(rig, w, e);
    StepRecord(rig, w, e);
    TriedOnce(rig, w, e);
  }

  /** What was handed to Apply is not pending any more, however that ended. */
  lemma TriedOnce<P>(rig: Rig<P>, w: World<P>, e: Event)
    requires Tried(rig, w, e).Some?
    ensures Stepped(rig, w, e).pending == None && !Stepped(rig, w, e).armed
  {
  }

  predicate InService<P(==)>(rig: Rig<P>, w: World<P>, m: Manifest, files: Tree) {
    && w.host.disk == map[Live := files] && Some(w.host.memory) == rig.load(files)
    && w.applied == Applied(m.hash, m.rev, ApplyOK, m.profiles.Keys)
    && w.pending == None && !w.armed
  }

  // ---- A retry comes through ----

  /** The manifest is waiting for its lists, and nothing has been touched since `host`. */
  predicate Waits<P(==)>(rig: Rig<P>, w: World<P>, raw: string, host: Host<P>) {
    w.host == host && w.pending == Some(raw) && w.armed && w.applied.verdict == ApplyFailed
  }

  /** The timer went off in vain. */
  predicate Vain<P>(rig: Rig<P>, m: Manifest, e: Event) {
    e.Tick? && !Fetchable(rig, m, e.blobs)
  }

  lemma VainStep<P>(rig: Rig<P>, w: World<P>, raw: string, e: Event)
    requires rig.configured && rig.parse(raw).Some? && Vain(rig, rig.parse(raw).value, e)
    requires Waits(rig, w, raw, w.host)
    ensures Waits(rig, Stepped(rig, w, e), raw, w.host) && Won(rig, w, e).None?
  {
  }

  lemma {:induction false} VainRun<P>(rig: Rig<P>, w: World<P>, raw: string, ticks: seq<Event>)
    requires rig.configured && rig.parse(raw).Some? && Waits(rig, w, raw, w.host)
    requires forall i :: 0 <= i < |ticks| ==> Vain(rig, rig.parse(raw).value, ticks[i])
    ensures Waits(rig, Ran(rig, w, ticks), raw, w.host)
  {
    if ticks != [] {
      var n := |ticks| - 1;
      VainRun(rig, w, raw, ticks[..n]);
      VainStep(rig, Ran(rig, w, ticks[..n]), raw, ticks[n]);
    }
  }

  lemma {:induction false} RanConcat<P>(rig: Rig<P>, w: World<P>, a: seq<Event>, b: seq<Event>)
    ensures Ran(rig, w, a + b) == Ran(rig, Ran(rig, w, a), b)
  {
    if b == [] {
      assert a + b == a;
    } else {
      assert (a + b)[..|a + b| - 1] == a + b[..|b| - 1];
      RanConcat(rig, w, a, b[..|b| - 1]);
    }
  }

  /** The retry itself, with the lists there and nothing failing. */
  lemma TickWins<P>(rig: Rig<P>, w: World<P>, raw: string, blobs: Blobs)
    requires rig.parse(raw).Some? && Waits(rig, w, raw, w.host) && Fetchable(rig, rig.parse(raw).value, blobs)
    requires rig.load(FilesOf(rig, rig.parse(raw).value, blobs)).Some?
    ensures var m, e := rig.parse(raw).value, Tick(blobs, NO_FAULTS);
      && Won(rig, w, e) == Some(Generation(m, FilesOf(rig, m, blobs)))
      && InService(rig, Stepped(rig, w, e), m, FilesOf(rig, m, blobs))
  {
    var m, e := rig.parse(raw).value, Tick(blobs, NO_FAULTS);
    BroughtTried(rig, w, e, raw);
    TriedWins(rig, w, e, m, FilesOf(rig, m, blobs));
  }

  /**
   A retry comes through. A new manifest whose lists cannot be had is tried again,
   however often in vain, and when they can be had and nothing fails, its
   generation goes into service as the last one won.
   */
  lemma RetryWins<P>(rig: Rig<P>, w: World<P>, raw: string, blobs: Blobs, f: Faults, ticks: seq<Event>, last: Blobs)
    requires rig.configured && rig.parse(raw).Some? && Fresh(w.applied, rig.parse(raw).value)
    requires !Fetchable(rig, rig.parse(raw).value, blobs) && Fetchable(rig, rig.parse(raw).value, last)
    requires forall i :: 0 <= i < |ticks| ==> Vain(rig, rig.parse(raw).value, ticks[i])
    requires rig.load(FilesOf(rig, rig.parse(raw).value, last)).Some?
    ensures var m, events := rig.parse(raw).value, [] + [Entry(raw, blobs, f)] + ticks + [Tick(last, NO_FAULTS)];
      && InService(rig, Ran(rig, w, events), m, FilesOf(rig, m, last))
      && Last(Wins(rig, w, events)) == Some(Generation(m, FilesOf(rig, m, last)))
  {
    var e := Entry(raw, blobs, f);
    var before := [] + [e] + ticks;
    RetryIffConfigured(rig, w, raw, blobs, f);
    LastStep(rig, w, [], e);
    RanConcat(rig, w, [] + [e], ticks);
    VainRun(rig, Ran(rig, w, [] + [e]), raw, ticks);
    LastStep(rig, w, before, Tick(last, NO_FAULTS));
    TickWins(rig, Ran(rig, w, before), raw, last);
  }

  // ---- Only a success changes what memory serves ----

  /** If the event's undoing removal stops half way, what it would leave is not noticed. */
  predicate Discreet<P(==)>(rig: Rig<P>, w: World<P>, e: Event) {
    var t := Tried(rig, w, e);
    t.Some? && t.value.1.Some? && e.faults.wipe.Some? ==>
      var tree := Promoted(w.host.disk, t.value.1.value, e.faults.clear);
      Unnoticed(rig.load, Remains(tree, e.faults.wipe.value), w.host.memory)
  }

  predicate AllDiscreet<P(==)>(rig: Rig<P>, w: World<P>, events: seq<Event>) {
    forall i :: 0 <= i < |events| ==> Discreet(rig, Ran(rig, w, events[..i]), events[i])
  }

  lemma StepAgrees<P>(rig: Rig<P>, w: World<P>, e: Event)
    requires Agrees(rig.load, w.host) && Discreet(rig, w, e)
    ensures Agrees(rig.load, Stepped(rig, w, e).host)
    ensures Won(rig, w, e).None? ==> Stepped(rig, w, e).host.memory == w.host.memory
  {
    var t := Tried(rig, w, e);
    StepHost(rig, w, e);
    WonIsTried(rig, w, e);
    if t.Some? { TryAgrees(rig.load, w.host, t.value.1, e.faults); }
  }

  lemma TryAgrees<P>(load: Tree -> Option<P>, h: Host<P>, files: Option<Tree>, f: Faults)
    requires Agrees(load, h)
    requires files.Some? && f.wipe.Some? ==>
      Unnoticed(load, Remains(Promoted(h.disk, files.value, f.clear), f.wipe.value), h.memory)
    ensures var (h', ok) := ApplyTo(load, h, files, f); Agrees(load, h') && (!ok ==> h'.memory == h.memory)
  {
    if !ApplyTo(load, h, files, f).1 { Undone(load, h, files, f); }
    if files.None? {
      StagedKeeps(h.disk, files, f);
    } else if f.wipe.Some? {
      UnnoticedKept(load, h, files.value, f);
    } else {
      AgreesKept(load, h, files, f);
    }
  }

  /**
   Over every run that began in agreement and whose half-finished removals left
   nothing that is noticed, whatever else failed: events that put nothing into
   service leave memory alone, from whichever event one looks.
   */
  lemma {:induction false} OnlyWinsChangeMemory<P>(rig: Rig<P>, w: World<P>, events: seq<Event>, i: nat)
    requires Agrees(rig.load, w.host) && AllDiscreet(rig, w, events)
    requires i <= |events| && NoneFrom(Wins(rig, w, events), i)
    ensures Ran(rig, w, events).host.memory == Ran(rig, w, events[..i]).host.memory
  {
    if i == |events| {
      assert events[..i] == events;
    } else {
      var before := events[..|events| - 1];
      AllDiscreetBefore(rig, w, events);
      WinsBefore(rig, w, events, i);
      OnlyWinsChangeMemory(rig, w, before, i);
      LoserKeeps(rig, w, events);
      assert before[..i] == events[..i];
    }
  }

  lemma WinsBefore<P>(rig: Rig<P>, w: World<P>, events: seq<Event>, i: nat)
    requires i < |events| && NoneFrom(Wins(rig, w, events), i)
    ensures NoneFrom(Wins(rig, w, events[..|events| - 1]), i)
    ensures Won(rig, Ran(rig, w, events[..|events| - 1]), events[|events| - 1]).None?
  {
    var before, wins := events[..|events| - 1], Wins(rig, w, events);
    assert wins[|wins| - 1].None?;
    forall j | i <= j < |before| ensures Wins(rig, w, before)[j].None? {
      assert wins[j].None?;
    }
  }

  /** The last event puts nothing into service and leaves memory alone. */
  lemma LoserKeeps<P>(rig: Rig<P>, w: World<P>, events: seq<Event>)
    requires events != [] && Agrees(rig.load, w.host) && AllDiscreet(rig, w, events)
    requires Won(rig, Ran(rig, w, events[..|events| - 1]), events[|events| - 1]).None?
    ensures Ran(rig, w, events).host.memory == Ran(rig, w, events[..|events| - 1]).host.memory
  {
    AllDiscreetBefore(rig, w, events);
    AgreesRun(rig, w, events[..|events| - 1]);
    StepAgrees(rig, Ran(rig, w, events[..|events| - 1]), events[|events| - 1]);
  }

  /** Such a run stays in agreement. */
  lemma {:induction false} AgreesRun<P>(rig: Rig<P>, w: World<P>, events: seq<Event>)
    requires Agrees(rig.load, w.host) && AllDiscreet(rig, w, events)
    ensures Agrees(rig.load, Ran(rig, w, events).host)
  {
    if events != [] {
      AllDiscreetBefore(rig, w, events);
      AgreesRun(rig, w, events[..|events| - 1]);
      StepAgrees(rig, Ran(rig, w, events[..|events| - 1]), events[|events| - 1]);
    }
  }

  lemma AllDiscreetBefore<P>(rig: Rig<P>, w: World<P>, events: seq<Event>)
    requires events != [] && AllDiscreet(rig, w, events)
    ensures AllDiscreet(rig, w, events[..|events| - 1])
    ensures Discreet(rig, Ran(rig, w, events[..|events| - 1]), events[|events| - 1])
  {
    var before := events[..|events| - 1];
    forall i | 0 <= i < |before| ensures Discreet(rig, Ran(rig, w, before[..i]), before[i]) {
      assert before[..i] == events[..i] && before[i] == events[i];
    }
  }

  // ---- A removal that is not complete ----

  /** The manifest is well formed and has no lists. */
  predicate Listless<P>(rig: Rig<P>, raw: string) {
    rig.parse(raw).Some? && rig.parse(raw).value.lists == map[]
  }

  /** The generation of such a manifest. */
  function TreeOf<P>(rig: Rig<P>, raw: string): Tree
    requires Listless(rig, raw)
  {
    ProfileTree(rig.parse(raw).value.profiles)
  }

  /** The generation is refused: it does not load, or `unread` says that it cannot be read. */
  predicate Refused<P>(rig: Rig<P>, raw: string, unread: bool)
    requires Listless(rig, raw)
  {
    unread || rig.load(TreeOf(rig, raw)).None?
  }

  /** A new manifest without lists is handed to Apply, and when that fails nothing is won. */
  lemma EntryTried<P>(rig: Rig<P>, w: World<P>, raw: string, f: Faults)
    requires Listless(rig, raw) && !Known(w.applied, rig.parse(raw).value)
    requires !ApplyTo(rig.load, w.host, Some(TreeOf(rig, raw)), f).1
    ensures var e := Entry(raw, None, f);
      && Won(rig, w, e).None?
      && Stepped(rig, w, e).host == ApplyTo(rig.load, w.host, Some(TreeOf(rig, raw)), f).0
      && Stepped(rig, w, e).applied.verdict == ApplyFailed
  {
    var e := Entry(raw, None, f);
    ListlessTried(rig, w, raw, f);
    WonIsTried(rig, w, e);
    StepHost(rig, w, e);
    StepVerdict(rig, w, e);
  }

  lemma ListlessTried<P>(rig: Rig<P>, w: World<P>, raw: string, f: Faults)
    requires Listless(rig, raw) && !Known(w.applied, rig.parse(raw).value)
    ensures Tried(rig, w, Entry(raw, None, f)) == Some((rig.parse(raw).value, Some(TreeOf(rig, raw))))
  {
    var m := rig.parse(raw).value;
    assert Fetchable(rig, m, None);
    BroughtTried(rig, w, Entry(raw, None, f), raw);
    NoLists(rig, m);
  }

  lemma NoLists<P>(rig: Rig<P>, m: Manifest)
    requires m.lists == map[]
    ensures FilesOf(rig, m, None) == ProfileTree(m.profiles)
  {
    assert ListTree(m.lists.Keys, Bodies(rig, m, None)) == map[];
    assert ProfileTree(m.profiles) + map[] == ProfileTree(m.profiles);
  }

  lemma StepVerdict<P>(rig: Rig<P>, w: World<P>, e: Event)
    ensures var t := Tried(rig, w, e);
      t.Some? && !ApplyTo(rig.load, w.host, t.value.1, e.faults).1 ==> Stepped(rig, w, e).applied.verdict == ApplyFailed
  {
  }

  /** The events: a refused generation whose removal stops half way, and another refused one. */
  function TwoRefused(raw1: string, unread1: bool, left: set<Path>, raw2: string, unread2: bool): seq<Event> {
    [] + [Entry(raw1, None, NO_FAULTS.(load := unread1, wipe := Some(left)))]
    + [Entry(raw2, None, NO_FAULTS.(load := unread2))]
  }

  /**
   Two refused generations in a row put a part of the first into service when the
   removal of its live directory stops half way: whatever was served before, the
   part is parked as if it had been in service and comes back with the second
   failure. So it is for all manifests without lists and for every part that loads.
   */
  lemma ResidueServed<P>(rig: Rig<P>, w: World<P>, raw1: string, unread1: bool, left: set<Path>, raw2: string,
                         unread2: bool)
    requires Listless(rig, raw1) && Refused(rig, raw1, unread1) && !Known(w.applied, rig.parse(raw1).value)
    requires Listless(rig, raw2) && Refused(rig, raw2, unread2)
    requires rig.load(Remains(TreeOf(rig, raw1), left)).Some?
    ensures var events := TwoRefused(raw1, unread1, left, raw2, unread2);
      && Last(Wins(rig, w, events)).None?
      && Some(Ran(rig, w, events).host.memory) == rig.load(Remains(TreeOf(rig, raw1), left))
  {
    var e1 := Entry(raw1, None, NO_FAULTS.(load := unread1, wipe := Some(left)));
    var e2 := Entry(raw2, None, NO_FAULTS.(load := unread2));
    assert Promoted(w.host.disk, TreeOf(rig, raw1), None) == TreeOf(rig, raw1);
    Strands(rig.load, w.host, TreeOf(rig, raw1), None, unread1, left);
    EntryTried(rig, w, raw1, e1.faults);
    var w1 := Stepped(rig, w, e1);
    Reloads(rig.load, w1.host, TreeOf(rig, raw2), unread2);
    EntryTried(rig, w1, raw2, e2.faults);
    LastStep(rig, w, [], e1);
    LastStep(rig, w, [] + [e1], e2);
  }

  /** Profiles that load unless there is one named "bad". */
  function Picky(t: Tree): Option<Tree> {
    if ProfileFile("bad") in t then None else Some(t)
  }

  /** Manifests of two profiles, "default" and "bad", with one text. */
  function TwoTexts(raw: string): Option<Manifest> {
    if raw == "" then None else Some(Manifest(1, raw, map["default" := raw, "bad" := raw], map[]))
  }

  /**
   There is such a run: with the text "1" of the default profile in service, the
   manifests "2" and "3" are refused, and what comes into service is the default
   profile of "2".
   */
  lemma SomeResidue()
    ensures var rig := Rig(Picky, TwoTexts, (s: string) => s, false);
      var served, part := map[ProfileFile("default") := "1"], map[ProfileFile("default") := "2"];
      && Listless(rig, "2") && Refused(rig, "2", false) && Listless(rig, "3") && Refused(rig, "3", false)
      && !Known(Applied("1", 1, ApplyOK, {"default"}), rig.parse("2").value)
      && Agrees(Picky, Host(map[Live := served], served))
      && rig.load(Remains(TreeOf(rig, "2"), {ProfileFile("default")})) == Some(part) && part != served
  {
    var rig := Rig(Picky, TwoTexts, (s: string) => s, false);
    var served, part := map[ProfileFile("default") := "1"], map[ProfileFile("default") := "2"];
    assert ProfileFile("bad") in TreeOf(rig, "2") && ProfileFile("bad") in TreeOf(rig, "3");
    assert Remains(TreeOf(rig, "2"), {ProfileFile("default")}) == part;
    assert ProfileFile("bad") !in part && ProfileFile("bad") !in served;
    assert served[ProfileFile("default")] != part[ProfileFile("default")];
  }
}
