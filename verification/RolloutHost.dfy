/**
 The rollout as it runs (internal/desired/desired.go; internal/policy/store.go,
 ReloadFrom): directories, memory, record and retry changed in place, step by
 step, each method against the function that specifies it.
 */
module RolloutHost {
  import opened Text
  import opened Rollout
  import opened RolloutWatch

  predicate Same(t: Tree, goal: Tree, p: Path) {
    (p in t <==> p in goal) && (p in t ==> t[p] == goal[p])
  }

  lemma SameTree(t: Tree, goal: Tree)
    requires forall p: Path :: Same(t, goal, p)
    ensures t == goal
  {
    forall p | p in t || p in goal
      ensures p in t && p in goal && t[p] == goal[p]
    {
      assert Same(t, goal, p);
    }
  }

  /** The profiles are written over what is in the directory, in any order. */
  method WriteProfiles(base: Tree, profiles: map<string, string>) returns (t: Tree)
    ensures t == base + ProfileTree(profiles)
  {
    ghost var goal := base + ProfileTree(profiles);
    t := base;
    var left := profiles.Keys;
    while left != {}
      invariant left <= profiles.Keys
      invariant forall p: Path :: Same(t, goal, p) || (p.ProfileFile? && p.name in left)
      decreases |left|
    {
      var n :| n in left;
      t := t[ProfileFile(n) := profiles[n]];
      left := left - {n};
    }
    SameTree(t, goal);
  }

  /** Then the lists; a list without a body fails the generation. */
  method WriteLists(base: Tree, lists: set<string>, bodies: map<string, string>) returns (tree: Option<Tree>)
    ensures tree == if lists <= bodies.Keys then Some(base + ListTree(lists, bodies)) else None
  {
    ghost var goal := if lists <= bodies.Keys then base + ListTree(lists, bodies) else map[];
    var t := base;
    var left := lists;
    while left != {}
      invariant left <= lists && lists - left <= bodies.Keys
      invariant lists <= bodies.Keys ==> forall p: Path :: Same(t, goal, p) || (p.ListFile? && p.name in left)
      decreases |left|
    {
      var n :| n in left;
      if n !in bodies { return None; }
      t := t[ListFile(n) := bodies[n]];
      left := left - {n};
    }
    SameTree(t, goal);
    return Some(t);
  }

  method WriteFiles(base: Tree, m: Manifest, bodies: map<string, string>) returns (tree: Option<Tree>)
    ensures tree == match Files(m, bodies) { case None => None case Some(files) => Some(base + files) }
  {
    var t := WriteProfiles(base, m.profiles);
    tree := WriteLists(t, m.lists.Keys, bodies);
    if tree.Some? { OverTwice(base, ProfileTree(m.profiles), ListTree(m.lists.Keys, bodies)); }
  }

  lemma OverTwice(a: Tree, b: Tree, c: Tree)
    ensures a + b + c == a + (b + c)
  {
  }

  /** The bodies of the lists, each checked against its hash; None as soon as one is missing or wrong. */
  method FetchLists<P>(rig: Rig<P>, m: Manifest, blobs: Blobs) returns (bodies: Option<map<string, string>>)
    ensures bodies.Some? == Fetchable(rig, m, blobs)
    ensures bodies.Some? ==> bodies.value == Bodies(rig, m, blobs)
  {
    if |m.lists| == 0 { return Some(map[]); }
    if !rig.configured || blobs.None? { return None; }
    var out: map<string, string> := map[];
    var left := m.lists.Keys;
    while left != {}
      invariant left <= m.lists.Keys && out.Keys == m.lists.Keys - left
      invariant forall n :: n in out ==> m.lists[n] in blobs.value && out[n] == blobs.value[m.lists[n]]
      invariant forall n :: n in out ==> rig.sum(out[n]) == m.lists[n]
      decreases |left|
    {
      var n :| n in left;
      if m.lists[n] !in blobs.value || rig.sum(blobs.value[m.lists[n]]) != m.lists[n] { return None; }
      out := out[n := blobs.value[m.lists[n]]];
      left := left - {n};
    }
    return Some(out);
  }

  type Run<!P> = (Host<P>, Option<Tree>, Faults) -> (Host<P>, bool)

  ghost predicate Runs<P(!new)>(load: Tree -> Option<P>, run: Run<P>) {
    forall h, files, f {:trigger ApplyTo(load, h, files, f)} :: run(h, files, f) == ApplyTo(load, h, files, f)
  }

  class Watcher<P(!new)> {
    const rig: Rig<P>
    var disk: Disk
    var memory: P
    var applied: Applied
    var pending: Option<string>
    var armed: bool

    ghost function State(): World<P>
      reads this
    {
      World(Host(disk, memory), applied, pending, armed)
    }

    constructor (rig: Rig<P>, disk: Disk, memory: P)
      ensures this.rig == rig
      ensures State() == World(Host(disk, memory), Applied("", 0, Unset, {}), None, false)
    {
      this.rig, this.disk, this.memory := rig, disk, memory;
      applied, pending, armed := Applied("", 0, Unset, {}), None, false;
    }

    method RemoveAll(dir: Dir, left: Left)
      modifies this`disk
      ensures disk == Removed(old(disk), dir, left)
    {
      if dir in disk {
        match left
        case None => disk := disk - {dir};
        case Some(kept) => disk := disk[dir := Remains(disk[dir], kept)];
      }
    }

    method Rename(from: Dir, to: Dir, fails: bool) returns (ok: bool)
      requires from != to
      modifies this`disk
      ensures var r := Renamed(old(disk), from, to, fails);
        ok == r.Some? && disk == if ok then r.value else old(disk)
    {
      ok := from in disk && to !in disk && !fails;
      if ok { disk := (disk - {from})[to := disk[from]]; }
    }

    method Write(m: Manifest, bodies: map<string, string>, fails: Option<Tree>) returns (ok: bool)
      modifies this`disk
      ensures ok == (fails.None? && Files(m, bodies).Some?)
      ensures var base := if Next in old(disk) then old(disk)[Next] else map[];
        && (ok ==> disk == old(disk)[Next := base + Files(m, bodies).value])
        && (fails.Some? ==> disk == old(disk)[Next := fails.value])
        && (!ok && fails.None? ==> disk == old(disk))
    {
      if fails.Some? {
        disk := disk[Next := fails.value];
        return false;
      }
      var tree := WriteFiles(if Next in disk then disk[Next] else map[], m, bodies);
      if tree.None? { return false; }
      disk := disk[Next := tree.value];
      return true;
    }

    /** ReloadFrom: memory is replaced only by profiles that loaded. */
    method ReloadFrom(fails: bool) returns (ok: bool)
      modifies this`memory
      ensures var got := Loaded(rig.load, disk, fails);
        ok == got.Some? && memory == if ok then got.value else old(memory)
    {
      if Live !in disk || fails { return false; }
      var got := rig.load(disk[Live]);
      ok := got.Some?;
      if ok { memory := got.value; }
    }

    method Stage(m: Manifest, bodies: map<string, string>, f: Faults) returns (ok: bool)
      modifies this`disk
      ensures (disk, ok) == Staged(old(disk), Files(m, bodies), f)
    {
      if f.mkdir { return false; }
      RemoveAll(Next, f.clear);
      ok := Write(m, bodies, f.write);
      if !ok { RemoveAll(Next, f.sweep); }
    }

    method Swap(f: Faults) returns (ok: bool, lived: bool)
      modifies this`disk
      ensures (disk, ok) == Swapped(old(disk), f) && (ok ==> lived == (Live in old(disk)))
    {
      RemoveAll(Prev, f.unpark);
      var there := Live in disk;
      lived := Rename(Live, Prev, f.park);
      if !lived && there {
        RemoveAll(Next, f.sweep);
        return false, false;
      }
      ok := Rename(Next, Live, f.promote);
      if !ok {
        if lived { var back := Rename(Prev, Live, f.restore); }
        RemoveAll(Next, f.sweep);
      }
    }

    method Enter(lived: bool, f: Faults) returns (ok: bool)
      modifies this`disk, this`memory
      ensures (Host(disk, memory), ok) == Entered(rig.load, old(Host(disk, memory)), lived, f)
    {
      ok := ReloadFrom(f.load);
      if ok {
        RemoveAll(Prev, f.tidy);
        return;
      }
      RemoveAll(Live, f.wipe);
      if lived {
        var back := Rename(Prev, Live, f.restore);
        if back { var again := ReloadFrom(f.reload); }
      }
    }

    method Apply(m: Manifest, bodies: map<string, string>, f: Faults) returns (ok: bool)
      modifies this`disk, this`memory
      ensures (State().host, ok) == ApplyTo(rig.load, old(State().host), Files(m, bodies), f)
    {
      StagedKeeps(disk, Files(m, bodies), f);
      ok := Stage(m, bodies, f);
      if !ok { return; }
      var lived;
      ok, lived := Swap(f);
      if !ok { return; }
      ok := Enter(lived, f);
    }

    /** Apply, with its specification kept folded for the callers. */
    method ApplyAs(m: Manifest, bodies: map<string, string>, f: Faults, ghost run: Run<P>) returns (ok: bool)
      requires Runs(rig.load, run)
      modifies this`disk, this`memory
      ensures (State().host, ok) == run(old(State().host), Files(m, bodies), f)
    {
      ok := Apply(m, bodies, f);
    }

    method Handle(raw: string, blobs: Blobs, f: Faults) returns (again: bool)
      modifies this`disk, this`memory, this`applied
      ensures (State(), again) == Handled(rig, old(State()), raw, blobs, f)
    {
      var m := rig.parse(raw);
      if m.None? { return false; }
      if applied.verdict == ApplyOK && applied.hash == m.value.hash && applied.rev == m.value.rev { return false; }
      var bodies := FetchLists(rig, m.value, blobs);
      if bodies.None? {
        applied := applied.(verdict := ApplyFailed);
        return rig.configured;
      }
      ghost var load := rig.load;
      Settle(m.value, bodies.value, f, (h, files, f) => ApplyTo(load, h, files, f));
      return false;
    }

    method Settle(m: Manifest, bodies: map<string, string>, f: Faults, ghost run: Run<P>)
      requires Runs(rig.load, run)
      modifies this`disk, this`memory, this`applied
      ensures State() == Settled(old(State()), m, run(old(State().host), Files(m, bodies), f))
    {
      var ok := ApplyAs(m, bodies, f, run);
      applied := if ok then Applied(m.hash, m.rev, ApplyOK, m.profiles.Keys) else applied.(verdict := ApplyFailed);
    }

    /** A manifest arrives: whatever was pending is given up. */
    method OnEntry(raw: string, blobs: Blobs, f: Faults)
      modifies this
      ensures State() == Stepped(rig, old(State()), Entry(raw, blobs, f))
    {
      pending, armed := None, false;
      var again := Handle(raw, blobs, f);
      if again { pending, armed := Some(raw), true; }
    }

    method OnTick(blobs: Blobs, f: Faults)
      requires armed
      modifies this
      ensures State() == Stepped(rig, old(State()), Tick(blobs, f))
    {
      armed := false;
      if pending.None? { return; }
      var again := Handle(pending.value, blobs, f);
      if again { armed := true; } else { pending := None; }
    }

    /** The loop of Watch. */
    method Watch(events: seq<Event>)
      modifies this
      ensures State() == Ran(rig, old(State()), events)
    {
      for i := 0 to |events|
        invariant State() == Ran(rig, old(State()), events[..i])
      {
        assert events[..i + 1][..i] == events[..i];
        match events[i]
        case Skip =>
        case Entry(raw, blobs, f) => OnEntry(raw, blobs, f);
        case Tick(blobs, f) => if armed { OnTick(blobs, f); }
      }
      assert events[..|events|] == events;
    }
  }
}
