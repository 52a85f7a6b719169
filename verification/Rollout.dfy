/**
 A generation on its way into service (internal/desired/desired.go, Apply, write,
 FetchLists, handle and the loop of Watch; internal/policy/store.go, ReloadFrom):
 three directories, the profiles in memory, the record of what was applied, and
 a retry. Every file operation may fail, and a failed removal may leave any part
 of a tree behind.
 */
module Rollout {
  import opened Text

  datatype Path = ProfileFile(name: string) | ListFile(name: string)
  type Tree = map<Path, string>

  datatype Dir = Next | Prev | Live
  type Disk = map<Dir, Tree>

  datatype Manifest = Manifest(rev: nat, hash: string, profiles: map<string, string>, lists: map<string, string>)

  // ---- File operations ----

  /** What a removal leaves: nothing, or the directory with these files. */
  type Left = Option<set<Path>>

  /** os.RemoveAll; a missing directory is no error. */
  function Removed(d: Disk, dir: Dir, left: Left): Disk {
    if dir !in d then d
    else if left.None? then d - {dir}
    else d[dir := Remains(d[dir], left.value)]
  }

  /** What a removal that stopped half way leaves of a tree. */
  function Remains(t: Tree, left: set<Path>): Tree {
    map p | p in t && p in left :: t[p]
  }

  /** os.Rename of a directory: Go refuses a destination that is a directory already. */
  function Renamed(d: Disk, from: Dir, to: Dir, fails: bool): Option<Disk>
    requires from != to
  {
    if from !in d || to in d || fails then None else Some((d - {from})[to := d[from]])
  }

  /** What goes wrong in one Apply, operation by operation. */
  datatype Faults = Faults(
    mkdir: bool,
    clear: Left,
    write: Option<Tree>,  // a failed write leaves this tree
    sweep: Left,
    unpark: Left,
    park: bool,
    promote: bool,
    load: bool,
    wipe: Left,
    restore: bool,
    reload: bool,
    tidy: Left)

  const NO_FAULTS := Faults(false, None, None, None, None, false, false, false, None, false, false, None)

  // ---- Apply ----

  /** The disk and the profiles in memory, which are what loading some tree gave. */
  datatype Host<P> = Host(disk: Disk, memory: P)

  /** The files of a generation; None when a list has no body. */
  function Files(m: Manifest, bodies: map<string, string>): Option<Tree> {
    if m.lists.Keys <= bodies.Keys then Some(ProfileTree(m.profiles) + ListTree(m.lists.Keys, bodies)) else None
  }

  function ProfileTree(profiles: map<string, string>): Tree {
    map n | n in profiles :: ProfileFile(n) := profiles[n]
  }

  function ListTree(lists: set<string>, bodies: map<string, string>): Tree
    requires lists <= bodies.Keys
  {
    map n | n in lists :: ListFile(n) := bodies[n]
  }

  /** What a first removal of the staging directory left there. */
  function Leftover(d: Disk, clear: Left): Tree {
    var d' := Removed(d, Next, clear);
    if Next in d' then d'[Next] else map[]
  }

  /** Apply up to the written staging directory. */
  function Staged(d: Disk, files: Option<Tree>, f: Faults): (Disk, bool) {
    if f.mkdir then (d, false) else
    var d1 := Removed(d, Next, f.clear);
    if f.write.Some? then (Removed(d1[Next := f.write.value], Next, f.sweep), false) else
    if files.None? then (Removed(d1, Next, f.sweep), false) else
    (d1[Next := Leftover(d, f.clear) + files.value], true)
  }

  /** The live directory is parked and the staging directory takes its place, or neither. */
  function Swapped(d: Disk, f: Faults): (Disk, bool) {
    var d1 := Removed(d, Prev, f.unpark);
    var parked := Renamed(d1, Live, Prev, f.park);
    if parked.None? && Live in d1 then (Removed(d1, Next, f.sweep), false) else
    var d2 := if parked.Some? then parked.value else d1;
    var up := Renamed(d2, Next, Live, f.promote);
    if up.Some? then (up.value, true) else
    var back := if parked.Some? then Renamed(d2, Prev, Live, f.restore) else None;
    (Removed(if back.Some? then back.value else d2, Next, f.sweep), false)
  }

  function Loaded<P>(load: Tree -> Option<P>, d: Disk, fails: bool): Option<P> {
    if Live !in d || fails then None else load(d[Live])
  }

  /** The promoted directory is loaded, or taken back; `lived` says that one was parked. */
  function Entered<P>(load: Tree -> Option<P>, h: Host<P>, lived: bool, f: Faults): (Host<P>, bool) {
    var got := Loaded(load, h.disk, f.load);
    if got.Some? then (Host(Removed(h.disk, Prev, f.tidy), got.value), true) else
    var d := Removed(h.disk, Live, f.wipe);
    var back := if lived then Renamed(d, Prev, Live, f.restore) else None;
    if back.None? then (Host(d, h.memory), false) else
    var again := Loaded(load, back.value, f.reload);
    (Host(back.value, if again.Some? then again.value else h.memory), false)
  }

  function ApplyTo<P>(load: Tree -> Option<P>, h: Host<P>, files: Option<Tree>, f: Faults): (Host<P>, bool) {
    var staged := Staged(h.disk, files, f);
    if !staged.1 then (Host(staged.0, h.memory), false) else
    var swapped := Swapped(staged.0, f);
    if !swapped.1 then (Host(swapped.0, h.memory), false) else
    Entered(load, Host(swapped.0, h.memory), Live in h.disk, f)
  }

  function At(d: Disk, dir: Dir): Option<Tree> {
    if dir in d then Some(d[dir]) else None
  }

  lemma StagedKeeps(d: Disk, files: Option<Tree>, f: Faults)
    ensures var r := Staged(d, files, f);
      && At(r.0, Live) == At(d, Live) && At(r.0, Prev) == At(d, Prev)
      && (r.1 ==> files.Some? && At(r.0, Next) == Some(Leftover(d, f.clear) + files.value))
      && (!r.1 && !f.mkdir && f.sweep.None? ==> Next !in r.0)
  {
  }

  /** The swap, by where the trees are: done, undone, or stuck with the old tree parked. */
  lemma SwappedMoves(d: Disk, f: Faults)
    requires Next in d
    ensures var r := Swapped(d, f);
      && (r.1 ==> At(r.0, Live) == At(d, Next) && Next !in r.0 && (Live in d ==> At(r.0, Prev) == At(d, Live)))
      && (!r.1 ==> At(r.0, Live) == At(d, Live) || (f.restore && Live !in r.0 && At(r.0, Prev) == At(d, Live)))
      && (!r.1 && f.sweep.None? ==> Next !in r.0)
  {
  }

  /** Loading the promoted tree: in service, taken back, or stuck. */
  lemma EnteredMoves<P>(load: Tree -> Option<P>, h: Host<P>, f: Faults, lived: bool)
    requires Live in h.disk && (lived ==> Prev in h.disk)
    ensures var (h', ok) := Entered(load, h, lived, f);
      && At(h'.disk, Next) == At(h.disk, Next)
      && (ok ==> At(h'.disk, Live) == At(h.disk, Live) && load(h.disk[Live]) == Some(h'.memory))
      && (!ok ==>
        || (h'.memory == h.memory && f.wipe.Some? && Live in h'.disk
            && h'.disk[Live] == Remains(h.disk[Live], f.wipe.value) && At(h'.disk, Prev) == At(h.disk, Prev))
        || (h'.memory == h.memory && Live !in h'.disk && (lived ==> f.restore && At(h'.disk, Prev) == At(h.disk, Prev)))
        || (lived && At(h'.disk, Live) == At(h.disk, Prev) && Prev !in h'.disk
            && (h'.memory == h.memory || load(h.disk[Prev]) == Some(h'.memory))))
  {
  }

  /**
   A failed Apply. Memory is as it was or what the old live tree loads to; the old
   tree is still on disk, live or parked; it is live again whenever the removal
   and the renaming that undo the swap succeed; and staging is gone when its
   removal succeeds.
   */
  lemma Undone<P>(load: Tree -> Option<P>, h: Host<P>, files: Option<Tree>, f: Faults)
    requires !ApplyTo(load, h, files, f).1
    ensures var h' := ApplyTo(load, h, files, f).0;
      && (h'.memory == h.memory || (Live in h.disk && load(h.disk[Live]) == Some(h'.memory)))
      && (Live in h.disk ==> At(h'.disk, Live) == At(h.disk, Live) || At(h'.disk, Prev) == At(h.disk, Live))
      && (f.wipe.None? && !f.restore ==> At(h'.disk, Live) == At(h.disk, Live))
      && (f.wipe.None? ==> At(h'.disk, Live) == At(h.disk, Live) || Live !in h'.disk)
      && (f.sweep.None? && !f.mkdir ==> Next !in h'.disk)
  {
    var staged := Staged(h.disk, files, f);
    StagedKeeps(h.disk, files, f);
    if staged.1 {
      SwappedMoves(staged.0, f);
      var swapped := Swapped(staged.0, f);
      if swapped.1 { EnteredMoves(load, Host(swapped.0, h.memory), f, Live in h.disk); }
    }
  }

  /**
   An Apply that succeeds: the live tree is the generation over what the first
   removal left of an older staging directory, it is what memory serves, and it is
   the generation itself if and only if every file left over is rewritten.
   */
  lemma Done<P>(load: Tree -> Option<P>, h: Host<P>, files: Option<Tree>, f: Faults)
    requires ApplyTo(load, h, files, f).1
    ensures var h' := ApplyTo(load, h, files, f).0;
      && files.Some?
      && At(h'.disk, Live) == Some(Leftover(h.disk, f.clear) + files.value)
      && load(Leftover(h.disk, f.clear) + files.value) == Some(h'.memory)
      && (At(h'.disk, Live) == files <==> Leftover(h.disk, f.clear).Keys <= files.value.Keys)
  {
    var staged := Staged(h.disk, files, f);
    StagedKeeps(h.disk, files, f);
    SwappedMoves(staged.0, f);
    var swapped := Swapped(staged.0, f);
    EnteredMoves(load, Host(swapped.0, h.memory), f, Live in h.disk);
    Over(Leftover(h.disk, f.clear), files.value);
  }

  /** The live directory can be parked, or there is none. */
  predicate Parks(d: Disk, f: Faults) {
    Live !in d || (!f.park && (Prev !in d || f.unpark.None?))
  }

  /**
   An Apply succeeds exactly when nothing on its way fails: the directory, the
   write, the parking, the promotion and the reading, and the tree loads. What it
   then leaves beside the live tree is at most the parked one.
   */
  lemma SucceedsIff<P>(load: Tree -> Option<P>, h: Host<P>, files: Tree, f: Faults)
    ensures ApplyTo(load, h, Some(files), f).1 <==>
      && !f.mkdir && f.write.None? && Parks(h.disk, f) && !f.promote && !f.load
      && load(Leftover(h.disk, f.clear) + files).Some?
    ensures ApplyTo(load, h, Some(files), f).1 ==>
      var d := ApplyTo(load, h, Some(files), f).0.disk;
      Next !in d && (f.tidy.None? ==> Prev !in d)
  {
    var staged := Staged(h.disk, Some(files), f);
    StagedKeeps(h.disk, Some(files), f);
    if staged.1 {
      SwappedIff(staged.0, f);
      SwappedMoves(staged.0, f);
      var swapped := Swapped(staged.0, f);
      if swapped.1 { EnteredMoves(load, Host(swapped.0, h.memory), f, Live in h.disk); }
    }
  }

  lemma SwappedIff(d: Disk, f: Faults)
    requires Next in d
    ensures Swapped(d, f).1 <==> Parks(d, f) && !f.promote
  {
  }

  /** A generation that lacks the body of a list is never applied, and nothing is put in place of the live tree. */
  lemma IncompleteFails<P>(load: Tree -> Option<P>, h: Host<P>, f: Faults)
    ensures var (h', ok) := ApplyTo(load, h, None, f);
      !ok && h'.memory == h.memory && At(h'.disk, Live) == At(h.disk, Live) && At(h'.disk, Prev) == At(h.disk, Prev)
  {
    StagedKeeps(h.disk, None, f);
  }

  lemma Over(a: Tree, b: Tree)
    ensures a + b == b <==> a.Keys <= b.Keys
  {
    if a + b == b {
      assert (a + b).Keys == a.Keys + b.Keys;
    }
  }

  /** When nothing fails, a generation that loads goes into service. */
  lemma Succeeds<P>(load: Tree -> Option<P>, h: Host<P>, files: Option<Tree>)
    requires files.Some? && load(files.value).Some?
    ensures var r := ApplyTo(load, h, files, NO_FAULTS);
      r.1 && r.0.disk == map[Live := files.value] && Some(r.0.memory) == load(files.value)
  {
    var d := Staged(h.disk, files, NO_FAULTS).0;
    assert Leftover(h.disk, None) + files.value == files.value;
    assert d[Next] == files.value;
    SwappedAll(d);
  }

  lemma SwappedAll(d: Disk)
    requires Next in d
    ensures var (e, ok) := Swapped(d, NO_FAULTS); ok && Removed(e, Prev, None) == map[Live := d[Next]]
  {
    var e := Swapped(d, NO_FAULTS).0;
    SwappedMoves(d, NO_FAULTS);
    assert Swapped(d, NO_FAULTS).1;
    var m := Removed(e, Prev, None);
    assert m[Live] == d[Next];
    assert forall k: Dir :: k in m <==> k == Live;
    assert m == map[Live := d[Next]];
  }

  // ---- When a failed Apply leaves memory alone ----

  /** A live tree that loads at all loads to what memory serves. */
  predicate Agrees<P(==)>(load: Tree -> Option<P>, h: Host<P>) {
    Live in h.disk ==> load(h.disk[Live]).None? || load(h.disk[Live]) == Some(h.memory)
  }

  /**
   Whatever fails, an Apply that does not succeed leaves memory alone, if and only
   if the live tree agrees with memory beforehand.
   */
  lemma SafeIffAgrees<P>(load: Tree -> Option<P>, h: Host<P>, files: Tree)
    ensures (forall f :: !ApplyTo(load, h, Some(files), f).1 ==> ApplyTo(load, h, Some(files), f).0.memory == h.memory)
      <==> Agrees(load, h)
  {
    if Agrees(load, h) {
      forall f | !ApplyTo(load, h, Some(files), f).1
        ensures ApplyTo(load, h, Some(files), f).0.memory == h.memory
      {
        Undone(load, h, Some(files), f);
      }
    } else {
      Reloads(load, h, files, true);
    }
  }

  /** The one pattern that matters: the generation does not load, or cannot be read, and everything else works. */
  lemma Reloads<P>(load: Tree -> Option<P>, h: Host<P>, files: Tree, unread: bool)
    requires Live in h.disk && load(h.disk[Live]).Some? && (unread || load(files).None?)
    ensures var f := NO_FAULTS.(load := unread);
      !ApplyTo(load, h, Some(files), f).1 && Some(ApplyTo(load, h, Some(files), f).0.memory) == load(h.disk[Live])
  {
    var f := NO_FAULTS.(load := unread);
    var d := Staged(h.disk, Some(files), f).0;
    StagedKeeps(h.disk, Some(files), f);
    assert Leftover(h.disk, None) + files == files;
    SwappedMoves(d, f);
    var e := Swapped(d, f).0;
    assert Swapped(d, f).1;
    assert At(e, Prev) == Some(h.disk[Live]);
  }

  /** Agreement is kept by every Apply whose undoing removal is complete, and by every one that succeeds. */
  lemma AgreesKept<P>(load: Tree -> Option<P>, h: Host<P>, files: Option<Tree>, f: Faults)
    requires Agrees(load, h) && (f.wipe.None? || ApplyTo(load, h, files, f).1)
    ensures Agrees(load, ApplyTo(load, h, files, f).0)
  {
    if ApplyTo(load, h, files, f).1 {
      Done(load, h, files, f);
    } else {
      Undone(load, h, files, f);
    }
  }

  /** A tree that, loaded, would not change what memory serves. */
  predicate Unnoticed<P(==)>(load: Tree -> Option<P>, t: Tree, memory: P) {
    load(t).None? || load(t) == Some(memory)
  }

  /** What an Apply puts into the live directory: the files over what was left of older staging. */
  function Promoted(d: Disk, files: Tree, clear: Left): Tree {
    Leftover(d, clear) + files
  }

  /** Where the live directory is after an Apply that failed. */
  lemma Stranded<P>(load: Tree -> Option<P>, h: Host<P>, files: Tree, f: Faults)
    requires f.wipe.Some? && !ApplyTo(load, h, Some(files), f).1
    ensures var h' := ApplyTo(load, h, Some(files), f).0;
      || At(h'.disk, Live) == At(h.disk, Live)
      || Live !in h'.disk
      || (At(h'.disk, Live) == Some(Remains(Promoted(h.disk, files, f.clear), f.wipe.value)) && h'.memory == h.memory)
  {
    var staged := Staged(h.disk, Some(files), f);
    StagedKeeps(h.disk, Some(files), f);
    if staged.1 {
      SwappedMoves(staged.0, f);
      var swapped := Swapped(staged.0, f);
      if swapped.1 { EnteredMoves(load, Host(swapped.0, h.memory), f, Live in h.disk); }
    }
  }

  /** The pattern that leaves the remains in the live directory: the generation does not load, or cannot be read. */
  lemma Strands<P>(load: Tree -> Option<P>, h: Host<P>, files: Tree, clear: Left, unread: bool, left: set<Path>)
    requires unread || load(Promoted(h.disk, files, clear)).None?
    ensures var f := NO_FAULTS.(clear := clear, load := unread, wipe := Some(left));
      var r := ApplyTo(load, h, Some(files), f);
      && !r.1 && At(r.0.disk, Live) == Some(Remains(Promoted(h.disk, files, clear), left)) && r.0.memory == h.memory
  {
    var f := NO_FAULTS.(clear := clear, load := unread, wipe := Some(left));
    StagedKeeps(h.disk, Some(files), f);
    var d := Staged(h.disk, Some(files), f).0;
    SwappedMoves(d, f);
    assert Swapped(d, f).1;
    EnteredMoves(load, Host(Swapped(d, f).0, h.memory), f, Live in h.disk);
  }

  /**
   When a removal that stops half way does harm. From a state of agreement, an
   Apply whose undoing removal leaves these files keeps agreement, whatever else
   fails, if and only if what they leave of the promoted tree loads to nothing or
   to what memory serves already.
   */
  lemma RemainsIffUnnoticed<P>(load: Tree -> Option<P>, h: Host<P>, files: Tree, clear: Left, left: set<Path>)
    requires Agrees(load, h)
    ensures
      (forall f: Faults | f.clear == clear && f.wipe == Some(left) :: Agrees(load, ApplyTo(load, h, Some(files), f).0))
      <==> Unnoticed(load, Remains(Promoted(h.disk, files, clear), left), h.memory)
  {
    if Unnoticed(load, Remains(Promoted(h.disk, files, clear), left), h.memory) {
      forall f: Faults | f.clear == clear && f.wipe == Some(left)
        ensures Agrees(load, ApplyTo(load, h, Some(files), f).0)
      {
        UnnoticedKept(load, h, files, f);
      }
    } else {
      Strands(load, h, files, clear, true, left);
      var f := NO_FAULTS.(clear := clear, load := true, wipe := Some(left));
      assert !Agrees(load, ApplyTo(load, h, Some(files), f).0);
    }
  }

  lemma UnnoticedKept<P>(load: Tree -> Option<P>, h: Host<P>, files: Tree, f: Faults)
    requires Agrees(load, h) && f.wipe.Some?
    requires Unnoticed(load, Remains(Promoted(h.disk, files, f.clear), f.wipe.value), h.memory)
    ensures Agrees(load, ApplyTo(load, h, Some(files), f).0)
  {
    if ApplyTo(load, h, Some(files), f).1 {
      Done(load, h, Some(files), f);
    } else {
      Undone(load, h, Some(files), f);
      Stranded(load, h, files, f);
    }
  }
}
