/**
 The data directory of one replica: the pointer file `current`, its
 replacement `current.updating` while it is being written, and one
 sub-directory per database.

 A disk remembers what a power loss may still undo. File data is safe once
 the file was synced; creations, removals and renames inside the node
 directory are safe once the directory was synced, and until then each of
 them may or may not survive on its own.
 */
module NodeDir {
  import opened ByteStrings
  import opened Store

  datatype File = File(data: Bytes, synced: bool)

  datatype DbDir =
    | Intact(rows: Rows)
    | Torn                      // a removal got part of the way

  datatype Disk = Disk(
    current: Option<File>,
    currentMay: set<Option<File>>,   // what `current` may be after a power loss
    updating: Option<File>,
    dirs: map<Bytes, DbDir>,
    unsynced: set<Bytes>,            // created since the last directory sync
    removed: set<Bytes>)             // removed since the last directory sync

  const BLANK: Disk := Disk(None, {None}, None, map[], {}, {})

  // ------------------------------------------------------- pointer contents

  type Digest = Bytes -> Bytes

  ghost predicate IsMd5(h: Digest) {
    forall b :: |h(b)| == 16
  }

  function Pointer(h: Digest, name: Bytes): (b: Bytes)
    requires |h(name)| >= 8
  {
    h(name)[..8] + name
  }

  /** getCurrentDBDirName; None is one of its two panics. */
  function ReadPointer(h: Digest, data: Bytes): (v: Option<Bytes>) {
    if |data| <= 8 || |h(data[8..])| < 8 || data[..8] != h(data[8..])[..8] then None
    else Some(data[8..])
  }

  lemma PointerReads(h: Digest, name: Bytes)
    requires IsMd5(h) && name != []
    ensures ReadPointer(h, Pointer(h, name)) == Some(name)
  {
    var p := Pointer(h, name);
    assert p[..8] == h(name)[..8] && p[8..] == name;
  }

  /** A pointer is believed if and only if it is a name behind the first eight
      bytes of its digest. */
  lemma ReadPointerIff(h: Digest, data: Bytes, name: Bytes)
    requires IsMd5(h)
    ensures ReadPointer(h, data) == Some(name) <==> name != [] && data == h(name)[..8] + name
  {
    if name != [] && data == h(name)[..8] + name { assert data[..8] == h(name)[..8] && data[8..] == name; }
    if ReadPointer(h, data) == Some(name) { assert data == data[..8] + data[8..]; }
  }

  // ------------------------------------------------ operating system calls

  function CreateUpdating(d: Disk): (r: Disk) { d.(updating := Some(File([], false))) }

  function AppendUpdating(d: Disk, b: Bytes): (r: Disk)
    requires d.updating.Some?
  {
    d.(updating := Some(File(d.updating.value.data + b, false)))
  }

  function SyncUpdating(d: Disk): (r: Disk)
    requires d.updating.Some?
  {
    d.(updating := Some(d.updating.value.(synced := true)))
  }

  function RemoveUpdating(d: Disk): (r: Disk) { d.(updating := None) }

  function RenameUpdating(d: Disk): (r: Disk)
    requires d.updating.Some?
  {
    d.(current := d.updating, currentMay := d.currentMay + {d.updating}, updating := None)
  }

  function SyncDir(d: Disk): (r: Disk) {
    d.(currentMay := {d.current}, unsynced := {}, removed := {})
  }

  /** createDB: opens the database, making an empty one where there is none. */
  function CreateDb(d: Disk, n: Bytes): (r: Disk) {
    if n in d.dirs then d
    else d.(dirs := d.dirs[n := Intact(map[])], unsynced := d.unsynced + {n})
  }

  /** A synced Pebble batch is atomic and durable. */
  function StoreRows(d: Disk, n: Bytes, rows: Rows): (r: Disk) {
    d.(dirs := d.dirs[n := Intact(rows)])
  }

  /** RemoveAll passes through a state in which the directory is incomplete. */
  function TearDir(d: Disk, n: Bytes): (r: Disk) {
    if n in d.dirs then d.(dirs := d.dirs[n := Torn]) else d
  }

  function RemoveDir(d: Disk, n: Bytes): (r: Disk) {
    if n in d.dirs then d.(dirs := d.dirs - {n}, unsynced := d.unsynced - {n}, removed := d.removed + {n})
    else d
  }

  // ------------------------------------------------------------ power loss

  /** A file that was not synced may hold anything afterwards. */
  ghost predicate Survives(f: Option<File>, g: Option<File>) {
    match f
    case None => g.None?
    case Some(x) => g.Some? && g.value.synced && (x.synced ==> g.value.data == x.data)
  }

  /** e is a disk that a power loss at d can leave behind. */
  ghost predicate PowerLoss(d: Disk, e: Disk) {
    && (exists f :: f in d.currentMay && Survives(f, e.current))
    && e.currentMay == {e.current}
    && e.unsynced == {} && e.removed == {}
    && (forall n :: n in d.dirs && n !in d.unsynced ==> n in e.dirs)
    && (forall n :: n in e.dirs ==> n in d.dirs || n in d.removed)
    && (forall n :: n in d.dirs && n in e.dirs && n !in d.removed && d.dirs[n].Intact? ==> e.dirs[n] == d.dirs[n])
  }

  /** The file `current` names a database that is complete and on disk for good. */
  ghost predicate Safe(d: Disk, n: Bytes, rows: Rows) {
    n != [] && n in d.dirs && n !in d.unsynced && n !in d.removed && d.dirs[n] == Intact(rows)
  }

  ghost predicate Settled(h: Digest, d: Disk, n: Bytes, rows: Rows)
    requires IsMd5(h)
  {
    && Safe(d, n, rows)
    && d.current == Some(File(Pointer(h, n), true))
    && d.currentMay == {d.current}
  }

  /** Whatever `current` may turn out to be, it names one of two complete
      databases. */
  ghost predicate Covered(h: Digest, d: Disk, n: Bytes, rows: Rows, m: Bytes, rows': Rows)
    requires IsMd5(h)
  {
    d.current in d.currentMay &&
    forall f :: f in d.currentMay ==>
      || (f == Some(File(Pointer(h, n), true)) && Safe(d, n, rows))
      || (f == Some(File(Pointer(h, m), true)) && Safe(d, m, rows'))
  }

  /** No pointer that may come back names a directory that was damaged. */
  ghost predicate PowerSafe(h: Digest, d: Disk)
    requires IsMd5(h)
  {
    forall n :: Some(File(Pointer(h, n), true)) in d.currentMay ==>
      n !in d.removed && (n in d.dirs ==> d.dirs[n].Intact?)
  }

  lemma CoveredSurvives(h: Digest, d: Disk, n: Bytes, rows: Rows, m: Bytes, rows': Rows, e: Disk)
    requires IsMd5(h) && Covered(h, d, n, rows, m, rows') && PowerLoss(d, e)
    ensures Settled(h, e, n, rows) || Settled(h, e, m, rows')
  {
    var f :| f in d.currentMay && Survives(f, e.current);
  }

  // ------------------------------------------------------- pointer updates

  /** saveCurrentDBDirName: create, write digest, write name, sync the file,
      sync the directory. */
  function SaveNameTrail(h: Digest, d: Disk, name: Bytes): (trail: seq<Disk>)
    requires |h(name)| >= 8
  {
    var d1 := CreateUpdating(d);
    var d2 := AppendUpdating(d1, h(name)[..8]);
    var d3 := AppendUpdating(d2, name);
    var d4 := SyncUpdating(d3);
    [d1, d2, d3, d4, SyncDir(d4)]
  }

  /** The disk once saveCurrentDBDirName and replaceCurrentDBFile are done. */
  function Pointed(h: Digest, d: Disk, name: Bytes): (r: Disk)
    requires |h(name)| >= 8
  {
    SyncDir(d.(current := Some(File(Pointer(h, name), true)), updating := None))
  }

  function SavedName(h: Digest, d: Disk, name: Bytes): (r: Disk)
    requires |h(name)| >= 8
  {
    SyncDir(d.(updating := Some(File(Pointer(h, name), true))))
  }

  /** All disks between deciding on a new name and having switched to it. */
  function PointTrail(h: Digest, d: Disk, name: Bytes): (trail: seq<Disk>)
    requires |h(name)| >= 8
  {
    SaveNameTrail(h, d, name) + [RenameUpdating(SavedName(h, d, name)), Pointed(h, d, name)]
  }

  lemma SaveNameEnds(h: Digest, d: Disk, name: Bytes)
    requires |h(name)| >= 8
    ensures SaveNameTrail(h, d, name)[4] == SavedName(h, d, name)
    ensures SyncDir(RenameUpdating(SavedName(h, d, name))) == Pointed(h, d, name)
  {
    assert [] + h(name)[..8] + name == Pointer(h, name);
  }

  /** Renaming only after both syncs is what makes the switch atomic. */
  lemma PointTrailCovered(h: Digest, d: Disk, n: Bytes, rows: Rows, m: Bytes, rows': Rows)
    requires IsMd5(h) && Settled(h, d, n, rows) && n != m
    requires m != [] && m in d.dirs && m !in d.removed && d.dirs[m] == Intact(rows')
    ensures forall i :: 0 <= i < |PointTrail(h, d, m)| ==> Covered(h, PointTrail(h, d, m)[i], n, rows, m, rows')
    ensures Settled(h, Pointed(h, d, m), m, rows')
  {
    SaveNameEnds(h, d, m);
    var trail := PointTrail(h, d, m);
    forall i | 0 <= i < |trail| ensures Covered(h, trail[i], n, rows, m, rows') {
      if i < 5 {
        assert trail[i].currentMay == {d.current} && trail[i].dirs == d.dirs;
      }
    }
  }

  // --------------------------------------------------------------- cleanup

  /** cleanupNodeDataDir's loop over the directory listing. */
  function CleanTrail(d: Disk, names: seq<Bytes>, keep: Bytes): (trail: seq<Disk>)
    decreases |names|
  {
    if names == [] then []
    else if names[0] == keep then CleanTrail(d, names[1..], keep)
    else [TearDir(d, names[0]), RemoveDir(d, names[0])] + CleanTrail(RemoveDir(d, names[0]), names[1..], keep)
  }

  function Cleaned(d: Disk, names: seq<Bytes>, keep: Bytes): (r: Disk)
    decreases |names|
  {
    if names == [] then d
    else if names[0] == keep then Cleaned(d, names[1..], keep)
    else Cleaned(RemoveDir(d, names[0]), names[1..], keep)
  }

  lemma CleanStep(d: Disk, names: seq<Bytes>, keep: Bytes)
    requires names != []
    ensures names[0] == keep ==>
              Cleaned(d, names, keep) == Cleaned(d, names[1..], keep) &&
              CleanTrail(d, names, keep) == CleanTrail(d, names[1..], keep)
    ensures names[0] != keep ==>
              Cleaned(d, names, keep) == Cleaned(RemoveDir(d, names[0]), names[1..], keep) &&
              CleanTrail(d, names, keep) ==
                [TearDir(d, names[0]), RemoveDir(d, names[0])] + CleanTrail(RemoveDir(d, names[0]), names[1..], keep)
  {
  }

  /** Cleaning never touches the pointer or the database it names. */
  lemma {:induction false} CleanKeeps(h: Digest, d: Disk, names: seq<Bytes>, n: Bytes, rows: Rows)
    requires IsMd5(h) && Settled(h, d, n, rows)
    ensures forall i :: 0 <= i < |CleanTrail(d, names, n)| ==> Settled(h, CleanTrail(d, names, n)[i], n, rows)
    ensures Settled(h, Cleaned(d, names, n), n, rows)
    decreases |names|
  {
    if names != [] {
      if names[0] == n {
        CleanKeeps(h, d, names[1..], n, rows);
      } else {
        assert Settled(h, TearDir(d, names[0]), n, rows);
        CleanKeeps(h, RemoveDir(d, names[0]), names[1..], n, rows);
      }
    }
  }

  /** Cleaning removes exactly the listed directories that are not kept. */
  lemma {:induction false} CleanRemoves(d: Disk, names: seq<Bytes>, keep: Bytes)
    ensures Cleaned(d, names, keep).dirs == map k | k in d.dirs && (k == keep || k !in names) :: d.dirs[k]
    ensures Cleaned(d, names, keep).updating == d.updating
    decreases |names|
  {
    if names != [] {
      assert forall k :: k in names <==> k == names[0] || k in names[1..];
      CleanRemoves(if names[0] == keep then d else RemoveDir(d, names[0]), names[1..], keep);
    }
  }

  /** Over a whole listing, only the kept directory is left. */
  lemma CleanLeavesOne(d: Disk, names: seq<Bytes>, keep: Bytes)
    requires keep in d.dirs && forall k :: k in d.dirs ==> k in names
    ensures Cleaned(d, names, keep).dirs == map[keep := d.dirs[keep]]
    ensures Cleaned(d, names, keep).updating == d.updating
  {
    CleanRemoves(d, names, keep);
  }

  // ------------------------------------ an unsynced rename and the cleanup

  /** Every disk a power loss can leave still names a database that is there. */
  ghost predicate AlwaysNames(h: Digest, d: Disk)
    requires IsMd5(h)
  {
    forall e :: PowerLoss(d, e) ==>
      exists n, rows :: Settled(h, e, n, rows)
  }

  lemma SettledAlwaysNames(h: Digest, d: Disk, n: Bytes, rows: Rows)
    requires IsMd5(h) && Settled(h, d, n, rows)
    ensures AlwaysNames(h, d)
  {
    forall e | PowerLoss(d, e) ensures exists x, r :: Settled(h, e, x, r) {
      CoveredSurvives(h, d, n, rows, n, rows, e);
    }
  }

  lemma PointerInjective(h: Digest, n: Bytes)
    requires IsMd5(h)
    ensures forall x :: Pointer(h, x) == Pointer(h, n) ==> x == n
  {
    forall x ensures Pointer(h, x)[8..] == x {}
  }

  lemma StalePointerLost(h: Digest, d: Disk, n: Bytes)
    requires IsMd5(h) && Some(File(Pointer(h, n), true)) in d.currentMay && n !in d.dirs
    ensures !AlwaysNames(h, d)
  {
    var back := Some(File(Pointer(h, n), true));
    var e := Disk(back, {back}, None, d.dirs, {}, {});
    assert Survives(back, e.current);
    assert PowerLoss(d, e);
    PointerInjective(h, n);
    assert forall x, r :: !Settled(h, e, x, r);
  }

  /** The cleanup of Open is safe if and only if no older pointer can come
      back: killed between the rename and the directory sync of an install,
      restarted, cleaned up, and only then hit by a power loss, a replica may
      find `current` naming the directory that the cleanup removed. */
  lemma CleanupSafeIff(h: Digest, d: Disk, n: Bytes, rows: Rows, m: Bytes, rows': Rows)
    requires IsMd5(h) && n != m && Covered(h, d, n, rows, m, rows') && n in d.dirs
    requires Safe(d, m, rows') && d.current == Some(File(Pointer(h, m), true))
    ensures AlwaysNames(h, Cleaned(d, SortedKeys(d.dirs.Keys), m)) <==> d.currentMay == {d.current}
  {
    var names := SortedKeys(d.dirs.Keys);
    if d.currentMay == {d.current} {
      CleanKeeps(h, d, names, m, rows');
      SettledAlwaysNames(h, Cleaned(d, names, m), m, rows');
    } else {
      var f :| f in d.currentMay && f != d.current;
      assert f == Some(File(Pointer(h, n), true));
      CleanRemoves(d, names, m);
      CleanSamePointer(d, names, m);
      StalePointerLost(h, Cleaned(d, names, m), n);
    }
  }

  lemma {:induction false} CleanSamePointer(d: Disk, names: seq<Bytes>, keep: Bytes)
    ensures Cleaned(d, names, keep).current == d.current
    ensures Cleaned(d, names, keep).currentMay == d.currentMay
    decreases |names|
  {
    if names != [] {
      CleanSamePointer(if names[0] == keep then d else RemoveDir(d, names[0]), names[1..], keep);
    }
  }
}
