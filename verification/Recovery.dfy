/**
 What a crash can leave behind: Open selects the named database and clears
 everything else, an install leaves the old or the new one at every point, and
 a replica can be lost to a power loss exactly while a pointer that may survive
 names a directory that is not there for good.
 */
module Recovery {
  import opened ByteStrings
  import opened Store
  import opened NodeDir
  import opened Snapshot
  import opened DiskKV

  /** The contents an install is about to switch to. */
  function Incoming(rc: RowCodec, stream: Bytes, rows: Rows): (r: Rows) {
    var p := ParseStream(rc, stream);
    if p.Parsed? then p.rows else rows
  }

  // ---------------------------------------------------------------- Open

  /** `current` names a complete database right now, whatever a power loss
      might bring back. */
  ghost predicate Selected(h: Digest, d: Disk, n: Bytes, rows: Rows)
    requires IsMd5(h)
  {
    n != [] && n in d.dirs && d.dirs[n] == Intact(rows) && d.current == Some(File(Pointer(h, n), true))
  }

  lemma {:induction false} CleanTrailSelected(h: Digest, d: Disk, names: seq<Bytes>, n: Bytes, rows: Rows)
    requires IsMd5(h) && Selected(h, d, n, rows)
    ensures var t := CleanTrail(d, names, n); forall i :: 0 <= i < |t| ==> Selected(h, t[i], n, rows)
    ensures Selected(h, Cleaned(d, names, n), n, rows)
    decreases |names|
  {
    if names != [] {
      CleanStep(d, names, n);
      if names[0] == n {
        CleanTrailSelected(h, d, names[1..], n, rows);
      } else {
        assert Selected(h, TearDir(d, names[0]), n, rows);
        CleanTrailSelected(h, RemoveDir(d, names[0]), names[1..], n, rows);
      }
    }
  }

  /** Cleaning forgets nothing about the kept directory, and what it removes
      may come back. */
  lemma {:induction false} CleanFates(d: Disk, names: seq<Bytes>, keep: Bytes)
    ensures var e := Cleaned(d, names, keep);
            && (keep in e.unsynced <==> keep in d.unsynced)
            && (keep in e.removed <==> keep in d.removed)
            && e.removed <= d.removed + d.dirs.Keys
    decreases |names|
  {
    if names != [] {
      CleanFates(if names[0] == keep then d else RemoveDir(d, names[0]), names[1..], keep);
    }
  }

  lemma CleanupSelected(h: Digest, d: Disk, names: seq<Bytes>, n: Bytes, rows: Rows)
    requires IsMd5(h) && Selected(h, d, n, rows) && forall k :: k in d.dirs ==> k in names
    ensures var t := CleanupTrail(d, names, Some(n)); forall i :: 0 <= i < |t| ==> Selected(h, t[i], n, rows)
    ensures var e := CleanedUp(d, names, Some(n));
            Selected(h, e, n, rows) && e.dirs == map[n := Intact(rows)] && e.updating.None?
            && e.currentMay == d.currentMay && SameFate(d, e, n)
  {
    var d' := RemoveUpdating(d);
    assert Selected(h, d', n, rows);
    CleanTrailSelected(h, d', names, n, rows);
    assert CleanupTrail(d, names, Some(n)) == [d'] + CleanTrail(d', names, n);
    CleanLeavesOne(d', names, n);
    CleanSamePointer(d', names, n);
    CleanFates(d', names, n);
  }

  /** Between d and e nothing happens to the entry of directory n, and only
      directories of d are removed. */
  ghost predicate SameFate(d: Disk, e: Disk, n: Bytes) {
    && (n in e.unsynced <==> n in d.unsynced)
    && (n in e.removed <==> n in d.removed) && e.removed <= d.removed + d.dirs.Keys
  }

  /** Open selects the database that `current` names, reports its applied
      index, and removes every other directory and any torn replacement. A
      process killed at any point on the way finds the same next time. */
  lemma OpenSelects(h: Digest, node: Node, n: Bytes, rows: Rows, name: Bytes, index: nat)
    requires IsMd5(h) && Selected(h, node.disk, n, rows) && QueryAppliedIndex(rows) == Some(index)
    ensures var (node', o) := OpenNode(h, node, name);
            && o == Done(index) && node'.handle == Some(n) && node'.lastApplied == index
            && node'.disk.dirs == map[n := Intact(rows)] && node'.disk.updating.None?
            && Selected(h, node'.disk, n, rows) && node'.disk.currentMay == node.disk.currentMay
            && SameFate(node.disk, node'.disk, n)
    ensures var trail := OpenTrail(h, node.disk, name);
            forall i :: 0 <= i < |trail| ==> Selected(h, trail[i], n, rows)
  {
    PointerReads(h, n);
    CleanupSelected(h, node.disk, Listing(node.disk), n, rows);
  }

  lemma CleanupSettled(h: Digest, d: Disk, names: seq<Bytes>, n: Bytes, rows: Rows)
    requires IsMd5(h) && Settled(h, d, n, rows)
    ensures var t := CleanupTrail(d, names, Some(n)); forall i :: 0 <= i < |t| ==> Settled(h, t[i], n, rows)
    ensures Settled(h, CleanedUp(d, names, Some(n)), n, rows)
  {
    var d' := RemoveUpdating(d);
    assert Settled(h, d', n, rows);
    CleanKeeps(h, d', names, n, rows);
    assert CleanupTrail(d, names, Some(n)) == [d'] + CleanTrail(d', names, n);
  }

  /** Where no older pointer can come back, Open is safe against a power loss
      at every point. */
  lemma OpenKeepsSettled(h: Digest, node: Node, n: Bytes, rows: Rows, name: Bytes, index: nat)
    requires IsMd5(h) && Settled(h, node.disk, n, rows) && QueryAppliedIndex(rows) == Some(index)
    ensures OpenNode(h, node, name).1 == Done(index) && Settled(h, OpenNode(h, node, name).0.disk, n, rows)
    ensures var trail := OpenTrail(h, node.disk, name);
            forall i :: 0 <= i < |trail| ==> Settled(h, trail[i], n, rows)
  {
    OpenSelects(h, node, n, rows, name, index);
    PointerReads(h, n);
    CleanupSettled(h, node.disk, Listing(node.disk), n, rows);
  }

  /** How Open ends where there is a pointer, exactly: it returns if the pointer
      is a name behind the right digest and the directory of that name is whole,
      with an index that can be read; it fails on a damaged directory and panics
      in all other cases. */
  lemma OpenOutcome(h: Digest, node: Node, data: Bytes, synced: bool, name: Bytes)
    requires IsMd5(h) && node.disk.current == Some(File(data, synced))
    ensures forall n :: n != [] && data == h(n)[..8] + n ==>
              var o, dirs := OpenNode(h, node, name).1, node.disk.dirs;
              if n !in dirs then o.Panicked?
              else if dirs[n].Torn? then o.Failed?
              else if QueryAppliedIndex(dirs[n].rows).None? then o.Panicked?
              else o == Done(QueryAppliedIndex(dirs[n].rows).value)
    ensures (forall n :: n != [] ==> data != h(n)[..8] + n) ==> OpenNode(h, node, name).1.Panicked?
  {
    var target := ReadPointer(h, data);
    if target.Some? {
      ReadPointerIff(h, data, target.value);
      CleanRemoves(RemoveUpdating(node.disk), Listing(node.disk), target.value);
    }
    forall n | n != [] && data == h(n)[..8] + n ensures target == Some(n) { ReadPointerIff(h, data, n); }
  }

  // ------------------------------------------------- the disks of an install

  /** The disk of an install after i + 1 system calls. Up to the directory sync
      before the rename (i == 6) nothing has happened to what was there; after
      the rename (i == 7) both databases are there for good, and either pointer
      may survive; from the next sync on only the new one. */
  ghost predicate Stage(h: Digest, before: Disk, n: Bytes, rows: Rows, m: Bytes, rows': Rows, i: nat, d: Disk)
    requires IsMd5(h)
  {
    if i < 6 then
      Selected(h, d, n, rows) && d.currentMay == before.currentMay && d.removed == before.removed
      && (n in d.unsynced <==> n in before.unsynced) && m in d.unsynced
    else if i == 6 then Settled(h, d, n, rows)
    else if i == 7 then
      Selected(h, d, m, rows') && Safe(d, n, rows) && Safe(d, m, rows')
      && d.currentMay == {Some(File(Pointer(h, n), true)), Some(File(Pointer(h, m), true))}
    else Settled(h, d, m, rows')
  }

  lemma PointStages(h: Digest, before: Disk, d: Disk, n: Bytes, rows: Rows, m: Bytes, rows': Rows, i: nat)
    requires IsMd5(h) && n != m && m != [] && m in d.dirs && d.dirs[m] == Intact(rows')
    requires Stage(h, before, n, rows, m, rows', 1, d) && 2 <= i < 9
    ensures Stage(h, before, n, rows, m, rows', i, PointTrail(h, d, m)[i - 2])
    ensures Settled(h, Pointed(h, d, m), m, rows')
  {
    SaveNameEnds(h, d, m);
  }

  lemma SwitchStages(h: Digest, before: Disk, node: Node, n: Bytes, rows: Rows, m: Bytes, rows': Rows, i: nat)
    requires IsMd5(h) && n != m && m != [] && m in node.disk.dirs
    requires Stage(h, before, n, rows, m, rows', 0, node.disk)
    requires 1 <= i < 1 + |SwitchTrail(h, node, m, rows', n)|
    ensures Stage(h, before, n, rows, m, rows', i, SwitchTrail(h, node, m, rows', n)[i - 1])
  {
    var stored := StoreRows(node.disk, m, rows');
    assert Stage(h, before, n, rows, m, rows', 1, stored);
    var points := PointTrail(h, stored, m);
    PointStages(h, before, stored, n, rows, m, rows', if 2 <= i < 9 then i else 8);
    var trail := SwitchTrail(h, node, m, rows', n);
    if 2 <= i < 9 { assert trail[i - 1] == points[i - 2]; }
    if i >= 9 {
      var d := Pointed(h, stored, m);
      assert Settled(h, TearDir(d, n), m, rows') && Settled(h, RemoveDir(d, n), m, rows');
      assert Settled(h, SyncDir(RemoveDir(d, n)), m, rows');
    }
  }

  /** Every disk of an install into an unused directory is as its stage says,
      whatever the state of the directory entry of the database in use. */
  lemma InstallStages(h: Digest, rc: RowCodec, node: Node, n: Bytes, rows: Rows, name: Bytes, stream: Bytes, i: nat)
    requires IsMd5(h) && Selected(h, node.disk, n, rows) && name != [] && Unused(h, node.disk, name)
    requires i < |InstallTrail(h, rc, node, name, stream)|
    ensures Stage(h, node.disk, n, rows, name, Incoming(rc, stream, rows), i,
              InstallTrail(h, rc, node, name, stream)[i])
  {
    PointerReads(h, n);
    var n' := node.(disk := CreateDb(node.disk, name));
    var p := ParseStream(rc, stream);
    assert Stage(h, node.disk, n, rows, name, Incoming(rc, stream, rows), 0, n'.disk);
    if p.Parsed? && i > 0 { SwitchStages(h, node.disk, n', n, rows, name, p.rows, i); }
  }

  /** An install that returns leaves the new database, on disk for good. */
  lemma InstallLeaves(h: Digest, rc: RowCodec, node: Node, n: Bytes, rows: Rows, name: Bytes, stream: Bytes)
    requires IsMd5(h) && Selected(h, node.disk, n, rows) && name != [] && Unused(h, node.disk, name)
    requires InstallNode(h, rc, node, name, stream).1.Done?
    ensures Settled(h, InstallNode(h, rc, node, name, stream).0.disk, name, Incoming(rc, stream, rows))
  {
    PointerReads(h, n);
    var trail := InstallTrail(h, rc, node, name, stream);
    InstallStages(h, rc, node, n, rows, name, stream, |trail| - 1);
  }

  /** How an install ends, exactly, on an open replica whose pointer names a
      complete database: short streams fail, undecodable rows and an index that
      cannot be read or goes back make it panic, and else it returns and serves
      the rows of the stream under the index in them. */
  lemma InstallOutcome(h: Digest, rc: RowCodec, node: Node, n: Bytes, held: Rows, name: Bytes, stream: Bytes)
    requires IsMd5(h) && Selected(h, node.disk, n, held) && !node.closed && name != [] && Unused(h, node.disk, name)
    ensures var (node', o) := InstallNode(h, rc, node, name, stream);
            var p := ParseStream(rc, stream);
            if p.Short? then
              o.Failed? && node'.handle == node.handle && node'.lastApplied == node.lastApplied
            else if p.Corrupt? || QueryAppliedIndex(p.rows).None? then o.Panicked?
            else
              var index := QueryAppliedIndex(p.rows).value;
              if index < node.lastApplied then o.Panicked?
              else o == Done(index) && Serves(node', name, p.rows, index)
  {
    PointerReads(h, n);
  }

  /** The replica is open on this directory and these rows. */
  predicate Serves(node: Node, name: Bytes, rows: Rows, index: nat) {
    node.handle == Some(name) && node.lastApplied == index && !node.closed && Contents(node) == rows
  }

  /** A replica that receives the whole stream of a state that is not older than
      its own is open on that state when the install returns. */
  lemma InstallServes(h: Digest, rc: RowCodec, node: Node, n: Bytes, held: Rows, name: Bytes, rows: Rows, b: nat)
    requires IsMd5(h) && Selected(h, node.disk, n, held) && !node.closed && name != [] && Unused(h, node.disk, name)
    requires Encodable(rc, rows) && QueryAppliedIndex(rows) == Some(b) && node.lastApplied <= b
    ensures var (node', o) := InstallNode(h, rc, node, name, StreamOf(rc, rows));
            o == Done(b) && node'.handle == Some(name) && node'.lastApplied == b && Contents(node') == rows
  {
    RoundTrip(rc, rows);
    InstallOutcome(h, rc, node, n, held, name, StreamOf(rc, rows));
  }

  /** What an install leaves, returned or not, is the last disk it was at. */
  lemma InstallEndsOnTrail(h: Digest, node: Node, name: Bytes, p: Parse)
    requires |h(name)| >= 8
    ensures var (d, trail) := (InstallParsed(h, node, name, p).0.disk, InstallParsedTrail(h, node, name, p));
            d == if trail == [] then node.disk else trail[|trail| - 1]
  {
    var previous := if node.disk.current.Some? then ReadPointer(h, node.disk.current.value.data) else None;
    if !node.closed && previous.Some? && p.Parsed? {
      var n' := node.(disk := CreateDb(node.disk, name));
      var trail := SwitchTrail(h, n', name, p.rows, previous.value);
      var points := PointTrail(h, StoreRows(n'.disk, name, p.rows), name);
      assert points[|points| - 1] == Pointed(h, StoreRows(n'.disk, name, p.rows), name);
      assert trail[|trail| - 1] == SwitchNode(h, n', name, p.rows, previous.value).0.disk;
    }
  }

  // ---------------------------------------------------- crash in an install

  /** Whatever a power loss leaves of this disk, its pointer names one of two
      complete databases that are there for good. */
  ghost predicate OldOrNew(h: Digest, d: Disk, n: Bytes, rows: Rows, m: Bytes, rows': Rows)
    requires IsMd5(h)
  {
    forall e :: PowerLoss(d, e) ==> Settled(h, e, n, rows) || Settled(h, e, m, rows')
  }

  lemma EntryLost(h: Digest, d: Disk, n: Bytes, rows: Rows, m: Bytes, rows': Rows)
    requires IsMd5(h) && n != m && Selected(h, d, n, rows) && d.current in d.currentMay
    requires n in d.unsynced || n in d.removed
    ensures !OldOrNew(h, d, n, rows, m, rows')
  {
    var dirs := if n in d.unsynced then d.dirs - {n} else d.dirs[n := Torn];
    var e := Disk(d.current, {d.current}, None, dirs, {}, {});
    assert Survives(d.current, e.current);
    assert PowerLoss(d, e);
    PointerInjective(h, n);
  }

  lemma OtherPointerBack(h: Digest, d: Disk, n: Bytes, rows: Rows, m: Bytes, rows': Rows, f: Option<File>)
    requires IsMd5(h) && n != m && Selected(h, d, n, rows) && (m in d.dirs ==> m in d.unsynced)
    requires f in d.currentMay && f != d.current
    ensures !OldOrNew(h, d, n, rows, m, rows')
  {
    var g := if f.Some? && !f.value.synced then Some(File([], true)) else f;
    var e := Disk(g, {g}, None, d.dirs - {m}, {}, {});
    assert Survives(f, e.current);
    assert PowerLoss(d, e);
  }

  /** A snapshot install is atomic: a power loss at any point leaves the
      complete old or the complete new database named. But before the directory
      sync that precedes the rename, this holds exactly if the pointer and the
      directory it names were there for good when the install began. */
  lemma InstallCrashAtomic(h: Digest, rc: RowCodec, node: Node, n: Bytes, rows: Rows, name: Bytes, stream: Bytes,
      i: nat)
    requires IsMd5(h) && Selected(h, node.disk, n, rows) && name != [] && Unused(h, node.disk, name)
    requires node.disk.current in node.disk.currentMay && i < |InstallTrail(h, rc, node, name, stream)|
    ensures OldOrNew(h, InstallTrail(h, rc, node, name, stream)[i], n, rows, name, Incoming(rc, stream, rows))
            <==> i >= 6 || Settled(h, node.disk, n, rows)
  {
    PointerReads(h, n);
    InstallStages(h, rc, node, n, rows, name, stream, i);
    var d, rows' := InstallTrail(h, rc, node, name, stream)[i], Incoming(rc, stream, rows);
    if i >= 6 || Settled(h, node.disk, n, rows) {
      assert Covered(h, d, n, rows, name, rows');
      forall e | PowerLoss(d, e) ensures Settled(h, e, n, rows) || Settled(h, e, name, rows') {
        CoveredSurvives(h, d, n, rows, name, rows', e);
      }
    } else if n in node.disk.unsynced || n in node.disk.removed {
      EntryLost(h, d, n, rows, name, rows');
    } else {
      var f :| f in node.disk.currentMay && f != node.disk.current;
      OtherPointerBack(h, d, n, rows, name, rows', f);
    }
  }

  // ------------------------------------------------- killed and restarted

  function Fresh(d: Disk): (n: Node) {
    Node(d, None, 0, false)
  }

  /** A process killed at any point of an install, and restarted, opens the
      complete old or the complete new database. */
  lemma KilledInstallReopens(h: Digest, rc: RowCodec, node: Node, n: Bytes, rows: Rows, name: Bytes, stream: Bytes,
      i: nat, again: Bytes, a: nat, b: nat)
    requires IsMd5(h) && Selected(h, node.disk, n, rows) && name != [] && Unused(h, node.disk, name)
    requires i < |InstallTrail(h, rc, node, name, stream)|
    requires QueryAppliedIndex(rows) == Some(a) && QueryAppliedIndex(Incoming(rc, stream, rows)) == Some(b)
    ensures var (node', o) := OpenNode(h, Fresh(InstallTrail(h, rc, node, name, stream)[i]), again);
            if i < 7 then o == Done(a) && node'.handle == Some(n) && Contents(node') == rows
            else o == Done(b) && node'.handle == Some(name) && Contents(node') == Incoming(rc, stream, rows)
  {
    InstallStages(h, rc, node, n, rows, name, stream, i);
    var d := InstallTrail(h, rc, node, name, stream)[i];
    if i < 7 {
      OpenSelects(h, Fresh(d), n, rows, again, a);
    } else {
      OpenSelects(h, Fresh(d), name, Incoming(rc, stream, rows), again, b);
    }
  }

  // ------------------------------------------------------- lost by power loss

  /** After a power loss at this disk Open may not succeed. */
  ghost predicate CanBeLost(h: Digest, d: Disk, again: Bytes)
    requires IsMd5(h)
  {
    exists e :: PowerLoss(d, e) && !OpenNode(h, Fresh(e), again).1.Done?
  }

  /** It may even panic, then and on every later start. */
  ghost predicate CanPanic(h: Digest, d: Disk, again: Bytes)
    requires IsMd5(h)
  {
    exists e :: PowerLoss(d, e) && OpenNode(h, Fresh(e), again).1.Panicked?
  }

  /** Every pointer that may survive is whole, and names nothing or a directory
      that is gone, damaged, or holds an index that can be read. */
  ghost predicate Readable(h: Digest, d: Disk)
    requires IsMd5(h)
  {
    forall f :: f in d.currentMay ==> f.None? || exists n :: ReadableAt(h, d, f, n)
  }

  ghost predicate ReadableAt(h: Digest, d: Disk, f: Option<File>, n: Bytes)
    requires IsMd5(h)
  {
    n != [] && f == Some(File(Pointer(h, n), true))
    && (n in d.dirs && d.dirs[n].Intact? ==> QueryAppliedIndex(d.dirs[n].rows).Some?)
  }

  /** The directory is there for good, and whole. */
  predicate Anchored(d: Disk, n: Bytes) {
    n in d.dirs && n !in d.unsynced && n !in d.removed && d.dirs[n].Intact?
  }

  ghost predicate AllAnchored(h: Digest, d: Disk)
    requires IsMd5(h)
  {
    forall n :: n != [] && Some(File(Pointer(h, n), true)) in d.currentMay ==> Anchored(d, n)
  }

  lemma AnchoredOpens(h: Digest, d: Disk, e: Disk, again: Bytes)
    requires IsMd5(h) && Readable(h, d) && AllAnchored(h, d) && PowerLoss(d, e)
    requires again !in d.dirs && again !in d.removed
    ensures OpenNode(h, Fresh(e), again).1.Done?
  {
    var f :| f in d.currentMay && Survives(f, e.current);
    if f.Some? {
      var n :| ReadableAt(h, d, f, n);
      OpenSelects(h, Fresh(e), n, d.dirs[n].rows, again, QueryAppliedIndex(d.dirs[n].rows).value);
    }
  }

  /** A pointer to a directory that may not be there. */
  lemma MissingPanics(h: Digest, d: Disk, n: Bytes, again: Bytes)
    requires IsMd5(h) && n != [] && Some(File(Pointer(h, n), true)) in d.currentMay
    requires n !in d.dirs || n in d.unsynced
    ensures CanPanic(h, d, again)
  {
    var back := Some(File(Pointer(h, n), true));
    var e := Disk(back, {back}, None, d.dirs - {n}, {}, {});
    assert Survives(back, e.current);
    assert PowerLoss(d, e);
    PointerReads(h, n);
    CleanRemoves(RemoveUpdating(e), Listing(e), n);
    assert OpenNode(h, Fresh(e), again).1.Panicked?;
  }

  /** A pointer to a directory whose removal may be half undone. */
  lemma DamagedFails(h: Digest, d: Disk, n: Bytes, again: Bytes)
    requires IsMd5(h) && n != [] && Some(File(Pointer(h, n), true)) in d.currentMay
    requires n in d.dirs && (n in d.removed || d.dirs[n].Torn?)
    ensures CanBeLost(h, d, again)
  {
    var back := Some(File(Pointer(h, n), true));
    var e := Disk(back, {back}, None, d.dirs[n := Torn], {}, {});
    assert Survives(back, e.current);
    assert PowerLoss(d, e);
    PointerReads(h, n);
    CleanRemoves(RemoveUpdating(e), Listing(e), n);
    assert OpenNode(h, Fresh(e), again).1.Failed?;
  }

  /** Main theorem: after a power loss a replica may fail to open exactly if some
      pointer that may survive names a directory that is not there for good and
      whole. */
  lemma CanBeLostIff(h: Digest, d: Disk, again: Bytes)
    requires IsMd5(h) && Readable(h, d) && again !in d.dirs && again !in d.removed
    ensures CanBeLost(h, d, again) <==> !AllAnchored(h, d)
  {
    if AllAnchored(h, d) {
      forall e | PowerLoss(d, e) ensures OpenNode(h, Fresh(e), again).1.Done? { AnchoredOpens(h, d, e, again); }
    } else {
      var n :| n != [] && Some(File(Pointer(h, n), true)) in d.currentMay && !Anchored(d, n);
      if n !in d.dirs || n in d.unsynced {
        MissingPanics(h, d, n, again);
      } else {
        DamagedFails(h, d, n, again);
      }
    }
  }

  /** Every pointer that may survive is whole, or there is none. */
  ghost predicate WholePointers(h: Digest, d: Disk)
    requires IsMd5(h)
  {
    forall f :: f in d.currentMay ==> f.None? || exists k :: k != [] && f == Some(File(Pointer(h, k), true))
  }

  /** No pointer to any other directory may survive. */
  ghost predicate Alone(h: Digest, d: Disk, n: Bytes)
    requires IsMd5(h)
  {
    forall k :: k != [] && Some(File(Pointer(h, k), true)) in d.currentMay ==> k == n
  }

  lemma OneDirReadable(h: Digest, d: Disk, e: Disk, n: Bytes, rows: Rows)
    requires IsMd5(h) && WholePointers(h, d) && e.currentMay == d.currentMay
    requires e.dirs == map[n := Intact(rows)] && QueryAppliedIndex(rows).Some?
    ensures Readable(h, e)
  {
    forall f | f in e.currentMay && f.Some? ensures exists k :: ReadableAt(h, e, f, k) {
      var k :| k != [] && f == Some(File(Pointer(h, k), true));
      assert ReadableAt(h, e, f, k);
    }
  }

  lemma OneDirAnchored(h: Digest, d: Disk, e: Disk, n: Bytes, rows: Rows)
    requires IsMd5(h) && n != [] && Some(File(Pointer(h, n), true)) in d.currentMay
    requires e.currentMay == d.currentMay && e.dirs == map[n := Intact(rows)] && SameFate(d, e, n)
    ensures AllAnchored(h, e) <==> Alone(h, d, n) && n !in d.unsynced && n !in d.removed
  {
    if n !in d.unsynced && n !in d.removed { assert Anchored(e, n); } else { assert !Anchored(e, n); }
  }

  lemma OneDirPanics(h: Digest, d: Disk, e: Disk, n: Bytes, rows: Rows, again: Bytes)
    requires IsMd5(h) && n != [] && Some(File(Pointer(h, n), true)) in d.currentMay
    requires e.currentMay == d.currentMay && e.dirs == map[n := Intact(rows)] && SameFate(d, e, n)
    requires !Alone(h, d, n) || n in d.unsynced
    ensures CanPanic(h, e, again)
  {
    if n in d.unsynced {
      MissingPanics(h, e, n, again);
    } else {
      var k :| k != [] && Some(File(Pointer(h, k), true)) in d.currentMay && k != n;
      MissingPanics(h, e, k, again);
    }
  }

  /** After a restart only the selected directory is left, so a power loss is
      harmless exactly if no other may be named and it is there for good. */
  lemma ReopenedCanBeLost(h: Digest, d: Disk, n: Bytes, rows: Rows, again: Bytes, index: nat)
    requires IsMd5(h) && Selected(h, d, n, rows) && QueryAppliedIndex(rows) == Some(index)
    requires d.current in d.currentMay && WholePointers(h, d) && again !in d.dirs && again !in d.removed
    ensures var e := OpenNode(h, Fresh(d), again).0.disk;
            && (CanBeLost(h, e, again) <==> !(Alone(h, d, n) && n !in d.unsynced && n !in d.removed))
            && (!Alone(h, d, n) || n in d.unsynced ==> CanPanic(h, e, again))
  {
    OpenSelects(h, Fresh(d), n, rows, again, index);
    var e := OpenNode(h, Fresh(d), again).0.disk;
    OneDirReadable(h, d, e, n, rows);
    OneDirAnchored(h, d, e, n, rows);
    CanBeLostIff(h, e, again);
    if !Alone(h, d, n) || n in d.unsynced { OneDirPanics(h, d, e, n, rows, again); }
  }

  lemma StageAlone(h: Digest, before: Disk, n: Bytes, rows: Rows, m: Bytes, rows': Rows, i: nat, d: Disk)
    requires IsMd5(h) && n != m && n != [] && m != [] && Stage(h, before, n, rows, m, rows', i, d)
    requires WholePointers(h, before) && before.current in before.currentMay && Selected(h, before, n, rows)
    ensures WholePointers(h, d) && d.current in d.currentMay
    ensures Alone(h, d, if i < 7 then n else m) <==> i != 7 && (i < 6 ==> Alone(h, before, n))
  {
    PointerInjective(h, n);
    PointerInjective(h, m);
    if i >= 6 {
      assert Some(File(Pointer(h, n), true)) in d.currentMay || Some(File(Pointer(h, m), true)) in d.currentMay;
    }
  }

  /** Killed during an install, restarted, and then hit by a power loss, a
      replica can be lost for good if and only if the kill came between the
      rename and the directory sync, or it came before the first sync and the
      replica could be lost before the install already: another directory may
      be named, or the entry of its own was not there for good. */
  lemma InstallWindow(h: Digest, rc: RowCodec, node: Node, n: Bytes, rows: Rows, name: Bytes, stream: Bytes,
      i: nat, again: Bytes, a: nat, b: nat)
    requires IsMd5(h) && Selected(h, node.disk, n, rows) && name != [] && Unused(h, node.disk, name)
    requires node.disk.current in node.disk.currentMay && WholePointers(h, node.disk)
    requires i < |InstallTrail(h, rc, node, name, stream)|
    requires QueryAppliedIndex(rows) == Some(a) && QueryAppliedIndex(Incoming(rc, stream, rows)) == Some(b)
    requires var d := InstallTrail(h, rc, node, name, stream)[i]; again !in d.dirs && again !in d.removed
    ensures var reopened := OpenNode(h, Fresh(InstallTrail(h, rc, node, name, stream)[i]), again).0.disk;
            var sure := Alone(h, node.disk, n) && n !in node.disk.unsynced && n !in node.disk.removed;
            && (CanBeLost(h, reopened, again) <==> i == 7 || (i < 6 && !sure))
            && (i == 7 || (i < 6 && (!Alone(h, node.disk, n) || n in node.disk.unsynced)) ==>
                  CanPanic(h, reopened, again))
  {
    PointerReads(h, n);
    InstallStages(h, rc, node, n, rows, name, stream, i);
    var d, rows' := InstallTrail(h, rc, node, name, stream)[i], Incoming(rc, stream, rows);
    StageAlone(h, node.disk, n, rows, name, rows', i, d);
    if i < 7 {
      ReopenedCanBeLost(h, d, n, rows, again, a);
    } else {
      ReopenedCanBeLost(h, d, name, rows', again, b);
    }
  }

  // ------------------------------------------------------- the first run

  /** In the first run, perhaps after others that were killed before they got
      to the rename, the pointer comes before the directory, and nothing syncs
      the directory entry: from the rename on, and even after Open has returned,
      a power loss can leave a pointer to a directory that is not there, on
      which every later Open panics. Before the rename it cannot. */
  lemma FirstRunWindow(h: Digest, d0: Disk, name: Bytes, i: nat, again: Bytes)
    requires IsMd5(h) && name != [] && i < |OpenTrail(h, d0, name)|
    requires d0.current.None? && d0.currentMay == {None} && d0.dirs == map[] && again !in d0.removed
    ensures var d := OpenTrail(h, d0, name)[i];
            (CanBeLost(h, d, again) <==> i >= 5) && (CanPanic(h, d, again) <==> i >= 5)
  {
    var d := OpenTrail(h, d0, name)[i];
    SaveNameEnds(h, d0, name);
    if i >= 5 {
      MissingPanics(h, d, name, again);
    } else {
      assert d.currentMay == {None} && d.dirs == map[];
      CanBeLostIff(h, d, again);
    }
  }

  /** When the first Open has returned, the entry of its directory is still not
      there for good; no Update and no later Open changes that, the first
      install does. */
  lemma FirstRunUnsynced(h: Digest, d0: Disk, name: Bytes)
    requires IsMd5(h) && name != []
    requires d0.current.None? && d0.dirs == map[]
    ensures var (node, o) := OpenNode(h, Fresh(d0), name);
            && o == Done(0) && Selected(h, node.disk, name, map[]) && name in node.disk.unsynced
            && node.handle == Some(name)
            && node.disk.currentMay == {node.disk.current}
  {
    SaveNameEnds(h, d0, name);
  }

  lemma DanglingPanics(h: Digest, d: Disk, n: Bytes, again: Bytes)
    requires IsMd5(h) && n != [] && d.current == Some(File(Pointer(h, n), true)) && d.dirs == map[]
    ensures OpenNode(h, Fresh(d), again).1.Panicked?
  {
    PointerReads(h, n);
    CleanRemoves(RemoveUpdating(d), Listing(d), n);
  }

  /** No power loss is needed: killed between the rename and the creation of the
      directory, a replica panics on every later Open. Killed anywhere else in
      its first run it opens, empty. */
  lemma FirstRunKilled(h: Digest, d0: Disk, name: Bytes, i: nat, again: Bytes)
    requires IsMd5(h) && name != [] && again != [] && i < |OpenTrail(h, d0, name)|
    requires d0.current.None? && d0.dirs == map[]
    ensures var (node, o) := OpenNode(h, Fresh(OpenTrail(h, d0, name)[i]), again);
            if 5 <= i < 7 then o.Panicked? else o == Done(0) && Contents(node) == map[]
  {
    var d := OpenTrail(h, d0, name)[i];
    SaveNameEnds(h, d0, name);
    if i < 5 {
      FirstRunUnsynced(h, d, again);
    } else if i < 7 {
      DanglingPanics(h, d, name, again);
    } else {
      OpenSelects(h, Fresh(d), name, map[], again, 0);
    }
  }
}
