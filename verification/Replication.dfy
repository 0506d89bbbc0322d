/**
 Any number of replicas of one log, running, being killed, losing power,
 taking snapshots and installing each other's: in every run, whatever a
 replica serves is the fold of a prefix of the log, and which prefix is told
 by the index stored in it.
 */
module Replication {
  import opened ByteStrings
  import opened Commands
  import opened Store
  import opened NodeDir
  import opened Snapshot
  import opened DiskKV
  import opened Recovery

  /** What all replicas share. */
  datatype Setup = Setup(h: Digest, f: Meaning, rc: RowCodec, log: seq<Entry>)

  ghost predicate Core(s: Setup) {
    IsMd5(s.h) && ValidLog(s.log)
  }

  ghost predicate ValidSetup(s: Setup) {
    && Core(s)
    && forall k: nat :: k <= |s.log| && Fits(s.rc, StateAt(s.f, s.log, k)) ==> Encodable(s.rc, StateAt(s.f, s.log, k))
  }

  /** A lawful JSON codec gives a valid setup for every log. */
  lemma CodecSetup(h: Digest, c: Codec, log: seq<Entry>)
    requires IsMd5(h) && c.Lawful() && ValidLog(log)
    ensures ValidSetup(Setup(h, MeaningOf(c), RowCodecOf(c), log))
  {
    var f, rc := MeaningOf(c), RowCodecOf(c);
    forall k: nat | k <= |log| && Fits(rc, StateAt(f, log, k)) ensures Encodable(rc, StateAt(f, log, k)) {
      StateUtf8(c, log, k);
      Utf8Encodable(c, StateAt(f, log, k));
    }
  }

  ghost predicate IsState(s: Setup, rows: Rows, k: nat) {
    k <= |s.log| && rows == StateAt(s.f, s.log, k)
  }

  ghost predicate LogState(s: Setup, rows: Rows) {
    exists k: nat :: IsState(s, rows, k)
  }

  lemma EmptyIsLogState(s: Setup)
    ensures LogState(s, map[])
  {
    assert IsState(s, map[], 0);
  }

  lemma LogStateIndex(s: Setup, rows: Rows, k: nat)
    requires Core(s) && IsState(s, rows, k)
    ensures QueryAppliedIndex(rows) == Some(IndexAt(s.log, k))
  {
    IndexOfState(s.f, s.log, k);
  }

  // ------------------------------------------------------ disk invariant

  /** The file `current` names n, and if n is there it holds a log state. */
  ghost predicate Names(s: Setup, d: Disk, x: Option<File>, n: Bytes)
    requires IsMd5(s.h)
  {
    && n != [] && n !in d.removed
    && x == Some(File(Pointer(s.h, n), true))
    && (n in d.dirs ==> d.dirs[n].Intact? && LogState(s, d.dirs[n].rows))
  }

  ghost predicate GoodPointer(s: Setup, d: Disk, x: Option<File>)
    requires IsMd5(s.h)
  {
    x.None? || exists n :: Names(s, d, x, n)
  }

  /** A pointer that may come back: if what it names is still whole, it is a
      log state. It may be gone, or damaged on its way out. */
  ghost predicate Once(s: Setup, d: Disk, x: Option<File>, n: Bytes)
    requires IsMd5(s.h)
  {
    && n != [] && x == Some(File(Pointer(s.h, n), true))
    && (n in d.dirs && d.dirs[n].Intact? ==> LogState(s, d.dirs[n].rows))
  }

  ghost predicate OldPointer(s: Setup, d: Disk, x: Option<File>)
    requires IsMd5(s.h)
  {
    x.None? || exists n :: Once(s, d, x, n)
  }

  ghost predicate DiskInv(s: Setup, d: Disk)
    requires IsMd5(s.h)
  {
    && d.current in d.currentMay && GoodPointer(s, d, d.current)
    && forall x :: x in d.currentMay ==> OldPointer(s, d, x)
  }

  ghost predicate AllInv(s: Setup, t: seq<Disk>)
    requires IsMd5(s.h)
  {
    forall i :: 0 <= i < |t| ==> DiskInv(s, t[i])
  }

  lemma GoodIsOld(s: Setup, d: Disk, x: Option<File>)
    requires IsMd5(s.h) && GoodPointer(s, d, x)
    ensures OldPointer(s, d, x)
  {
    if x.Some? {
      var n :| Names(s, d, x, n);
      assert Once(s, d, x, n);
    }
  }

  /** Directories only come to hold log states, get damaged or go. */
  lemma OldPointersStay(s: Setup, d: Disk, e: Disk)
    requires IsMd5(s.h) && forall x :: x in d.currentMay ==> OldPointer(s, d, x)
    requires forall x :: x in e.currentMay ==> x in d.currentMay || OldPointer(s, e, x)
    requires forall n :: n in e.dirs && e.dirs[n].Intact? ==>
               LogState(s, e.dirs[n].rows) || (n in d.dirs && d.dirs[n] == e.dirs[n])
    ensures forall x :: x in e.currentMay ==> OldPointer(s, e, x)
  {
    forall x | x in e.currentMay && x in d.currentMay ensures OldPointer(s, e, x) {
      assert OldPointer(s, d, x);
      if x.Some? {
        var n :| Once(s, d, x, n);
        assert Once(s, e, x, n);
      }
    }
  }

  lemma SamePointers(s: Setup, d: Disk, e: Disk)
    requires IsMd5(s.h) && DiskInv(s, d)
    requires e.dirs == d.dirs && e.removed <= d.removed && e.current == d.current
    requires e.current in e.currentMay && e.currentMay <= d.currentMay
    ensures DiskInv(s, e)
  {
    OldPointersStay(s, d, e);
    if d.current.Some? {
      var n :| Names(s, d, d.current, n);
      assert Names(s, e, e.current, n);
    }
  }

  /** A directory may come to hold a log state at any time. */
  lemma StoredState(s: Setup, d: Disk, e: Disk, name: Bytes, rows: Rows)
    requires IsMd5(s.h) && DiskInv(s, d) && LogState(s, rows)
    requires e.current == d.current && e.currentMay == d.currentMay && e.removed == d.removed
    requires e.dirs == d.dirs[name := Intact(rows)]
    ensures DiskInv(s, e)
  {
    OldPointersStay(s, d, e);
    if d.current.Some? {
      var n :| Names(s, d, d.current, n);
      assert Names(s, e, e.current, n);
    }
  }

  /** A directory that `current` does not name may be torn and removed, even
      if an older pointer to it may come back. */
  lemma UnnamedGoes(s: Setup, d: Disk, n: Bytes, other: Bytes)
    requires IsMd5(s.h) && DiskInv(s, d) && other != n && Names(s, d, d.current, n)
    ensures DiskInv(s, TearDir(d, other)) && Names(s, TearDir(d, other), d.current, n)
    ensures DiskInv(s, RemoveDir(d, other)) && Names(s, RemoveDir(d, other), d.current, n)
  {
    OldPointersStay(s, d, TearDir(d, other));
    OldPointersStay(s, d, RemoveDir(d, other));
    assert Names(s, TearDir(d, other), d.current, n);
    assert Names(s, RemoveDir(d, other), d.current, n);
  }

  lemma PointTrailInv(s: Setup, d: Disk, name: Bytes)
    requires IsMd5(s.h) && DiskInv(s, d) && name != [] && name !in d.removed
    requires name in d.dirs ==> d.dirs[name].Intact? && LogState(s, d.dirs[name].rows)
    ensures var t := PointTrail(s.h, d, name); AllInv(s, t)
    ensures var e := Pointed(s.h, d, name);
            DiskInv(s, e) && e.currentMay == {e.current} && Names(s, e, e.current, name)
  {
    SaveNameEnds(s.h, d, name);
    var t := PointTrail(s.h, d, name);
    var e := Pointed(s.h, d, name);
    assert Names(s, e, e.current, name);
    GoodIsOld(s, e, e.current);
    forall i | 0 <= i < |t| ensures DiskInv(s, t[i]) {
      if i < 5 {
        SamePointers(s, d, t[i]);
      } else if i == 5 {
        assert Names(s, t[i], t[i].current, name);
        GoodIsOld(s, t[i], t[i].current);
        OldPointersStay(s, d, t[i]);
      }
    }
  }

  lemma {:induction false} CleanTrailInv(s: Setup, d: Disk, names: seq<Bytes>, n: Bytes)
    requires IsMd5(s.h) && DiskInv(s, d) && Names(s, d, d.current, n)
    ensures var t := CleanTrail(d, names, n); AllInv(s, t)
    ensures var e := Cleaned(d, names, n); DiskInv(s, e) && Names(s, e, e.current, n) && e.current == d.current
    decreases |names|
  {
    if names != [] {
      CleanStep(d, names, n);
      if names[0] == n {
        CleanTrailInv(s, d, names[1..], n);
      } else {
        UnnamedGoes(s, d, n, names[0]);
        CleanTrailInv(s, RemoveDir(d, names[0]), names[1..], n);
      }
    }
  }

  // ------------------------------------------------------ node invariant

  ghost predicate NodeInv(s: Setup, node: Node)
    requires IsMd5(s.h)
  {
    && DiskInv(s, node.disk)
    && (node.handle.Some? ==>
          && !node.closed && node.handle.value in node.disk.dirs
          && Names(s, node.disk, node.disk.current, node.handle.value)
          && QueryAppliedIndex(Contents(node)) == Some(node.lastApplied))
  }

  /** What is left of a replica's process after an outcome. */
  function After(node: Node, o: Outcome): (n: Node) {
    if o.Panicked? then Fresh(node.disk) else node
  }

  lemma FinishInv(s: Setup, node: Node, d: Disk, n: Bytes)
    requires Core(s) && DiskInv(s, d) && n in d.dirs && Names(s, d, d.current, n) && !node.closed
    ensures Finish(node, d, n).1.Done? && NodeInv(s, Finish(node, d, n).0)
  {
    var k :| IsState(s, d.dirs[n].rows, k);
    LogStateIndex(s, d.dirs[n].rows, k);
  }

  lemma FirstOpenInv(s: Setup, node: Node, name: Bytes)
    requires Core(s) && DiskInv(s, node.disk) && node.disk.current.None? && !node.closed
    requires name != [] && name !in node.disk.dirs && name !in node.disk.removed
    ensures var (node', o) := OpenNode(s.h, node, name); NodeInv(s, After(node', o))
    ensures var t := OpenTrail(s.h, node.disk, name); AllInv(s, t)
  {
    var d := node.disk;
    PointTrailInv(s, d, name);
    EmptyIsLogState(s);
    var e := Pointed(s.h, d, name);
    StoredState(s, e, CreateDb(e, name), name, map[]);
    FinishInv(s, node, CreateDb(e, name), name);
  }

  lemma CleanupInv(s: Setup, d: Disk, names: seq<Bytes>, n: Bytes)
    requires Core(s) && DiskInv(s, d) && Names(s, d, d.current, n)
    ensures var t := CleanupTrail(d, names, Some(n)); AllInv(s, t)
    ensures var e := CleanedUp(d, names, Some(n)); DiskInv(s, e) && Names(s, e, e.current, n)
  {
    var d' := RemoveUpdating(d);
    SamePointers(s, d, d');
    assert Names(s, d', d'.current, n);
    CleanTrailInv(s, d', names, n);
    assert CleanupTrail(d, names, Some(n)) == [d'] + CleanTrail(d', names, n);
  }

  lemma OpenInv(s: Setup, node: Node, name: Bytes)
    requires Core(s) && NodeInv(s, node) && CanOpen(node, name)
    ensures var (node', o) := OpenNode(s.h, node, name); NodeInv(s, After(node', o))
    ensures var t := OpenTrail(s.h, node.disk, name); AllInv(s, t)
  {
    var d := node.disk;
    if d.current.None? {
      FirstOpenInv(s, node, name);
    } else {
      assert GoodPointer(s, d, d.current);
      var n :| Names(s, d, d.current, n);
      PointerReads(s.h, n);
      CleanupInv(s, d, Listing(d), n);
      var e := CleanedUp(d, Listing(d), Some(n));
      if n in e.dirs { FinishInv(s, node, e, n); }
    }
  }

  lemma StoredContents(s: Setup, node: Node, rows: Rows, index: nat)
    requires Core(s) && NodeInv(s, node) && node.handle.Some?
    requires LogState(s, rows) && QueryAppliedIndex(rows) == Some(index)
    ensures NodeInv(s, node.(disk := StoreRows(node.disk, node.handle.value, rows), lastApplied := index))
  {
    var d := StoreRows(node.disk, node.handle.value, rows);
    StoredState(s, node.disk, d, node.handle.value, rows);
    assert Names(s, d, d.current, node.handle.value);
  }

  lemma NextState(s: Setup, rows: Rows, n: nat, m: nat)
    requires Core(s) && LogState(s, rows) && n < m <= |s.log|
    requires QueryAppliedIndex(rows) == Some(IndexAt(s.log, n))
    ensures var next := Updated(s.f, rows, s.log[n..m]);
            LogState(s, next) && QueryAppliedIndex(next) == Some(LastIndex(s.log[n..m]))
  {
    var k :| IsState(s, rows, k);
    LogStateIndex(s, rows, k);
    SameIndexSamePrefix(s, k, n);
    UpdateAdvances(s.f, s.log, n, m);
    assert IsState(s, StateAt(s.f, s.log, m), m);
    LogStateIndex(s, StateAt(s.f, s.log, m), m);
  }

  lemma UpdateInv(s: Setup, node: Node, n: nat, m: nat)
    requires Core(s) && NodeInv(s, node) && node.handle.Some?
    requires n < m <= |s.log| && IndexAt(s.log, n) == node.lastApplied
    ensures var (node', o) := UpdateNode(s.f, node, s.log[n..m]); NodeInv(s, After(node', o))
  {
    var es := s.log[n..m];
    NextState(s, Contents(node), n, m);
    StoredContents(s, node, Updated(s.f, Contents(node), es), LastIndex(es));
  }

  lemma PowerInv(s: Setup, d: Disk, e: Disk)
    requires IsMd5(s.h) && DiskInv(s, d) && PowerSafe(s.h, d) && PowerLoss(d, e)
    ensures DiskInv(s, e)
  {
    var x :| x in d.currentMay && Survives(x, e.current);
    assert OldPointer(s, d, x);
    if x.Some? {
      var n :| Once(s, d, x, n);
      assert Names(s, e, e.current, n);
    }
    GoodIsOld(s, e, e.current);
  }

  lemma LogStateHasIndex(s: Setup, rows: Rows)
    requires Core(s)
    ensures LogState(s, rows) ==> QueryAppliedIndex(rows).Some?
  {
    forall k: nat | IsState(s, rows, k) ensures QueryAppliedIndex(rows).Some? { LogStateIndex(s, rows, k); }
  }

  /** A pointer that comes back to a directory whose removal is half undone. */
  lemma DamagedComesBack(s: Setup, d: Disk, n: Bytes)
    requires IsMd5(s.h) && Some(File(Pointer(s.h, n), true)) in d.currentMay
    requires n in d.removed || (n in d.dirs && d.dirs[n].Torn?)
    ensures exists e :: PowerLoss(d, e) && !DiskInv(s, e)
  {
    var back := Some(File(Pointer(s.h, n), true));
    var e := Disk(back, {back}, None, d.dirs[n := Torn], {}, {});
    PointerInjective(s.h, n);
    assert Survives(back, e.current);
    assert PowerLoss(d, e);
    assert !GoodPointer(s, e, back);
  }

  /** After a power loss `current` never names wrong or damaged contents, though
      it may name nothing that is there, if and only if no pointer that may come
      back names a directory that was removed or is being removed. */
  lemma PowerSafeIff(s: Setup, d: Disk)
    requires Core(s) && DiskInv(s, d)
    ensures PowerSafe(s.h, d) <==> forall e :: PowerLoss(d, e) ==> DiskInv(s, e)
  {
    if PowerSafe(s.h, d) {
      forall e | PowerLoss(d, e) ensures DiskInv(s, e) { PowerInv(s, d, e); }
    } else {
      var n :| Some(File(Pointer(s.h, n), true)) in d.currentMay
               && !(n !in d.removed && (n in d.dirs ==> d.dirs[n].Intact?));
      DamagedComesBack(s, d, n);
    }
  }

  lemma InvReadable(s: Setup, d: Disk)
    requires Core(s) && DiskInv(s, d)
    ensures Readable(s.h, d) && WholePointers(s.h, d)
  {
    forall f | f in d.currentMay && f.Some?
      ensures exists n :: ReadableAt(s.h, d, f, n)
      ensures exists k :: k != [] && f == Some(File(Pointer(s.h, k), true))
    {
      assert OldPointer(s, d, f);
      var n :| Once(s, d, f, n);
      if n in d.dirs && d.dirs[n].Intact? { LogStateHasIndex(s, d.dirs[n].rows); }
      assert ReadableAt(s.h, d, f, n);
    }
  }

  /** On every disk of a run: a replica may fail to open after a power loss if
      and only if some pointer that may survive names a directory that is not
      there for good and whole. */
  lemma LostIff(s: Setup, d: Disk, again: Bytes)
    requires Core(s) && DiskInv(s, d) && again !in d.dirs && again !in d.removed
    ensures CanBeLost(s.h, d, again) <==> !AllAnchored(s.h, d)
  {
    InvReadable(s, d);
    CanBeLostIff(s.h, d, again);
  }

  /** A stream that can reach a replica: a saved one, or the start of one. */
  ghost predicate Arrives(s: Setup, streams: set<Bytes>, stream: Bytes) {
    exists whole :: whole in streams && HasPrefix(whole, stream)
  }

  ghost predicate GoodStream(s: Setup, stream: Bytes) {
    exists k: nat :: k <= |s.log| && Encodable(s.rc, StateAt(s.f, s.log, k))
                     && stream == StreamOf(s.rc, StateAt(s.f, s.log, k))
  }

  /** An arriving stream is a log state or is refused. */
  lemma ArrivingParses(s: Setup, whole: Bytes, stream: Bytes)
    requires GoodStream(s, whole) && HasPrefix(whole, stream)
    ensures var p := ParseStream(s.rc, stream); p.Short? || (p.Parsed? && LogState(s, p.rows))
  {
    var k: nat :| k <= |s.log| && Encodable(s.rc, StateAt(s.f, s.log, k))
                  && whole == StreamOf(s.rc, StateAt(s.f, s.log, k));
    var rows := StateAt(s.f, s.log, k);
    if |stream| < |whole| {
      TruncatedIsShort(s.rc, rows, |stream|);
    } else {
      assert stream == whole;
      RoundTrip(s.rc, rows);
      assert IsState(s, rows, k);
    }
  }

  lemma SwitchTailInv(s: Setup, d: Disk, name: Bytes, previous: Bytes)
    requires Core(s) && DiskInv(s, d) && d.currentMay == {d.current} && Names(s, d, d.current, name)
    requires name != previous
    ensures DiskInv(s, TearDir(d, previous)) && DiskInv(s, RemoveDir(d, previous))
    ensures var e := SyncDir(RemoveDir(d, previous)); DiskInv(s, e) && Names(s, e, e.current, name)
  {
    UnnamedGoes(s, d, name, previous);
    SamePointers(s, RemoveDir(d, previous), SyncDir(RemoveDir(d, previous)));
  }

  lemma SwitchInv(s: Setup, node: Node, name: Bytes, rows: Rows, previous: Bytes)
    requires Core(s) && DiskInv(s, node.disk) && LogState(s, rows)
    requires name != [] && name !in node.disk.removed && name != previous && !node.closed
    ensures var t := SwitchTrail(s.h, node, name, rows, previous); AllInv(s, t)
    ensures var (node', o) := SwitchNode(s.h, node, name, rows, previous); NodeInv(s, After(node', o))
  {
    var stored := StoreRows(node.disk, name, rows);
    StoredState(s, node.disk, stored, name, rows);
    PointTrailInv(s, stored, name);
    SwitchTailInv(s, Pointed(s.h, stored, name), name, previous);
    var points := PointTrail(s.h, stored, name);
    var t := SwitchTrail(s.h, node, name, rows, previous);
    forall i | 0 <= i < |t| ensures DiskInv(s, t[i]) {
      if 1 <= i < 1 + |points| { assert t[i] == points[i - 1]; }
    }
  }

  lemma InstallInv(s: Setup, node: Node, name: Bytes, p: Parse)
    requires Core(s) && NodeInv(s, node) && node.handle.Some?
    requires name != [] && Unused(s.h, node.disk, name) && name !in node.disk.removed
    requires p.Short? || (p.Parsed? && LogState(s, p.rows))
    ensures var (node', o) := InstallParsed(s.h, node, name, p); NodeInv(s, After(node', o))
    ensures var t := InstallParsedTrail(s.h, node, name, p); AllInv(s, t)
  {
    var n := node.handle.value;
    PointerReads(s.h, n);
    var d := CreateDb(node.disk, name);
    EmptyIsLogState(s);
    StoredState(s, node.disk, d, name, map[]);
    assert Names(s, d, d.current, n);
    if p.Parsed? {
      SwitchInv(s, node.(disk := d), name, p.rows, n);
    }
  }

  // -------------------------------------------------------------- the runs

  datatype World = World(nodes: map<nat, Node>, prepared: set<Rows>, streams: set<Bytes>)

  datatype Step =
    | Open(id: nat, name: Bytes)
    | OpenKilled(id: nat, name: Bytes, at: nat)      // the process dies on the way
    | Update(id: nat, from: nat, to: nat)            // log entries from..to arrive
    | Kill(id: nat)
    | LosePower(id: nat, after: Disk)
    | Prepare(id: nat)
    | Save(rows: Rows)
    | Install(id: nat, name: Bytes, stream: Bytes)
    | InstallKilled(id: nat, name: Bytes, stream: Bytes, at: nat)
    | Close(id: nat)

  ghost predicate CanOpen(node: Node, name: Bytes) {
    && node.handle.None? && !node.closed
    && name != [] && name !in node.disk.dirs && name !in node.disk.removed
  }

  ghost predicate CanInstall(s: Setup, streams: set<Bytes>, node: Node, name: Bytes, stream: Bytes) {
    && node.handle.Some? && Arrives(s, streams, stream)
    && name != [] && Unused(s.h, node.disk, name) && name !in node.disk.removed
  }

  /** What one step does to the replica it names. */
  ghost predicate NodeNext(s: Setup, streams: set<Bytes>, node: Node, step: Step, node': Node)
    requires Core(s)
  {
    match step
    case Open(_, name) =>
      CanOpen(node, name) &&
      var (ready, o) := OpenNode(s.h, node, name); node' == After(ready, o)
    case OpenKilled(_, name, at) =>
      CanOpen(node, name) &&
      var t := OpenTrail(s.h, node.disk, name); at < |t| && node' == Fresh(t[at])
    case Update(_, from, to) =>
      // Raft delivers the entries that follow the applied index, in order
      node.handle.Some? && from < to <= |s.log| && IndexAt(s.log, from) == node.lastApplied &&
      var (updated, o) := UpdateNode(s.f, node, s.log[from..to]); node' == After(updated, o)
    case Kill(_) => node' == Fresh(node.disk)
    case LosePower(_, after) =>
      PowerSafe(s.h, node.disk) && PowerLoss(node.disk, after) && node' == Fresh(after)
    case Install(_, name, stream) =>
      CanInstall(s, streams, node, name, stream) &&
      var (installed, o) := InstallNode(s.h, s.rc, node, name, stream); node' == After(installed, o)
    case InstallKilled(_, name, stream, at) =>
      CanInstall(s, streams, node, name, stream) &&
      var t := InstallTrail(s.h, s.rc, node, name, stream); at < |t| && node' == Fresh(t[at])
    case Close(_) => node' == node.(handle := None, closed := true)
    case _ => node' == node
  }

  ghost predicate Next(s: Setup, w: World, step: Step, w': World)
    requires Core(s)
  {
    match step
    case Save(rows) =>
      rows in w.prepared && Fits(s.rc, rows) && w' == w.(streams := w.streams + {StreamOf(s.rc, rows)})
    case Prepare(id) =>
      id in w.nodes && w.nodes[id].handle.Some? && w' == w.(prepared := w.prepared + {Contents(w.nodes[id])})
    case _ =>
      && step.id in w.nodes && step.id in w'.nodes
      && NodeNext(s, w.streams, w.nodes[step.id], step, w'.nodes[step.id])
      && w' == w.(nodes := w.nodes[step.id := w'.nodes[step.id]])
  }

  ghost predicate WorldInv(s: Setup, w: World)
    requires IsMd5(s.h)
  {
    && (forall id :: id in w.nodes ==> NodeInv(s, w.nodes[id]))
    && (forall rows :: rows in w.prepared ==> LogState(s, rows))
    && (forall stream :: stream in w.streams ==> GoodStream(s, stream))
  }

  lemma NodeStep(s: Setup, w: World, id: nat, node: Node)
    requires IsMd5(s.h) && WorldInv(s, w) && NodeInv(s, node)
    ensures WorldInv(s, w.(nodes := w.nodes[id := node]))
  {
  }

  lemma NodeNextInv(s: Setup, streams: set<Bytes>, node: Node, step: Step, node': Node)
    requires Core(s) && NodeInv(s, node) && forall x :: x in streams ==> GoodStream(s, x)
    requires NodeNext(s, streams, node, step, node')
    ensures NodeInv(s, node')
  {
    match step
    case Open(_, name) => OpenInv(s, node, name);
    case OpenKilled(_, name, _) => OpenInv(s, node, name);
    case Update(_, from, to) => UpdateInv(s, node, from, to);
    case LosePower(_, after) => PowerInv(s, node.disk, after);
    case Install(_, name, stream) => ArrivalInv(s, streams, node, name, stream);
    case InstallKilled(_, name, stream, _) => ArrivalInv(s, streams, node, name, stream);
    case _ =>
  }

  lemma ArrivalInv(s: Setup, streams: set<Bytes>, node: Node, name: Bytes, stream: Bytes)
    requires Core(s) && NodeInv(s, node) && forall x :: x in streams ==> GoodStream(s, x)
    requires CanInstall(s, streams, node, name, stream)
    ensures var (node', o) := InstallNode(s.h, s.rc, node, name, stream); NodeInv(s, After(node', o))
    ensures var t := InstallTrail(s.h, s.rc, node, name, stream); AllInv(s, t)
  {
    var whole :| whole in streams && HasPrefix(whole, stream);
    ArrivingParses(s, whole, stream);
    InstallInv(s, node, name, ParseStream(s.rc, stream));
  }

  /** No step breaks the invariant. */
  lemma StepInv(s: Setup, w: World, step: Step, w': World)
    requires ValidSetup(s) && WorldInv(s, w) && Next(s, w, step, w')
    ensures WorldInv(s, w')
  {
    match step
    case Save(rows) => SaveInv(s, w, rows);
    case Prepare(id) =>
    case _ =>
      NodeNextInv(s, w.streams, w.nodes[step.id], step, w'.nodes[step.id]);
      NodeStep(s, w, step.id, w'.nodes[step.id]);
  }

  lemma SavedStream(s: Setup, rows: Rows)
    requires ValidSetup(s) && LogState(s, rows) && Fits(s.rc, rows)
    ensures GoodStream(s, StreamOf(s.rc, rows))
  {
    var k :| IsState(s, rows, k);
  }

  lemma SaveInv(s: Setup, w: World, rows: Rows)
    requires ValidSetup(s) && WorldInv(s, w) && rows in w.prepared && Fits(s.rc, rows)
    ensures WorldInv(s, w.(streams := w.streams + {StreamOf(s.rc, rows)}))
  {
    SavedStream(s, rows);
  }

  /** Replicas start on blank disks. */
  ghost predicate Initial(w: World) {
    (forall id :: id in w.nodes ==> w.nodes[id] == Fresh(BLANK)) && w.prepared == {} && w.streams == {}
  }

  ghost predicate Steps(s: Setup, v: World, w: World)
    requires Core(s)
  {
    exists step :: Next(s, v, step, w)
  }

  /** A run: worlds from an initial one, each reached from the one before. */
  ghost predicate IsRun(s: Setup, run: seq<World>)
    requires Core(s)
  {
    |run| > 0 && Initial(run[0]) && forall i :: 0 < i < |run| ==> Steps(s, run[i - 1], run[i])
  }

  lemma InitialInv(s: Setup, w: World)
    requires IsMd5(s.h) && Initial(w)
    ensures WorldInv(s, w)
  {
  }

  lemma StepsInv(s: Setup, v: World, w: World)
    requires ValidSetup(s) && WorldInv(s, v) && Steps(s, v, w)
    ensures WorldInv(s, w)
  {
    var step :| Next(s, v, step, w);
    StepInv(s, v, step, w);
  }

  lemma {:induction false} RunInv(s: Setup, run: seq<World>, i: nat)
    requires ValidSetup(s) && IsRun(s, run) && i < |run|
    ensures WorldInv(s, run[i])
  {
    if i == 0 {
      InitialInv(s, run[0]);
    } else {
      RunInv(s, run, i - 1);
      StepsInv(s, run[i - 1], run[i]);
    }
  }

  /** Main theorem: in every run over one log, every open replica holds
      exactly the fold of a prefix of the log with that prefix's last index,
      and its lastApplied is that index. */
  lemma EveryReplicaHoldsAPrefix(s: Setup, run: seq<World>, i: nat, id: nat)
    requires ValidSetup(s) && IsRun(s, run) && i < |run|
    requires id in run[i].nodes && run[i].nodes[id].handle.Some?
    ensures var node := run[i].nodes[id];
            exists k: nat :: IsState(s, Contents(node), k) && node.lastApplied == IndexAt(s.log, k)
  {
    RunInv(s, run, i);
    var node := run[i].nodes[id];
    var k :| IsState(s, Contents(node), k);
    LogStateIndex(s, Contents(node), k);
  }

  /** So replicas that report the same applied index are equal, at whatever
      two moments of the run they are looked at. */
  lemma EqualIndexEqualReplicas(s: Setup, run: seq<World>, i: nat, a: nat, j: nat, b: nat)
    requires ValidSetup(s) && IsRun(s, run) && i < |run| && j < |run|
    requires a in run[i].nodes && run[i].nodes[a].handle.Some?
    requires b in run[j].nodes && run[j].nodes[b].handle.Some?
    requires run[i].nodes[a].lastApplied == run[j].nodes[b].lastApplied
    ensures Contents(run[i].nodes[a]) == Contents(run[j].nodes[b])
  {
    EveryReplicaHoldsAPrefix(s, run, i, a);
    EveryReplicaHoldsAPrefix(s, run, j, b);
    var x, y := run[i].nodes[a], run[j].nodes[b];
    var k: nat :| IsState(s, Contents(x), k) && x.lastApplied == IndexAt(s.log, k);
    var m: nat :| IsState(s, Contents(y), m) && y.lastApplied == IndexAt(s.log, m);
    SameIndexSamePrefix(s, k, m);
  }

  lemma SameIndexSamePrefix(s: Setup, i: nat, j: nat)
    requires Core(s) && i <= |s.log| && j <= |s.log| && IndexAt(s.log, i) == IndexAt(s.log, j)
    ensures i == j
  {
  }

  // ------------------------------------------------------------- progress

  lemma HandleSelected(s: Setup, node: Node)
    requires Core(s) && NodeInv(s, node) && node.handle.Some?
    ensures Usable(node) && !node.closed && Selected(s.h, node.disk, node.handle.value, Contents(node))
    ensures QueryAppliedIndex(Contents(node)) == Some(node.lastApplied)
  {
  }

  lemma NodeCatchesUp(s: Setup, node: Node, from: nat, to: nat)
    requires Core(s) && NodeInv(s, node) && node.handle.Some?
    requires from < to <= |s.log| && IndexAt(s.log, from) == node.lastApplied
    requires forall k :: from <= k < to ==> !s.f(s.log[k].cmd).Crash?
    ensures var (node', o) := UpdateNode(s.f, node, s.log[from..to]);
            && o == Done(s.log[to - 1].index) && node'.handle == node.handle
            && node'.lastApplied == s.log[to - 1].index && Contents(node') == StateAt(s.f, s.log, to)
  {
    HandleSelected(s, node);
    UpdateOutcome(s.f, node, s.log[from..to]);
    StateHere(s, node, from);
    UpdateAdvances(s.f, s.log, from, to);
  }

  /** In every run an open replica that is given the next entries, none of which
      makes it panic, takes them: it is then open on the later log state. */
  lemma UpdateCatchesUp(s: Setup, run: seq<World>, i: nat, id: nat, from: nat, to: nat)
    requires ValidSetup(s) && IsRun(s, run) && i < |run|
    requires id in run[i].nodes && run[i].nodes[id].handle.Some?
    requires from < to <= |s.log| && IndexAt(s.log, from) == run[i].nodes[id].lastApplied
    requires forall k :: from <= k < to ==> !s.f(s.log[k].cmd).Crash?
    ensures var node := run[i].nodes[id]; var (node', o) := UpdateNode(s.f, node, s.log[from..to]);
            && o == Done(s.log[to - 1].index) && node'.handle == node.handle
            && node'.lastApplied == s.log[to - 1].index && Contents(node') == StateAt(s.f, s.log, to)
  {
    RunInv(s, run, i);
    NodeCatchesUp(s, run[i].nodes[id], from, to);
  }

  lemma StateHere(s: Setup, node: Node, k: nat)
    requires Core(s) && NodeInv(s, node) && node.handle.Some?
    requires k <= |s.log| && IndexAt(s.log, k) == node.lastApplied
    ensures Contents(node) == StateAt(s.f, s.log, k)
  {
    var m :| IsState(s, Contents(node), m);
    LogStateIndex(s, Contents(node), m);
    SameIndexSamePrefix(s, k, m);
  }

  /** In every run an open replica that receives the whole stream of a log state
      no older than its own is then open on that log state. */
  lemma InstallCatchesUp(s: Setup, run: seq<World>, i: nat, id: nat, name: Bytes, k: nat)
    requires ValidSetup(s) && IsRun(s, run) && i < |run|
    requires id in run[i].nodes && run[i].nodes[id].handle.Some?
    requires name != [] && Unused(s.h, run[i].nodes[id].disk, name)
    requires k <= |s.log| && Fits(s.rc, StateAt(s.f, s.log, k)) && run[i].nodes[id].lastApplied <= IndexAt(s.log, k)
    ensures var node := run[i].nodes[id]; var stream := StreamOf(s.rc, StateAt(s.f, s.log, k));
            var (node', o) := InstallNode(s.h, s.rc, node, name, stream);
            && o == Done(IndexAt(s.log, k)) && node'.handle == Some(name)
            && node'.lastApplied == IndexAt(s.log, k) && Contents(node') == StateAt(s.f, s.log, k)
  {
    var node, rows := run[i].nodes[id], StateAt(s.f, s.log, k);
    RunInv(s, run, i);
    HandleSelected(s, node);
    IndexOfState(s.f, s.log, k);
    InstallServes(s.h, s.rc, node, node.handle.value, Contents(node), name, rows, IndexAt(s.log, k));
  }

  lemma BlankInv(s: Setup)
    requires Core(s)
    ensures NodeInv(s, Fresh(BLANK))
  {
  }

  /** A replica opened for the first time. */
  lemma FirstOpen(s: Setup, name: Bytes) returns (node: Node)
    requires Core(s) && name != []
    ensures NodeNext(s, {}, Fresh(BLANK), Step.Open(0, name), node) && NodeInv(s, node)
    ensures node.handle == Some(name) && node.lastApplied == 0 && !node.closed && Contents(node) == map[]
    ensures Selected(s.h, node.disk, name, map[]) && node.disk.dirs == map[name := Intact(map[])]
    ensures node.disk.removed == {}
  {
    BlankInv(s);
    OpenInv(s, Fresh(BLANK), name);
    FirstRunUnsynced(s.h, BLANK, name);
    node := OpenNode(s.h, Fresh(BLANK), name).0;
  }

  /** One replica opens and takes the whole log. */
  lemma Leader(s: Setup, name: Bytes) returns (first: Node, ready: Node)
    requires Core(s) && name != [] && |s.log| > 0 && forall k :: 0 <= k < |s.log| ==> !s.f(s.log[k].cmd).Crash?
    ensures NodeNext(s, {}, Fresh(BLANK), Step.Open(0, name), first)
    ensures NodeNext(s, {}, first, Step.Update(0, 0, |s.log|), ready)
    ensures ready.handle == Some(name) && Contents(ready) == StateAt(s.f, s.log, |s.log|)
  {
    first := FirstOpen(s, name);
    NodeCatchesUp(s, first, 0, |s.log|);
    ready := UpdateNode(s.f, first, s.log[0..|s.log|]).0;
  }

  lemma NextUnused(s: Setup, first: Node, name: Bytes, next: Bytes, stream: Bytes)
    requires Core(s) && name != [] && next != [] && name != next && first.handle.Some? && first.disk.removed == {}
    requires Selected(s.h, first.disk, name, map[]) && first.disk.dirs == map[name := Intact(map[])]
    ensures Unused(s.h, first.disk, next) && CanInstall(s, {stream}, first, next, stream)
  {
    PointerReads(s.h, name);
    assert HasPrefix(stream, stream);
    assert Arrives(s, {stream}, stream);
  }

  lemma FollowerInstalls(s: Setup, first: Node, name: Bytes, next: Bytes, rows: Rows) returns (ready: Node)
    requires ValidSetup(s) && name != [] && next != [] && name != next
    requires Fits(s.rc, rows) && rows == StateAt(s.f, s.log, |s.log|)
    requires first.handle == Some(name) && first.lastApplied == 0 && !first.closed && first.disk.removed == {}
    requires Selected(s.h, first.disk, name, map[]) && first.disk.dirs == map[name := Intact(map[])]
    ensures NodeNext(s, {StreamOf(s.rc, rows)}, first, Step.Install(1, next, StreamOf(s.rc, rows)), ready)
    ensures ready.handle == Some(next) && Contents(ready) == rows
  {
    IndexOfState(s.f, s.log, |s.log|);
    NextUnused(s, first, name, next, StreamOf(s.rc, rows));
    InstallServes(s.h, s.rc, first, name, map[], next, rows, IndexAt(s.log, |s.log|));
    ready := InstallNode(s.h, s.rc, first, next, StreamOf(s.rc, rows)).0;
  }

  /** Another one opens and takes the first one's snapshot instead. */
  lemma Follower(s: Setup, name: Bytes, next: Bytes) returns (first: Node, ready: Node)
    requires ValidSetup(s) && name != [] && next != [] && name != next && Fits(s.rc, StateAt(s.f, s.log, |s.log|))
    ensures var stream := StreamOf(s.rc, StateAt(s.f, s.log, |s.log|));
            && NodeNext(s, {stream}, Fresh(BLANK), Step.Open(1, name), first)
            && NodeNext(s, {stream}, first, Step.Install(1, next, stream), ready)
    ensures ready.handle == Some(next) && Contents(ready) == StateAt(s.f, s.log, |s.log|)
  {
    first := FirstOpen(s, name);
    ready := FollowerInstalls(s, first, name, next, StateAt(s.f, s.log, |s.log|));
  }

  ghost predicate Reachable(s: Setup, w: World)
    requires Core(s)
  {
    exists run :: IsRun(s, run) && run[|run| - 1] == w
  }

  lemma ReachStep(s: Setup, v: World, step: Step, w: World)
    requires Core(s) && Reachable(s, v) && Next(s, v, step, w)
    ensures Reachable(s, w)
  {
    var run :| IsRun(s, run) && run[|run| - 1] == v;
    var more := run + [w];
    assert Steps(s, v, w);
    forall i | 0 < i < |more| ensures Steps(s, more[i - 1], more[i]) {
      if i < |run| { assert Steps(s, run[i - 1], run[i]); }
    }
    assert IsRun(s, more) && more[|more| - 1] == w;
  }

  lemma ReachNode(s: Setup, w: World, id: nat, step: Step, node: Node)
    requires Core(s) && Reachable(s, w) && id in w.nodes
    requires (step.Open? || step.Update? || step.Install?) && step.id == id
    requires NodeNext(s, w.streams, w.nodes[id], step, node)
    ensures Reachable(s, w.(nodes := w.nodes[id := node]))
  {
    ReachStep(s, w, step, w.(nodes := w.nodes[id := node]));
  }

  lemma ReachSnapshot(s: Setup, w: World, id: nat, rows: Rows)
    requires Core(s) && Reachable(s, w) && OpenOn(w, id, rows) && Fits(s.rc, rows)
    ensures Reachable(s, w.(prepared := w.prepared + {rows}, streams := w.streams + {StreamOf(s.rc, rows)}))
  {
    var v := w.(prepared := w.prepared + {rows});
    ReachStep(s, w, Prepare(id), v);
    ReachStep(s, v, Save(rows), v.(streams := v.streams + {StreamOf(s.rc, rows)}));
  }

  /** A replica that is open on these rows. */
  predicate OpenOn(w: World, id: nat, rows: Rows) {
    id in w.nodes && w.nodes[id].handle.Some? && Contents(w.nodes[id]) == rows
  }

  lemma StartReachable(s: Setup) returns (w: World)
    requires Core(s)
    ensures Reachable(s, w) && w == World(map[0 := Fresh(BLANK), 1 := Fresh(BLANK)], {}, {})
  {
    w := World(map[0 := Fresh(BLANK), 1 := Fresh(BLANK)], {}, {});
    assert IsRun(s, [w]) && [w][|[w]| - 1] == w;
  }

  lemma LeaderReachable(s: Setup) returns (w: World)
    requires Core(s) && |s.log| > 0 && forall k :: 0 <= k < |s.log| ==> !s.f(s.log[k].cmd).Crash?
    ensures Reachable(s, w) && OpenOn(w, 0, StateAt(s.f, s.log, |s.log|))
    ensures w.streams == {} && w.prepared == {} && 1 in w.nodes && w.nodes[1] == Fresh(BLANK)
  {
    var w0 := StartReachable(s);
    var a, a' := Leader(s, [1]);
    ReachNode(s, w0, 0, Step.Open(0, [1]), a);
    w := w0.(nodes := w0.nodes[0 := a]);
    ReachNode(s, w, 0, Step.Update(0, 0, |s.log|), a');
    w := w.(nodes := w.nodes[0 := a']);
  }

  lemma FollowerReachable(s: Setup, w: World) returns (w': World)
    requires ValidSetup(s) && Reachable(s, w) && Fits(s.rc, StateAt(s.f, s.log, |s.log|))
    requires w.streams == {StreamOf(s.rc, StateAt(s.f, s.log, |s.log|))} && 1 in w.nodes && w.nodes[1] == Fresh(BLANK)
    ensures Reachable(s, w') && OpenOn(w', 1, StateAt(s.f, s.log, |s.log|))
    ensures 0 in w.nodes ==> 0 in w'.nodes && w'.nodes[0] == w.nodes[0]
  {
    var b, b' := Follower(s, [2], [3]);
    ReachNode(s, w, 1, Step.Open(1, [2]), b);
    w' := w.(nodes := w.nodes[1 := b]);
    ReachNode(s, w', 1, Step.Install(1, [3], StreamOf(s.rc, StateAt(s.f, s.log, |s.log|))), b');
    w' := w'.(nodes := w'.nodes[1 := b']);
  }

  /** None of this is about runs that do not exist: whatever the log, unless a
      command makes replicas panic, there is a run in which one replica takes it
      entry by entry, another takes the first one's snapshot, and both end up
      open on the state of the whole log. */
  lemma BothWaysLeadThere(s: Setup)
    requires ValidSetup(s) && |s.log| > 0 && Fits(s.rc, StateAt(s.f, s.log, |s.log|))
    requires forall k :: 0 <= k < |s.log| ==> !s.f(s.log[k].cmd).Crash?
    ensures var rows := StateAt(s.f, s.log, |s.log|);
            exists run :: IsRun(s, run) && OpenOn(run[|run| - 1], 0, rows) && OpenOn(run[|run| - 1], 1, rows)
  {
    var rows := StateAt(s.f, s.log, |s.log|);
    var v := LeaderReachable(s);
    ReachSnapshot(s, v, 0, rows);
    var v' := v.(prepared := v.prepared + {rows}, streams := v.streams + {StreamOf(s.rc, rows)});
    var w := FollowerReachable(s, v');
    var run :| IsRun(s, run) && run[|run| - 1] == w;
  }

  /** What a replica answers, in terms of what was proposed: when it has applied
      an encoded pair and since then nothing that touches its key, the key reads
      as the value of the pair, however the replica got there. */
  lemma ProposedPairIsRead(s: Setup, c: Codec, run: seq<World>, i: nat, id: nat, n: nat, m: nat, d: KVData, k: Bytes)
    requires ValidSetup(s) && c.Lawful() && s.f == MeaningOf(c) && IsRun(s, run) && i < |run|
    requires id in run[i].nodes && run[i].nodes[id].handle.Some?
    requires m < n <= |s.log| && run[i].nodes[id].lastApplied == IndexAt(s.log, n)
    requires s.log[m].cmd == MarshalData(c, d) && d.key != [] && k == c.coerce(d.key) && k != INDEX_KEY
    requires SparedIn(s.f, s.log, m + 1, n, k)
    ensures Get(Contents(run[i].nodes[id]), k) == d.val
  {
    RunInv(s, run, i);
    StateHere(s, run[i].nodes[id], n);
    LastPairRead(c, s.f, s.log, m, n, d, k);
  }

  /** And a key that nothing applied so far touches is not there. */
  lemma NothingElseIsRead(s: Setup, run: seq<World>, i: nat, id: nat, n: nat, k: Bytes)
    requires ValidSetup(s) && IsRun(s, run) && i < |run|
    requires id in run[i].nodes && run[i].nodes[id].handle.Some?
    requires n <= |s.log| && run[i].nodes[id].lastApplied == IndexAt(s.log, n) && k != INDEX_KEY
    requires SparedIn(s.f, s.log, 0, n, k)
    ensures k !in Contents(run[i].nodes[id])
  {
    RunInv(s, run, i);
    StateHere(s, run[i].nodes[id], n);
    NeverTouched(s.f, s.log, n, k);
  }

  // ------------------------------------------------------------ reopening

  /** `current` names a complete database. */
  ghost predicate Standing(s: Setup, d: Disk)
    requires IsMd5(s.h)
  {
    exists n, rows :: Selected(s.h, d, n, rows) && LogState(s, rows)
  }

  lemma StandingOpens(s: Setup, d: Disk, name: Bytes)
    requires Core(s) && Standing(s, d)
    ensures OpenNode(s.h, Fresh(d), name).1.Done?
  {
    var n, rows :| Selected(s.h, d, n, rows) && LogState(s, rows);
    LogStateHasIndex(s, rows);
    OpenSelects(s.h, Fresh(d), n, rows, name, QueryAppliedIndex(rows).value);
  }

  lemma OpenNodeStands(s: Setup, node: Node, name: Bytes)
    requires Core(s) && Standing(s, node.disk)
    ensures var (node', o) := OpenNode(s.h, node, name); Standing(s, After(node', o).disk)
    ensures var t := OpenTrail(s.h, node.disk, name); forall i :: 0 <= i < |t| ==> Standing(s, t[i])
  {
    var n, rows :| Selected(s.h, node.disk, n, rows) && LogState(s, rows);
    LogStateHasIndex(s, rows);
    OpenSelects(s.h, node, n, rows, name, QueryAppliedIndex(rows).value);
  }

  lemma UpdateStands(s: Setup, node: Node, n: nat, m: nat)
    requires Core(s) && NodeInv(s, node) && node.handle.Some?
    requires n < m <= |s.log| && IndexAt(s.log, n) == node.lastApplied
    ensures var (node', o) := UpdateNode(s.f, node, s.log[n..m]); Standing(s, After(node', o).disk)
  {
    var x, es := node.handle.value, s.log[n..m];
    NextState(s, Contents(node), n, m);
    var d := StoreRows(node.disk, x, Updated(s.f, Contents(node), es));
    assert Selected(s.h, d, x, Updated(s.f, Contents(node), es));
    assert Selected(s.h, node.disk, x, Contents(node));
  }

  lemma InstallStandsAt(s: Setup, node: Node, name: Bytes, stream: Bytes, i: nat)
    requires Core(s) && NodeInv(s, node) && node.handle.Some? && name != [] && Unused(s.h, node.disk, name)
    requires LogState(s, Incoming(s.rc, stream, Contents(node)))
    requires i < |InstallTrail(s.h, s.rc, node, name, stream)|
    ensures Standing(s, InstallTrail(s.h, s.rc, node, name, stream)[i])
  {
    var n, rows := node.handle.value, Contents(node);
    assert Selected(s.h, node.disk, n, rows);
    InstallStages(s.h, s.rc, node, n, rows, name, stream, i);
    assert Selected(s.h, InstallTrail(s.h, s.rc, node, name, stream)[i],
      if i < 7 then n else name, if i < 7 then rows else Incoming(s.rc, stream, rows));
  }

  lemma IncomingState(s: Setup, streams: set<Bytes>, rows: Rows, stream: Bytes)
    requires Core(s) && Arrives(s, streams, stream) && LogState(s, rows)
    requires forall x :: x in streams ==> GoodStream(s, x)
    ensures LogState(s, Incoming(s.rc, stream, rows))
  {
    var whole :| whole in streams && HasPrefix(whole, stream);
    ArrivingParses(s, whole, stream);
  }

  lemma InstallStands(s: Setup, streams: set<Bytes>, node: Node, name: Bytes, stream: Bytes)
    requires Core(s) && NodeInv(s, node) && forall x :: x in streams ==> GoodStream(s, x)
    requires CanInstall(s, streams, node, name, stream)
    ensures var t := InstallTrail(s.h, s.rc, node, name, stream); forall i :: 0 <= i < |t| ==> Standing(s, t[i])
    ensures var (node', o) := InstallNode(s.h, s.rc, node, name, stream); Standing(s, After(node', o).disk)
  {
    IncomingState(s, streams, Contents(node), stream);
    var t := InstallTrail(s.h, s.rc, node, name, stream);
    forall i | 0 <= i < |t| ensures Standing(s, t[i]) { InstallStandsAt(s, node, name, stream, i); }
    assert Selected(s.h, node.disk, node.handle.value, Contents(node));
    InstallEndsOnTrail(s.h, node, name, ParseStream(s.rc, stream));
  }

  /** Once `current` names a complete database, nothing but a power loss can
      end that. */
  lemma NodeNextStands(s: Setup, streams: set<Bytes>, node: Node, step: Step, node': Node)
    requires Core(s) && NodeInv(s, node) && forall x :: x in streams ==> GoodStream(s, x)
    requires NodeNext(s, streams, node, step, node') && !step.LosePower? && Standing(s, node.disk)
    ensures Standing(s, node'.disk)
  {
    match step
    case Open(_, name) => OpenNodeStands(s, node, name);
    case OpenKilled(_, name, _) => OpenNodeStands(s, node, name);
    case Update(_, from, to) => UpdateStands(s, node, from, to);
    case Install(_, name, stream) => InstallStands(s, streams, node, name, stream);
    case InstallKilled(_, name, stream, _) => InstallStands(s, streams, node, name, stream);
    case _ =>
  }

  /** A step other than a power loss at this replica. */
  ghost predicate Calm(s: Setup, v: World, w: World, id: nat)
    requires Core(s)
  {
    exists step :: Next(s, v, step, w) && !(step.LosePower? && step.id == id)
  }

  ghost predicate StandsAt(s: Setup, w: World, id: nat)
    requires Core(s)
  {
    WorldInv(s, w) && id in w.nodes && Standing(s, w.nodes[id].disk)
  }

  lemma StepStands(s: Setup, v: World, step: Step, w: World, id: nat)
    requires Core(s) && WorldInv(s, v) && Next(s, v, step, w) && !(step.LosePower? && step.id == id)
    requires id in v.nodes && Standing(s, v.nodes[id].disk)
    ensures id in w.nodes && Standing(s, w.nodes[id].disk)
  {
    if !step.Save? && !step.Prepare? && step.id == id {
      NodeNextStands(s, v.streams, v.nodes[id], step, w.nodes[id]);
    }
  }

  lemma CalmStands(s: Setup, v: World, w: World, id: nat)
    requires ValidSetup(s) && Calm(s, v, w, id) && StandsAt(s, v, id)
    ensures StandsAt(s, w, id)
  {
    var step :| Next(s, v, step, w) && !(step.LosePower? && step.id == id);
    StepStands(s, v, step, w, id);
    StepInv(s, v, step, w);
  }

  lemma {:induction false} Carried(P: World -> bool, R: (World, World) -> bool, run: seq<World>, i: nat, j: nat)
    requires i <= j < |run| && P(run[i])
    requires forall v, w :: P(v) && R(v, w) ==> P(w)
    requires forall k :: i < k <= j ==> R(run[k - 1], run[k])
    ensures P(run[j])
    decreases j
  {
    if j > i { Carried(P, R, run, i, j - 1); }
  }

  lemma StaysStanding(s: Setup, run: seq<World>, i: nat, j: nat, id: nat)
    requires ValidSetup(s) && i <= j < |run| && StandsAt(s, run[i], id)
    requires forall k :: i < k <= j ==> Calm(s, run[k - 1], run[k], id)
    ensures StandsAt(s, run[j], id)
  {
    var P, R := w => StandsAt(s, w, id), (v, w) => Calm(s, v, w, id);
    forall v, w | P(v) && R(v, w) ensures P(w) { CalmStands(s, v, w, id); }
    Carried(P, R, run, i, j);
  }

  /** Once an Open of a replica has returned, every later Open succeeds, after
      any kills at any points, as long as the replica does not lose power. */
  lemma ReopensUnlessPowerLost(s: Setup, run: seq<World>, i: nat, j: nat, id: nat, name: Bytes)
    requires ValidSetup(s) && IsRun(s, run) && i <= j < |run|
    requires id in run[i].nodes && run[i].nodes[id].handle.Some?
    requires forall k :: i < k <= j ==> Calm(s, run[k - 1], run[k], id)
    ensures id in run[j].nodes && OpenNode(s.h, Fresh(run[j].nodes[id].disk), name).1.Done?
  {
    RunInv(s, run, i);
    var node := run[i].nodes[id];
    assert Selected(s.h, node.disk, node.handle.value, Contents(node));
    StaysStanding(s, run, i, j, id);
    StandingOpens(s, run[j].nodes[id].disk, name);
  }
}
