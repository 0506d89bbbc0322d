/**
 The on-disk replicated state machine. Its methods work on a real disk step by
 step; `trail` records every disk they pass through, so that what a crash can
 leave behind is part of what they promise.
 */
module DiskKV {
  import opened ByteStrings
  import opened Commands
  import opened Store
  import opened NodeDir
  import opened Snapshot
  import Iteration

  datatype Outcome =
    | Done(index: nat)
    | Failed               // an error is returned
    | Panicked

  /** One replica: its disk, the directory of the open database, and the
      remaining fields of the state machine object. */
  datatype Node = Node(disk: Disk, handle: Option<Bytes>, lastApplied: nat, closed: bool)

  /** The open handle, if any, reads a complete database. */
  ghost predicate Usable(n: Node) {
    n.handle.Some? ==> n.handle.value in n.disk.dirs && n.disk.dirs[n.handle.value].Intact?
  }

  /** What an open replica serves. */
  function Contents(n: Node): (rows: Rows) {
    if n.handle.Some? && n.handle.value in n.disk.dirs && n.disk.dirs[n.handle.value].Intact?
    then n.disk.dirs[n.handle.value].rows
    else map[]
  }

  // ------------------------------------------------------------------ Open

  /** The end of Open: open the database and read its applied index. */
  function Finish(n: Node, d: Disk, name: Bytes): (r: (Node, Outcome))
    requires name in d.dirs
  {
    if d.dirs[name].Torn? then (n.(disk := d), Failed)
    else
      var index := QueryAppliedIndex(d.dirs[name].rows);
      if index.None? then (n.(disk := d, handle := Some(name)), Panicked)
      else (n.(disk := d, handle := Some(name), lastApplied := index.value), Done(index.value))
  }

  function Listing(d: Disk): (bs: seq<Bytes>) {
    SortedKeys(d.dirs.Keys)
  }

  /** What cleanupNodeDataDir leaves, given the directory listing and what it
      read from `current`. */
  function CleanedUp(d: Disk, names: seq<Bytes>, target: Option<Bytes>): (r: Disk) {
    if target.None? then RemoveUpdating(d) else Cleaned(RemoveUpdating(d), names, target.value)
  }

  function CleanupTrail(d: Disk, names: seq<Bytes>, target: Option<Bytes>): (trail: seq<Disk>) {
    [RemoveUpdating(d)] + if target.None? then [] else CleanTrail(RemoveUpdating(d), names, target.value)
  }

  function OpenNode(h: Digest, n: Node, name: Bytes): (r: (Node, Outcome))
    requires |h(name)| >= 8
  {
    if n.disk.current.None? then
      Finish(n, CreateDb(Pointed(h, n.disk, name), name), name)
    else
      var target := ReadPointer(h, n.disk.current.value.data);
      FinishExisting(n, CleanedUp(n.disk, Listing(n.disk), target), target)
  }

  function FinishExisting(n: Node, d: Disk, target: Option<Bytes>): (r: (Node, Outcome)) {
    if target.None? || target.value !in d.dirs then (n.(disk := d), Panicked)
    else Finish(n, d, target.value)
  }

  /** Every disk Open passes through. */
  function OpenTrail(h: Digest, d: Disk, name: Bytes): (trail: seq<Disk>)
    requires |h(name)| >= 8
  {
    if d.current.None? then
      PointTrail(h, d, name) + [CreateDb(Pointed(h, d, name), name)]
    else
      CleanupTrail(d, Listing(d), ReadPointer(h, d.current.value.data))
  }

  // ---------------------------------------------------------------- Update

  predicate Crashes(f: Meaning, es: seq<Entry>) {
    exists i :: 0 <= i < |es| && f(es[i].cmd).Crash?
  }

  function UpdateNode(f: Meaning, n: Node, es: seq<Entry>): (r: (Node, Outcome))
  {
    if n.closed || n.handle.None? || es == [] || Crashes(f, es) then (n, Panicked)
    else
      var n' := n.(disk := StoreRows(n.disk, n.handle.value, Updated(f, Contents(n), es)));
      if n.lastApplied >= LastIndex(es) then (n', Panicked)
      else (n'.(lastApplied := LastIndex(es)), Done(LastIndex(es)))
  }

  /** Update returns exactly for an open replica and entries of which none
      makes it panic and the last is new; then it serves what they make of its
      rows, under the index of the last. */
  lemma UpdateOutcome(f: Meaning, n: Node, es: seq<Entry>)
    requires Usable(n)
    ensures UpdateNode(f, n, es).1.Done? <==>
              && !n.closed && n.handle.Some? && es != [] && n.lastApplied < es[|es| - 1].index
              && forall i :: 0 <= i < |es| ==> !f(es[i].cmd).Crash?
    ensures var (n', o) := UpdateNode(f, n, es);
            if o.Done? then
              && o.index == n'.lastApplied == es[|es| - 1].index
              && n'.handle == n.handle && n'.closed == n.closed && Contents(n') == Updated(f, Contents(n), es)
            else o.Panicked?
  {
  }

  /** An open replica takes one more encoded pair and then serves it. */
  lemma PairServed(c: Codec, n: Node, i: nat, d: KVData, k: Bytes)
    requires c.Lawful() && Usable(n) && n.handle.Some? && !n.closed && n.lastApplied < i
    requires d.key != [] && k != INDEX_KEY
    ensures var (n', o) := UpdateNode(MeaningOf(c), n, [Entry(i, MarshalData(c, d))]);
            && o == Done(i) && n'.handle == n.handle && n'.lastApplied == i
            && Get(Contents(n'), k) == if k == c.coerce(d.key) then d.val else Get(Contents(n), k)
  {
    DataApplied(c, d);
    UpdateOutcome(MeaningOf(c), n, [Entry(i, MarshalData(c, d))]);
    UpdatedIsProposed(c, Contents(n), i, MarshalData(c, d));
    PairRead(c, Contents(n), d, k);
  }

  lemma PutLast(rows: Rows, ops: seq<Op>, k: Bytes, v: Bytes)
    ensures ApplyOps(rows, ops + [Put(k, v)]) == ApplyOps(rows, ops)[k := v]
  {
    assert (ops + [Put(k, v)])[..|ops|] == ops;
  }

  // ----------------------------------------------------- snapshot install

  /** A freshly drawn directory name: neither there nor pointed to. */
  predicate Unused(h: Digest, d: Disk, name: Bytes) {
    name !in d.dirs && (d.current.Some? ==> ReadPointer(h, d.current.value.data) != Some(name))
  }

  /** From complete rows in hand to the new database in use. */
  function SwitchNode(h: Digest, n: Node, name: Bytes, rows: Rows, previous: Bytes): (r: (Node, Outcome))
    requires |h(name)| >= 8
  {
    var d := Pointed(h, StoreRows(n.disk, name, rows), name);
    var index := QueryAppliedIndex(rows);
    if index.None? || n.lastApplied > index.value then (n.(disk := d), Panicked)
    else (Node(SyncDir(RemoveDir(d, previous)), Some(name), index.value, n.closed), Done(index.value))
  }

  function SwitchTrail(h: Digest, n: Node, name: Bytes, rows: Rows, previous: Bytes): (trail: seq<Disk>)
    requires |h(name)| >= 8
  {
    var stored := StoreRows(n.disk, name, rows);
    var d := Pointed(h, stored, name);
    var index := QueryAppliedIndex(rows);
    [stored] + PointTrail(h, stored, name) +
    if index.None? || n.lastApplied > index.value then []
    else [TearDir(d, previous), RemoveDir(d, previous), SyncDir(RemoveDir(d, previous))]
  }

  function InstallNode(h: Digest, rc: RowCodec, n: Node, name: Bytes, stream: Bytes): (r: (Node, Outcome))
    requires |h(name)| >= 8
  {
    InstallParsed(h, n, name, ParseStream(rc, stream))
  }

  function InstallParsed(h: Digest, n: Node, name: Bytes, p: Parse): (r: (Node, Outcome))
    requires |h(name)| >= 8
  {
    if n.closed then (n, Panicked)
    else if n.disk.current.None? then (n, Failed)
    else
      var previous := ReadPointer(h, n.disk.current.value.data);
      if previous.None? then (n, Panicked)
      else
        var n' := n.(disk := CreateDb(n.disk, name));
        match p
        case Short => (n', Failed)
        case Corrupt => (n', Panicked)
        case Parsed(rows, _) => SwitchNode(h, n', name, rows, previous.value)
  }

  /** Every disk RecoverFromSnapshot passes through. */
  function InstallTrail(h: Digest, rc: RowCodec, n: Node, name: Bytes, stream: Bytes): (trail: seq<Disk>)
    requires |h(name)| >= 8
  {
    InstallParsedTrail(h, n, name, ParseStream(rc, stream))
  }

  function InstallParsedTrail(h: Digest, n: Node, name: Bytes, p: Parse): (trail: seq<Disk>)
    requires |h(name)| >= 8
  {
    if n.closed || n.disk.current.None? then []
    else
      var previous := ReadPointer(h, n.disk.current.value.data);
      if previous.None? then []
      else
        var n' := n.(disk := CreateDb(n.disk, name));
        match p
        case Short => [n'.disk]
        case Corrupt => [n'.disk]
        case Parsed(rows, _) => [n'.disk] + SwitchTrail(h, n', name, rows, previous.value)
  }

  // -------------------------------------------------------------- the class

  class StateMachine {
    const meaning: Meaning       // what a command does, given the JSON codec
    const rowCodec: RowCodec     // how a row travels, given the JSON codec
    const md5: Digest

    var disk: Disk
    var handle: Option<Bytes>
    var lastApplied: nat
    var closed: bool
    ghost var trail: seq<Disk>

    function View(): (n: Node)
      reads this
    {
      Node(disk, handle, lastApplied, closed)
    }

    ghost predicate Valid()
      reads this
    {
      IsMd5(md5) && Usable(View())
    }

    /** A new process on a disk that is already there. */
    constructor (codec: Codec, md5: Digest, disk: Disk)
      requires IsMd5(md5)
      ensures Valid() && meaning == MeaningOf(codec) && rowCodec == RowCodecOf(codec) && this.md5 == md5
      ensures View() == Node(disk, None, 0, false) && trail == []
    {
      meaning, rowCodec, this.md5, this.disk := MeaningOf(codec), RowCodecOf(codec), md5, disk;
      handle, lastApplied, closed, trail := None, 0, false, [];
    }

    /** Records the disk after one operating system call. */
    ghost method Note()
      modifies this`trail
      ensures trail == old(trail) + [disk]
    {
      trail := trail + [disk];
    }

    method SaveCurrentDBDirName(dbdir: Bytes)
      requires Valid()
      modifies this`disk, this`trail
      ensures Valid() && disk == SavedName(md5, old(disk), dbdir)
      ensures trail == old(trail) + SaveNameTrail(md5, old(disk), dbdir)
    {
      SaveNameEnds(md5, disk, dbdir);
      disk := CreateUpdating(disk);
      Note();
      disk := AppendUpdating(disk, md5(dbdir)[..8]);
      Note();
      disk := AppendUpdating(disk, dbdir);
      Note();
      disk := SyncUpdating(disk);
      Note();
      disk := SyncDir(disk);
      Note();
    }

    method ReplaceCurrentDBFile()
      requires Valid() && disk.updating.Some?
      modifies this`disk, this`trail
      ensures Valid() && disk == SyncDir(RenameUpdating(old(disk)))
      ensures trail == old(trail) + [RenameUpdating(old(disk)), disk]
    {
      disk := RenameUpdating(disk);
      Note();
      disk := SyncDir(disk);
      Note();
    }

    method PointTo(dbdir: Bytes)
      requires Valid()
      modifies this`disk, this`trail
      ensures Valid() && disk == Pointed(md5, old(disk), dbdir)
      ensures trail == old(trail) + PointTrail(md5, old(disk), dbdir)
    {
      SaveNameEnds(md5, disk, dbdir);
      SaveCurrentDBDirName(dbdir);
      ReplaceCurrentDBFile();
    }

    /** The removal loop of cleanupNodeDataDir. */
    method RemoveOthers(files: seq<Bytes>, keep: Bytes)
      requires Valid() && handle.None?
      modifies this`disk, this`trail
      ensures Valid() && disk == Cleaned(old(disk), files, keep)
      ensures trail == old(trail) + CleanTrail(old(disk), files, keep)
    {
      var i := 0;
      ghost var d0, t0 := disk, trail;
      assert files[0..] == files;
      while i < |files|
        invariant 0 <= i <= |files|
        invariant Cleaned(d0, files, keep) == Cleaned(disk, files[i..], keep)
        invariant t0 + CleanTrail(d0, files, keep) == trail + CleanTrail(disk, files[i..], keep)
      {
        var name := files[i];
        CleanStep(disk, files[i..], keep);
        assert files[i..][1..] == files[i + 1..];
        if name != keep {
          RemoveAll(name);
        }
        i := i + 1;
      }
    }

    /** os.RemoveAll on a database directory. */
    method RemoveAll(name: Bytes)
      modifies this`disk, this`trail
      ensures disk == RemoveDir(old(disk), name)
      ensures trail == old(trail) + [TearDir(old(disk), name), disk]
    {
      ghost var d := disk;
      disk := TearDir(disk, name);
      Note();
      disk := RemoveDir(disk, name);
      Note();
      assert disk == RemoveDir(d, name);
    }

    method FinishOpen(dbdir: Bytes) returns (o: Outcome)
      requires Valid() && handle.None? && dbdir in disk.dirs
      modifies this`handle, this`lastApplied
      ensures Valid() && (View(), o) == Finish(old(View()), old(disk), dbdir)
    {
      if disk.dirs[dbdir].Torn? {
        return Failed;
      }
      handle := Some(dbdir);
      var appliedIndex := QueryAppliedIndex(disk.dirs[dbdir].rows);
      if appliedIndex.None? {
        return Panicked;
      }
      lastApplied := appliedIndex.value;
      return Done(lastApplied);
    }

    /** cleanupNodeDataDir; returns the directory that `current` names. */
    method CleanupNodeDataDir() returns (dbdir: Option<Bytes>)
      requires Valid() && handle.None? && disk.current.Some?
      modifies this`disk, this`trail
      ensures Valid() && dbdir == ReadPointer(md5, old(disk).current.value.data)
      ensures disk == CleanedUp(old(disk), Listing(old(disk)), dbdir)
      ensures trail == old(trail) + CleanupTrail(old(disk), Listing(old(disk)), dbdir)
    {
      disk := RemoveUpdating(disk);
      Note();
      ghost var d := disk;
      dbdir := ReadPointer(md5, disk.current.value.data);
      if dbdir.Some? {
        var files := Listing(disk);
        RemoveOthers(files, dbdir.value);
        Regroup(old(trail), [d], CleanTrail(d, files, dbdir.value));
      }
    }

    /** Open where there is no `current` yet. */
    method OpenFirst(randomName: Bytes) returns (o: Outcome)
      requires Valid() && handle.None? && disk.current.None?
      modifies this
      ensures Valid() && (View(), o) == OpenNode(md5, old(View()), randomName)
      ensures trail == old(trail) + OpenTrail(md5, old(disk), randomName)
    {
      PointTo(randomName);
      disk := CreateDb(disk, randomName);
      Note();
      o := FinishOpen(randomName);
    }

    /** Open; `randomName` is the directory name a first run would draw. */
    method Open(randomName: Bytes) returns (o: Outcome)
      requires Valid() && handle.None?
      modifies this
      ensures Valid() && (View(), o) == OpenNode(md5, old(View()), randomName)
      ensures trail == old(trail) + OpenTrail(md5, old(disk), randomName)
    {
      if disk.current.None? {
        o := OpenFirst(randomName);
        return;
      }
      var dbdir := CleanupNodeDataDir();
      if dbdir.None? || dbdir.value !in disk.dirs {
        return Panicked;
      }
      o := FinishOpen(dbdir.value);
    }

    /** The loop of Update: the effects of all entries in one write batch, and a
        result for each, the size of its command if it was applied. */
    static method Collect(f: Meaning, ents: seq<Entry>) returns (crashed: bool, wb: seq<Op>, results: seq<nat>)
      ensures crashed <==> exists i :: 0 <= i < |ents| && f(ents[i].cmd).Crash?
      ensures !crashed ==> wb == LogOps(f, ents) && |results| == |ents|
      ensures !crashed ==> forall i :: 0 <= i < |ents| ==>
                results[i] == if f(ents[i].cmd).Write? then |ents[i].cmd| else 0
    {
      crashed, wb, results := false, [], [];
      for idx := 0 to |ents|
        invariant !crashed && forall i :: 0 <= i < idx ==> !f(ents[i].cmd).Crash?
        invariant wb == LogOps(f, ents[..idx])
        invariant |results| == idx
        invariant forall i :: 0 <= i < idx ==> results[i] == if f(ents[i].cmd).Write? then |ents[i].cmd| else 0
      {
        var effect := f(ents[idx].cmd);
        if effect.Crash? {
          return true, wb, results;
        }
        assert ents[..idx + 1] == ents[..idx] + [ents[idx]];
        if effect.Write? {
          wb := wb + effect.ops;
        }
        results := results + [if effect.Write? then |ents[idx].cmd| else 0];
      }
      assert ents[..|ents|] == ents;
    }

    /** Update: one write batch for all entries and the applied index. */
    method Update(ents: seq<Entry>) returns (o: Outcome, results: seq<nat>)
      requires Valid()
      modifies this`disk, this`lastApplied
      ensures Valid() && (View(), o) == UpdateNode(meaning, old(View()), ents)
      ensures o.Done? ==> |results| == |ents|
      ensures o.Done? ==> forall i :: 0 <= i < |ents| ==>
                results[i] == if meaning(ents[i].cmd).Write? then |ents[i].cmd| else 0
    {
      if closed || handle.None? {
        return Panicked, [];
      }
      var crashed, wb;
      crashed, wb, results := Collect(meaning, ents);
      if crashed || |ents| == 0 {
        return Panicked, results;
      }
      var appliedIndex := LeBytes(ents[|ents| - 1].index, 8);
      var name := handle.value;
      PutLast(disk.dirs[name].rows, wb, INDEX_KEY, appliedIndex);
      disk := StoreRows(disk, name, ApplyOps(disk.dirs[name].rows, wb + [Put(INDEX_KEY, appliedIndex)]));
      if lastApplied >= ents[|ents| - 1].index {
        return Panicked, results;
      }
      lastApplied := ents[|ents| - 1].index;
      o := Done(lastApplied);
    }

    /** PrepareSnapshot: the contents at this moment, None on a panic. */
    method PrepareSnapshot() returns (ctx: Option<Rows>)
      requires Valid()
      ensures ctx == if closed || handle.None? then None else Some(Contents(View()))
    {
      if closed || handle.None? {
        return None;
      }
      ctx := Some(disk.dirs[handle.value].rows);
    }

    /** SaveSnapshot writes what was prepared, whatever was updated since. */
    method SaveSnapshot(ctx: Rows) returns (w: Option<Bytes>)
      requires Valid()
      ensures w == if closed then None else Some(StreamOf(rowCodec, ctx))
    {
      if closed {
        return None;
      }
      var s := SaveToWriter(rowCodec, ctx);
      w := Some(s);
    }

    /** RecoverFromSnapshot into a directory whose random name is not in use. */
    method RecoverFromSnapshot(stream: Bytes, randomName: Bytes) returns (o: Outcome)
      requires Valid() && Unused(md5, disk, randomName)
      modifies this
      ensures Valid()
      ensures (View(), o) == InstallNode(md5, rowCodec, old(View()), randomName, stream)
      ensures trail == old(trail) + InstallTrail(md5, rowCodec, old(View()), randomName, stream)
    {
      if closed {
        return Panicked;
      }
      if disk.current.None? {
        return Failed;
      }
      var oldDirName := ReadPointer(md5, disk.current.value.data);
      if oldDirName.None? {
        return Panicked;
      }
      disk := CreateDb(disk, randomName);
      Note();
      var parsed := ReadSnapshot(rowCodec, stream);
      if parsed.Short? {
        return Failed;
      }
      if parsed.Corrupt? {
        return Panicked;
      }
      o := SwitchTo(randomName, parsed.rows, oldDirName.value);
    }

    /** The second half of RecoverFromSnapshot: store the rows, switch the
        pointer and the handle, remove the previous directory. */
    method SwitchTo(name: Bytes, rows: Rows, previous: Bytes) returns (o: Outcome)
      requires Valid() && name != previous
      modifies this
      ensures Valid()
      ensures (View(), o) == SwitchNode(md5, old(View()), name, rows, previous)
      ensures trail == old(trail) + SwitchTrail(md5, old(View()), name, rows, previous)
    {
      disk := StoreRows(disk, name, rows);
      Note();
      PointTo(name);
      var newLastApplied := QueryAppliedIndex(rows);
      if newLastApplied.None? || lastApplied > newLastApplied.value {
        return Panicked;
      }
      lastApplied := newLastApplied.value;
      handle := Some(name);
      RemoveAll(previous);
      disk := SyncDir(disk);
      Note();
      o := Done(lastApplied);
    }

    /** Get: None is an error, Some(None) a key that is not there. */
    method Lookup(key: Bytes) returns (v: Option<Option<Bytes>>)
      requires Valid()
      ensures v.None? <==> handle.None?
      ensures v.Some? ==> var rows := Contents(View()); v.value == if key in rows then Some(rows[key]) else None
    {
      if handle.None? {
        return None;
      }
      v := Some(Get(disk.dirs[handle.value].rows, key));
    }

    method Scan(key: Bytes) returns (items: Option<Rows>)
      requires Valid()
      ensures items == if handle.None? then None else Some(Iteration.WithPrefix(Contents(View()), key))
      ensures items.Some? ==> forall k :: k in items.value <==> k in Contents(View()) && key <= k
      ensures items.Some? ==> forall k :: k in items.value ==> items.value[k] == Contents(View())[k]
    {
      if handle.None? {
        return None;
      }
      var found := Iteration.Scan(disk.dirs[handle.value].rows, key);
      items := Some(found);
    }

    method ReverseScan(key: Bytes, val: Bytes) returns (items: Option<Rows>)
      requires Valid()
      ensures items == if handle.None? then None else Some(Iteration.InRange(Contents(View()), val, key))
      ensures items.Some? ==> forall k ::
                k in items.value <==> k in Contents(View()) && !Less(k, val) && Less(k, key)
      ensures items.Some? ==> forall k :: k in items.value ==> items.value[k] == Contents(View())[k]
    {
      if handle.None? {
        return None;
      }
      var found := Iteration.ReverseScan(disk.dirs[handle.value].rows, key, val);
      items := Some(found);
    }

    /** Close; false is the panic of closing twice. */
    method Close() returns (ok: bool)
      requires Valid()
      modifies this`handle, this`closed
      ensures Valid() && ok == (old(handle).Some? || !old(closed))
      ensures View() == old(View()).(handle := None, closed := old(closed) || old(handle).Some?)
    {
      if handle.Some? {
        handle := None;
        closed := true;
        return true;
      }
      return !closed;
    }
  }
}
