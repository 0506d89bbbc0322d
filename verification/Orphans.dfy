/**
 The writes behind cache, prune and revoke, one store command at a time, in
 every interleaving of any number of them. A cache row must never be left
 without an expiry row, or no sweep would ever remove it.
 */
module Orphans {
  import opened ByteStrings
  import opened Store
  import opened Commands
  import opened Expiry
  import opened PermKeys
  import opened Permissions
  import Iteration

  /** What is left to do for an operation on its way. */
  datatype Task =
    | Caching(key: Bytes, value: Bytes)                       // cache row, then expiry row
    | Expiring(key: Bytes)                                    // expiry row
    | Pruning(items: Rows, rest: seq<Bytes>, halfway: bool)   // expiry row, then the row it names, for each in rest
    | Revoking(rest: seq<Bytes>)

  /** The expiry keys ever written are remembered, to say what fresh means. */
  datatype System = System(rows: Rows, tasks: map<nat, Task>, used: set<Bytes>)

  datatype Event =
    | BeginCache(n: nat, key: Bytes, value: Bytes)
    | SaveCache(n: nat)
    | SaveTtl(n: nat, time: nat, suffix: Bytes)
    | BeginPrune(n: nat, now: nat, order: seq<Bytes>)
    | DropTtl(n: nat)
    | DropNamed(n: nat)
    | BeginRevoke(n: nat, user: Bytes, order: seq<Bytes>)
    | DropCached(n: nat, done: bool)
    | Leave(n: nat)                                           // return, with or without an error
    | Other(ops: seq<Op>)                                     // any batch on other keys

  /** Between the two writes that belong together. */
  predicate Open(t: Task) {
    t.Expiring? || (t.Pruning? && t.halfway)
  }

  /** Which of the second writes may get lost: the expiry row of a cache row,
      the delete of a row named by a swept expiry row. */
  datatype Loss = Loss(ttl: bool, named: bool)

  const NOTHING_LOST: Loss := Loss(false, false)

  predicate Leavable(loss: Loss, t: Task) {
    !Open(t) || (t.Expiring? && loss.ttl) || (t.Pruning? && loss.named)
  }

  predicate Elsewhere(ops: seq<Op>) {
    forall i :: 0 <= i < |ops| ==> !HasPrefix(ops[i].key, C_COLON) && !HasPrefix(ops[i].key, TTL)
  }

  /** One event. A write that fails makes its operation return. */
  ghost predicate Next(fix: Coercion, loss: Loss, s: System, e: Event, s': System) {
    match e
    case BeginCache(n, key, value) =>
      n !in s.tasks && HasPrefix(key, C_COLON) && s' == s.(tasks := s.tasks[n := Caching(key, value)])
    case SaveCache(n) =>
      n in s.tasks && s.tasks[n].Caching? &&
      s' == s.(rows := s.rows[fix(s.tasks[n].key) := s.tasks[n].value], tasks := s.tasks[n := Expiring(s.tasks[n].key)])
    case SaveTtl(n, time, suffix) =>
      var t := TtlKey(time, suffix);
      n in s.tasks && s.tasks[n].Expiring? && time < LIMIT && Ascii(suffix) && t !in s.used &&
      s' == System(s.rows[t := s.tasks[n].key], s.tasks - {n}, s.used + {t})
    case BeginPrune(n, now, order) =>
      n !in s.tasks && Lists(order, Expired(s.rows, now).Keys) &&
      s' == s.(tasks := s.tasks[n := Pruning(Expired(s.rows, now), order, false)])
    case DropTtl(n) =>
      n in s.tasks && s.tasks[n].Pruning? && !s.tasks[n].halfway && s.tasks[n].rest != [] &&
      s' == s.(rows := s.rows - Dropped(fix, s.tasks[n].rest[0]),
               tasks := s.tasks[n := s.tasks[n].(halfway := true)])
    case DropNamed(n) =>
      n in s.tasks && s.tasks[n].Pruning? && s.tasks[n].halfway && s.tasks[n].rest != [] &&
      var p := s.tasks[n];
      p.rest[0] in p.items &&
      s' == s.(rows := s.rows - Dropped(fix, p.items[p.rest[0]]),
               tasks := s.tasks[n := p.(rest := p.rest[1..], halfway := false)])
    case BeginRevoke(n, user, order) =>
      n !in s.tasks && Lists(order, Iteration.WithPrefix(s.rows, UserPrefix(fix, user)).Keys) &&
      s' == s.(tasks := s.tasks[n := Revoking(order)])
    case DropCached(n, done) =>
      n in s.tasks && s.tasks[n].Revoking? && s.tasks[n].rest != [] &&
      s' == s.(rows := if done then s.rows - Dropped(fix, s.tasks[n].rest[0]) else s.rows,
               tasks := s.tasks[n := Revoking(s.tasks[n].rest[1..])])
    case Leave(n) =>
      n in s.tasks && Leavable(loss, s.tasks[n]) && s' == s.(tasks := s.tasks - {n})
    case Other(ops) =>
      Elsewhere(ops) && s' == s.(rows := ApplyOps(s.rows, ops))
  }

  // ------------------------------------------------------------- invariant

  /** Some expiry row names k: a sweep that deletes the key it holds hits k. */
  ghost predicate Named(fix: Coercion, s: System, k: Bytes) {
    exists t :: t in s.rows && HasPrefix(t, TTL) && fix(s.rows[t]) == k
  }

  predicate Covers(fix: Coercion, task: Task, k: Bytes) {
    (task.Expiring? && fix(task.key) == k)
    || (task.Pruning? && task.halfway && task.rest != [] && task.rest[0] in task.items
        && fix(task.items[task.rest[0]]) == k)
  }

  /** A write or a delete is still to come for k. */
  ghost predicate Pending(fix: Coercion, s: System, k: Bytes) {
    exists n :: n in s.tasks && Covers(fix, s.tasks[n], k)
  }

  ghost predicate NoOrphans(fix: Coercion, s: System) {
    forall k :: k in s.rows && HasPrefix(k, C_COLON) ==> Named(fix, s, k) || Pending(fix, s, k)
  }

  /** An expiry row is written once, so while it is there a sweep that picked
      it up still knows what it names. */
  ghost predicate Recalls(fix: Coercion, s: System, items: Rows, t: Bytes) {
    && t in items && t in s.used && HasPrefix(t, TTL) && Stable(fix, t) && HasPrefix(items[t], C_COLON)
    && (t in s.rows ==> s.rows[t] == items[t])
  }

  ghost predicate TaskInv(fix: Coercion, s: System, task: Task) {
    match task
    case Caching(key, _) => HasPrefix(key, C_COLON)
    case Expiring(key) => HasPrefix(key, C_COLON)
    case Pruning(items, rest, halfway) =>
      (halfway ==> rest != []) && forall t :: t in rest ==> Recalls(fix, s, items, t)
    case Revoking(rest) => forall k :: k in rest ==> HasPrefix(k, C_COLON)
  }

  ghost predicate TtlRows(s: System) {
    && TtlShaped(s.rows)
    && forall t :: t in s.rows && HasPrefix(t, TTL) ==> t in s.used && HasPrefix(s.rows[t], C_COLON)
  }

  ghost predicate Tasks(fix: Coercion, s: System) {
    forall n :: n in s.tasks ==> TaskInv(fix, s, s.tasks[n])
  }

  ghost predicate Inv(fix: Coercion, s: System) {
    IsCoercion(fix) && TtlRows(s) && Tasks(fix, s)
  }

  // ------------------------------------------------------------ rows change

  /** Expiry rows only go, or come under a key never used before. */
  ghost predicate RowsMove(s: System, s': System) {
    && s.used <= s'.used
    && forall t :: t in s'.rows && HasPrefix(t, TTL) ==>
         (t in s.rows && s'.rows[t] == s.rows[t])
         || (t !in s.used && t in s'.used && HasPrefix(s'.rows[t], C_COLON)
             && exists time: nat, suffix :: IsTtl(t, time, suffix))
  }

  lemma TtlRowsMove(s: System, s': System)
    requires TtlRows(s) && RowsMove(s, s')
    ensures TtlRows(s')
  {
  }

  lemma TaskMoves(fix: Coercion, s: System, s': System, task: Task)
    requires TtlRows(s) && RowsMove(s, s') && TaskInv(fix, s, task)
    ensures TaskInv(fix, s', task)
  {
  }

  lemma TasksMove(fix: Coercion, s: System, s': System, n: nat)
    requires Inv(fix, s) && RowsMove(s, s')
    requires forall m :: m in s'.tasks && m != n ==> m in s.tasks && s'.tasks[m] == s.tasks[m]
    requires n in s'.tasks ==> TaskInv(fix, s', s'.tasks[n])
    ensures Inv(fix, s')
  {
    TtlRowsMove(s, s');
    forall m | m in s'.tasks && m != n ensures TaskInv(fix, s', s'.tasks[m]) { TaskMoves(fix, s, s', s.tasks[m]); }
  }

  lemma {:induction false} OtherFrame(rows: Rows, ops: seq<Op>, k: Bytes)
    requires Elsewhere(ops) && (HasPrefix(k, C_COLON) || HasPrefix(k, TTL))
    ensures Get(ApplyOps(rows, ops), k) == Get(rows, k)
  {
    if ops != [] { OtherFrame(rows, ops[..|ops| - 1], k); }
  }

  // ------------------------------------------------- every event keeps Inv

  lemma BeginPruneInv(fix: Coercion, s: System, n: nat, now: nat, order: seq<Bytes>)
    requires Inv(fix, s) && Lists(order, Expired(s.rows, now).Keys)
    ensures TaskInv(fix, s, Pruning(Expired(s.rows, now), order, false))
  {
    forall t | t in order ensures Recalls(fix, s, Expired(s.rows, now), t) {
      assert HasPrefix(SweepBound(now), TTL);
      PrefixConvex(t, SweepBound(now), TTL);
      var time: nat, suffix :| IsTtl(t, time, suffix);
      TtlStable(fix, t, time, suffix);
    }
  }

  lemma BeginRevokeInv(fix: Coercion, s: System, user: Bytes, order: seq<Bytes>)
    requires IsCoercion(fix) && Lists(order, Iteration.WithPrefix(s.rows, UserPrefix(fix, user)).Keys)
    ensures TaskInv(fix, s, Revoking(order))
  {
    assert HasPrefix(C_COLON + user, C_COLON);
    PrefixStays(fix, C_COLON + user, C_COLON);
    forall k | k in order ensures HasPrefix(k, C_COLON) {
      assert k[..2] == UserPrefix(fix, user)[..2];
    }
  }

  lemma SaveTtlMoves(fix: Coercion, s: System, s': System, n: nat, time: nat, suffix: Bytes)
    requires Inv(fix, s) && Next(fix, NOTHING_LOST, s, SaveTtl(n, time, suffix), s')
    ensures RowsMove(s, s')
  {
    var t := TtlKey(time, suffix);
    KeyFamilies([], [], [], [], Typed([], []), None, time, suffix);
    assert IsTtl(t, time, suffix);
    assert HasPrefix(s.tasks[n].key, C_COLON);
  }

  lemma OtherMoves(fix: Coercion, s: System, s': System, ops: seq<Op>)
    requires Next(fix, NOTHING_LOST, s, Other(ops), s')
    ensures RowsMove(s, s')
  {
    forall t | t in s'.rows && HasPrefix(t, TTL) ensures t in s.rows && s'.rows[t] == s.rows[t] {
      OtherFrame(s.rows, ops, t);
    }
  }

  lemma CacheFamily(fix: Coercion, key: Bytes)
    requires IsCoercion(fix) && HasPrefix(key, C_COLON)
    ensures HasPrefix(fix(key), C_COLON) && !HasPrefix(fix(key), TTL)
  {
    PrefixStays(fix, key, C_COLON);
    Families(fix(key));
  }

  lemma NextInv(fix: Coercion, loss: Loss, s: System, e: Event, s': System)
    requires Inv(fix, s) && Next(fix, loss, s, e, s')
    ensures Inv(fix, s')
  {
    match e
    case BeginCache(n, _, _) => TasksMove(fix, s, s', n);
    case SaveCache(n) =>
      CacheFamily(fix, s.tasks[n].key);
      TasksMove(fix, s, s', n);
    case SaveTtl(n, time, suffix) =>
      SaveTtlMoves(fix, s, s', n, time, suffix);
      TasksMove(fix, s, s', n);
    case BeginPrune(n, now, order) =>
      BeginPruneInv(fix, s, n, now, order);
      TasksMove(fix, s, s', n);
    case DropTtl(n) =>
      TaskMoves(fix, s, s', s.tasks[n]);
      TasksMove(fix, s, s', n);
    case DropNamed(n) =>
      TaskMoves(fix, s, s', s.tasks[n]);
      TasksMove(fix, s, s', n);
    case BeginRevoke(n, user, order) =>
      BeginRevokeInv(fix, s, user, order);
      TasksMove(fix, s, s', n);
    case DropCached(n, _) =>
      CacheFamily(fix, s.tasks[n].rest[0]);
      TasksMove(fix, s, s', n);
    case Leave(n) => TasksMove(fix, s, s', n);
    case Other(ops) =>
      OtherMoves(fix, s, s', ops);
      if 0 in s'.tasks { TaskMoves(fix, s, s', s.tasks[0]); }
      TasksMove(fix, s, s', 0);
  }

  // -------------------------------------------- every event keeps NoOrphans

  ghost predicate Kept(fix: Coercion, s: System, k: Bytes) {
    Named(fix, s, k) || Pending(fix, s, k)
  }

  /** Task n alone moves on. */
  lemma PendingMoves(fix: Coercion, s: System, s': System, n: nat, k: Bytes)
    requires Pending(fix, s, k) && (n in s.tasks ==> !Covers(fix, s.tasks[n], k))
    requires forall m :: m in s.tasks && m != n ==> m in s'.tasks && s'.tasks[m] == s.tasks[m]
    ensures Pending(fix, s', k)
  {
    var m :| m in s.tasks && Covers(fix, s.tasks[m], k);
    assert Covers(fix, s'.tasks[m], k);
  }

  lemma NamedMoves(fix: Coercion, s: System, s': System, k: Bytes)
    requires Named(fix, s, k)
    requires forall t :: t in s.rows && HasPrefix(t, TTL) ==> t in s'.rows && s'.rows[t] == s.rows[t]
    ensures Named(fix, s', k)
  {
    var t :| t in s.rows && HasPrefix(t, TTL) && fix(s.rows[t]) == k;
    assert fix(s'.rows[t]) == k;
  }

  lemma SaveCacheKeeps(fix: Coercion, s: System, s': System, n: nat, k: Bytes)
    requires Inv(fix, s) && NoOrphans(fix, s) && Next(fix, NOTHING_LOST, s, SaveCache(n), s')
    requires k in s'.rows && HasPrefix(k, C_COLON)
    ensures Kept(fix, s', k)
  {
    CacheFamily(fix, s.tasks[n].key);
    if k == fix(s.tasks[n].key) {
      assert Covers(fix, s'.tasks[n], k);
    } else if Named(fix, s, k) {
      NamedMoves(fix, s, s', k);
    } else {
      PendingMoves(fix, s, s', n, k);
    }
  }

  lemma SaveTtlKeeps(fix: Coercion, s: System, s': System, n: nat, time: nat, suffix: Bytes, k: Bytes)
    requires Inv(fix, s) && NoOrphans(fix, s) && Next(fix, NOTHING_LOST, s, SaveTtl(n, time, suffix), s')
    requires k in s'.rows && HasPrefix(k, C_COLON)
    ensures Kept(fix, s', k)
  {
    var t := TtlKey(time, suffix);
    KeyFamilies([], [], [], [], Typed([], []), None, time, suffix);
    Families(k);
    if k == fix(s.tasks[n].key) {
      assert t in s'.rows && fix(s'.rows[t]) == k;
    } else if Named(fix, s, k) {
      NamedMoves(fix, s, s', k);
    } else {
      PendingMoves(fix, s, s', n, k);
    }
  }

  lemma DropTtlKeeps(fix: Coercion, s: System, s': System, n: nat, k: Bytes)
    requires Inv(fix, s) && NoOrphans(fix, s) && Next(fix, NOTHING_LOST, s, DropTtl(n), s')
    requires k in s'.rows && HasPrefix(k, C_COLON)
    ensures Kept(fix, s', k)
  {
    var p := s.tasks[n];
    assert Recalls(fix, s, p.items, p.rest[0]);
    if Covers(fix, s'.tasks[n], k) {
    } else if Named(fix, s, k) {
      var t :| t in s.rows && HasPrefix(t, TTL) && fix(s.rows[t]) == k;
      assert t in s'.rows && fix(s'.rows[t]) == k;
    } else {
      PendingMoves(fix, s, s', n, k);
    }
  }

  lemma DropNamedKeeps(fix: Coercion, s: System, s': System, n: nat, k: Bytes)
    requires Inv(fix, s) && NoOrphans(fix, s) && Next(fix, NOTHING_LOST, s, DropNamed(n), s')
    requires k in s'.rows && HasPrefix(k, C_COLON)
    ensures Kept(fix, s', k)
  {
    var p := s.tasks[n];
    assert Recalls(fix, s, p.items, p.rest[0]);
    CacheFamily(fix, p.items[p.rest[0]]);
    if Named(fix, s, k) {
      NamedMoves(fix, s, s', k);
    } else {
      PendingMoves(fix, s, s', n, k);
    }
  }

  /** Events that write no row of either family. */
  lemma RestKeeps(fix: Coercion, s: System, s': System, n: nat, k: Bytes)
    requires NoOrphans(fix, s) && k in s.rows && HasPrefix(k, C_COLON)
    requires n in s.tasks ==> !Open(s.tasks[n])
    requires forall m :: m in s.tasks && m != n ==> m in s'.tasks && s'.tasks[m] == s.tasks[m]
    requires forall t :: t in s.rows && HasPrefix(t, TTL) ==> t in s'.rows && s'.rows[t] == s.rows[t]
    ensures Kept(fix, s', k)
  {
    if Named(fix, s, k) { NamedMoves(fix, s, s', k); } else { PendingMoves(fix, s, s', n, k); }
  }

  lemma NextKeeps(fix: Coercion, s: System, e: Event, s': System, k: Bytes)
    requires Inv(fix, s) && NoOrphans(fix, s) && Next(fix, NOTHING_LOST, s, e, s')
    requires k in s'.rows && HasPrefix(k, C_COLON)
    ensures Kept(fix, s', k)
  {
    match e
    case SaveCache(n) => SaveCacheKeeps(fix, s, s', n, k);
    case SaveTtl(n, time, suffix) => SaveTtlKeeps(fix, s, s', n, time, suffix, k);
    case DropTtl(n) => DropTtlKeeps(fix, s, s', n, k);
    case DropNamed(n) => DropNamedKeeps(fix, s, s', n, k);
    case BeginCache(n, _, _) => RestKeeps(fix, s, s', n, k);
    case BeginPrune(n, _, _) => RestKeeps(fix, s, s', n, k);
    case BeginRevoke(n, _, _) => RestKeeps(fix, s, s', n, k);
    case DropCached(n, _) =>
      CacheFamily(fix, s.tasks[n].rest[0]);
      RestKeeps(fix, s, s', n, k);
    case Leave(n) => RestKeeps(fix, s, s', n, k);
    case Other(ops) =>
      OtherFrame(s.rows, ops, k);
      forall t | t in s.rows && HasPrefix(t, TTL) ensures t in s'.rows && s'.rows[t] == s.rows[t] {
        OtherFrame(s.rows, ops, t);
      }
      if Named(fix, s, k) { NamedMoves(fix, s, s', k); }
  }

  // ------------------------------------------------------------------ runs

  ghost predicate Steps(fix: Coercion, loss: Loss, s: System, s': System) {
    exists e :: Next(fix, loss, s, e, s')
  }

  ghost predicate IsRun(fix: Coercion, loss: Loss, run: seq<System>) {
    && |run| > 0 && run[0] == System(map[], map[], {})
    && forall i :: 0 < i < |run| ==> Steps(fix, loss, run[i - 1], run[i])
  }

  lemma StepsKeep(fix: Coercion, loss: Loss, s: System, s': System)
    requires Inv(fix, s) && (loss != NOTHING_LOST || NoOrphans(fix, s)) && Steps(fix, loss, s, s')
    ensures Inv(fix, s') && (loss != NOTHING_LOST || NoOrphans(fix, s'))
  {
    var e :| Next(fix, loss, s, e, s');
    NextInv(fix, loss, s, e, s');
    if loss == NOTHING_LOST {
      forall k | k in s'.rows && HasPrefix(k, C_COLON) ensures Kept(fix, s', k) { NextKeeps(fix, s, e, s', k); }
    }
  }

  lemma {:induction false} RunInv(fix: Coercion, loss: Loss, run: seq<System>, i: nat)
    requires IsCoercion(fix) && IsRun(fix, loss, run) && i < |run|
    ensures Inv(fix, run[i]) && (loss != NOTHING_LOST || NoOrphans(fix, run[i]))
  {
    if i > 0 {
      RunInv(fix, loss, run, i - 1);
      StepsKeep(fix, loss, run[i - 1], run[i]);
    }
  }

  ghost predicate NeverOrphans(fix: Coercion, loss: Loss) {
    forall run, i: nat :: IsRun(fix, loss, run) && i < |run| ==> NoOrphans(fix, run[i])
  }

  lemma TwoLastStates(fix: Coercion, loss: Loss, run: seq<System>, k: Bytes)
    requires IsRun(fix, loss, run) && k in run[|run| - 1].rows && HasPrefix(k, C_COLON)
    requires !Named(fix, run[|run| - 1], k) && run[|run| - 1].tasks == map[]
    ensures !NeverOrphans(fix, loss)
  {
    assert !Pending(fix, run[|run| - 1], k);
  }

  /** A cache row and no expiry row. */
  lemma LostTtlOrphans(fix: Coercion, loss: Loss)
    requires IsCoercion(fix) && loss.ttl
    ensures !NeverOrphans(fix, loss)
  {
    var k: Bytes := C_COLON;
    assert Ascii(k);
    var s0 := System(map[], map[], {});
    var s1 := System(map[], map[0 := Caching(k, [])], {});
    var s2 := System(map[k := []], map[0 := Expiring(k)], {});
    var s3 := System(map[k := []], map[], {});
    assert Next(fix, loss, s0, BeginCache(0, k, []), s1);
    assert Next(fix, loss, s1, SaveCache(0), s2);
    assert s2.tasks - {0} == map[];
    assert Next(fix, loss, s2, Leave(0), s3);
    var run := [s0, s1, s2, s3];
    assert Steps(fix, loss, run[0], run[1]) && Steps(fix, loss, run[1], run[2]) && Steps(fix, loss, run[2], run[3]);
    assert !HasPrefix(k, TTL);
    TwoLastStates(fix, loss, run, k);
  }

  /** A row is cached and gets its expiry row; a sweep stops halfway. */
  function HalfSweep(k: Bytes, t: Bytes): (r: seq<System>) {
    var rows: Rows := map[k := [], t := k];
    [System(map[], map[], {}),
     System(map[], map[0 := Caching(k, [])], {}),
     System(map[k := []], map[0 := Expiring(k)], {}),
     System(rows, map[], {t}),
     System(rows, map[0 := Pruning(map[t := k], [t], false)], {t}),
     System(map[k := []], map[0 := Pruning(map[t := k], [t], true)], {t}),
     System(map[k := []], map[], {t})]
  }

  lemma CachedAndNamed(fix: Coercion, loss: Loss, k: Bytes, t: Bytes)
    requires HasPrefix(k, C_COLON) && Stable(fix, k) && t == TtlKey(0, []) && k != t
    ensures var run := HalfSweep(k, t);
            Steps(fix, loss, run[0], run[1]) && Steps(fix, loss, run[1], run[2]) && Steps(fix, loss, run[2], run[3])
  {
    var run := HalfSweep(k, t);
    assert Next(fix, loss, run[0], BeginCache(0, k, []), run[1]);
    assert Next(fix, loss, run[1], SaveCache(0), run[2]);
    assert run[2].tasks - {0} == map[] && Ascii([]);
    assert Next(fix, loss, run[2], SaveTtl(0, 0, []), run[3]);
  }

  lemma SweptHalfway(fix: Coercion, loss: Loss, k: Bytes, t: Bytes)
    requires loss.named && k != t && t != [] && Stable(fix, t)
    requires Expired(map[k := [], t := k], 1) == map[t := k]
    ensures var run := HalfSweep(k, t);
            Steps(fix, loss, run[3], run[4]) && Steps(fix, loss, run[4], run[5]) && Steps(fix, loss, run[5], run[6])
  {
    var run := HalfSweep(k, t);
    assert Next(fix, loss, run[3], BeginPrune(0, 1, [t]), run[4]);
    assert run[4].rows - {t} == map[k := []];
    assert Next(fix, loss, run[4], DropTtl(0), run[5]);
    assert run[5].tasks - {0} == map[];
    assert Next(fix, loss, run[5], Leave(0), run[6]);
  }

  /** The expiry row swept, and the row it named still there. */
  lemma LostDeleteOrphans(fix: Coercion, loss: Loss, t: Bytes)
    requires IsCoercion(fix) && loss.named && t == TtlKey(0, [])
    ensures !NeverOrphans(fix, loss)
  {
    var k: Bytes := C_COLON;
    assert Ascii(k) && Ascii([]) && IsTtl(t, 0, []);
    TtlStable(fix, t, 0, []);
    ExpiredAlone(map[k := [], t := k], k, t);
    CachedAndNamed(fix, loss, k, t);
    SweptHalfway(fix, loss, k, t);
    assert !HasPrefix(k, TTL);
    TwoLastStates(fix, loss, HalfSweep(k, t), k);
  }

  lemma ExpiredAlone(rows: Rows, k: Bytes, t: Bytes)
    requires rows == map[k := [], t := k] && k == C_COLON && t == TtlKey(0, [])
    ensures Expired(rows, 1) == map[t := k] && k != t
  {
    assert Ascii([]) && IsTtl(t, 0, []);
    KeyFamilies([], [], [], [], Typed([], []), None, 0, []);
    assert k[0] != t[0];
    assert TtlShaped(rows);
    SweepExact(rows, 1, t);
    SweepExact(rows, 1, k);
  }

  /** Main theorem: in every interleaving each cache row has an expiry row, or
      one on its way, or its own delete on the way, exactly if neither of the
      second writes can get lost. */
  lemma NoOrphansIffNothingLost(fix: Coercion, loss: Loss)
    requires IsCoercion(fix)
    ensures NeverOrphans(fix, loss) <==> !loss.ttl && !loss.named
  {
    if loss.ttl {
      LostTtlOrphans(fix, loss);
    } else if loss.named {
      LostDeleteOrphans(fix, loss, TtlKey(0, []));
    } else {
      forall run, i: nat | IsRun(fix, loss, run) && i < |run| ensures NoOrphans(fix, run[i]) {
        RunInv(fix, loss, run, i);
      }
    }
  }

  /** So once no operation is halfway, a sweep after the last expiry leaves no
      cache row at all. */
  lemma SweptClean(fix: Coercion, run: seq<System>, i: nat, now: nat, k: Bytes)
    requires IsCoercion(fix) && IsRun(fix, NOTHING_LOST, run) && i < |run| && now < LIMIT
    requires forall n :: n in run[i].tasks ==> !Open(run[i].tasks[n])
    requires forall t :: t in run[i].rows && HasPrefix(t, TTL) ==> ExpiresBefore(t, now)
    ensures HasPrefix(k, C_COLON) ==> k !in Pruned(fix, run[i].rows, now)
  {
    var rows := run[i].rows;
    RunInv(fix, NOTHING_LOST, run, i);
    if HasPrefix(k, C_COLON) && k in rows {
      assert Named(fix, run[i], k);
      var t :| t in rows && HasPrefix(t, TTL) && fix(rows[t]) == k;
      PruneExact(fix, rows, now, k);
      assert NamedByExpired(fix, rows, now, k);
      assert Get(Pruned(fix, rows, now), k).None?;
    }
  }

  // ------------------------------------------- one operation without the others

  /** These events, one after the other, lead from s to s'. */
  ghost predicate Leads(fix: Coercion, loss: Loss, s: System, es: seq<Event>, s': System)
    decreases |es|
  {
    if es == [] then s == s' else exists mid :: Next(fix, loss, s, es[0], mid) && Leads(fix, loss, mid, es[1..], s')
  }

  lemma LeadsOn(fix: Coercion, loss: Loss, s: System, e: Event, mid: System, es: seq<Event>, s': System)
    requires Next(fix, loss, s, e, mid) && Leads(fix, loss, mid, es, s')
    ensures Leads(fix, loss, s, [e] + es, s')
  {
    assert ([e] + es)[1..] == es;
  }

  /** The single writes of a cache operation that is left alone do what cache
      and ttl do. */
  lemma CacheAlone(cfg: Config, loss: Loss, s: System, n: nat, req: Request, entity: Bytes, path: Bytes, env: Env)
    requires IsCoercion(cfg.fix) && n !in s.tasks && cfg.cacheSeconds > 1 && env.cacheSaved && env.ttlSaved
    requires env.now + cfg.cacheSeconds < LIMIT && Ascii(env.suffix)
    requires TtlKey(env.now + cfg.cacheSeconds, env.suffix) !in s.used
    ensures var (k, v) := (RequestKey(req), CacheValue(entity, req.resource.rune, path));
            var time := env.now + cfg.cacheSeconds;
            Leads(cfg.fix, loss, s, [BeginCache(n, k, v), SaveCache(n), SaveTtl(n, time, env.suffix)],
              System(Noted(cfg, s.rows, req, entity, path, env), s.tasks, s.used + {TtlKey(time, env.suffix)}))
  {
    var k, v := RequestKey(req), CacheValue(entity, req.resource.rune, path);
    var time := env.now + cfg.cacheSeconds;
    var t := TtlKey(time, env.suffix);
    KeyFamilies([], [], req.resource.val, req.user.val, req.action, req.right, 0, []);
    assert IsTtl(t, time, env.suffix);
    TtlStable(cfg.fix, t, time, env.suffix);
    var s1 := s.(tasks := s.tasks[n := Caching(k, v)]);
    var s2 := s1.(rows := s.rows[cfg.fix(k) := v], tasks := s1.tasks[n := Expiring(k)]);
    var s3 := System(s2.rows[t := k], s2.tasks - {n}, s2.used + {t});
    assert s2.tasks - {n} == s.tasks;
    assert s3.rows == Noted(cfg, s.rows, req, entity, path, env);
    assert Leads(cfg.fix, loss, s3, [], s3);
    LeadsOn(cfg.fix, loss, s2, SaveTtl(n, time, env.suffix), s3, [], s3);
    LeadsOn(cfg.fix, loss, s1, SaveCache(n), s2, [SaveTtl(n, time, env.suffix)] + [], s3);
    LeadsOn(cfg.fix, loss, s, BeginCache(n, k, v), s1, [SaveCache(n)] + ([SaveTtl(n, time, env.suffix)] + []), s3);
    assert [BeginCache(n, k, v)] + ([SaveCache(n)] + ([SaveTtl(n, time, env.suffix)] + []))
        == [BeginCache(n, k, v), SaveCache(n), SaveTtl(n, time, env.suffix)];
  }

  /** Both deletes for each of so many items, and the return. */
  function Sweeping(n: nat, items: nat): (es: seq<Event>) {
    if items == 0 then [Leave(n)] else [DropTtl(n)] + ([DropNamed(n)] + Sweeping(n, items - 1))
  }

  lemma GoneCons(fix: Coercion, rows: Rows, items: Rows, rest: seq<Bytes>)
    requires rest != [] && rest[0] in items && rest[0] !in rest[1..]
    ensures rows - AllGone(fix, Only(items, rest)) ==
            rows - Dropped(fix, rest[0]) - Dropped(fix, items[rest[0]]) - AllGone(fix, Only(items, rest[1..]))
  {
    assert forall k :: k in rest <==> k == rest[0] || k in rest[1..];
    assert Only(items, rest) == Only(items, rest[1..])[rest[0] := items[rest[0]]];
    GoneGrows(fix, Only(items, rest[1..]), rest[0], items[rest[0]]);
  }

  lemma {:induction false} SweepsOn(fix: Coercion, loss: Loss, s: System, n: nat, items: Rows, rest: seq<Bytes>)
    requires n in s.tasks && s.tasks[n] == Pruning(items, rest, false)
    requires (forall k :: k in rest ==> k in items) && forall i, j :: 0 <= i < j < |rest| ==> rest[i] != rest[j]
    ensures Leads(fix, loss, s, Sweeping(n, |rest|),
              s.(rows := s.rows - AllGone(fix, Only(items, rest)), tasks := s.tasks - {n}))
    decreases |rest|
  {
    var end := s.(rows := s.rows - AllGone(fix, Only(items, rest)), tasks := s.tasks - {n});
    if rest == [] {
      assert Only(items, rest) == map[] && AllGone(fix, Only(items, rest)) == {};
      assert s.rows - {} == s.rows;
      assert Next(fix, loss, s, Leave(n), end);
      assert Leads(fix, loss, end, [], end);
      LeadsOn(fix, loss, s, Leave(n), end, [], end);
      assert [Leave(n)] + [] == Sweeping(n, 0);
    } else {
      var s1 := s.(rows := s.rows - Dropped(fix, rest[0]), tasks := s.tasks[n := Pruning(items, rest, true)]);
      var s2 := s1.(rows := s1.rows - Dropped(fix, items[rest[0]]),
                    tasks := s1.tasks[n := Pruning(items, rest[1..], false)]);
      GoneCons(fix, s.rows, items, rest);
      SweepsOn(fix, loss, s2, n, items, rest[1..]);
      assert s2.tasks - {n} == s.tasks - {n};
      LeadsOn(fix, loss, s1, DropNamed(n), s2, Sweeping(n, |rest| - 1), end);
      LeadsOn(fix, loss, s, DropTtl(n), s1, [DropNamed(n)] + Sweeping(n, |rest| - 1), end);
    }
  }

  /** Those of a sweep that is left alone do what prune does. */
  lemma PruneAlone(fix: Coercion, loss: Loss, s: System, n: nat, now: nat, order: seq<Bytes>)
    requires n !in s.tasks && Lists(order, Expired(s.rows, now).Keys)
    ensures Leads(fix, loss, s, [BeginPrune(n, now, order)] + Sweeping(n, |order|),
              s.(rows := Pruned(fix, s.rows, now)))
  {
    var items := Expired(s.rows, now);
    var s1 := s.(tasks := s.tasks[n := Pruning(items, order, false)]);
    SweepsOn(fix, loss, s1, n, items, order);
    assert Only(items, order) == items && s1.tasks - {n} == s.tasks;
    LeadsOn(fix, loss, s, BeginPrune(n, now, order), s1, Sweeping(n, |order|), s.(rows := Pruned(fix, s.rows, now)));
  }

  /** One delete for each row, done or not, and the return. */
  function Deleting(n: nat, rest: seq<Bytes>, failed: set<Bytes>): (es: seq<Event>)
    decreases |rest|
  {
    if rest == [] then [Leave(n)] else [DropCached(n, rest[0] !in failed)] + Deleting(n, rest[1..], failed)
  }

  lemma HandledCons(rows: Rows, rest: seq<Bytes>, failed: set<Bytes>)
    requires rest != []
    ensures rows - Handled(rest, failed) ==
            (if rest[0] in failed then rows else rows - {rest[0]}) - Handled(rest[1..], failed)
  {
    assert forall k :: k in rest <==> k == rest[0] || k in rest[1..];
  }

  lemma {:induction false} DeletesOn(fix: Coercion, loss: Loss, s: System, n: nat, rest: seq<Bytes>, failed: set<Bytes>)
    requires n in s.tasks && s.tasks[n] == Revoking(rest) && forall k :: k in rest ==> Stable(fix, k) && k != []
    ensures Leads(fix, loss, s, Deleting(n, rest, failed),
              s.(rows := s.rows - Handled(rest, failed), tasks := s.tasks - {n}))
    decreases |rest|
  {
    var end := s.(rows := s.rows - Handled(rest, failed), tasks := s.tasks - {n});
    if rest == [] {
      assert Handled(rest, failed) == {} && s.rows - {} == s.rows;
      assert Next(fix, loss, s, Leave(n), end);
      assert Leads(fix, loss, end, [], end);
      LeadsOn(fix, loss, s, Leave(n), end, [], end);
      assert [Leave(n)] + [] == [Leave(n)];
    } else {
      var done := rest[0] !in failed;
      var s1 := s.(rows := if done then s.rows - Dropped(fix, rest[0]) else s.rows,
                   tasks := s.tasks[n := Revoking(rest[1..])]);
      HandledCons(s.rows, rest, failed);
      assert rest[0] in rest && forall k :: k in rest[1..] ==> k in rest;
      assert Dropped(fix, rest[0]) == {rest[0]};
      DeletesOn(fix, loss, s1, n, rest[1..], failed);
      assert s1.tasks - {n} == s.tasks - {n};
      LeadsOn(fix, loss, s, DropCached(n, done), s1, Deleting(n, rest[1..], failed), end);
    }
  }

  /** And those of a revoke. */
  lemma RevokeAlone(fix: Coercion, loss: Loss, s: System, n: nat, user: Bytes, order: seq<Bytes>, failed: set<Bytes>)
    requires IsCoercion(fix) && StableRows(fix, s.rows) && n !in s.tasks
    requires Lists(order, Iteration.WithPrefix(s.rows, UserPrefix(fix, user)).Keys)
    ensures Leads(fix, loss, s, [BeginRevoke(n, user, order)] + Deleting(n, order, failed),
              s.(rows := Revoked(fix, s.rows, user, failed)))
  {
    var s1 := s.(tasks := s.tasks[n := Revoking(order)]);
    ScannedKeys(fix, s.rows, user);
    DeletesOn(fix, loss, s1, n, order, failed);
    assert Handled(order, failed) == Iteration.WithPrefix(s.rows, UserPrefix(fix, user)).Keys - failed;
    assert s1.tasks - {n} == s.tasks;
    LeadsOn(fix, loss, s, BeginRevoke(n, user, order), s1, Deleting(n, order, failed),
      s.(rows := Revoked(fix, s.rows, user, failed)));
  }
}
