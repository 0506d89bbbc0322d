/**
 Readers racing with a snapshot install. Get and Scan load the database
 pointer, take the read lock of whatever database they found, check that it
 is still open, and only then touch it; an install swaps the pointer and
 closes the old database under its write lock. ReverseScan takes no lock and
 checks nothing. Every step of every thread is one transition here, in any
 order.
 */
module Readers {
  import opened ByteStrings
  import opened Store
  import Iteration

  datatype Query = GetKey(key: Bytes) | ScanPrefix(prefix: Bytes) | Between(lower: Bytes, upper: Bytes)

  function Answer(q: Query, rows: Rows): (r: Rows) {
    match q
    case GetKey(k) => map x | x in rows && x == k :: rows[x]
    case ScanPrefix(p) => Iteration.WithPrefix(rows, p)
    case Between(lower, upper) => Iteration.InRange(rows, lower, upper)
  }

  datatype Reader =
    | Idle
    | Loaded(h: nat, q: Query)                   // has the pointer, no lock yet
    | Locked(h: nat, q: Query)
    | Checked(h: nat, q: Query)                  // saw the database open
    | Reading(h: nat, q: Query, view: Rows)      // an iterator over a stable view
    | Bare(h: nat, q: Query, view: Rows)         // ReverseScan's iterator, without a lock
    | Answered(q: Query, result: Rows)
    | Crashed                                    // used a closed database
    | Refused                                    // an error was returned

  /** The install thread, or Close. */
  datatype Installer =
    | Quiet
    | Swapped(previous: nat)
    | Closing(previous: nat)                          // holds the write lock

  /** The databases with their contents, which of them are closed, and whose
      write lock is taken; who holds a read lock is told by the threads. */
  datatype State = State(
    dbs: map<nat, Rows>,
    closed: set<nat>,
    writing: set<nat>,
    ptr: Option<nat>,
    threads: map<nat, Reader>,
    installer: Installer)

  datatype Step =
    | Load(t: nat, q: Query)
    | RLock(t: nat)
    | Check(t: nat)
    | Begin(t: nat)
    | Touch(t: nat)                              // one more iterator step
    | End(t: nat)
    | Grab(t: nat)                               // ReverseScan makes its iterator
    | TouchBare(t: nat)
    | EndBare(t: nat)
    | Forget(t: nat)                             // the thread takes the next request
    | Write(rows: Rows)                          // Update on the current database
    | Swap(next: Option<nat>, rows: Rows)       // install, or Close with None
    | Lock
    | Shut
    | Unlock

  predicate Holds(r: Reader, h: nat) {
    (r.Locked? || r.Checked? || r.Reading?) && r.h == h
  }

  /** The thread is past its check: it will use the database. */
  predicate Uses(r: Reader, h: nat) {
    (r.Checked? || r.Reading?) && r.h == h
  }

  ghost predicate ReaderNext(s: State, r: Reader, step: Step, r': Reader) {
    match step
    case Load(_, q) => r.Idle? && r' == if s.ptr.None? then Refused else Loaded(s.ptr.value, q)
    case RLock(_) => r.Loaded? && !r.q.Between? && r.h !in s.writing && r' == Locked(r.h, r.q)
    case Check(_) => r.Locked? && r' == if r.h in s.closed then Refused else Checked(r.h, r.q)
    case Begin(_) => r.Checked? && r.h in s.dbs && r' == Reading(r.h, r.q, s.dbs[r.h])
    case Touch(_) => r.Reading? && r' == r
    case End(_) => r.Reading? && r' == Answered(r.q, Answer(r.q, r.view))
    case Grab(_) =>
      r.Loaded? && r.q.Between? && r.h in s.dbs &&
      r' == if r.h in s.closed then Crashed else Bare(r.h, r.q, s.dbs[r.h])
    case TouchBare(_) => r.Bare? && r' == if r.h in s.closed then Crashed else r
    case EndBare(_) => r.Bare? && r' == if r.h in s.closed then Crashed else Answered(r.q, Answer(r.q, r.view))
    case Forget(_) => (r.Answered? || r.Refused?) && r' == Idle
    case _ => false
  }

  ghost predicate InstallerNext(s: State, step: Step, s': State) {
    match step
    case Swap(next, rows) =>
      s.installer.Quiet? && s.ptr.Some? && (next.Some? ==> next.value !in s.dbs) &&
      s' == s.(dbs := if next.Some? then s.dbs[next.value := rows] else s.dbs,
               ptr := next, installer := Swapped(s.ptr.value))
    case Lock =>
      s.installer.Swapped? && var h := s.installer.previous;
      (forall t :: t in s.threads ==> !Holds(s.threads[t], h)) &&
      s' == s.(writing := s.writing + {h}, installer := Closing(h))
    case Shut =>
      s.installer.Closing? && s' == s.(closed := s.closed + {s.installer.previous})
    case Unlock =>
      s.installer.Closing? && s.installer.previous in s.closed &&
      s' == s.(writing := s.writing - {s.installer.previous}, installer := Quiet)
    case _ => false
  }

  ghost predicate Next(s: State, step: Step, s': State) {
    if step.Write? then
      s.ptr.Some? && s' == s.(dbs := s.dbs[s.ptr.value := step.rows])
    else if step.Swap? || step.Lock? || step.Shut? || step.Unlock? then
      InstallerNext(s, step, s')
    else
      step.t in s.threads && step.t in s'.threads &&
      ReaderNext(s, s.threads[step.t], step, s'.threads[step.t]) &&
      s' == s.(threads := s.threads[step.t := s'.threads[step.t]])
  }

  /** What holds of one thread. */
  predicate ReaderInv(s: State, r: Reader) {
    && (r.Loaded? || r.Locked? || r.Checked? || r.Reading? || r.Bare? ==> r.h in s.dbs)
    // readers and writer exclude each other
    && (r.Locked? || r.Checked? || r.Reading? ==> r.h !in s.writing)
    // whoever passed the check reads an open database
    && (r.Checked? || r.Reading? ==> r.h !in s.closed)
  }

  ghost predicate Inv(s: State) {
    && (s.ptr.Some? ==> s.ptr.value in s.dbs && s.ptr.value !in s.closed)
    && (forall h :: h in s.writing || h in s.closed ==> h in s.dbs)
    && (s.installer.Swapped? ==> s.installer.previous in s.dbs && s.ptr != Some(s.installer.previous))
    && (s.installer.Closing? ==> s.writing == {s.installer.previous} && s.ptr != Some(s.installer.previous))
    && (!s.installer.Closing? ==> s.writing == {})
    && (forall t :: t in s.threads ==> ReaderInv(s, s.threads[t]))
  }

  lemma ThreadInv(s: State, step: Step, s': State)
    requires Inv(s) && Next(s, step, s') && !step.Write? && !step.Swap? && !step.Lock? && !step.Shut? && !step.Unlock?
    ensures Inv(s')
  {
    forall t | t in s'.threads ensures ReaderInv(s', s'.threads[t]) {
      assert ReaderInv(s, s.threads[t]);
    }
  }

  /** A thread that is neither locked out nor in the way keeps its promise. */
  lemma OthersInv(s: State, step: Step, s': State)
    requires Inv(s) && Next(s, step, s') && s'.threads == s.threads
    requires step.Write? || step.Swap? || step.Lock? || step.Shut? || step.Unlock?
    ensures Inv(s')
  {
    forall t | t in s'.threads ensures ReaderInv(s', s'.threads[t]) {
      assert ReaderInv(s, s.threads[t]);
    }
  }

  lemma StepInv(s: State, step: Step, s': State)
    requires Inv(s) && Next(s, step, s')
    ensures Inv(s')
  {
    if step.Write? || step.Swap? || step.Lock? || step.Shut? || step.Unlock? {
      OthersInv(s, step, s');
    } else {
      ThreadInv(s, step, s');
    }
  }

  ghost predicate Initial(s: State) {
    && s.installer.Quiet? && s.writing == {} && s.closed == {}
    && (forall t :: t in s.threads ==> s.threads[t].Idle?)
    && (s.ptr.Some? ==> s.ptr.value in s.dbs)
  }

  ghost predicate Steps(s: State, s': State) {
    exists step :: Next(s, step, s')
  }

  ghost predicate IsRun(run: seq<State>) {
    |run| > 0 && Initial(run[0]) && forall i :: 0 < i < |run| ==> Steps(run[i - 1], run[i])
  }

  lemma {:induction false} RunInv(run: seq<State>, i: nat)
    requires IsRun(run) && i < |run|
    ensures Inv(run[i])
  {
    if i > 0 {
      RunInv(run, i - 1);
      var step :| Next(run[i - 1], step, run[i]);
      StepInv(run[i - 1], step, run[i]);
    }
  }

  /** In every interleaving, no reader touches a closed database. */
  lemma NoUseAfterClose(run: seq<State>, i: nat, t: nat, h: nat)
    requires IsRun(run) && i < |run| && t in run[i].threads && Uses(run[i].threads[t], h)
    ensures h in run[i].dbs && h !in run[i].closed
  {
    RunInv(run, i);
  }

  /** At some moment between from and to, database h was open and held
      exactly these rows. */
  ghost predicate Held(run: seq<State>, from: nat, to: nat, h: nat, rows: Rows)
    requires to < |run|
  {
    exists j: nat :: from <= j <= to && h in run[j].dbs && h !in run[j].closed && run[j].dbs[h] == rows
  }

  /** A request that loaded h at moment from has stayed with h ever since. */
  ghost predicate Sourced(run: seq<State>, from: nat, to: nat, h: nat, r: Reader)
    requires to < |run|
  {
    match r
    case Idle => false
    case Refused => true
    case Crashed => true
    case Bare(g, _, view) => g == h && Held(run, from, to, h, view)
    case Reading(g, _, view) => g == h && Held(run, from, to, h, view)
    case Answered(q, result) => exists rows :: Held(run, from, to, h, rows) && result == Answer(q, rows)
    case _ => r.h == h
  }

  lemma HeldLater(run: seq<State>, from: nat, to: nat, h: nat)
    requires to + 1 < |run|
    ensures forall rows :: Held(run, from, to, h, rows) ==> Held(run, from, to + 1, h, rows)
  {
    forall rows | Held(run, from, to, h, rows) ensures Held(run, from, to + 1, h, rows) {
      var j: nat :| from <= j <= to && h in run[j].dbs && h !in run[j].closed && run[j].dbs[h] == rows;
    }
  }

  lemma RunStep(run: seq<State>, i: nat)
    requires IsRun(run) && 0 < i < |run|
    ensures Inv(run[i - 1]) && Steps(run[i - 1], run[i])
  {
    RunInv(run, i - 1);
  }

  lemma SourcedLater(run: seq<State>, from: nat, i: nat, h: nat, r: Reader)
    requires i + 1 < |run| && Sourced(run, from, i, h, r)
    ensures Sourced(run, from, i + 1, h, r)
  {
    HeldLater(run, from, i, h);
  }

  /** A step is one of thread t, or leaves it alone. */
  lemma StepOfThread(s: State, s': State, t: nat)
    requires Steps(s, s') && t in s.threads && t in s'.threads
    ensures s'.threads[t] == s.threads[t] || exists step :: ReaderNext(s, s.threads[t], step, s'.threads[t])
  {
    var step :| Next(s, step, s');
  }

  /** What a thread reads or answers in one step comes from h as it was then. */
  lemma ReaderSourced(run: seq<State>, from: nat, i: nat, h: nat, r: Reader, step: Step, r': Reader)
    requires from <= i < |run| && ReaderInv(run[i], r) && Sourced(run, from, i, h, r)
    requires ReaderNext(run[i], r, step, r') && !r'.Idle?
    ensures Sourced(run, from, i, h, r')
  {
    if r'.Reading? && !r.Reading? { assert Held(run, from, i, h, r'.view); }
    if r'.Bare? && !r.Bare? { assert Held(run, from, i, h, r'.view); }
    if r'.Answered? { assert Held(run, from, i, h, r.view); }
  }

  lemma StepSourced(run: seq<State>, from: nat, i: nat, h: nat, t: nat)
    requires IsRun(run) && from <= i && i + 1 < |run|
    requires t in run[i].threads && Sourced(run, from, i, h, run[i].threads[t])
    requires t in run[i + 1].threads && !run[i + 1].threads[t].Idle?
    ensures Sourced(run, from, i + 1, h, run[i + 1].threads[t])
  {
    RunStep(run, i + 1);
    var r, r' := run[i].threads[t], run[i + 1].threads[t];
    StepOfThread(run[i], run[i + 1], t);
    if r' != r {
      var step :| ReaderNext(run[i], r, step, r');
      ReaderSourced(run, from, i, h, r, step, r');
    }
    SourcedLater(run, from, i, h, r');
  }

  lemma {:induction false} RunSourced(run: seq<State>, from: nat, i: nat, h: nat, t: nat)
    requires IsRun(run) && from <= i < |run|
    requires forall k :: from <= k <= i ==> t in run[k].threads && !run[k].threads[t].Idle?
    requires run[from].threads[t].Loaded? && run[from].threads[t].h == h
    ensures Sourced(run, from, i, h, run[i].threads[t])
    decreases i
  {
    if i > from {
      RunSourced(run, from, i - 1, h, t);
      StepSourced(run, from, i - 1, h, t);
    }
  }

  /** Every successful read is the answer on the contents that the database
      current at the start of the request had, while open, at one moment of
      the request: never a mixture of old and new. */
  lemma ReadsAreWhole(run: seq<State>, from: nat, i: nat, t: nat)
    requires IsRun(run) && 0 < from <= i < |run|
    requires forall k :: from <= k <= i ==> t in run[k].threads && !run[k].threads[t].Idle?
    requires t in run[from - 1].threads && run[from - 1].threads[t].Idle?
    requires run[i].threads[t].Answered?
    ensures run[from - 1].ptr.Some?
    ensures exists rows :: Held(run, from, i, run[from - 1].ptr.value, rows)
                           && run[i].threads[t].result == Answer(run[i].threads[t].q, rows)
  {
    assert Steps(run[from - 1], run[from]);
    if run[from].threads[t].Refused? {
      RefusedStays(run, from, i, t);
    } else {
      RunSourced(run, from, i, run[from].threads[t].h, t);
    }
  }

  lemma {:induction false} RefusedStays(run: seq<State>, from: nat, i: nat, t: nat)
    requires IsRun(run) && from <= i < |run|
    requires forall k :: from <= k <= i ==> t in run[k].threads && !run[k].threads[t].Idle?
    requires run[from].threads[t].Refused?
    ensures run[i].threads[t].Refused?
    decreases i
  {
    if i > from {
      RefusedStays(run, from, i - 1, t);
      assert Steps(run[i - 1], run[i]);
    }
  }

  // ------------------------------------------------------------ ReverseScan

  /** From s to s' the database is closed. */
  predicate Shuts(s: State, s': State, h: nat) {
    h !in s.closed && h in s'.closed
  }

  ghost predicate ShutBetween(run: seq<State>, from: nat, to: nat, h: nat)
    requires to < |run|
  {
    exists j: nat :: from <= j < to && Shuts(run[j], run[j + 1], h)
  }

  /** Only an install or Close that holds the write lock closes a database,
      and it stays closed. */
  lemma OnlyShutCloses(s: State, s': State, h: nat)
    requires Steps(s, s')
    ensures Shuts(s, s', h) ==> s.installer.Closing? && s.installer.previous == h && Next(s, Shut, s')
    ensures s.closed <= s'.closed
  {
    var step :| Next(s, step, s');
  }

  lemma ShutSnoc(run: seq<State>, from: nat, i: nat, h: nat)
    requires from < i < |run|
    ensures ShutBetween(run, from, i, h) <==> ShutBetween(run, from, i - 1, h) || Shuts(run[i - 1], run[i], h)
  {
    if ShutBetween(run, from, i - 1, h) {
      var j: nat :| from <= j < i - 1 && Shuts(run[j], run[j + 1], h);
      assert ShutBetween(run, from, i, h);
    }
    var last := i - 1;
    assert Shuts(run[i - 1], run[i], h) <==> Shuts(run[last], run[last + 1], h);
  }

  lemma ClosedSnoc(run: seq<State>, i: nat, h: nat)
    requires IsRun(run) && 0 < i < |run|
    ensures h in run[i].closed <==> h in run[i - 1].closed || Shuts(run[i - 1], run[i], h)
  {
    assert Steps(run[i - 1], run[i]);
    OnlyShutCloses(run[i - 1], run[i], h);
  }

  lemma {:induction false} ClosedIffShut(run: seq<State>, from: nat, i: nat, h: nat)
    requires IsRun(run) && from <= i < |run| && h !in run[from].closed
    ensures h in run[i].closed <==> ShutBetween(run, from, i, h)
    decreases i
  {
    if i > from {
      ClosedIffShut(run, from, i - 1, h);
      ShutSnoc(run, from, i, h);
      ClosedSnoc(run, i, h);
    }
  }

  /** The database a ReverseScan works on. */
  predicate ScansBare(r: Reader, h: nat) {
    (r.Bare? && r.h == h) || (r.Loaded? && r.q.Between? && r.h == h)
  }

  lemma LoadedOpen(run: seq<State>, from: nat, t: nat, h: nat)
    requires IsRun(run) && 0 < from < |run|
    requires t in run[from - 1].threads && run[from - 1].threads[t].Idle?
    requires t in run[from].threads && run[from].threads[t].Loaded? && run[from].threads[t].h == h
    ensures h !in run[from].closed
  {
    RunInv(run, from - 1);
    assert Steps(run[from - 1], run[from]);
    LoadsOpen(run[from - 1], run[from], t, h);
  }

  lemma CrashesIffClosed(s: State, step: Step, s': State, t: nat, h: nat)
    requires t in s.threads && ScansBare(s.threads[t], h)
    requires (step.Grab? || step.TouchBare? || step.EndBare?) && step.t == t && Next(s, step, s')
    ensures s'.threads[t].Crashed? <==> h in s.closed
  {
  }

  /** A ReverseScan goes wrong in its next step if and only if its database was
      closed at some time since it loaded the pointer. */
  lemma ReverseScanSafeIff(run: seq<State>, from: nat, i: nat, t: nat, h: nat, step: Step, s': State)
    requires IsRun(run) && 0 < from <= i < |run|
    requires t in run[from - 1].threads && run[from - 1].threads[t].Idle?
    requires t in run[from].threads && run[from].threads[t].Loaded? && run[from].threads[t].h == h
    requires t in run[i].threads && ScansBare(run[i].threads[t], h)
    requires (step.Grab? || step.TouchBare? || step.EndBare?) && step.t == t && Next(run[i], step, s')
    ensures s'.threads[t].Crashed? <==> ShutBetween(run, from, i, h)
  {
    LoadedOpen(run, from, t, h);
    ClosedIffShut(run, from, i, h);
    CrashesIffClosed(run[i], step, s', t, h);
  }

  lemma LoadsOpen(s: State, s': State, t: nat, h: nat)
    requires Inv(s) && Steps(s, s') && t in s.threads && s.threads[t].Idle?
    requires t in s'.threads && s'.threads[t].Loaded? && s'.threads[t].h == h
    ensures h !in s'.closed
  {
    var step :| Next(s, step, s');
  }

  /** What each kind of request is answered: the value at the key, if there is
      one; the rows whose key begins with the prefix; the rows from the lower
      bound up to, but not including, the upper. */
  lemma AnswerIs(q: Query, rows: Rows, k: Bytes)
    ensures q.GetKey? ==> Get(Answer(q, rows), k) == if k == q.key then Get(rows, k) else None
    ensures q.ScanPrefix? ==> Get(Answer(q, rows), k) == if q.prefix <= k then Get(rows, k) else None
    ensures q.Between? ==>
              Get(Answer(q, rows), k) == if !Less(k, q.lower) && Less(k, q.upper) then Get(rows, k) else None
  {
  }

  /** A request of a lone thread, from start to end. */
  function Alone(rows: Rows, q: Query): (r: seq<State>) {
    var s0 := State(map[0 := rows], {}, {}, Some(0), map[0 := Idle], Quiet);
    var s1 := s0.(threads := s0.threads[0 := Loaded(0, q)]);
    var done := s0.(threads := s0.threads[0 := Answered(q, Answer(q, rows))]);
    if q.Between? then [s0, s1, s0.(threads := s0.threads[0 := Bare(0, q, rows)]), done]
    else
      [s0, s1, s0.(threads := s0.threads[0 := Locked(0, q)]), s0.(threads := s0.threads[0 := Checked(0, q)]),
       s0.(threads := s0.threads[0 := Reading(0, q, rows)]), done]
  }

  lemma LoneScanStep(rows: Rows, q: Query, i: nat)
    requires q.Between? && 0 < i < |Alone(rows, q)|
    ensures Steps(Alone(rows, q)[i - 1], Alone(rows, q)[i])
  {
    var s, s' := Alone(rows, q)[i - 1], Alone(rows, q)[i];
    var step := if i == 1 then Load(0, q) else if i == 2 then Grab(0) else EndBare(0);
    assert Next(s, step, s');
  }

  lemma LoneReadStep(rows: Rows, q: Query, i: nat)
    requires !q.Between? && 0 < i < |Alone(rows, q)|
    ensures Steps(Alone(rows, q)[i - 1], Alone(rows, q)[i])
  {
    var s, s' := Alone(rows, q)[i - 1], Alone(rows, q)[i];
    var step :=
      if i == 1 then Load(0, q) else if i == 2 then RLock(0) else if i == 3 then Check(0)
      else if i == 4 then Begin(0) else End(0);
    assert Next(s, step, s');
  }

  /** Requests do get answered: with nobody in the way, every one is. */
  lemma LoneRequestIsAnswered(rows: Rows, q: Query)
    ensures var run := Alone(rows, q);
            && IsRun(run) && run[0].ptr == Some(0) && run[0].dbs == map[0 := rows]
            && run[|run| - 1].threads[0] == Answered(q, Answer(q, rows))
  {
    var run := Alone(rows, q);
    assert Initial(run[0]);
    forall i | 0 < i < |run| ensures Steps(run[i - 1], run[i]) {
      if q.Between? { LoneScanStep(rows, q, i); } else { LoneReadStep(rows, q, i); }
    }
  }

  lemma StartsEarlier(s: State, run: seq<State>)
    requires Initial(s) && IsRun(run) && Steps(s, run[0])
    ensures IsRun([s] + run)
  {
    var more := [s] + run;
    forall i | 0 < i < |more| ensures Steps(more[i - 1], more[i]) {
      if i > 1 { assert more[i - 1] == run[i - 2] && more[i] == run[i - 1] && Steps(run[i - 2], run[i - 1]); }
    }
  }

  lemma WriteStep(before: Rows, after: Rows, q: Query)
    ensures var s, s' := Alone(before, q)[0], Alone(after, q)[0];
            Initial(s) && Next(s, Write(after), s') && Steps(s, s')
  {
    var s, s' := Alone(before, q)[0], Alone(after, q)[0];
    assert s.dbs[0 := after] == map[0 := after];
    assert Next(s, Write(after), s');
  }

  /** And a request that starts after an Update sees what it wrote. */
  lemma UpdateIsSeen(before: Rows, after: Rows, q: Query) returns (run: seq<State>)
    ensures IsRun(run) && |run| > 1 && run[0].dbs == map[0 := before] && Next(run[0], Write(after), run[1])
    ensures 0 in run[|run| - 1].threads && run[|run| - 1].threads[0] == Answered(q, Answer(q, after))
  {
    var s, alone := Alone(before, q)[0], Alone(after, q);
    LoneRequestIsAnswered(after, q);
    WriteStep(before, after, q);
    StartsEarlier(s, alone);
    run := [s] + alone;
    assert run[|run| - 1] == alone[|alone| - 1];
  }

  /** A reader is refused exactly when there is no database to load, or the one
      it loaded is closed by the time of its check. */
  lemma RefusedIff(s: State, step: Step, s': State, t: nat)
    requires Next(s, step, s') && t in s.threads && t in s'.threads
    ensures s'.threads[t].Refused? && !s.threads[t].Refused? <==>
              || (step.Load? && step.t == t && s.threads[t].Idle? && s.ptr.None?)
              || (step.Check? && step.t == t && s.threads[t].Locked? && s.threads[t].h in s.closed)
  {
  }

  /** A request that loads the pointer just before an install. */
  function Race(before: Rows, after: Rows, q: Query): (r: seq<State>) {
    var s0 := State(map[0 := before], {}, {}, Some(0), map[0 := Idle], Quiet);
    var s1 := s0.(threads := s0.threads[0 := Loaded(0, q)]);
    var s2 := s1.(dbs := s1.dbs[1 := after], ptr := Some(1), installer := Swapped(0));
    var s3 := s2.(writing := s2.writing + {0}, installer := Closing(0));
    [s0, s1, s2, s3, s3.(closed := s3.closed + {0})]
  }

  lemma RaceIsRun(before: Rows, after: Rows, q: Query)
    ensures IsRun(Race(before, after, q))
  {
    var run := Race(before, after, q);
    forall i | 0 < i < |run| ensures Steps(run[i - 1], run[i]) {
      if i == 1 { assert Next(run[0], Load(0, q), run[1]); }
      if i == 2 { assert Next(run[1], Swap(Some(1), after), run[2]); }
      if i == 3 { assert Next(run[2], Lock, run[3]); }
      if i == 4 { assert Next(run[3], Shut, run[4]); }
    }
  }

  /** The same for a request that takes the lock: it gets it once the install
      has closed the database, and is refused. */
  lemma LateReaderIsRefused(before: Rows, after: Rows, q: Query)
    requires !q.Between?
    ensures exists run: seq<State> :: IsRun(run) && 0 in run[|run| - 1].threads && run[|run| - 1].threads[0].Refused?
                                      && run[|run| - 1].installer.Quiet? && run[|run| - 1].ptr == Some(1)
  {
    var race := Race(before, after, q);
    RaceIsRun(before, after, q);
    var s5 := race[4].(writing := race[4].writing - {0}, installer := Quiet);
    var s6 := s5.(threads := s5.threads[0 := Locked(0, q)]);
    var s7 := s6.(threads := s6.threads[0 := Refused]);
    var run := race + [s5, s6, s7];
    assert Next(run[4], Unlock, run[5]);
    assert Next(run[5], RLock(0), run[6]);
    assert Next(run[6], Check(0), run[7]);
    forall i | 0 < i < |run| ensures Steps(run[i - 1], run[i]) {
      if i < 5 { assert Steps(race[i - 1], race[i]); }
    }
    assert run[|run| - 1] == s7;
  }

  /** And that happens: a ReverseScan loads the pointer, an install closes the
      database, and the scan uses it. */
  lemma ReverseScanCanCrash(before: Rows, after: Rows, q: Query)
    requires q.Between?
    ensures exists run: seq<State> :: IsRun(run) && 0 in run[|run| - 1].threads && run[|run| - 1].threads[0].Crashed?
  {
    var race := Race(before, after, q);
    RaceIsRun(before, after, q);
    var s := race[4];
    var run := race + [s.(threads := s.threads[0 := Crashed])];
    assert Next(run[4], Grab(0), run[5]);
    forall i | 0 < i < |run| ensures Steps(run[i - 1], run[i]) {
      if i < 5 { assert Steps(race[i - 1], race[i]); }
    }
    assert run[|run| - 1].threads[0].Crashed?;
  }
}
