/**
 The contents of one Pebble database and what a log does to them: a fold of
 the entries' effects, with the index of the last entry written on top.
 */
module Store {
  import opened ByteStrings
  import opened Commands

  type Rows = map<Bytes, Bytes>

  datatype Entry = Entry(index: nat, cmd: Bytes)

  // disk_kv_applied_index
  const INDEX_KEY: Bytes := [100, 105, 115, 107, 95, 107, 118, 95,
    97, 112, 112, 108, 105, 101, 100, 95, 105, 110, 100, 101, 120]

  function Get(rows: Rows, k: Bytes): (v: Option<Bytes>) {
    if k in rows then Some(rows[k]) else None
  }

  // ------------------------------------------------------- write batches

  function Apply(rows: Rows, op: Op): (r: Rows) {
    match op
    case Put(k, v) => rows[k := v]
    case Delete(k) => rows - {k}
  }

  function ApplyOps(rows: Rows, ops: seq<Op>): (r: Rows) {
    if ops == [] then rows else Apply(ApplyOps(rows, ops[..|ops| - 1]), ops[|ops| - 1])
  }

  lemma {:induction false} ApplyOpsAppend(rows: Rows, a: seq<Op>, b: seq<Op>)
    ensures ApplyOps(rows, a + b) == ApplyOps(ApplyOps(rows, a), b)
  {
    if b == [] {
      assert a + b == a;
    } else {
      var ops, init := a + b, b[..|b| - 1];
      assert ops[..|ops| - 1] == a + init && ops[|ops| - 1] == b[|b| - 1];
      ApplyOpsAppend(rows, a, init);
    }
  }

  /** Equal except, perhaps, at one key. */
  ghost predicate AgreeOff(k: Bytes, a: Rows, b: Rows) {
    forall x :: x != k ==> Get(a, x) == Get(b, x)
  }

  lemma {:induction false} AgreeOffKept(k: Bytes, a: Rows, b: Rows, ops: seq<Op>)
    requires AgreeOff(k, a, b)
    ensures AgreeOff(k, ApplyOps(a, ops), ApplyOps(b, ops))
  {
    if ops != [] {
      var init, op := ops[..|ops| - 1], ops[|ops| - 1];
      AgreeOffKept(k, a, b, init);
      var x, y := ApplyOps(a, init), ApplyOps(b, init);
      forall key | key != k ensures Get(Apply(x, op), key) == Get(Apply(y, op), key) {
        assert Get(x, key) == Get(y, key);
      }
    }
  }

  lemma AgreeOffThenPut(k: Bytes, v: Bytes, a: Rows, b: Rows)
    requires AgreeOff(k, a, b)
    ensures a[k := v] == b[k := v]
  {
    var x, y := a[k := v], b[k := v];
    forall key ensures (key in x <==> key in y) && (key in x ==> x[key] == y[key]) {
      assert key != k ==> Get(a, key) == Get(b, key);
    }
  }

  /** A value that is overwritten at the end might as well not be there. */
  lemma MaskedByPut(rows: Rows, k: Bytes, u: Bytes, v: Bytes, ops: seq<Op>)
    ensures ApplyOps(rows[k := u], ops)[k := v] == ApplyOps(rows, ops)[k := v]
  {
    AgreeOffKept(k, rows[k := u], rows, ops);
    AgreeOffThenPut(k, v, ApplyOps(rows[k := u], ops), ApplyOps(rows, ops));
  }

  // ------------------------------------------------------------- proposals

  function Effected(rows: Rows, e: Effect): (r: Rows) {
    if e.Write? then ApplyOps(rows, e.ops) else rows
  }

  /** The rows after a proposed command is applied; the applied index aside. */
  function Proposed(c: Codec, rows: Rows, cmd: Bytes): (r: Rows) {
    Effected(rows, Interpret(c, cmd))
  }

  /** A proposed pair arrives at its coerced key; without a key, not at all. */
  lemma ProposedData(c: Codec, rows: Rows, d: KVData)
    requires c.Lawful()
    ensures Proposed(c, rows, MarshalData(c, d)) ==
            if d.key == [] then rows else Apply(rows, OpOf(Fixed(c.coerce, d)))
  {
    DataApplied(c, d);
    var op := OpOf(Fixed(c.coerce, d));
    assert [op][..0] == [];
    assert ApplyOps(rows, [op]) == Apply(ApplyOps(rows, [op][..0]), op);
  }

  lemma ProposedBatch(c: Codec, rows: Rows, b: KVBatch)
    requires c.Lawful()
    ensures Proposed(c, rows, MarshalBatch(c, b)) == ApplyOps(rows, OpsOf(FixedAll(c.coerce, b.batch)))
  {
    BatchApplied(c, b);
  }

  /** What reads of the rows say after a proposed pair: its value at its key,
      None for a pair without a value, and at every other key what was there. */
  lemma PairRead(c: Codec, rows: Rows, d: KVData, k: Bytes)
    requires c.Lawful() && d.key != []
    ensures Get(Proposed(c, rows, MarshalData(c, d)), k) == if k == c.coerce(d.key) then d.val else Get(rows, k)
  {
    ProposedData(c, rows, d);
  }

  lemma ActionRead(c: Codec, rows: Rows, a: KVAction, k: Bytes)
    requires c.Lawful() && a.data.key != []
    ensures Get(Proposed(c, rows, MarshalAction(c, a)), k) ==
            if k == c.coerce(a.data.key) then a.data.val else Get(rows, k)
  {
    ActionApplied(c, a);
    var op := OpOf(Fixed(c.coerce, a.data));
    assert [op][..0] == [];
    assert ApplyOps(rows, [op]) == Apply(ApplyOps(rows, [op][..0]), op);
  }

  /** No pair of the list from position i on comes to stand at this key. */
  predicate Untouched(fix: Coercion, ds: seq<KVData>, i: nat, k: Bytes) {
    forall j :: i <= j < |ds| ==> fix(ds[j].key) != k
  }

  lemma {:induction false} PairsUntouched(fix: Coercion, rows: Rows, ds: seq<KVData>, k: Bytes)
    requires Untouched(fix, ds, 0, k)
    ensures Get(ApplyOps(rows, OpsOf(FixedAll(fix, ds))), k) == Get(rows, k)
  {
    if ds != [] {
      var n := |ds| - 1;
      var ops := OpsOf(FixedAll(fix, ds));
      assert ops[..n] == OpsOf(FixedAll(fix, ds[..n]));
      PairsUntouched(fix, rows, ds[..n], k);
    }
  }

  /** Of a list of pairs the last one at a key counts. */
  lemma {:induction false} LastPairCounts(fix: Coercion, rows: Rows, ds: seq<KVData>, i: nat)
    requires i < |ds| && Untouched(fix, ds, i + 1, fix(ds[i].key))
    ensures Get(ApplyOps(rows, OpsOf(FixedAll(fix, ds))), fix(ds[i].key)) == ds[i].val
    decreases |ds|
  {
    var n := |ds| - 1;
    var ops := OpsOf(FixedAll(fix, ds));
    assert ops[..n] == OpsOf(FixedAll(fix, ds[..n]));
    if i < n { LastPairCounts(fix, rows, ds[..n], i); }
  }

  /** What reads of the rows say after a proposed batch: the last word at each
      key counts, and other keys keep what was there. */
  lemma BatchRead(c: Codec, rows: Rows, b: KVBatch, i: nat, k: Bytes)
    requires c.Lawful()
    ensures var after := Proposed(c, rows, MarshalBatch(c, b));
            && (Untouched(c.coerce, b.batch, 0, k) ==> Get(after, k) == Get(rows, k))
            && (i < |b.batch| && Untouched(c.coerce, b.batch, i + 1, c.coerce(b.batch[i].key)) ==>
                  Get(after, c.coerce(b.batch[i].key)) == b.batch[i].val)
  {
    ProposedBatch(c, rows, b);
    if Untouched(c.coerce, b.batch, 0, k) { PairsUntouched(c.coerce, rows, b.batch, k); }
    if i < |b.batch| && Untouched(c.coerce, b.batch, i + 1, c.coerce(b.batch[i].key)) {
      LastPairCounts(c.coerce, rows, b.batch, i);
    }
  }

  /** How a client's pairs and batches get into the rows, given the codec. */
  datatype Channel = Channel(fix: Coercion, one: (Rows, KVData) -> Rows, all: (Rows, seq<KVData>) -> Rows)
  {
    ghost predicate Delivers() {
      && (forall rows, d :: one(rows, d) == if d.key == [] then rows else Apply(rows, OpOf(Fixed(fix, d))))
      && (forall rows, ds :: all(rows, ds) == ApplyOps(rows, OpsOf(FixedAll(fix, ds))))
    }
  }

  const PUT: Bytes := [80, 85, 84]

  function ChannelOf(c: Codec): (ch: Channel) {
    Channel(c.coerce,
      (rows, d) => Proposed(c, rows, MarshalData(c, d)),
      (rows, ds) => Proposed(c, rows, MarshalBatch(c, KVBatch(PUT, ds))))
  }

  /** Through encoding, log, and the three-stage decode every pair and every
      batch arrives as meant, but for coerced keys. */
  lemma ChannelDelivers(c: Codec)
    requires c.Lawful()
    ensures ChannelOf(c).Delivers() && IsCoercion(ChannelOf(c).fix)
  {
    forall rows, d
      ensures ChannelOf(c).one(rows, d) == if d.key == [] then rows else Apply(rows, OpOf(Fixed(c.coerce, d)))
    {
      ProposedData(c, rows, d);
    }
    forall rows, ds ensures ChannelOf(c).all(rows, ds) == ApplyOps(rows, OpsOf(FixedAll(c.coerce, ds))) {
      ProposedBatch(c, rows, KVBatch(PUT, ds));
    }
  }

  // -------------------------------------------------------------- Update

  function EntryOps(f: Meaning, e: Entry): (ops: seq<Op>) {
    var effect := f(e.cmd);
    if effect.Write? then effect.ops else []
  }

  function LogOps(f: Meaning, es: seq<Entry>): (ops: seq<Op>) {
    if es == [] then [] else LogOps(f, es[..|es| - 1]) + EntryOps(f, es[|es| - 1])
  }

  lemma {:induction false} LogOpsAppend(f: Meaning, a: seq<Entry>, b: seq<Entry>)
    ensures LogOps(f, a + b) == LogOps(f, a) + LogOps(f, b)
  {
    if b == [] {
      assert a + b == a;
    } else {
      var es, init := a + b, b[..|b| - 1];
      assert es[..|es| - 1] == a + init && es[|es| - 1] == b[|b| - 1];
      LogOpsAppend(f, a, init);
      Regroup(LogOps(f, a), LogOps(f, init), EntryOps(f, b[|b| - 1]));
    }
  }

  function LastIndex(es: seq<Entry>): (n: nat)
    requires es != []
  {
    es[|es| - 1].index
  }

  /** One Update batch: all effects, then the index of the last entry. */
  function Updated(f: Meaning, rows: Rows, es: seq<Entry>): (r: Rows)
    requires es != []
  {
    ApplyOps(rows, LogOps(f, es))[INDEX_KEY := LeBytes(LastIndex(es), 8)]
  }

  /** How the log is cut into batches does not matter, even when commands
      write or delete the reserved index key themselves. */
  lemma BatchingIndependent(f: Meaning, rows: Rows, es1: seq<Entry>, es2: seq<Entry>)
    requires es1 != [] && es2 != []
    ensures Updated(f, Updated(f, rows, es1), es2) == Updated(f, rows, es1 + es2)
  {
    var ops1, ops2 := LogOps(f, es1), LogOps(f, es2);
    LogOpsAppend(f, es1, es2);
    ApplyOpsAppend(rows, ops1, ops2);
    MaskedByPut(ApplyOps(rows, ops1), INDEX_KEY, LeBytes(LastIndex(es1), 8), LeBytes(LastIndex(es2), 8), ops2);
    assert LastIndex(es1 + es2) == LastIndex(es2);
  }

  /** An Update of one entry does what its command means and stores its index
      on top; with BatchingIndependent, so does every entry of every Update. */
  lemma UpdatedOne(f: Meaning, rows: Rows, i: nat, cmd: Bytes)
    ensures Updated(f, rows, [Entry(i, cmd)]) == Effected(rows, f(cmd))[INDEX_KEY := LeBytes(i, 8)]
  {
    var es := [Entry(i, cmd)];
    assert es[..0] == [];
    assert LogOps(f, es) == LogOps(f, es[..0]) + EntryOps(f, es[0]);
    assert [] + EntryOps(f, es[0]) == EntryOps(f, es[0]);
  }

  lemma UpdatedSnoc(f: Meaning, rows: Rows, es: seq<Entry>, e: Entry)
    ensures Updated(f, rows, es + [e]) ==
            Effected(if es == [] then rows else Updated(f, rows, es), f(e.cmd))[INDEX_KEY := LeBytes(e.index, 8)]
  {
    if es == [] {
      assert es + [e] == [e];
      UpdatedOne(f, rows, e.index, e.cmd);
    } else {
      BatchingIndependent(f, rows, es, [e]);
      UpdatedOne(f, Updated(f, rows, es), e.index, e.cmd);
    }
  }

  /** So an Update of one entry is its proposal, under its index. */
  lemma UpdatedIsProposed(c: Codec, rows: Rows, i: nat, cmd: Bytes)
    ensures Updated(MeaningOf(c), rows, [Entry(i, cmd)]) == Proposed(c, rows, cmd)[INDEX_KEY := LeBytes(i, 8)]
  {
    UpdatedOne(MeaningOf(c), rows, i, cmd);
  }

  /** After an Update that ends in an encoded pair, its key reads as its value. */
  lemma UpdatedPairRead(c: Codec, rows: Rows, es: seq<Entry>, i: nat, d: KVData)
    requires c.Lawful() && d.key != [] && c.coerce(d.key) != INDEX_KEY
    ensures Get(Updated(MeaningOf(c), rows, es + [Entry(i, MarshalData(c, d))]), c.coerce(d.key)) == d.val
  {
    var before := if es == [] then rows else Updated(MeaningOf(c), rows, es);
    UpdatedSnoc(MeaningOf(c), rows, es, Entry(i, MarshalData(c, d)));
    PairRead(c, before, d, c.coerce(d.key));
  }

  lemma IndexKeySpelled()
    ensures INDEX_KEY == Spell("disk_kv_applied_index")
  {
  }

  // -------------------------------------------------- the applied index

  /** queryAppliedIndex; None is the panic of reading eight bytes from fewer. */
  function QueryAppliedIndex(rows: Rows): (r: Option<nat>) {
    if INDEX_KEY !in rows || rows[INDEX_KEY] == [] then Some(0)
    else if |rows[INDEX_KEY]| < 8 then None
    else Some(LeValue(rows[INDEX_KEY][..8]))
  }

  lemma UpdatedIndex(f: Meaning, rows: Rows, es: seq<Entry>)
    requires es != [] && LastIndex(es) < WORD
    ensures QueryAppliedIndex(Updated(f, rows, es)) == Some(LastIndex(es))
  {
    var b := LeBytes(LastIndex(es), 8);
    assert b[..8] == b;
    Le64RoundTrip(LastIndex(es));
  }

  // ----------------------------------------------------------- log states

  /** Raft hands the state machine positive, strictly increasing indexes. */
  ghost predicate ValidLog(log: seq<Entry>) {
    && (forall i :: 0 <= i < |log| ==> 0 < log[i].index < WORD)
    && (forall i, j :: 0 <= i < j < |log| ==> log[i].index < log[j].index)
  }

  function IndexAt(log: seq<Entry>, n: nat): (r: nat)
    requires n <= |log|
  {
    if n == 0 then 0 else log[n - 1].index
  }

  /** The contents after the first n entries of the log. */
  function StateAt(f: Meaning, log: seq<Entry>, n: nat): (rows: Rows)
    requires n <= |log|
  {
    if n == 0 then map[] else Updated(f, map[], log[..n])
  }

  /** Each entry's command is applied to the state before it. */
  lemma StateSteps(f: Meaning, log: seq<Entry>, n: nat)
    requires n < |log|
    ensures StateAt(f, log, 0) == map[]
    ensures StateAt(f, log, n + 1) ==
            Effected(StateAt(f, log, n), f(log[n].cmd))[INDEX_KEY := LeBytes(log[n].index, 8)]
  {
    assert log[..n + 1] == log[..n] + [log[n]];
    UpdatedSnoc(f, map[], log[..n], log[n]);
  }

  /** The command neither writes nor deletes this key. */
  predicate Spares(e: Effect, k: Bytes) {
    e.Write? ==> forall i :: 0 <= i < |e.ops| ==> e.ops[i].key != k
  }

  /** So do all entries from m on, up to n. */
  predicate SparedIn(f: Meaning, log: seq<Entry>, m: nat, n: nat, k: Bytes)
    requires n <= |log|
  {
    m < n ==> SparedIn(f, log, m, n - 1, k) && Spares(f(log[n - 1].cmd), k)
  }

  lemma {:induction false} OpsSpare(rows: Rows, ops: seq<Op>, k: Bytes)
    requires forall i :: 0 <= i < |ops| ==> ops[i].key != k
    ensures Get(ApplyOps(rows, ops), k) == Get(rows, k)
  {
    if ops != [] { OpsSpare(rows, ops[..|ops| - 1], k); }
  }

  lemma EffectSpares(rows: Rows, e: Effect, k: Bytes)
    requires Spares(e, k)
    ensures Get(Effected(rows, e), k) == Get(rows, k)
  {
    if e.Write? { OpsSpare(rows, e.ops, k); }
  }

  lemma SparedStep(f: Meaning, log: seq<Entry>, n: nat, k: Bytes)
    requires n < |log| && k != INDEX_KEY && Spares(f(log[n].cmd), k)
    ensures Get(StateAt(f, log, n + 1), k) == Get(StateAt(f, log, n), k)
  {
    StateSteps(f, log, n);
    EffectSpares(StateAt(f, log, n), f(log[n].cmd), k);
  }

  lemma {:induction false} SparedSince(f: Meaning, log: seq<Entry>, m: nat, n: nat, k: Bytes)
    requires m <= n <= |log| && k != INDEX_KEY && SparedIn(f, log, m, n, k)
    ensures Get(StateAt(f, log, n), k) == Get(StateAt(f, log, m), k)
    decreases n
  {
    if n > m {
      SparedSince(f, log, m, n - 1, k);
      SparedStep(f, log, n - 1, k);
    }
  }

  lemma PairStep(c: Codec, f: Meaning, log: seq<Entry>, m: nat, d: KVData, k: Bytes)
    requires c.Lawful() && f == MeaningOf(c) && m < |log| && log[m].cmd == MarshalData(c, d)
    requires d.key != [] && k == c.coerce(d.key) && k != INDEX_KEY
    ensures Get(StateAt(f, log, m + 1), k) == d.val
  {
    var rows := StateAt(f, log, m);
    StateSteps(f, log, m);
    assert Effected(rows, f(log[m].cmd)) == Proposed(c, rows, MarshalData(c, d));
    PairRead(c, rows, d, k);
  }

  /** In the state after n entries a key reads as the value of the last pair at
      that key, and a key that no entry touched is not there. */
  lemma LastPairRead(c: Codec, f: Meaning, log: seq<Entry>, m: nat, n: nat, d: KVData, k: Bytes)
    requires c.Lawful() && f == MeaningOf(c) && m < n <= |log| && k != INDEX_KEY
    requires log[m].cmd == MarshalData(c, d) && d.key != [] && k == c.coerce(d.key)
    requires SparedIn(f, log, m + 1, n, k)
    ensures Get(StateAt(f, log, n), k) == d.val
  {
    PairStep(c, f, log, m, d, k);
    SparedSince(f, log, m + 1, n, k);
  }

  lemma NeverTouched(f: Meaning, log: seq<Entry>, n: nat, k: Bytes)
    requires n <= |log| && k != INDEX_KEY && SparedIn(f, log, 0, n, k)
    ensures k !in StateAt(f, log, n)
  {
    SparedSince(f, log, 0, n, k);
  }

  /** Applying the next entries to a log state gives the later log state. */
  lemma UpdateAdvances(f: Meaning, log: seq<Entry>, n: nat, m: nat)
    requires n < m <= |log|
    ensures Updated(f, StateAt(f, log, n), log[n..m]) == StateAt(f, log, m)
  {
    if n == 0 {
      assert log[0..m] == log[..m];
    } else {
      BatchingIndependent(f, map[], log[..n], log[n..m]);
      assert log[..n] + log[n..m] == log[..m];
    }
  }

  lemma IndexOfState(f: Meaning, log: seq<Entry>, n: nat)
    requires ValidLog(log) && n <= |log|
    ensures QueryAppliedIndex(StateAt(f, log, n)) == Some(IndexAt(log, n))
  {
    if n > 0 { UpdatedIndex(f, map[], log[..n]); }
  }

  /** A log state is determined by the index stored in it. */
  lemma EqualIndexEqualState(f: Meaning, log: seq<Entry>, n: nat, m: nat)
    requires ValidLog(log) && n <= |log| && m <= |log|
    requires QueryAppliedIndex(StateAt(f, log, n)) == QueryAppliedIndex(StateAt(f, log, m))
    ensures n == m && StateAt(f, log, n) == StateAt(f, log, m)
  {
    IndexOfState(f, log, n);
    IndexOfState(f, log, m);
  }

  // ------------------------------------------------------ keys are UTF-8

  ghost predicate StableRows(fix: Coercion, rows: Rows) {
    forall k :: k in rows ==> Stable(fix, k)
  }

  ghost predicate Utf8Rows(c: Codec, rows: Rows) {
    StableRows(c.coerce, rows)
  }

  lemma {:induction false} OpsStable(fix: Coercion, rows: Rows, ops: seq<Op>)
    requires StableRows(fix, rows) && forall i :: 0 <= i < |ops| ==> Stable(fix, ops[i].key)
    ensures StableRows(fix, ApplyOps(rows, ops))
  {
    if ops != [] { OpsStable(fix, rows, ops[..|ops| - 1]); }
  }

  lemma {:induction false} LogOpsUtf8(c: Codec, f: Meaning, es: seq<Entry>)
    requires forall cmd :: f(cmd).Write? ==> Utf8Ops(c, f(cmd).ops)
    ensures Utf8Ops(c, LogOps(f, es))
  {
    if es != [] { LogOpsUtf8(c, f, es[..|es| - 1]); }
  }

  lemma StateUtf8(c: Codec, log: seq<Entry>, n: nat)
    requires c.Lawful() && n <= |log|
    ensures Utf8Rows(c, StateAt(MeaningOf(c), log, n))
  {
    if n > 0 {
      MeaningUtf8(c);
      assert Ascii(INDEX_KEY);
      UpdatedUtf8(c, MeaningOf(c), log[..n]);
    }
  }

  lemma UpdatedUtf8(c: Codec, f: Meaning, es: seq<Entry>)
    requires es != [] && c.utf8(INDEX_KEY)
    requires forall cmd :: f(cmd).Write? ==> Utf8Ops(c, f(cmd).ops)
    ensures Utf8Rows(c, Updated(f, map[], es))
  {
    LogOpsUtf8(c, f, es);
    OpsStable(c.coerce, map[], LogOps(f, es));
  }
}
