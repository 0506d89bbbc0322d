/**
 Reading a database through an ordered iterator: the prefix scan that seeks
 and stops at the first foreign key, and the bounded range scan.
 */
module Iteration {
  import opened ByteStrings
  import opened Store

  /** A Pebble iterator over stable contents: keys come in byte order. */
  class Iterator {
    const rows: Rows
    const keys: seq<Bytes>
    var pos: nat

    ghost predicate Valid()
      reads this
    {
      pos <= |keys| && Increasing(keys) && forall k :: k in keys <==> k in rows
    }

    constructor (rows: Rows)
      ensures Valid() && this.rows == rows && pos == 0
    {
      this.rows, keys, pos := rows, SortedKeys(rows.Keys), 0;
    }

    predicate HasRow()
      reads this
    {
      pos < |keys|
    }

    /** Moves to the first key that is not below q. */
    method SeekGE(q: Bytes)
      requires Valid()
      modifies this
      ensures Valid()
      ensures forall i :: 0 <= i < pos ==> Less(keys[i], q)
      ensures HasRow() ==> !Less(keys[pos], q)
    {
      pos := 0;
      while pos < |keys| && Less(keys[pos], q)
        invariant Valid()
        invariant forall i :: 0 <= i < pos ==> Less(keys[i], q)
      {
        pos := pos + 1;
      }
    }

    method Next()
      requires Valid() && HasRow()
      modifies this
      ensures Valid() && pos == old(pos) + 1
    {
      pos := pos + 1;
    }
  }

  function WithPrefix(rows: Rows, q: Bytes): (r: Rows) {
    map k | k in rows && HasPrefix(k, q) :: rows[k]
  }

  function InRange(rows: Rows, lower: Bytes, upper: Bytes): (r: Rows) {
    map k | k in rows && !Less(k, lower) && Less(k, upper) :: rows[k]
  }

  /** The part of the contents that positions from..to of a key list cover. */
  function Slice(rows: Rows, keys: seq<Bytes>, from: nat, to: nat): (r: Rows)
    requires from <= to <= |keys|
  {
    map k | k in rows && k in keys[from..to] :: rows[k]
  }

  lemma SliceEmpty(rows: Rows, keys: seq<Bytes>, at: nat)
    requires at <= |keys|
    ensures Slice(rows, keys, at, at) == map[]
  {
    assert keys[at..at] == [];
  }

  lemma SliceGrows(rows: Rows, keys: seq<Bytes>, from: nat, to: nat)
    requires from <= to < |keys| && keys[to] in rows
    ensures Slice(rows, keys, from, to + 1) == Slice(rows, keys, from, to)[keys[to] := rows[keys[to]]]
  {
    assert keys[from..to + 1] == keys[from..to] + [keys[to]];
  }

  /** From the seek position the prefixed keys are one run, and they end at the
      first key without the prefix. */
  lemma PrefixRun(rows: Rows, keys: seq<Bytes>, q: Bytes, from: nat, to: nat)
    requires Increasing(keys) && forall k :: k in keys <==> k in rows
    requires from <= to <= |keys|
    requires forall i :: 0 <= i < from ==> Less(keys[i], q)
    requires from < |keys| ==> !Less(keys[from], q)
    requires forall i :: from <= i < to ==> HasPrefix(keys[i], q)
    requires to < |keys| ==> !HasPrefix(keys[to], q)
    ensures Slice(rows, keys, from, to) == WithPrefix(rows, q)
    ensures forall i :: 0 <= i < |keys| ==> (q <= keys[i] <==> from <= i < to)
  {
    forall i | 0 <= i < |keys| && HasPrefix(keys[i], q) ensures from <= i < to {
      PrefixNotBelow(keys[i], q);
      if i > to {
        if from < to { LessOrEqualSteps(keys, q, from, to); }
        PrefixConvex(keys[to], keys[i], q);
        assert false;
      }
    }
    forall k | k in rows && HasPrefix(k, q) ensures k in keys[from..to] {
      var i :| 0 <= i < |keys| && keys[i] == k;
      assert keys[from..to][i - from] == k;
    }
  }

  lemma LessOrEqualSteps(keys: seq<Bytes>, q: Bytes, from: nat, to: nat)
    requires Increasing(keys) && from < to < |keys| && !Less(keys[from], q)
    ensures !Less(keys[to], q)
  {
    if Less(keys[to], q) { LessTransitive(keys[from], keys[to], q); }
  }

  /** pebbledb.scan: exactly the rows whose key has the given prefix. */
  method Scan(rows: Rows, query: Bytes) returns (items: Rows)
    ensures items == WithPrefix(rows, query)
  {
    var it := new Iterator(rows);
    items := map[];
    it.SeekGE(query);
    ghost var from := it.pos;
    SliceEmpty(rows, it.keys, from);
    while it.HasRow()
      invariant it.Valid() && it.rows == rows && from <= it.pos
      invariant forall i :: from <= i < it.pos ==> HasPrefix(it.keys[i], query)
      invariant items == Slice(rows, it.keys, from, it.pos)
      decreases |it.keys| - it.pos
    {
      var key := it.keys[it.pos];
      if !HasPrefix(key, query) {
        break;
      }
      SliceGrows(rows, it.keys, from, it.pos);
      items := items[key := it.rows[key]];
      it.Next();
    }
    PrefixRun(rows, it.keys, query, from, it.pos);
  }

  /** DiskKV.ReverseScan: the rows from a lower bound up to, but not
      including, an upper bound. */
  method ReverseScan(rows: Rows, upper: Bytes, lower: Bytes) returns (items: Rows)
    ensures items == InRange(rows, lower, upper)
  {
    var it := new Iterator(rows);
    items := map[];
    it.SeekGE(lower);
    ghost var from := it.pos;
    SliceEmpty(rows, it.keys, from);
    while it.HasRow()
      invariant it.Valid() && it.rows == rows && from <= it.pos
      invariant AllLess(it.keys[from..it.pos], upper)
      invariant items == Slice(rows, it.keys, from, it.pos)
      decreases |it.keys| - it.pos
    {
      var key := it.keys[it.pos];
      if !Less(key, upper) {
        break;
      }
      SliceGrows(rows, it.keys, from, it.pos);
      assert it.keys[from..it.pos + 1] == it.keys[from..it.pos] + [key];
      items := items[key := it.rows[key]];
      it.Next();
    }
    RangeRun(rows, it.keys, lower, upper, from, it.pos);
  }

  predicate AllLess(ks: seq<Bytes>, q: Bytes) {
    ks == [] || (AllLess(ks[..|ks| - 1], q) && Less(ks[|ks| - 1], q))
  }

  lemma {:induction false} AllLessAt(ks: seq<Bytes>, q: Bytes, i: nat)
    requires AllLess(ks, q) && i < |ks|
    ensures Less(ks[i], q)
  {
    if i < |ks| - 1 { AllLessAt(ks[..|ks| - 1], q, i); }
  }

  lemma RangeRun(rows: Rows, keys: seq<Bytes>, lower: Bytes, upper: Bytes, from: nat, to: nat)
    requires Increasing(keys) && forall k :: k in keys <==> k in rows
    requires from <= to <= |keys|
    requires forall i :: 0 <= i < from ==> Less(keys[i], lower)
    requires from < |keys| ==> !Less(keys[from], lower)
    requires AllLess(keys[from..to], upper)
    requires to < |keys| ==> !Less(keys[to], upper)
    ensures Slice(rows, keys, from, to) == InRange(rows, lower, upper)
    ensures forall i :: 0 <= i < |keys| ==> (!Less(keys[i], lower) && Less(keys[i], upper) <==> from <= i < to)
  {
    forall i | 0 <= i < |keys|
      ensures (from <= i < to) == (!Less(keys[i], lower) && Less(keys[i], upper))
    {
      if from < i { LessOrEqualSteps(keys, lower, from, i); }
      if from <= i < to { AllLessAt(keys[from..to], upper, i - from); }
      if to < i && Less(keys[i], upper) { LessTransitive(keys[to], keys[i], upper); }
    }
    forall k | k in rows
      ensures k in keys[from..to] <==> (!Less(k, lower) && Less(k, upper))
    {
      var i :| 0 <= i < |keys| && keys[i] == k;
      if !Less(k, lower) && Less(k, upper) { assert keys[from..to][i - from] == k; }
    }
  }
}
