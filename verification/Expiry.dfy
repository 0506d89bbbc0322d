/**
 Expiry rows of the authorization cache, and the sweep that removes what has
 expired. A sweep is a byte-range scan, so it is right only because
 zero-padded decimal numbers sort like the numbers they stand for.
 */
module Expiry {
  import opened ByteStrings
  import opened Commands
  import opened Store
  import Iteration

  const TTL: Bytes := [116, 116, 108, 58]     // ttl:

  function Pow10(w: nat): (n: nat)
    ensures n >= 1
  {
    if w == 0 then 1 else 10 * Pow10(w - 1)
  }

  const LIMIT: nat := 1_000_000_000_000_000

  /** The last w decimal digits of n. */
  function Digits(n: nat, w: nat): (b: Bytes)
    ensures |b| == w
    decreases w, n
  {
    if w == 0 then [] else Digits(n / 10, w - 1) + [48 + n % 10]
  }

  function Width(n: nat): (w: nat)
    ensures w >= 1
  {
    if n < 10 then 1 else 1 + Width(n / 10)
  }

  /** Each digit in its place, the most significant first. */
  lemma {:induction false} DigitAt(n: nat, w: nat, k: nat)
    requires k < w
    ensures Digits(n, w)[k] == 48 + (n / Pow10(w - 1 - k)) % 10
    decreases w
  {
    if k < w - 1 {
      DigitAt(n / 10, w - 1, k);
      DivideBy(n, 10, Pow10(w - 2 - k));
    }
  }

  /** fmt %015d of a non-negative number. */
  function Padded(n: nat): (b: Bytes) {
    Digits(n, if Width(n) > 15 then Width(n) else 15)
  }

  lemma {:induction false} WidthBound(n: nat, w: nat)
    requires w > 0 && n < Pow10(w)
    ensures Width(n) <= w
    decreases w
  {
    if n >= 10 {
      assert w > 1 by { assert Pow10(1) == 10; }
      WidthBound(n / 10, w - 1);
    }
  }

  lemma LimitIsPow()
    ensures Pow10(15) == LIMIT
  {
    assert Pow10(5) == 100_000;
    assert Pow10(10) == 10_000_000_000;
  }

  lemma PaddedIs15(n: nat)
    requires n < LIMIT
    ensures Padded(n) == Digits(n, 15)
  {
    LimitIsPow();
    WidthBound(n, 15);
  }

  /** Appending a digit: the heads decide unless they are equal. */
  lemma LessSnoc(a: Bytes, x: byte, b: Bytes, y: byte)
    requires |a| == |b|
    ensures Less(a + [x], b + [y]) == (if a == b then x < y else Less(a, b))
  {
    if a == b {
      LessCommonPrefix(a, [x], [y]);
    } else {
      LessByHeads(a, [x], b, [y]);
    }
  }

  lemma {:induction false} DigitsInjective(m: nat, n: nat, w: nat)
    requires m < Pow10(w) && n < Pow10(w) && Digits(m, w) == Digits(n, w)
    ensures m == n
    decreases w
  {
    if w > 0 {
      var a, b := Digits(m / 10, w - 1), Digits(n / 10, w - 1);
      assert (a + [48 + m % 10])[..w - 1] == a && (b + [48 + n % 10])[..w - 1] == b;
      assert (a + [48 + m % 10])[w - 1] == (b + [48 + n % 10])[w - 1];
      DigitsInjective(m / 10, n / 10, w - 1);
    }
  }

  /** Byte order on equally wide decimals is numeric order. */
  lemma {:induction false} DecimalOrder(m: nat, n: nat, w: nat)
    requires m < Pow10(w) && n < Pow10(w)
    ensures Less(Digits(m, w), Digits(n, w)) <==> m < n
    decreases w
  {
    if w > 0 {
      var a, b := Digits(m / 10, w - 1), Digits(n / 10, w - 1);
      LessSnoc(a, 48 + m % 10, b, 48 + n % 10);
      DecimalOrder(m / 10, n / 10, w - 1);
      if a == b { DigitsInjective(m / 10, n / 10, w - 1); }
    }
  }

  // ------------------------------------------------------------ ttl rows

  function TtlKey(t: nat, suffix: Bytes): (b: Bytes) {
    TTL + (Padded(t) + ([COLON] + suffix))
  }

  function SweepBound(now: nat): (b: Bytes) {
    TTL + Padded(now)
  }

  /** The rows a sweep at time `now` picks up. */
  function Expired(rows: Rows, now: nat): (r: Rows) {
    Iteration.InRange(rows, TTL, SweepBound(now))
  }

  /** A ttl row sorts below the bound exactly when its time is earlier. */
  lemma TtlBelowBound(t: nat, suffix: Bytes, now: nat)
    requires t < LIMIT && now < LIMIT
    ensures Less(TtlKey(t, suffix), SweepBound(now)) <==> t < now
  {
    LimitIsPow();
    PaddedIs15(t);
    PaddedIs15(now);
    var x, y, tail: Bytes := Digits(t, 15), Digits(now, 15), [COLON] + suffix;
    LessCommonPrefix(TTL, x + tail, y);
    DecimalOrder(t, now, 15);
    assert y + [] == y;
    if x == y {
      DigitsInjective(t, now, 15);
      LessCommonPrefix(y, tail, []);
    } else {
      LessByHeads(x, tail, y, []);
    }
  }

  ghost predicate IsTtl(k: Bytes, t: nat, suffix: Bytes) {
    t < LIMIT && Ascii(suffix) && k == TtlKey(t, suffix)
  }

  /** Keys of the ttl family are all expiry rows of the expected shape. */
  ghost predicate TtlShaped(rows: Rows) {
    forall k :: k in rows && HasPrefix(k, TTL) ==> exists t: nat, suffix :: IsTtl(k, t, suffix)
  }

  /** k is an expiry row whose time lies before now. */
  ghost predicate ExpiresBefore(k: Bytes, now: nat) {
    exists t: nat, suffix :: IsTtl(k, t, suffix) && t < now
  }

  /** A sweep picks up exactly the expiry rows whose time lies before now;
      a row that expires right now stays. */
  lemma SweepExact(rows: Rows, now: nat, k: Bytes)
    requires TtlShaped(rows) && now < LIMIT
    ensures k in Expired(rows, now) <==> k in rows && ExpiresBefore(k, now)
  {
    if k in Expired(rows, now) {
      assert HasPrefix(SweepBound(now), TTL);
      PrefixConvex(k, SweepBound(now), TTL);
      var t: nat, suffix :| IsTtl(k, t, suffix);
      TtlBelowBound(t, suffix, now);
    }
    if k in rows && ExpiresBefore(k, now) {
      var t: nat, suffix :| IsTtl(k, t, suffix) && t < now;
      TtlBelowBound(t, suffix, now);
      assert HasPrefix(k, TTL);
      PrefixNotBelow(k, TTL);
    }
  }

  lemma {:induction false} DigitsAscii(n: nat, w: nat)
    ensures Ascii(Digits(n, w))
    decreases w
  {
    if w > 0 { DigitsAscii(n / 10, w - 1); }
  }

  /** Expiry keys need no coercion. */
  lemma TtlStable(fix: Coercion, k: Bytes, t: nat, suffix: Bytes)
    requires IsCoercion(fix) && IsTtl(k, t, suffix)
    ensures Stable(fix, k)
  {
    PaddedIs15(t);
    DigitsAscii(t, 15);
    assert Ascii(k);
  }

  // --------------------------------------------------------------- prune

  /** What goes when a delete of this key is proposed. */
  function Dropped(fix: Coercion, key: Bytes): (ks: set<Bytes>) {
    if key == [] then {} else {fix(key)}
  }

  /** What one swept row makes go: itself and the row it names. */
  function Gone(fix: Coercion, k: Bytes, named: Bytes): (ks: set<Bytes>) {
    Dropped(fix, k) + Dropped(fix, named)
  }

  function AllGone(fix: Coercion, items: Rows): (ks: set<Bytes>) {
    set k, x | k in items && x in Gone(fix, k, items[k]) :: x
  }

  function Pruned(fix: Coercion, rows: Rows, now: nat): (r: Rows) {
    rows - AllGone(fix, Expired(rows, now))
  }

  /** The order in which Go happens to range over a map. */
  ghost predicate Lists(order: seq<Bytes>, keys: set<Bytes>) {
    && (forall k :: k in order <==> k in keys)
    && (forall i, j :: 0 <= i < j < |order| ==> order[i] != order[j])
  }

  /** The rows after the items along this order are swept. */
  function SweptAlong(fix: Coercion, rows: Rows, items: Rows, order: seq<Bytes>): (r: Rows)
    requires forall k :: k in order ==> k in items
    decreases |order|
  {
    if order == [] then rows
    else
      var init, last := order[..|order| - 1], order[|order| - 1];
      SweptAlong(fix, rows, items, init) - Dropped(fix, last) - Dropped(fix, items[last])
  }

  /** A sweep of which only so many writes get through: two for each item, the
      expiry row first. */
  function SweptFor(fix: Coercion, rows: Rows, items: Rows, order: seq<Bytes>, through: nat): (r: Rows)
    requires forall k :: k in order ==> k in items
  {
    var m := through / 2;
    if m >= |order| then SweptAlong(fix, rows, items, order)
    else
      var swept := SweptAlong(fix, rows, items, order[..m]);
      if through % 2 == 0 then swept else swept - Dropped(fix, order[m])
  }

  lemma SweptSnoc(fix: Coercion, rows: Rows, items: Rows, order: seq<Bytes>, m: nat)
    requires m < |order| && forall k :: k in order ==> k in items
    ensures SweptAlong(fix, rows, items, order[..m + 1]) ==
            SweptAlong(fix, rows, items, order[..m]) - Dropped(fix, order[m]) - Dropped(fix, items[order[m]])
  {
    assert order[..m + 1][..m] == order[..m];
  }

  function Only(items: Rows, done: seq<Bytes>): (rows: Rows) {
    map k | k in items && k in done :: items[k]
  }

  lemma GoneGrows(fix: Coercion, done: Rows, i: Bytes, named: Bytes)
    requires i !in done
    ensures AllGone(fix, done[i := named]) == AllGone(fix, done) + Gone(fix, i, named)
  {
    var more := done[i := named];
    forall x ensures x in AllGone(fix, more) <==> x in AllGone(fix, done) || x in Gone(fix, i, named) {
      if x in AllGone(fix, done) {
        var k :| k in done && x in Gone(fix, k, done[k]);
        assert k in more && x in Gone(fix, k, more[k]);
      }
      if x in Gone(fix, i, named) { assert i in more && x in Gone(fix, i, more[i]); }
    }
  }

  lemma GoneSnoc(fix: Coercion, items: Rows, order: seq<Bytes>)
    requires order != [] && order[|order| - 1] in items && order[|order| - 1] !in order[..|order| - 1]
    ensures var init, last := order[..|order| - 1], order[|order| - 1];
            AllGone(fix, Only(items, order)) == AllGone(fix, Only(items, init)) + Gone(fix, last, items[last])
  {
    var init, last := order[..|order| - 1], order[|order| - 1];
    assert forall k :: k in order <==> k == last || k in init;
    assert Only(items, order) == Only(items, init)[last := items[last]];
    GoneGrows(fix, Only(items, init), last, items[last]);
  }

  lemma MinusTwice(rows: Rows, a: set<Bytes>, b: set<Bytes>, c: set<Bytes>)
    ensures rows - a - b - c == rows - (a + (b + c))
  {
  }

  /** What a sweep removes does not depend on the order. */
  lemma {:induction false} SweptIs(fix: Coercion, rows: Rows, items: Rows, order: seq<Bytes>)
    requires (forall k :: k in order ==> k in items) && forall i, j :: 0 <= i < j < |order| ==> order[i] != order[j]
    ensures SweptAlong(fix, rows, items, order) == rows - AllGone(fix, Only(items, order))
    decreases |order|
  {
    if order == [] {
      assert Only(items, order) == map[];
    } else {
      var init, last := order[..|order| - 1], order[|order| - 1];
      SweptIs(fix, rows, items, init);
      GoneSnoc(fix, items, order);
      MinusTwice(rows, AllGone(fix, Only(items, init)), Dropped(fix, last), Dropped(fix, items[last]));
    }
  }

  /** With all writes through, the swept rows and all they name are gone. */
  lemma SweptAll(fix: Coercion, rows: Rows, items: Rows, order: seq<Bytes>)
    requires Lists(order, items.Keys)
    ensures SweptAlong(fix, rows, items, order) == rows - AllGone(fix, items)
  {
    SweptIs(fix, rows, items, order);
    assert Only(items, order) == items;
  }

  /** A sweep adds and changes nothing, and spares what no item is or names. */
  ghost predicate Within(rows: Rows, gone: set<Bytes>, rows': Rows) {
    && (forall k :: k in rows' ==> k in rows && rows'[k] == rows[k])
    && (forall k :: k in rows && k !in gone ==> k in rows')
  }

  lemma {:induction false} SweptWithin(fix: Coercion, rows: Rows, items: Rows, order: seq<Bytes>)
    requires forall k :: k in order ==> k in items
    ensures Within(rows, AllGone(fix, items), SweptAlong(fix, rows, items, order))
    decreases |order|
  {
    if order != [] {
      var last := order[|order| - 1];
      SweptWithin(fix, rows, items, order[..|order| - 1]);
      assert forall x :: x in Gone(fix, last, items[last]) ==> x in AllGone(fix, items);
    }
  }

  lemma SweptForWithin(fix: Coercion, rows: Rows, items: Rows, order: seq<Bytes>, through: nat)
    requires forall k :: k in order ==> k in items
    ensures Within(rows, AllGone(fix, items), SweptFor(fix, rows, items, order, through))
  {
    var m := through / 2;
    if m >= |order| {
      SweptWithin(fix, rows, items, order);
    } else {
      SweptWithin(fix, rows, items, order[..m]);
      var i := order[m];
      assert forall x :: x in Gone(fix, i, items[i]) ==> x in AllGone(fix, items);
    }
  }

  /** The j-th item of the order makes x go: it is x, or names it. */
  predicate Takes(fix: Coercion, items: Rows, order: seq<Bytes>, j: int, x: Bytes)
    requires forall k :: k in order ==> k in items
  {
    0 <= j < |order|
    && ((order[j] != [] && fix(order[j]) == x) || (items[order[j]] != [] && fix(items[order[j]]) == x))
  }

  lemma {:induction false} SweptAlongExact(fix: Coercion, rows: Rows, items: Rows, order: seq<Bytes>, x: Bytes)
    requires forall k :: k in order ==> k in items
    ensures Get(SweptAlong(fix, rows, items, order), x) ==
            if exists j :: Takes(fix, items, order, j, x) then None else Get(rows, x)
    decreases |order|
  {
    if order != [] {
      var n := |order| - 1;
      var init := order[..n];
      SweptAlongExact(fix, rows, items, init, x);
      if j :| Takes(fix, items, init, j, x) { assert Takes(fix, items, order, j, x); }
      if j :| Takes(fix, items, order, j, x) { assert j < n ==> Takes(fix, items, init, j, x); }
      if Takes(fix, items, order, n, x) { assert x in Gone(fix, order[n], items[order[n]]); }
    }
  }

  /** The writes of a sweep, numbered from 0: item j's own delete is write 2 * j,
      that of the row it names 2 * j + 1. x goes with one of the first `through`. */
  predicate TakenBy(fix: Coercion, items: Rows, order: seq<Bytes>, through: nat, j: int, x: Bytes)
    requires forall k :: k in order ==> k in items
  {
    0 <= j < |order|
    && ((2 * j < through && order[j] != [] && fix(order[j]) == x)
        || (2 * j + 1 < through && items[order[j]] != [] && fix(items[order[j]]) == x))
  }

  /** A sweep that stops early has removed exactly what the writes before
      removed. */
  lemma StoppedExactly(fix: Coercion, rows: Rows, items: Rows, order: seq<Bytes>, through: nat, x: Bytes)
    requires forall k :: k in order ==> k in items
    ensures Get(SweptFor(fix, rows, items, order, through), x) ==
            if exists j :: TakenBy(fix, items, order, through, j, x) then None else Get(rows, x)
  {
    var m := if through / 2 < |order| then through / 2 else |order|;
    SweptAlongExact(fix, rows, items, order[..m], x);
    assert order[..|order|] == order;
    if j :| Takes(fix, items, order[..m], j, x) { assert TakenBy(fix, items, order, through, j, x); }
    if j :| TakenBy(fix, items, order, through, j, x) {
      assert j < m ==> Takes(fix, items, order[..m], j, x);
    }
    if m < |order| && through % 2 == 1 && x in Dropped(fix, order[m]) {
      assert TakenBy(fix, items, order, through, m, x);
    }
  }

  /** Proposes a delete: a pair without a value. */
  method Drop(ch: Channel, rows: Rows, key: Bytes) returns (rows': Rows)
    requires ch.Delivers()
    ensures rows' == rows - Dropped(ch.fix, key)
  {
    rows' := ch.one(rows, KVData(key, None));
  }

  /** prune's loop. It returns at the first write that fails, when `through`
      writes got through before. */
  method Sweep(ch: Channel, rows: Rows, items: Rows, order: seq<Bytes>, through: nat) returns (rows': Rows, ok: bool)
    requires ch.Delivers() && forall k :: k in order ==> k in items
    ensures rows' == SweptFor(ch.fix, rows, items, order, through)
    ensures ok <==> 2 * |order| <= through
  {
    rows', ok := rows, true;
    assert order[..0] == [];
    for m := 0 to |order|
      invariant ok && 2 * m <= through
      invariant rows' == SweptAlong(ch.fix, rows, items, order[..m])
    {
      var i := order[m];
      SweptSnoc(ch.fix, rows, items, order, m);
      if through == 2 * m {
        return rows', false;
      }
      rows' := Drop(ch, rows', i);
      if through == 2 * m + 1 {
        return rows', false;
      }
      rows' := Drop(ch, rows', items[i]);
    }
    assert order[..|order|] == order;
  }

  /** What prune leaves, if the map is ranged over in this order and so many
      writes get through. */
  function PrunedFor(fix: Coercion, rows: Rows, now: nat, order: seq<Bytes>, through: nat): (r: Rows)
    requires Lists(order, Expired(rows, now).Keys)
  {
    SweptFor(fix, rows, Expired(rows, now), order, through)
  }

  /** prune: sweep up what has expired by now. */
  method Prune(ch: Channel, rows: Rows, now: nat, order: seq<Bytes>, through: nat) returns (rows': Rows, ok: bool)
    requires ch.Delivers() && Lists(order, Expired(rows, now).Keys)
    ensures rows' == PrunedFor(ch.fix, rows, now, order, through)
    ensures ok ==> rows' == Pruned(ch.fix, rows, now)
    ensures ok <==> 2 * |order| <= through
  {
    var items := Iteration.ReverseScan(rows, SweepBound(now), TTL);
    rows', ok := Sweep(ch, rows, items, order, through);
    SweptAll(ch.fix, rows, items, order);
  }

  /** Some expired expiry row names k. */
  ghost predicate NamedByExpired(fix: Coercion, rows: Rows, now: nat, k: Bytes) {
    exists r :: r in rows && ExpiresBefore(r, now) && rows[r] != [] && fix(rows[r]) == k
  }

  lemma ExpiredStable(fix: Coercion, rows: Rows, now: nat, k: Bytes)
    requires IsCoercion(fix) && TtlShaped(rows) && now < LIMIT && k in Expired(rows, now)
    ensures Stable(fix, k) && k != []
  {
    SweepExact(rows, now, k);
    var t: nat, suffix :| IsTtl(k, t, suffix) && t < now;
    TtlStable(fix, k, t, suffix);
  }

  /** prune removes exactly the expiry rows before now and the rows they name,
      at their coerced keys; every other row keeps its value. */
  lemma PruneExact(fix: Coercion, rows: Rows, now: nat, k: Bytes)
    requires IsCoercion(fix) && TtlShaped(rows) && now < LIMIT
    ensures Get(Pruned(fix, rows, now), k) ==
            if ExpiresBefore(k, now) || NamedByExpired(fix, rows, now, k) then None else Get(rows, k)
  {
    var items := Expired(rows, now);
    SweepExact(rows, now, k);
    if k in AllGone(fix, items) {
      var r :| r in items && k in Gone(fix, r, items[r]);
      SweepExact(rows, now, r);
      ExpiredStable(fix, rows, now, r);
    }
    if NamedByExpired(fix, rows, now, k) {
      var r :| r in rows && ExpiresBefore(r, now) && rows[r] != [] && fix(rows[r]) == k;
      SweepExact(rows, now, r);
      assert r in items && k in Gone(fix, r, items[r]);
    }
    if k in items {
      ExpiredStable(fix, rows, now, k);
      assert k in Gone(fix, k, items[k]);
    }
  }
}
