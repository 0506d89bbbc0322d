/**
 Go strings and byte slices as sequences of bytes, with the three things the
 rest of the model needs from them: the byte order of the key-value store,
 splitting at a separator, and little-endian numbers.
 */
module ByteStrings {

  type byte = b: int | 0 <= b < 256
  type Bytes = seq<byte>

  datatype Option<+T> = None | Some(value: T)

  const COLON: byte := 58
  const SLASH: byte := 47

  /** An ASCII text as bytes. */
  function Spell(s: string): (b: Bytes)
    requires forall i :: 0 <= i < |s| ==> s[i] as int < 128
  {
    seq(|s|, i requires 0 <= i < |s| => s[i] as int)
  }

  lemma Regroup<T>(a: seq<T>, b: seq<T>, c: seq<T>)
    ensures (a + b) + c == a + (b + c)
  {
  }

  // ------------------------------------------------------------ byte order

  /** Strict lexicographic byte order, the order of a Pebble iterator. */
  predicate Less(a: Bytes, b: Bytes) {
    b != [] && (a == [] || a[0] < b[0] || (a[0] == b[0] && Less(a[1..], b[1..])))
  }

  predicate HasPrefix(s: Bytes, p: Bytes) {
    |p| <= |s| && s[..|p|] == p
  }

  /** Where two texts differ first, or one ends, decides. */
  ghost predicate LessAt(a: Bytes, b: Bytes, i: int) {
    0 <= i <= |a| && i < |b| && a[..i] == b[..i] && (i == |a| || a[i] < b[i])
  }

  lemma {:induction false} LessMeans(a: Bytes, b: Bytes)
    ensures Less(a, b) <==> exists i :: LessAt(a, b, i)
  {
    if a == [] && b != [] {
      assert LessAt(a, b, 0);
    } else if a != [] && b != [] && a[0] < b[0] {
      assert LessAt(a, b, 0);
    } else if a != [] && b != [] && a[0] == b[0] {
      LessMeans(a[1..], b[1..]);
      if i :| LessAt(a[1..], b[1..], i) { assert a[..i + 1] == [a[0]] + a[1..][..i] && LessAt(a, b, i + 1); }
      if i :| LessAt(a, b, i) {
        assert i > 0 && a[..i][0] == a[0];
        assert a[1..][..i - 1] == a[..i][1..] && b[1..][..i - 1] == b[..i][1..];
        assert LessAt(a[1..], b[1..], i - 1);
      }
    }
  }

  lemma {:induction false} LessIrreflexive(a: Bytes)
    ensures !Less(a, a)
  {
    if a != [] { LessIrreflexive(a[1..]); }
  }

  lemma {:induction false} LessTransitive(a: Bytes, b: Bytes, c: Bytes)
    requires Less(a, b) && Less(b, c)
    ensures Less(a, c)
  {
    if a != [] && a[0] == b[0] && b[0] == c[0] {
      LessTransitive(a[1..], b[1..], c[1..]);
    }
  }

  lemma {:induction false} LessTotal(a: Bytes, b: Bytes)
    ensures Less(a, b) || a == b || Less(b, a)
  {
    if a != [] && b != [] && a[0] == b[0] {
      LessTotal(a[1..], b[1..]);
      assert a == [a[0]] + a[1..] && b == [b[0]] + b[1..];
    }
  }

  lemma LessAsymmetric(a: Bytes, b: Bytes)
    requires Less(a, b)
    ensures !Less(b, a)
  {
    if Less(b, a) {
      LessTransitive(a, b, a);
      LessIrreflexive(a);
    }
  }

  /** A key with prefix q never sorts before q. */
  lemma {:induction false} PrefixNotBelow(k: Bytes, q: Bytes)
    requires HasPrefix(k, q)
    ensures !Less(k, q)
  {
    if q != [] {
      assert k[1..][..|q| - 1] == q[1..];
      PrefixNotBelow(k[1..], q[1..]);
    }
  }

  /** The keys with prefix q are convex: whatever lies between q and a key
      that has the prefix has the prefix too. */
  lemma {:induction false} PrefixConvex(a: Bytes, b: Bytes, q: Bytes)
    requires !Less(a, q) && Less(a, b) && HasPrefix(b, q)
    ensures HasPrefix(a, q)
  {
    if q != [] {
      assert b[0] == q[0] && b[1..][..|q| - 1] == q[1..];
      assert a[0] == q[0];
      PrefixConvex(a[1..], b[1..], q[1..]);
      assert a[..|q|] == [a[0]] + a[1..][..|q| - 1];
    }
  }

  /** A common prefix does not change the order. */
  lemma {:induction false} LessCommonPrefix(p: Bytes, a: Bytes, b: Bytes)
    ensures Less(p + a, p + b) == Less(a, b)
  {
    if p == [] {
      assert p + a == a && p + b == b;
    } else {
      assert (p + a)[1..] == p[1..] + a && (p + b)[1..] == p[1..] + b;
      LessCommonPrefix(p[1..], a, b);
    }
  }

  /** With equal-length heads the heads decide, unless they are equal. */
  lemma {:induction false} LessByHeads(a: Bytes, x: Bytes, b: Bytes, y: Bytes)
    requires |a| == |b| && a != b
    ensures Less(a + x, b + y) == Less(a, b)
  {
    if a[0] == b[0] {
      assert (a + x)[1..] == a[1..] + x && (b + y)[1..] == b[1..] + y;
      assert a == [a[0]] + a[1..] && b == [b[0]] + b[1..];
      LessByHeads(a[1..], x, b[1..], y);
    }
  }

  // ------------------------------------------------------ sorted key lists

  ghost predicate Increasing(ks: seq<Bytes>) {
    forall i, j :: 0 <= i < j < |ks| ==> Less(ks[i], ks[j])
  }

  predicate IsMin(s: set<Bytes>, m: Bytes) {
    m in s && forall k :: k in s ==> !Less(k, m)
  }

  lemma {:induction false} HasMin(s: set<Bytes>)
    requires s != {}
    ensures exists m :: IsMin(s, m)
    decreases |s|
  {
    var x :| x in s;
    LessIrreflexive(x);
    if s == {x} {
      assert IsMin(s, x);
    } else {
      HasMin(s - {x});
      var m :| IsMin(s - {x}, m);
      if Less(x, m) {
        forall k | k in s ensures !Less(k, x) {
          if k != x && Less(k, x) { LessTransitive(k, x, m); }
        }
        assert IsMin(s, x);
      } else {
        assert IsMin(s, m);
      }
    }
  }

  lemma MinUnique(s: set<Bytes>)
    ensures forall a, b :: IsMin(s, a) && IsMin(s, b) ==> a == b
  {
    forall a, b | IsMin(s, a) && IsMin(s, b) ensures a == b { LessTotal(a, b); }
  }

  function Min(s: set<Bytes>): (m: Bytes)
    requires s != {}
    ensures IsMin(s, m)
  {
    HasMin(s);
    MinUnique(s);
    var m :| m in s && IsMin(s, m);
    m
  }

  lemma MinBelowRest(s: set<Bytes>, m: Bytes)
    requires IsMin(s, m)
    ensures forall k :: k in s - {m} ==> Less(m, k)
  {
    forall k | k in s - {m} ensures Less(m, k) { LessTotal(m, k); }
  }

  /** The order in which an iterator visits a set of keys. */
  function SortedKeys(s: set<Bytes>): (ks: seq<Bytes>)
    ensures forall k :: k in ks <==> k in s
    ensures |ks| == |s|
    ensures Increasing(ks)
  {
    if s == {} then [] else
      var m := Min(s);
      MinBelowRest(s, m);
      [m] + SortedKeys(s - {m})
  }

  // -------------------------------------------------- fields and splitting

  /** One field of a separated text, followed by the rest of it. */
  function Field(a: Bytes, sep: byte, rest: Bytes): (b: Bytes) {
    a + [sep] + rest
  }

  function IndexOf(s: Bytes, sep: byte): (i: nat)
    ensures i <= |s| && sep !in s[..i]
    ensures i < |s| ==> s[i] == sep
  {
    if s == [] || s[0] == sep then 0 else
      var i := IndexOf(s[1..], sep);
      assert s[..i + 1] == [s[0]] + s[1..][..i];
      i + 1
  }

  /** strings.Split: at least one part, none of which holds the separator. */
  function Split(s: Bytes, sep: byte): (parts: seq<Bytes>)
    ensures |parts| >= 1
    ensures forall i :: 0 <= i < |parts| ==> sep !in parts[i]
    decreases |s|
  {
    var i := IndexOf(s, sep);
    if i == |s| then
      assert s[..i] == s;
      [s]
    else [s[..i]] + Split(s[i + 1..], sep)
  }

  lemma HeadLength(a: Bytes, x: Bytes, b: Bytes, y: Bytes, sep: byte)
    ensures sep !in b && |a| < |b| ==> Field(a, sep, x) != Field(b, sep, y)
  {
    if sep !in b && |a| < |b| {
      assert Field(a, sep, x)[|a|] == sep;
      assert Field(b, sep, y)[|a|] == b[|a|];
    }
  }

  /** A separator-free head can be read back in only one way. */
  lemma UniqueHead(a: Bytes, x: Bytes, b: Bytes, y: Bytes, sep: byte)
    requires sep !in a && sep !in b
    requires Field(a, sep, x) == Field(b, sep, y)
    ensures a == b && x == y
  {
    HeadLength(a, x, b, y, sep);
    HeadLength(b, y, a, x, sep);
    var f, g := Field(a, sep, x), Field(b, sep, y);
    assert a == f[..|a|] && b == g[..|b|];
    assert x == f[|a| + 1..] && y == g[|b| + 1..];
  }

  /** A separator-free text is no field followed by something. */
  lemma NoField(a: Bytes, b: Bytes, y: Bytes, sep: byte)
    requires sep !in a
    ensures a != Field(b, sep, y)
  {
    assert Field(b, sep, y)[|b|] == sep;
  }

  lemma {:induction false} IndexOfField(a: Bytes, rest: Bytes, sep: byte)
    requires sep !in a
    ensures IndexOf(Field(a, sep, rest), sep) == |a|
  {
    if a != [] {
      assert Field(a, sep, rest)[1..] == Field(a[1..], sep, rest);
      assert Field(a, sep, rest)[0] == a[0];
      IndexOfField(a[1..], rest, sep);
    }
  }

  lemma SplitField(a: Bytes, rest: Bytes, sep: byte)
    requires sep !in a
    ensures Split(Field(a, sep, rest), sep) == [a] + Split(rest, sep)
  {
    var s := Field(a, sep, rest);
    IndexOfField(a, rest, sep);
    assert s[..|a|] == a && s[|a| + 1..] == rest;
  }

  lemma SplitFirst(s: Bytes, sep: byte)
    requires IndexOf(s, sep) < |s|
    ensures var i := IndexOf(s, sep); Split(s, sep) == [s[..i]] + Split(s[i + 1..], sep)
  {
  }

  lemma SplitPlain(a: Bytes, sep: byte)
    requires sep !in a
    ensures Split(a, sep) == [a]
  {
  }

  lemma FieldAssociative(a: Bytes, b: Bytes, c: Bytes, sep: byte)
    ensures Field(Field(a, sep, b), sep, c) == Field(a, sep, Field(b, sep, c))
  {
  }

  lemma SplitAppendStep(head: Bytes, tail: Bytes, t: Bytes, sep: byte)
    requires sep !in head && Split(Field(tail, sep, t), sep) == Split(tail, sep) + Split(t, sep)
    ensures Split(Field(Field(head, sep, tail), sep, t), sep) == Split(Field(head, sep, tail), sep) + Split(t, sep)
  {
    FieldAssociative(head, tail, t, sep);
    SplitField(head, Field(tail, sep, t), sep);
    SplitField(head, tail, sep);
    Regroup([head], Split(tail, sep), Split(t, sep));
  }

  lemma CutAt(s: Bytes, i: nat, sep: byte)
    requires i < |s| && s[i] == sep
    ensures s == Field(s[..i], sep, s[i + 1..])
  {
  }

  /** Splitting distributes over a separator. */
  lemma {:induction false} SplitAppend(s: Bytes, t: Bytes, sep: byte)
    ensures Split(Field(s, sep, t), sep) == Split(s, sep) + Split(t, sep)
    decreases |s|
  {
    var i := IndexOf(s, sep);
    if i == |s| {
      assert s[..i] == s;
      SplitField(s, t, sep);
      SplitPlain(s, sep);
    } else {
      var head, tail := s[..i], s[i + 1..];
      CutAt(s, i, sep);
      SplitAppend(tail, t, sep);
      SplitAppendStep(head, tail, t, sep);
    }
  }

  // ------------------------------------------------------------ UTF-8 texts

  /** What encoding/json makes of a text: bytes that are no valid UTF-8 become
      replacement characters. */
  type Coercion = Bytes -> Bytes

  predicate Ascii(b: Bytes) {
    forall i :: 0 <= i < |b| ==> b[i] < 128
  }

  /** Valid UTF-8 is what stays as it is. */
  predicate Stable(fix: Coercion, b: Bytes) {
    fix(b) == b
  }

  /** The result is valid; an ASCII byte is never part of a longer sequence, so
      what stands on either side of one is coerced on its own, and none is made
      up. */
  ghost predicate IsCoercion(fix: Coercion) {
    && (forall b :: Stable(fix, fix(b)))
    && (forall a, x: byte, b {:trigger fix(Field(a, x, b))} :: x < 128 ==>
          fix(Field(a, x, b)) == Field(fix(a), x, fix(b)))
    && (forall b, x: byte :: x < 128 && x in fix(b) ==> x in b)
    && (forall b :: Ascii(b) ==> Stable(fix, b))
    && (forall b :: fix(b) == [] ==> b == [])
  }

  lemma FieldStable(fix: Coercion, a: Bytes, sep: byte, b: Bytes)
    requires IsCoercion(fix) && sep < 128 && Stable(fix, a) && Stable(fix, b)
    ensures Stable(fix, Field(a, sep, b))
  {
  }

  lemma StableParts(fix: Coercion, a: Bytes, b: Bytes, sep: byte)
    requires IsCoercion(fix) && sep < 128 && sep !in a && Stable(fix, Field(a, sep, b))
    ensures Stable(fix, a) && Stable(fix, b)
  {
    assert fix(Field(a, sep, b)) == Field(fix(a), sep, fix(b));
    UniqueHead(a, b, fix(a), fix(b), sep);
  }

  /** A two-byte ASCII prefix stays in place. */
  lemma PrefixStays(fix: Coercion, k: Bytes, p: Bytes)
    requires IsCoercion(fix) && |p| == 2 && Ascii(p) && HasPrefix(k, p)
    ensures HasPrefix(fix(k), p)
  {
    assert k == Field(p[..1], p[1], k[2..]);
    assert Ascii(p[..1]);
    assert fix(k) == Field(p[..1], p[1], fix(k[2..]));
  }

  // ------------------------------------------------- little-endian numbers

  function Pow256(w: nat): (r: nat)
    ensures r >= 1
  {
    if w == 0 then 1 else 256 * Pow256(w - 1)
  }

  /** binary.LittleEndian.PutUint64 at width 8; higher bytes are cut off. */
  function LeBytes(n: nat, w: nat): (b: Bytes)
    ensures |b| == w
    decreases w, n
  {
    if w == 0 then [] else [n % 256] + LeBytes(n / 256, w - 1)
  }

  function LeValue(b: Bytes): (n: nat) {
    if b == [] then 0 else b[0] + 256 * LeValue(b[1..])
  }

  const WORD: nat := 0x1_0000_0000_0000_0000

  lemma DivideBy(n: nat, m: nat, p: nat)
    requires m > 0 && p > 0
    ensures m * p > 0 && (n / m) / p == n / (m * p)
  {
    var x, w := n / m, n % m;
    var y, z := x / p, x % p;
    DivMod(n, m);
    DivMod(x, p);
    Distribute(m, p, y, z);
    Below(m, p, z, w);
    var mp, r := m * p, m * z + w;
    assert n == mp * y + r;
    Quotient(mp, y, r);
  }

  lemma DivMod(n: nat, m: nat)
    requires m > 0
    ensures n == m * (n / m) + n % m && n % m < m
  {
  }

  lemma Below(m: nat, p: nat, z: nat, w: nat)
    requires z < p && w < m
    ensures m * z + w < m * p
  {
    TimesGrows(m, z + 1, p);
  }

  lemma Distribute(m: nat, p: nat, y: nat, z: nat)
    ensures m * (p * y + z) == (m * p) * y + m * z
  {
  }

  lemma Quotient(p: nat, q: nat, r: nat)
    requires r < p
    ensures (p * q + r) / p == q
  {
    var x := (p * q + r) / p;
    assert p * q + r == p * x + (p * q + r) % p;
    if x > q { TimesGrows(p, q + 1, x); }
    if x < q { TimesGrows(p, x + 1, q); }
  }

  lemma TimesGrows(p: nat, x: nat, y: nat)
    requires x <= y
    ensures p * x <= p * y
  {
  }

  /** The least significant byte comes first. */
  lemma {:induction false} LeBytesAt(n: nat, w: nat, k: nat)
    requires k < w
    ensures LeBytes(n, w)[k] == (n / Pow256(k)) % 256
    decreases w
  {
    if k > 0 {
      LeBytesAt(n / 256, w - 1, k - 1);
      DivideBy(n, 256, Pow256(k - 1));
    }
  }

  lemma {:induction false} LeRoundTrip(n: nat, w: nat)
    requires n < Pow256(w)
    ensures LeValue(LeBytes(n, w)) == n
    decreases w
  {
    if w > 0 {
      LeRoundTrip(n / 256, w - 1);
      assert LeBytes(n, w)[1..] == LeBytes(n / 256, w - 1);
    }
  }

  lemma Le64RoundTrip(n: nat)
    requires n < WORD
    ensures LeValue(LeBytes(n, 8)) == n
  {
    assert Pow256(8) == WORD by {
      assert Pow256(1) == 256 && Pow256(2) == 0x1_0000;
      assert Pow256(4) == 0x1_0000_0000;
      assert Pow256(6) == 0x1_0000_0000_0000;
    }
    LeRoundTrip(n, 8);
  }

  lemma {:induction false} LeValueBound(b: Bytes)
    ensures LeValue(b) < Pow256(|b|)
  {
    if b != [] { LeValueBound(b[1..]); }
  }
}
