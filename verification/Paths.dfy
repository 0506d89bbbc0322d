/**
 The resource paths that authorize tries, and what follows for resources
 below an authorized one.
 */
module Paths {
  import opened ByteStrings

  /** path, path/part1, path/part1/part2, ... without the first. */
  function Extend(path: Bytes, parts: seq<Bytes>): (bs: seq<Bytes>)
    decreases |parts|
  {
    if parts == [] then []
    else
      var next := Field(path, SLASH, parts[0]);
      [next] + Extend(next, parts[1..])
  }

  /** The paths authorize looks at, in order; the first part is never added. */
  function TriedPaths(subpaths: bool, resource: Bytes): (paths: seq<Bytes>)
    ensures |paths| >= 1
  {
    if subpaths then [[]] + Extend([], Split(resource, SLASH)[1..]) else [resource]
  }

  // ------------------------------------------------------------- inheritance

  lemma {:induction false} ExtendAppend(path: Bytes, a: seq<Bytes>, b: seq<Bytes>)
    ensures forall p :: p in Extend(path, a) ==> p in Extend(path, a + b)
    decreases |a|
  {
    if a != [] {
      assert (a + b)[1..] == a[1..] + b;
      ExtendAppend(Field(path, SLASH, a[0]), a[1..], b);
    }
  }

  /** With sub-paths every path tried for a resource is also tried for
      whatever lies below it. */
  lemma TriedBelow(resource: Bytes, below: Bytes)
    ensures forall p :: p in TriedPaths(true, resource) ==> p in TriedPaths(true, Field(resource, SLASH, below))
  {
    SplitAppend(resource, below, SLASH);
    var a, b := Split(resource, SLASH), Split(below, SLASH);
    assert (a + b)[1..] == a[1..] + b;
    ExtendAppend([], a[1..], b);
  }

  // ------------------------------------------------- which paths are tried

  /** i is a place where a path may end: a slash follows, or nothing. */
  predicate Boundary(s: Bytes, i: int) {
    0 <= i <= |s| && (i == |s| || s[i] == SLASH)
  }

  function Cut(path: Bytes, s: Bytes, i: int): (b: Bytes)
    requires 0 <= i <= |s|
  {
    Field(path, SLASH, s[..i])
  }

  /** q is path, a slash, and s up to one of its boundaries. */
  ghost predicate EndsAtBoundary(path: Bytes, s: Bytes, q: Bytes) {
    exists i :: Boundary(s, i) && q == Cut(path, s, i)
  }

  lemma BeforeFirst(s: Bytes)
    ensures forall i :: 0 <= i < IndexOf(s, SLASH) ==> s[i] != SLASH
  {
    var head := s[..IndexOf(s, SLASH)];
    forall i | 0 <= i < |head| ensures s[i] != SLASH { assert head[i] == s[i]; }
  }

  lemma ShiftCut(path: Bytes, s: Bytes, f: nat, i: nat)
    requires f < |s| && s[f] == SLASH && i <= |s| - f - 1
    ensures Cut(path, s, f + 1 + i) == Cut(Cut(path, s, f), s[f + 1..], i)
  {
    FieldAssociative(path, s[..f], s[f + 1..][..i], SLASH);
    assert s[..f + 1 + i] == Field(s[..f], SLASH, s[f + 1..][..i]);
  }

  lemma ShiftBoundary(s: Bytes, f: nat, i: nat)
    requires f < |s| && i <= |s| - f - 1
    ensures Boundary(s, f + 1 + i) == Boundary(s[f + 1..], i)
  {
  }

  lemma NoneBeforeFirst(s: Bytes, i: int)
    requires Boundary(s, i)
    ensures i >= IndexOf(s, SLASH)
  {
    BeforeFirst(s);
  }

  lemma BoundaryBehind(path: Bytes, s: Bytes, f: nat, q: Bytes)
    requires f == IndexOf(s, SLASH) && f < |s|
    requires EndsAtBoundary(path, s, q) && q != Cut(path, s, f)
    ensures EndsAtBoundary(Cut(path, s, f), s[f + 1..], q)
  {
    var i :| Boundary(s, i) && q == Cut(path, s, i);
    NoneBeforeFirst(s, i);
    var j := i - f - 1;
    ShiftCut(path, s, f, j);
    ShiftBoundary(s, f, j);
    assert Boundary(s[f + 1..], j);
  }

  lemma BoundaryBefore(path: Bytes, s: Bytes, f: nat, q: Bytes)
    requires f == IndexOf(s, SLASH) && f < |s|
    requires EndsAtBoundary(Cut(path, s, f), s[f + 1..], q)
    ensures EndsAtBoundary(path, s, q)
  {
    var j :| Boundary(s[f + 1..], j) && q == Cut(Cut(path, s, f), s[f + 1..], j);
    ShiftCut(path, s, f, j);
    ShiftBoundary(s, f, j);
    assert Boundary(s, f + 1 + j);
  }

  lemma OnlyEnd(path: Bytes, s: Bytes, q: Bytes)
    requires IndexOf(s, SLASH) == |s|
    ensures EndsAtBoundary(path, s, q) <==> q == Cut(path, s, |s|)
  {
    assert Boundary(s, |s|);
    if EndsAtBoundary(path, s, q) {
      var i :| Boundary(s, i) && q == Cut(path, s, i);
      NoneBeforeFirst(s, i);
    }
  }

  lemma ExtendCons(path: Bytes, head: Bytes, parts: seq<Bytes>, q: Bytes)
    ensures q in Extend(path, [head] + parts) <==>
            q == Field(path, SLASH, head) || q in Extend(Field(path, SLASH, head), parts)
  {
    assert ([head] + parts)[1..] == parts;
  }

  lemma ExtendStep(path: Bytes, s: Bytes, f: nat, parts: seq<Bytes>, q: Bytes)
    requires f == IndexOf(s, SLASH) && f < |s|
    requires q in Extend(Cut(path, s, f), parts) <==> EndsAtBoundary(Cut(path, s, f), s[f + 1..], q)
    ensures q in Extend(path, [s[..f]] + parts) <==> EndsAtBoundary(path, s, q)
  {
    ExtendCons(path, s[..f], parts, q);
    assert Boundary(s, f);
    var next := Cut(path, s, f);
    if EndsAtBoundary(next, s[f + 1..], q) { BoundaryBefore(path, s, f, q); }
    if EndsAtBoundary(path, s, q) && q != next { BoundaryBehind(path, s, f, q); }
  }

  lemma {:induction false} ExtendSplit(path: Bytes, s: Bytes, q: Bytes)
    ensures q in Extend(path, Split(s, SLASH)) <==> EndsAtBoundary(path, s, q)
    decreases |s|
  {
    var f := IndexOf(s, SLASH);
    if f == |s| {
      assert s[..f] == s;
      SplitPlain(s, SLASH);
      assert [s] == [s] + [];
      OnlyEnd(path, s, q);
      ExtendCons(path, s, [], q);
    } else {
      SplitFirst(s, SLASH);
      ExtendSplit(Cut(path, s, f), s[f + 1..], q);
      ExtendStep(path, s, f, Split(s[f + 1..], SLASH), q);
    }
  }

  ghost predicate CutAtBoundary(s: Bytes, q: Bytes) {
    exists i :: Boundary(s, i) && q == s[..i]
  }

  lemma BelowSlash(rest: Bytes, q: Bytes)
    ensures EndsAtBoundary([], rest, q) ==> CutAtBoundary([SLASH] + rest, q)
    ensures CutAtBoundary([SLASH] + rest, q) ==> q == [] || EndsAtBoundary([], rest, q)
  {
    var s := [SLASH] + rest;
    if EndsAtBoundary([], rest, q) {
      var i :| Boundary(rest, i) && q == Cut([], rest, i);
      assert Boundary(s, i + 1) && q == s[..i + 1];
    }
    if CutAtBoundary(s, q) {
      var i :| Boundary(s, i) && q == s[..i];
      if i > 0 {
        assert Boundary(rest, i - 1) && q == Cut([], rest, i - 1);
      }
    }
  }

  /** The tried paths are exactly the prefixes, ending at a slash boundary, of
      the resource from its first slash on; for a resource that begins with a
      slash these are "", every ancestor, and the resource itself. What comes
      before the first slash plays no part. */
  lemma TriedExactly(resource: Bytes, q: Bytes)
    ensures q in TriedPaths(true, resource) <==> CutAtBoundary(resource[IndexOf(resource, SLASH)..], q)
  {
    var f := IndexOf(resource, SLASH);
    var s := resource[f..];
    assert Boundary(s, 0) && s[..0] == [];
    if f == |resource| {
      assert s == [];
    } else {
      var rest := resource[f + 1..];
      assert s == [SLASH] + rest;
      ExtendSplit([], rest, q);
      BelowSlash(rest, q);
    }
  }

  ghost predicate FreeOf(parts: seq<Bytes>, b: byte) {
    forall p :: p in parts ==> b !in p
  }

  lemma {:induction false} ExtendPlain(path: Bytes, parts: seq<Bytes>, b: byte)
    requires b != SLASH && b !in path && FreeOf(parts, b)
    ensures FreeOf(Extend(path, parts), b)
    decreases |parts|
  {
    if parts != [] { ExtendPlain(Field(path, SLASH, parts[0]), parts[1..], b); }
  }

  lemma {:induction false} SplitPlainParts(s: Bytes, sep: byte, b: byte)
    requires b !in s
    ensures FreeOf(Split(s, sep), b)
    decreases |s|
  {
    var i := IndexOf(s, sep);
    if i < |s| {
      SplitPlainParts(s[i + 1..], sep, b);
      assert Split(s, sep) == [s[..i]] + Split(s[i + 1..], sep);
    }
  }

  /** Tried paths hold no byte the resource does not hold, slashes aside. */
  lemma TriedPlain(subpaths: bool, resource: Bytes, b: byte)
    requires b != SLASH && b !in resource
    ensures FreeOf(TriedPaths(subpaths, resource), b)
  {
    if subpaths {
      SplitPlainParts(resource, SLASH, b);
      ExtendPlain([], Split(resource, SLASH)[1..], b);
    }
  }

  ghost predicate AllStable(fix: Coercion, parts: seq<Bytes>) {
    forall p :: p in parts ==> Stable(fix, p)
  }

  lemma {:induction false} ExtendStable(fix: Coercion, path: Bytes, parts: seq<Bytes>)
    requires IsCoercion(fix) && Stable(fix, path) && AllStable(fix, parts)
    ensures AllStable(fix, Extend(path, parts))
    decreases |parts|
  {
    if parts != [] {
      FieldStable(fix, path, SLASH, parts[0]);
      ExtendStable(fix, Field(path, SLASH, parts[0]), parts[1..]);
    }
  }

  lemma CutStable(fix: Coercion, s: Bytes, i: nat, sep: byte)
    requires IsCoercion(fix) && Stable(fix, s) && sep < 128 && i == IndexOf(s, sep) < |s|
    ensures Stable(fix, s[..i]) && Stable(fix, s[i + 1..])
  {
    CutAt(s, i, sep);
    StableParts(fix, s[..i], s[i + 1..], sep);
  }

  /** Split at a slash, valid UTF-8 stays valid. */
  lemma {:induction false} SplitStable(fix: Coercion, s: Bytes, sep: byte)
    requires IsCoercion(fix) && Stable(fix, s) && sep < 128
    ensures AllStable(fix, Split(s, sep))
    decreases |s|
  {
    var i := IndexOf(s, sep);
    if i < |s| {
      CutStable(fix, s, i, sep);
      SplitStable(fix, s[i + 1..], sep);
      SplitFirst(s, sep);
    } else {
      assert s[..i] == s;
    }
  }

  lemma TriedStable(fix: Coercion, subpaths: bool, resource: Bytes)
    requires IsCoercion(fix) && Stable(fix, resource)
    ensures AllStable(fix, TriedPaths(subpaths, resource))
  {
    assert Ascii([]);
    if subpaths {
      SplitStable(fix, resource, SLASH);
      ExtendStable(fix, [], Split(resource, SLASH)[1..]);
    }
  }
}
