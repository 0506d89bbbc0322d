/**
 How the rights stored with a permission are compared with the rights asked
 for. A nil slice is None.
 */
module Rights {
  import opened ByteStrings

  const BIT_VALUES: seq<int> := [1, 2, 4, 8, 16, 32, 64, 128]

  predicate Bit(b: byte, k: int)
    requires 0 <= k < 8
  {
    (b / BIT_VALUES[k]) % 2 == 1
  }

  /** Some bit is set in both bytes. */
  predicate Meets(a: byte, b: byte) {
    exists k :: 0 <= k < 8 && Bit(a, k) && Bit(b, k)
  }

  lemma BitIs(a: byte)
    ensures Bit(a, 0) <==> (a as bv8) & 1 != 0
    ensures Bit(a, 1) <==> (a as bv8) & 2 != 0
    ensures Bit(a, 2) <==> (a as bv8) & 4 != 0
    ensures Bit(a, 3) <==> (a as bv8) & 8 != 0
    ensures Bit(a, 4) <==> (a as bv8) & 16 != 0
    ensures Bit(a, 5) <==> (a as bv8) & 32 != 0
    ensures Bit(a, 6) <==> (a as bv8) & 64 != 0
    ensures Bit(a, 7) <==> (a as bv8) & 128 != 0
  {
  }

  lemma SomeBit(x: bv8)
    ensures x != 0 <==> x & 1 != 0 || x & 2 != 0 || x & 4 != 0 || x & 8 != 0
                        || x & 16 != 0 || x & 32 != 0 || x & 64 != 0 || x & 128 != 0
  {
  }

  lemma BothBits(x: bv8, y: bv8, m: bv8)
    ensures m in [1, 2, 4, 8, 16, 32, 64, 128] ==> ((x & y) & m != 0 <==> x & m != 0 && y & m != 0)
  {
  }

  /** Which is what the & of the two bytes tells. */
  lemma MeetsIff(a: byte, b: byte)
    ensures Meets(a, b) <==> (a as bv8) & (b as bv8) != 0
  {
    BitIs(a);
    BitIs(b);
    var x, y := a as bv8, b as bv8;
    SomeBit(x & y);
    BothBits(x, y, 1);
    BothBits(x, y, 2);
    BothBits(x, y, 4);
    BothBits(x, y, 8);
    BothBits(x, y, 16);
    BothBits(x, y, 32);
    BothBits(x, y, 64);
    BothBits(x, y, 128);
  }

  predicate SomeCommonBit(a: Option<Bytes>, b: Option<Bytes>) {
    && a.Some? && b.Some? && |a.value| == |b.value|
    && exists i :: 0 <= i < |a.value| && Meets(a.value[i], b.value[i])
  }

  /** Equally long, and & of some two bytes at the same place is not zero. */
  lemma CommonBitIff(a: Option<Bytes>, b: Option<Bytes>)
    ensures SomeCommonBit(a, b) <==>
              && a.Some? && b.Some? && |a.value| == |b.value|
              && exists i :: 0 <= i < |a.value| && (a.value[i] as bv8) & (b.value[i] as bv8) != 0
  {
    if a.Some? && b.Some? && |a.value| == |b.value| {
      forall i | 0 <= i < |a.value|
        ensures Meets(a.value[i], b.value[i]) <==> (a.value[i] as bv8) & (b.value[i] as bv8) != 0
      {
        MeetsIff(a.value[i], b.value[i]);
      }
    }
  }

  /** bitwiseAnd: some bit of some byte is set in both. */
  method BitwiseAnd(ba1: Option<Bytes>, ba2: Option<Bytes>) returns (r: bool)
    ensures r == SomeCommonBit(ba1, ba2)
  {
    if ba1.None? || ba2.None? || |ba1.value| != |ba2.value| {
      return false;
    }
    for i := 0 to |ba1.value|
      invariant forall j :: 0 <= j < i ==> !Meets(ba1.value[j], ba2.value[j])
    {
      if Meets(ba1.value[i], ba2.value[i]) {
        return true;
      }
    }
    return false;
  }

  /** Only the last bytes are ever compared. */
  predicate LastByteGE(gte: Option<Bytes>, ste: Option<Bytes>) {
    && gte.Some? && ste.Some? && |gte.value| == |ste.value| > 0
    && gte.value[|gte.value| - 1] >= ste.value[|ste.value| - 1]
  }

  /** bitwiseGreaterOrEqual: the loop looks like a comparison from the most
      significant byte down, but `ste[i] > 0` holds whenever it is reached, so
      it never passes the last byte. `looked` counts the bytes it looks at. */
  method BitwiseGreaterOrEqual(gte: Option<Bytes>, ste: Option<Bytes>) returns (r: bool, looked: nat)
    ensures r == LastByteGE(gte, ste)
    ensures looked <= 1
  {
    looked := 0;
    if gte.None? || ste.None? || |gte.value| != |ste.value| {
      return false, looked;
    }
    var g, s := gte.value, ste.value;
    for i := |g| downto 0
      invariant looked == |g| - i
      invariant forall j :: i <= j < |g| ==> g[j] < s[j] <= 0
    {
      looked := looked + 1;
      if g[i] >= s[i] {
        return true, looked;
      }
      if s[i] > 0 {
        return false, looked;
      }
    }
    return false, looked;
  }

  lemma TimesBase(p: nat, x: nat)
    ensures 256 * (p * x) == (256 * p) * x
  {
  }

  lemma {:induction false} LeSnoc(b: Bytes)
    requires b != []
    ensures LeValue(b) == LeValue(b[..|b| - 1]) + Pow256(|b| - 1) * b[|b| - 1]
  {
    if |b| > 1 {
      LeSnoc(b[1..]);
      assert b[1..][..|b| - 2] == b[..|b| - 1][1..];
      TimesBase(Pow256(|b| - 2), b[|b| - 1]);
    }
  }

  lemma Decides(p: nat, x: nat, y: nat, u: nat, v: nat)
    requires x < p && y < p && u > v
    ensures x + p * u > y + p * v
  {
    assert p * u >= p * (v + 1) == p * v + p;
  }

  /** As a comparison of little-endian numbers the result is right if and only
      if the last bytes differ or the rest is not smaller either. */
  lemma RightIff(g: Bytes, s: Bytes)
    requires |g| == |s| > 0
    ensures var n := |g| - 1;
            LastByteGE(Some(g), Some(s)) == (LeValue(g) >= LeValue(s))
            <==> g[n] != s[n] || LeValue(g[..n]) >= LeValue(s[..n])
  {
    var n := |g| - 1;
    LeSnoc(g);
    LeSnoc(s);
    LeValueBound(g[..n]);
    LeValueBound(s[..n]);
    var p := Pow256(n);
    if g[n] > s[n] { Decides(p, LeValue(g[..n]), LeValue(s[..n]), g[n], s[n]); }
    if g[n] < s[n] { Decides(p, LeValue(s[..n]), LeValue(g[..n]), s[n], g[n]); }
  }

  /** It errs on one side only: a number that is at least as large passes. */
  lemma NeverTooStrict(g: Bytes, s: Bytes)
    requires |g| == |s| > 0 && LeValue(g) >= LeValue(s)
    ensures LastByteGE(Some(g), Some(s))
  {
    RightIff(g, s);
  }

  // -------------------------------------------- the check of one stored row

  /** checkPermission on a looked-up value, None where there is no row. */
  predicate Grants(exact: bool, row: Option<Bytes>, want: Option<Bytes>) {
    row.Some? && row.value != [] &&
    if |row.value| == 1 && row.value[0] % 2 == 1 then true
    else if exact then SomeCommonBit(row, want)
    else LastByteGE(want, row)
  }

  /** What a row must hold to pass, bit by bit: it is not empty, and it is one
      byte with the lowest bit set, or it is as long as the rights asked for and,
      if the check is exact, shares a set bit with them, else its last byte is
      not larger than theirs. */
  lemma GrantsMeans(exact: bool, row: Option<Bytes>, want: Option<Bytes>)
    ensures Grants(exact, row, want) <==>
              && row.Some? && |row.value| > 0
              && (|| (|row.value| == 1 && (row.value[0] as bv8) & 1 != 0)
                  || (&& want.Some? && |want.value| == |row.value|
                      && if exact
                         then exists i :: 0 <= i < |row.value| && (row.value[i] as bv8) & (want.value[i] as bv8) != 0
                         else want.value[|row.value| - 1] >= row.value[|row.value| - 1]))
  {
    if row.Some? && row.value != [] {
      BitIs(row.value[0]);
      CommonBitIff(row, want);
    }
  }

  method CheckPermission(exact: bool, row: Option<Bytes>, want: Option<Bytes>) returns (ok: bool)
    ensures ok == Grants(exact, row, want)
  {
    if row.None? || |row.value| == 0 {
      return false;
    }
    if |row.value| == 1 && row.value[0] % 2 == 1 {
      return true;
    }
    if exact {
      ok := BitwiseAnd(row, want);
    } else {
      var r, _ := BitwiseGreaterOrEqual(want, row);
      ok := r;
    }
  }
}
