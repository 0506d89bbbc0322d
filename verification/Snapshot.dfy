/**
 The snapshot stream: a row count, then one length-prefixed JSON document per
 row, in key order.
 */
module Snapshot {
  import opened ByteStrings
  import opened Commands
  import opened Store
  import Iteration

  /** How one row is written and read. */
  datatype RowCodec = RowCodec(enc: KVData -> Bytes, dec: Bytes -> Option<KVData>)

  function RowCodecOf(c: Codec): (r: RowCodec) {
    RowCodec(d => MarshalData(c, d), b => UnmarshalRow(c, b))
  }

  function UnmarshalRow(c: Codec, b: Bytes): (r: Option<KVData>) {
    var doc := c.decode(b);
    if doc.None? then None else
      var d := DecodeData(c, doc.value, FRESH);
      if d.failed then None else Some(d.value)
  }

  // ----------------------------------------------------------- the format

  function Frame(rc: RowCodec, d: KVData): (b: Bytes) {
    var data := rc.enc(d);
    LeBytes(|data|, 8) + data
  }

  function Frames(rc: RowCodec, ds: seq<KVData>): (b: Bytes) {
    if ds == [] then [] else Frame(rc, ds[0]) + Frames(rc, ds[1..])
  }

  function RowData(rows: Rows, ks: seq<Bytes>): (ds: seq<KVData>)
    requires forall k :: k in ks ==> k in rows
    ensures |ds| == |ks|
  {
    seq(|ks|, i requires 0 <= i < |ks| => KVData(ks[i], Some(rows[ks[i]])))
  }

  /** The stream that stands for given contents. */
  function StreamOf(rc: RowCodec, rows: Rows): (b: Bytes) {
    var ks := SortedKeys(rows.Keys);
    LeBytes(|ks|, 8) + Frames(rc, RowData(rows, ks))
  }

  /** Counts and lengths fit the 64-bit words they are written to. */
  ghost predicate Fits(rc: RowCodec, rows: Rows) {
    && |rows| < WORD
    && forall k :: k in rows ==> |rc.enc(KVData(k, Some(rows[k])))| < WORD
  }

  datatype Parse =
    | Parsed(rows: Rows, rest: Bytes)
    | Short              // the reader ran out of bytes: an error is returned
    | Corrupt            // a document could not be decoded: panic

  /** Reading n frames on top of rows collected so far. */
  function ParseFrames(rc: RowCodec, n: nat, s: Bytes, rows: Rows): (p: Parse)
    decreases n
  {
    if n == 0 then Parsed(rows, s)
    else if |s| < 8 then Short
    else
      var size := LeValue(s[..8]);
      if |s| - 8 < size then Short
      else
        var d := rc.dec(s[8..8 + size]);
        if d.None? then Corrupt
        else ParseFrames(rc, n - 1, s[8 + size..], rows[d.value.key := Stored(d.value)])
  }

  /** A nil value is stored as the empty value here, unlike in Update. */
  function Stored(d: KVData): (b: Bytes) {
    if d.val.None? then [] else d.val.value
  }

  function ParseStream(rc: RowCodec, s: Bytes): (p: Parse) {
    if |s| < 8 then Short else ParseFrames(rc, LeValue(s[..8]), s[8..], map[])
  }

  // --------------------------------------------------- writing and reading

  lemma {:induction false} FramesSnoc(rc: RowCodec, ds: seq<KVData>, d: KVData)
    ensures Frames(rc, ds + [d]) == Frames(rc, ds) + Frame(rc, d)
  {
    if ds == [] {
      assert ds + [d] == [d] && [d][1..] == [];
    } else {
      assert (ds + [d])[1..] == ds[1..] + [d];
      FramesSnoc(rc, ds[1..], d);
    }
  }

  /** The first loop of saveToWriter: the rows in iterator order. */
  method CollectRows(rows: Rows) returns (values: seq<KVData>)
    ensures values == RowData(rows, SortedKeys(rows.Keys))
  {
    values := [];
    var iter := new Iteration.Iterator(rows);
    while iter.HasRow()
      invariant iter.Valid() && iter.rows == rows
      invariant values == RowData(rows, iter.keys[..iter.pos])
      decreases |iter.keys| - iter.pos
    {
      var k := iter.keys[iter.pos];
      assert iter.keys[..iter.pos + 1] == iter.keys[..iter.pos] + [k];
      values := values + [KVData(k, Some(rows[k]))];
      iter.Next();
    }
    assert iter.keys[..iter.pos] == iter.keys;
    SameSortedKeys(iter.keys, SortedKeys(rows.Keys));
  }

  /** The second loop of saveToWriter. */
  method WriteFrames(rc: RowCodec, values: seq<KVData>, header: Bytes) returns (w: Bytes)
    ensures w == header + Frames(rc, values)
  {
    w := header;
    var i := 0;
    assert values[..0] == [];
    while i < |values|
      invariant 0 <= i <= |values|
      invariant w == header + Frames(rc, values[..i])
    {
      var data := rc.enc(values[i]);
      w := w + LeBytes(|data|, 8);
      w := w + data;
      assert values[..i + 1] == values[..i] + [values[i]];
      FramesSnoc(rc, values[..i], values[i]);
      i := i + 1;
    }
    assert values[..i] == values;
  }

  /** saveToWriter: the stream of the contents the snapshot was taken of. */
  method SaveToWriter(rc: RowCodec, rows: Rows) returns (w: Bytes)
    ensures w == StreamOf(rc, rows)
  {
    var values := CollectRows(rows);
    w := WriteFrames(rc, values, LeBytes(|values|, 8));
  }

  lemma {:induction false} SameSortedKeys(a: seq<Bytes>, b: seq<Bytes>)
    requires Increasing(a) && Increasing(b) && forall k :: k in a <==> k in b
    ensures a == b
  {
    assert a == [] <==> b == [] by {
      assert a != [] ==> a[0] in b;
      assert b != [] ==> b[0] in a;
    }
    if a != [] {
      assert a[0] in b && b[0] in a;
      var i :| 0 <= i < |b| && b[i] == a[0];
      var j :| 0 <= j < |a| && a[j] == b[0];
      if i > 0 && j > 0 { LessAsymmetric(a[0], a[j]); }
      forall k ensures k in a[1..] <==> k in b[1..] {
        LessIrreflexive(a[0]);
        assert k in a <==> k == a[0] || k in a[1..];
        assert k in b <==> k == b[0] || k in b[1..];
      }
      SameSortedKeys(a[1..], b[1..]);
      assert a == [a[0]] + a[1..] && b == [b[0]] + b[1..];
    }
  }

  /** The reading loop of RecoverFromSnapshot. */
  method ReadSnapshot(rc: RowCodec, s: Bytes) returns (r: Parse)
    ensures r == ParseStream(rc, s)
  {
    if |s| < 8 {
      return Short;
    }
    var total := LeValue(s[..8]);
    var rest, rows := s[8..], map[];
    var i := 0;
    while i < total
      invariant 0 <= i <= total
      invariant ParseStream(rc, s) == ParseFrames(rc, total - i, rest, rows)
    {
      if |rest| < 8 {
        return Short;
      }
      var toRead := LeValue(rest[..8]);
      if |rest| - 8 < toRead {
        return Short;
      }
      var d := rc.dec(rest[8..8 + toRead]);
      if d.None? {
        return Corrupt;
      }
      rows := rows[d.value.key := Stored(d.value)];
      rest := rest[8 + toRead..];
      i := i + 1;
    }
    r := Parsed(rows, rest);
  }

  // ---------------------------------------------------------- round trip

  ghost predicate Framable(rc: RowCodec, d: KVData) {
    d.val.Some? && |rc.enc(d)| < WORD && rc.dec(rc.enc(d)) == Some(d)
  }

  ghost predicate AllFramable(rc: RowCodec, ds: seq<KVData>) {
    forall i :: 0 <= i < |ds| ==> Framable(rc, ds[i])
  }

  /** Every row survives its codec and every length its 64-bit word. */
  ghost predicate Encodable(rc: RowCodec, rows: Rows) {
    |rows| < WORD && forall k :: k in rows ==> Framable(rc, KVData(k, Some(rows[k])))
  }

  /** With a lawful JSON codec, UTF-8 keys are all a row needs to survive. */
  lemma Utf8Encodable(c: Codec, rows: Rows)
    requires c.Lawful() && Utf8Rows(c, rows) && Fits(RowCodecOf(c), rows)
    ensures Encodable(RowCodecOf(c), rows)
  {
    forall k | k in rows ensures Framable(RowCodecOf(c), KVData(k, Some(rows[k]))) {
      DataDocDecodes(c, KVData(k, Some(rows[k])));
    }
  }

  function PutAll(rows: Rows, ds: seq<KVData>): (r: Rows)
    decreases |ds|
  {
    if ds == [] then rows else PutAll(rows[ds[0].key := Stored(ds[0])], ds[1..])
  }

  /** One frame is read back and the reader stops right behind it. */
  lemma FrameParses(rc: RowCodec, d: KVData, n: nat, tail: Bytes, rows: Rows)
    requires Framable(rc, d) && n > 0
    ensures ParseFrames(rc, n, Frame(rc, d) + tail, rows) ==
            ParseFrames(rc, n - 1, tail, rows[d.key := Stored(d)])
  {
    FrameReads(rc, rc.enc(d), n, tail, rows);
  }

  lemma {:induction false} FramesParse(rc: RowCodec, ds: seq<KVData>, tail: Bytes, rows: Rows)
    requires AllFramable(rc, ds)
    ensures ParseFrames(rc, |ds|, Frames(rc, ds) + tail, rows) == Parsed(PutAll(rows, ds), tail)
  {
    if ds == [] {
      assert Frames(rc, ds) + tail == tail;
    } else {
      var more := Frames(rc, ds[1..]) + tail;
      assert Frames(rc, ds) + tail == Frame(rc, ds[0]) + more;
      FrameParses(rc, ds[0], |ds|, more, rows);
      FramesParse(rc, ds[1..], tail, rows[ds[0].key := Stored(ds[0])]);
    }
  }

  lemma {:induction false} PutAllRows(acc: Rows, rows: Rows, ks: seq<Bytes>)
    requires forall k :: k in ks ==> k in rows
    ensures PutAll(acc, RowData(rows, ks)) == acc + map k | k in rows && k in ks :: rows[k]
    decreases |ks|
  {
    if ks != [] {
      var k := ks[0];
      assert RowData(rows, ks)[1..] == RowData(rows, ks[1..]);
      PutAllRows(acc[k := rows[k]], rows, ks[1..]);
      assert forall x :: x in ks <==> x == k || x in ks[1..];
    }
  }

  lemma SortedRowsRebuild(rows: Rows)
    ensures PutAll(map[], RowData(rows, SortedKeys(rows.Keys))) == rows
  {
    var ks := SortedKeys(rows.Keys);
    PutAllRows(map[], rows, ks);
    assert forall k :: k in ks <==> k in rows;
  }

  lemma HeaderParses(rc: RowCodec, n: nat, body: Bytes)
    requires n < WORD
    ensures ParseStream(rc, LeBytes(n, 8) + body) == ParseFrames(rc, n, body, map[])
  {
    var s := LeBytes(n, 8) + body;
    assert s[..8] == LeBytes(n, 8) && s[8..] == body;
    Le64RoundTrip(n);
  }

  /** Parsing the stream of given contents rebuilds exactly these contents,
      empty values included, and leaves nothing unread. */
  lemma RoundTrip(rc: RowCodec, rows: Rows)
    requires Encodable(rc, rows)
    ensures ParseStream(rc, StreamOf(rc, rows)) == Parsed(rows, [])
  {
    var ks := SortedKeys(rows.Keys);
    var ds := RowData(rows, ks);
    HeaderParses(rc, |ks|, Frames(rc, ds));
    FramesParse(rc, ds, [], map[]);
    assert Frames(rc, ds) + [] == Frames(rc, ds);
    SortedRowsRebuild(rows);
  }

  /** So different contents have different streams. */
  lemma StreamInjective(rc: RowCodec, a: Rows, b: Rows)
    requires Encodable(rc, a) && Encodable(rc, b)
    requires StreamOf(rc, a) == StreamOf(rc, b)
    ensures a == b
  {
    RoundTrip(rc, a);
    RoundTrip(rc, b);
  }

  // ---------------------------------------------------- the bytes on the wire

  function Concat(parts: seq<Bytes>): (b: Bytes) {
    if parts == [] then [] else parts[0] + Concat(parts[1..])
  }

  lemma {:induction false} FramesAre(rc: RowCodec, ds: seq<KVData>, parts: seq<Bytes>)
    requires |parts| == |ds|
    requires forall i :: 0 <= i < |ds| ==> parts[i] == LeBytes(|rc.enc(ds[i])|, 8) + rc.enc(ds[i])
    ensures Frames(rc, ds) == Concat(parts)
  {
    if ds != [] { FramesAre(rc, ds[1..], parts[1..]); }
  }

  /** The bytes of a stream: how many rows, in eight bytes, the least significant
      first; then, in the byte order of the keys, the length of each row's
      document, again in eight bytes, and the document. */
  lemma StreamLayout(rc: RowCodec, rows: Rows, ks: seq<Bytes>, parts: seq<Bytes>)
    requires Increasing(ks) && (forall k :: k in ks <==> k in rows) && |parts| == |ks|
    requires forall i :: 0 <= i < |ks| ==>
               var data := rc.enc(KVData(ks[i], Some(rows[ks[i]]))); parts[i] == LeBytes(|data|, 8) + data
    ensures StreamOf(rc, rows) == LeBytes(|rows|, 8) + Concat(parts)
  {
    SameSortedKeys(ks, SortedKeys(rows.Keys));
    FramesAre(rc, RowData(rows, ks), parts);
  }

  /** Whatever document a frame holds, a nil value in it is stored as the empty
      value, and bytes that are no document of a row make the reader panic. */
  lemma FrameReads(rc: RowCodec, data: Bytes, n: nat, tail: Bytes, rows: Rows)
    requires |data| < WORD && n > 0
    ensures var d, s := rc.dec(data), LeBytes(|data|, 8) + data + tail;
            ParseFrames(rc, n, s, rows) ==
              if d.None? then Corrupt
              else ParseFrames(rc, n - 1, tail,
                     rows[d.value.key := if d.value.val.Some? then d.value.val.value else []])
  {
    var s := LeBytes(|data|, 8) + data + tail;
    assert s[..8] == LeBytes(|data|, 8);
    Le64RoundTrip(|data|);
    assert s[8..8 + |data|] == data && s[8 + |data|..] == tail;
  }

  /** A frame is no row if it is no document, no object or null, or its value has
      the wrong type. */
  lemma BadRows(c: Codec, b: Bytes, t: Bytes)
    requires var j := c.decode(b);
             j.None? || (!j.value.Null? && !j.value.Object?)
             || j.value == Object([Member(Spell("Key"), Json.Text(t)), Member(Spell("Val"), Scalar)])
    ensures RowCodecOf(c).dec(b).None?
  {
    CaseAndTypes(c, t, FRESH);
  }

  // ------------------------------------------------------------ truncation

  lemma {:induction false} FramesCut(rc: RowCodec, ds: seq<KVData>, cut: nat, rows: Rows)
    requires AllFramable(rc, ds) && cut < |Frames(rc, ds)|
    ensures ParseFrames(rc, |ds|, Frames(rc, ds)[..cut], rows) == Short
  {
    if ds != [] {
      var data := rc.enc(ds[0]);
      var head, more := Frame(rc, ds[0]), Frames(rc, ds[1..]);
      var s := (head + more)[..cut];
      assert Frames(rc, ds) == head + more;
      Le64RoundTrip(|data|);
      if cut < 8 {
      } else if cut < |head| {
        assert s[..8] == LeBytes(|data|, 8);
      } else {
        assert s == head + more[..cut - |head|];
        FrameParses(rc, ds[0], |ds|, more[..cut - |head|], rows);
        FramesCut(rc, ds[1..], cut - |head|, rows[ds[0].key := Stored(ds[0])]);
      }
    }
  }

  /** A stream that breaks off anywhere is refused, never half-installed. */
  lemma TruncatedIsShort(rc: RowCodec, rows: Rows, cut: nat)
    requires Encodable(rc, rows)
    requires cut < |StreamOf(rc, rows)|
    ensures ParseStream(rc, StreamOf(rc, rows)[..cut]) == Short
  {
    var ks := SortedKeys(rows.Keys);
    var ds := RowData(rows, ks);
    if cut >= 8 {
      var s := StreamOf(rc, rows)[..cut];
      assert s == LeBytes(|ks|, 8) + Frames(rc, ds)[..cut - 8];
      HeaderParses(rc, |ks|, Frames(rc, ds)[..cut - 8]);
      FramesCut(rc, ds, cut - 8, map[]);
    }
  }
}
