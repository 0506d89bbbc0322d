/**
 The commands that travel through the Raft log, and how DiskKV.Update tells
 them apart. encoding/json itself is a parameter: a codec between documents
 and bytes that round-trips every document whose texts are valid UTF-8, after
 coercing every text to valid UTF-8. What Go does with a parsed document when
 it fills a struct is spelled out.
 */
module Commands {
  import opened ByteStrings

  datatype Json =
    | Null
    | Text(text: Bytes)
    | Scalar                          // a number or a boolean
    | List(items: seq<Json>)
    | Object(members: seq<Member>)

  datatype Member = Member(name: Bytes, value: Json)

  /** A nil slice is None; an empty slice is Some([]). */
  datatype KVData = KVData(key: Bytes, val: Option<Bytes>)
  datatype KVAction = KVAction(action: Bytes, data: KVData)
  datatype KVBatch = KVBatch(action: Bytes, batch: seq<KVData>)

  const KEY: Bytes := [75, 101, 121]                    // Key
  const VAL: Bytes := [86, 97, 108]                     // Val
  const ACTION: Bytes := [65, 99, 116, 105, 111, 110]   // Action
  const DATA: Bytes := [68, 97, 116, 97]                // Data
  const BATCH: Bytes := [66, 97, 116, 99, 104]          // Batch

  datatype Codec = Codec(
    encode: Json -> Bytes,
    decode: Bytes -> Option<Json>,
    base64: Bytes -> Bytes,
    unbase64: Bytes -> Option<Bytes>,
    coerce: Coercion)
  {
    predicate utf8(b: Bytes) {
      Stable(coerce, b)
    }

    predicate Printable(j: Json) {
      match j
      case Null => true
      case Scalar => true
      case Text(t) => utf8(t)
      case List(items) => forall i :: 0 <= i < |items| ==> Printable(items[i])
      case Object(ms) => forall i :: 0 <= i < |ms| ==> utf8(ms[i].name) && Printable(ms[i].value)
    }

    ghost predicate Lawful() {
      && (forall j :: Printable(j) ==> decode(encode(j)) == Some(j))
      && (forall b :: decode(b).Some? ==> Printable(decode(b).value))
      && (forall b :: unbase64(base64(b)) == Some(b))
      && (forall b :: utf8(base64(b)))
      && IsCoercion(coerce)
    }
  }

  // ------------------------------------------------- json.Marshal of structs

  function DataDoc(c: Codec, d: KVData): (j: Json) {
    Object([Member(KEY, Text(c.coerce(d.key))),
            Member(VAL, if d.val.None? then Null else Text(c.base64(d.val.value)))])
  }

  function ActionDoc(c: Codec, a: KVAction): (j: Json) {
    Object([Member(ACTION, Text(c.coerce(a.action))), Member(DATA, DataDoc(c, a.data))])
  }

  function BatchDoc(c: Codec, b: KVBatch): (j: Json) {
    Object([Member(ACTION, Text(c.coerce(b.action))),
            Member(BATCH, List(seq(|b.batch|, i requires 0 <= i < |b.batch| => DataDoc(c, b.batch[i]))))])
  }

  /** A pair as it comes out at the other end. */
  function Fixed(fix: Coercion, d: KVData): (r: KVData) {
    d.(key := fix(d.key))
  }

  function FixedAll(fix: Coercion, ds: seq<KVData>): (fs: seq<KVData>)
    ensures |fs| == |ds|
  {
    seq(|ds|, i requires 0 <= i < |ds| => Fixed(fix, ds[i]))
  }

  function MarshalData(c: Codec, d: KVData): (b: Bytes) { c.encode(DataDoc(c, d)) }
  function MarshalAction(c: Codec, a: KVAction): (b: Bytes) { c.encode(ActionDoc(c, a)) }
  function MarshalBatch(c: Codec, b: KVBatch): (r: Bytes) { c.encode(BatchDoc(c, b)) }

  // ----------------------------------------------- json.Unmarshal to structs

  /** What a decode leaves behind: Go keeps decoding after a type mismatch and
      reports the failure at the end, so the target may be partly filled. */
  datatype Decoded<T> = Decoded(value: T, failed: bool)

  function Lower(b: byte): (r: byte) { if 65 <= b <= 90 then b + 32 else b }

  /** Struct fields match member names without regard to case. */
  predicate SameName(a: Bytes, b: Bytes) {
    |a| == |b| && forall i :: 0 <= i < |a| ==> Lower(a[i]) == Lower(b[i])
  }

  function DataMember(c: Codec, m: Member, d: Decoded<KVData>): (r: Decoded<KVData>) {
    if SameName(m.name, KEY) then
      match m.value
      case Text(t) => d.(value := d.value.(key := t))
      case Null => d
      case _ => d.(failed := true)
    else if SameName(m.name, VAL) then
      match m.value
      case Null => d.(value := d.value.(val := None))
      case Text(t) =>
        var b := c.unbase64(t);
        if b.Some? then d.(value := d.value.(val := b)) else d.(failed := true)
      case _ => d.(failed := true)
    else d
  }

  function DataMembers(c: Codec, ms: seq<Member>, d: Decoded<KVData>): (r: Decoded<KVData>) {
    if ms == [] then d else DataMembers(c, ms[1..], DataMember(c, ms[0], d))
  }

  function DecodeData(c: Codec, j: Json, into: KVData): (r: Decoded<KVData>) {
    match j
    case Null => Decoded(into, false)
    case Object(ms) => DataMembers(c, ms, Decoded(into, false))
    case _ => Decoded(into, true)
  }

  const FRESH: KVData := KVData([], None)

  /** The Data pointer of a KVAction; None is the nil pointer. */
  function ActionMember(c: Codec, m: Member, d: Decoded<Option<KVData>>): (r: Decoded<Option<KVData>>) {
    if SameName(m.name, ACTION) then
      if m.value.Text? || m.value.Null? then d else d.(failed := true)
    else if SameName(m.name, DATA) then
      if m.value.Null? then d.(value := None)
      else
        var r := DecodeData(c, m.value, if d.value.Some? then d.value.value else FRESH);
        Decoded(Some(r.value), d.failed || r.failed)
    else d
  }

  function ActionMembers(c: Codec, ms: seq<Member>, d: Decoded<Option<KVData>>): (r: Decoded<Option<KVData>>) {
    if ms == [] then d else ActionMembers(c, ms[1..], ActionMember(c, ms[0], d))
  }

  function DecodeAction(c: Codec, j: Json): (r: Decoded<Option<KVData>>) {
    match j
    case Null => Decoded(Some(FRESH), false)
    case Object(ms) => ActionMembers(c, ms, Decoded(Some(FRESH), false))
    case _ => Decoded(Some(FRESH), true)
  }

  type Pointers = Option<seq<Option<KVData>>>

  function DecodeItems(c: Codec, items: seq<Json>): (r: Decoded<seq<Option<KVData>>>) {
    if items == [] then Decoded([], false) else
      var rest := DecodeItems(c, items[1..]);
      if items[0].Null? then Decoded([None] + rest.value, rest.failed)
      else
        var r := DecodeData(c, items[0], FRESH);
        Decoded([Some(r.value)] + rest.value, r.failed || rest.failed)
  }

  function BatchMember(c: Codec, m: Member, d: Decoded<Pointers>): (r: Decoded<Pointers>) {
    if SameName(m.name, ACTION) then
      if m.value.Text? || m.value.Null? then d else d.(failed := true)
    else if SameName(m.name, BATCH) then
      match m.value
      case Null => d.(value := None)
      case List(items) =>
        var r := DecodeItems(c, items);
        Decoded(Some(r.value), d.failed || r.failed)
      case _ => d.(failed := true)
    else d
  }

  function BatchMembers(c: Codec, ms: seq<Member>, d: Decoded<Pointers>): (r: Decoded<Pointers>) {
    if ms == [] then d else BatchMembers(c, ms[1..], BatchMember(c, ms[0], d))
  }

  function DecodeBatch(c: Codec, j: Json): (r: Decoded<Pointers>) {
    match j
    case Null => Decoded(None, false)
    case Object(ms) => BatchMembers(c, ms, Decoded(None, false))
    case _ => Decoded(None, true)
  }

  // ----------------------------------------------- the three-stage dispatch

  datatype Op = Put(key: Bytes, val: Bytes) | Delete(key: Bytes)

  datatype Effect =
    | Write(ops: seq<Op>)
    | Skip               // logged and ignored
    | Crash              // nil pointer dereference

  function OpOf(d: KVData): (op: Op) {
    if d.val.None? then Delete(d.key) else Put(d.key, d.val.value)
  }

  function OpsOf(ds: seq<KVData>): (ops: seq<Op>)
    ensures |ops| == |ds|
  {
    seq(|ds|, i requires 0 <= i < |ds| => OpOf(ds[i]))
  }

  function AllSome(ps: seq<Option<KVData>>): (r: Option<seq<KVData>>) {
    if ps == [] then Some([])
    else if ps[0].None? then None
    else
      var rest := AllSome(ps[1..]);
      if rest.None? then None else Some([ps[0].value] + rest.value)
  }

  /** The effect of one log entry: first read as a batch, then as an action,
      then, on top of whatever the action decode left, as plain data. */
  function Interpret(c: Codec, cmd: Bytes): (e: Effect) {
    var doc := c.decode(cmd);
    if doc.None? then Skip else InterpretDoc(c, doc.value)
  }

  function InterpretDoc(c: Codec, j: Json): (e: Effect) {
    var b := DecodeBatch(c, j);
    if !b.failed && b.value.Some? then
      var ds := AllSome(b.value.value);
      if ds.None? then Crash else Write(OpsOf(ds.value))
    else
      var a := DecodeAction(c, j);
      if a.value.None? then (if a.failed then Skip else Crash)
      else if a.failed || a.value.value.key == [] then
        var d := DecodeData(c, j, a.value.value);
        if d.failed || d.value.key == [] then Skip else Write([OpOf(d.value)])
      else Write([OpOf(a.value.value)])
  }

  // -------------------------------------------- what a proposer can rely on

  /** Unfolding a two-member object, for each of the three struct decoders. */
  lemma TwoMembers(c: Codec, m: Member, n: Member)
    ensures forall d :: DataMembers(c, [m, n], d) == DataMember(c, n, DataMember(c, m, d))
    ensures forall d :: ActionMembers(c, [m, n], d) == ActionMember(c, n, ActionMember(c, m, d))
    ensures forall d :: BatchMembers(c, [m, n], d) == BatchMember(c, n, BatchMember(c, m, d))
  {
    var ms := [m, n];
    assert ms[1..] == [n] && ms[1..][1..] == [];
    forall d ensures DataMembers(c, ms, d) == DataMember(c, n, DataMember(c, m, d)) {
      assert DataMembers(c, [n], DataMember(c, m, d)) == DataMember(c, n, DataMember(c, m, d));
    }
    forall d ensures ActionMembers(c, ms, d) == ActionMember(c, n, ActionMember(c, m, d)) {
      assert ActionMembers(c, [n], ActionMember(c, m, d)) == ActionMember(c, n, ActionMember(c, m, d));
    }
    forall d ensures BatchMembers(c, ms, d) == BatchMember(c, n, BatchMember(c, m, d)) {
      assert BatchMembers(c, [n], BatchMember(c, m, d)) == BatchMember(c, n, BatchMember(c, m, d));
    }
  }

  lemma DataDocDecodes(c: Codec, d: KVData)
    requires c.Lawful()
    ensures DecodeData(c, DataDoc(c, d), FRESH) == Decoded(Fixed(c.coerce, d), false)
    ensures c.Printable(DataDoc(c, d))
  {
    var ms := DataDoc(c, d).members;
    TwoMembers(c, ms[0], ms[1]);
    assert Ascii(KEY) && Ascii(VAL);
    assert KEY[0] == 75 && VAL[0] == 86;
    assert !SameName(VAL, KEY);
    assert SameName(KEY, KEY) && SameName(VAL, VAL);
  }

  lemma {:induction false} ItemsDecode(c: Codec, ds: seq<KVData>, items: seq<Json>)
    requires c.Lawful()
    requires |items| == |ds| && forall i :: 0 <= i < |ds| ==> items[i] == DataDoc(c, ds[i])
    ensures !DecodeItems(c, items).failed
    ensures AllSome(DecodeItems(c, items).value) == Some(FixedAll(c.coerce, ds))
  {
    if ds != [] {
      DataDocDecodes(c, ds[0]);
      ItemsDecode(c, ds[1..], items[1..]);
      assert FixedAll(c.coerce, ds) == [Fixed(c.coerce, ds[0])] + FixedAll(c.coerce, ds[1..]);
      var r := DecodeItems(c, items).value;
      assert r[1..] == DecodeItems(c, items[1..]).value;
    }
  }

  lemma NamesDiffer()
    ensures !SameName(ACTION, BATCH) && !SameName(ACTION, DATA) && !SameName(ACTION, KEY) && !SameName(ACTION, VAL)
    ensures !SameName(DATA, ACTION) && !SameName(DATA, BATCH) && !SameName(DATA, KEY) && !SameName(DATA, VAL)
    ensures !SameName(BATCH, ACTION)
    ensures !SameName(KEY, ACTION) && !SameName(KEY, BATCH) && !SameName(KEY, DATA)
    ensures !SameName(VAL, ACTION) && !SameName(VAL, BATCH) && !SameName(VAL, DATA)
    ensures SameName(ACTION, ACTION) && SameName(DATA, DATA) && SameName(BATCH, BATCH)
    ensures Ascii(ACTION) && Ascii(DATA) && Ascii(BATCH)
  {
    assert |ACTION| == 6 && |BATCH| == 5 && |DATA| == 4 && |KEY| == 3 && |VAL| == 3;
  }

  predicate ValidKeys(c: Codec, ds: seq<KVData>) {
    forall i :: 0 <= i < |ds| ==> c.utf8(ds[i].key)
  }

  lemma BatchPrintable(c: Codec, b: KVBatch)
    requires c.Lawful()
    ensures c.Printable(BatchDoc(c, b))
  {
    NamesDiffer();
    var items := BatchDoc(c, b).members[1].value.items;
    forall i | 0 <= i < |items| ensures c.Printable(items[i]) { DataDocDecodes(c, b.batch[i]); }
    assert c.Printable(List(items));
  }

  lemma BatchDocDecodes(c: Codec, b: KVBatch)
    requires c.Lawful()
    ensures var r := DecodeBatch(c, BatchDoc(c, b));
            !r.failed && r.value.Some? && AllSome(r.value.value) == Some(FixedAll(c.coerce, b.batch))
  {
    NamesDiffer();
    var j := BatchDoc(c, b);
    ItemsDecode(c, b.batch, j.members[1].value.items);
    TwoMembers(c, j.members[0], j.members[1]);
    assert BatchMembers(c, j.members, Decoded(None, false)) == BatchMember(c, j.members[1], Decoded(None, false));
  }

  /** Every batch a proposer encodes is applied element by element, in order,
      each at its coerced key, a nil value deleting and an empty value storing
      the empty value. */
  lemma BatchApplied(c: Codec, b: KVBatch)
    requires c.Lawful()
    ensures Interpret(c, MarshalBatch(c, b)) == Write(OpsOf(FixedAll(c.coerce, b.batch)))
  {
    BatchPrintable(c, b);
    BatchDocDecodes(c, b);
  }

  /** Every action with a key is applied as its data; one without is skipped. */
  lemma ActionApplied(c: Codec, a: KVAction)
    requires c.Lawful()
    ensures Interpret(c, MarshalAction(c, a)) ==
            if a.data.key == [] then Skip else Write([OpOf(Fixed(c.coerce, a.data))])
  {
    NamesDiffer();
    var j := ActionDoc(c, a);
    DataDocDecodes(c, a.data);
    assert c.Printable(j);
    var none: Decoded<Pointers> := Decoded(None, false);
    TwoMembers(c, j.members[0], j.members[1]);
    assert BatchMembers(c, j.members, none) == none;
    var data := Fixed(c.coerce, a.data);
    assert Ascii([]);
    assert DecodeAction(c, j) == Decoded(Some(data), false);
    assert DataMembers(c, j.members, Decoded(data, false)) == Decoded(data, false);
  }

  /** Every plain key-value pair with a key is applied; one without is skipped. */
  lemma DataApplied(c: Codec, d: KVData)
    requires c.Lawful()
    ensures Interpret(c, MarshalData(c, d)) == if d.key == [] then Skip else Write([OpOf(Fixed(c.coerce, d))])
  {
    NamesDiffer();
    assert Ascii([]);
    var j := DataDoc(c, d);
    DataDocDecodes(c, d);
    var none: Decoded<Pointers> := Decoded(None, false);
    var untouched: Decoded<Option<KVData>> := Decoded(Some(FRESH), false);
    TwoMembers(c, j.members[0], j.members[1]);
    assert BatchMembers(c, j.members, none) == none;
    assert ActionMembers(c, j.members, untouched) == untouched;
  }

  // ------------------------------------------------- what is not as meant

  /** The names of the fields and of the key that are reserved. */
  lemma NamesSpelled()
    ensures KEY == Spell("Key") && VAL == Spell("Val")
    ensures ACTION == Spell("Action") && DATA == Spell("Data") && BATCH == Spell("Batch")
  {
  }

  /** The documents that a proposer encodes. */
  lemma DocsSpelled(c: Codec, d: KVData, a: KVAction, b: KVBatch)
    ensures DataDoc(c, d) ==
            Object([Member(Spell("Key"), Text(c.coerce(d.key))),
                    Member(Spell("Val"), if d.val.None? then Null else Text(c.base64(d.val.value)))])
    ensures ActionDoc(c, a) ==
            Object([Member(Spell("Action"), Text(c.coerce(a.action))), Member(Spell("Data"), DataDoc(c, a.data))])
    ensures var j := BatchDoc(c, b);
            && j.Object? && |j.members| == 2 && j.members[0] == Member(Spell("Action"), Text(c.coerce(b.action)))
            && j.members[1].name == Spell("Batch") && j.members[1].value.List?
            && |j.members[1].value.items| == |b.batch|
            && forall i :: 0 <= i < |b.batch| ==> j.members[1].value.items[i] == DataDoc(c, b.batch[i])
  {
    NamesSpelled();
  }

  /** Names are matched without regard to case, and a value of the wrong type
      spoils the pair. */
  lemma CaseAndTypes(c: Codec, t: Bytes, d: KVData)
    ensures DecodeData(c, Object([Member(Spell("KEY"), Text(t)), Member(Spell("val"), Null)]), d) ==
            Decoded(KVData(t, None), false)
    ensures DecodeData(c, Object([Member(Spell("Key"), Text(t)), Member(Spell("Val"), Scalar)]), d).failed
  {
    NamesSpelled();
    assert Spell("KEY") == [75, 69, 89] && Spell("val") == [118, 97, 108];
    assert Spell("val")[0] == 118 && KEY[0] == 75;
    assert SameName(Spell("KEY"), KEY) && SameName(Spell("val"), VAL) && !SameName(Spell("val"), KEY);
    TwoMembers(c, Member(Spell("KEY"), Text(t)), Member(Spell("val"), Null));
    NamesDiffer();
    assert SameName(VAL, VAL) && !SameName(VAL, KEY) && SameName(KEY, KEY);
    TwoMembers(c, Member(KEY, Text(t)), Member(VAL, Scalar));
  }

  /** An action whose name has the wrong type is applied nevertheless: its data
      was read by then, and reading the whole as plain data leaves it alone. */
  lemma MistypedActionApplies(c: Codec, cmd: Bytes, d: KVData)
    requires c.Lawful() && d.key != []
    requires c.decode(cmd) == Some(Object([Member(ACTION, Scalar), Member(DATA, DataDoc(c, d))]))
    ensures Interpret(c, cmd) == Write([OpOf(Fixed(c.coerce, d))])
  {
    NamesDiffer();
    DataDocDecodes(c, d);
    var ms := [Member(ACTION, Scalar), Member(DATA, DataDoc(c, d))];
    var none: Decoded<Pointers> := Decoded(None, false);
    TwoMembers(c, ms[0], ms[1]);
    var data := Fixed(c.coerce, d);
    assert BatchMembers(c, ms, none).failed;
    assert ActionMembers(c, ms, Decoded(Some(FRESH), false)) == Decoded(Some(data), true);
    assert DataMembers(c, ms, Decoded(data, false)) == Decoded(data, false);
  }

  lemma {:induction false} NullItem(c: Codec, items: seq<Json>)
    requires Null in items && (forall i :: 0 <= i < |items| ==> items[i].Null? || items[i].Object?)
    ensures AllSome(DecodeItems(c, items).value).None?
  {
    var r := DecodeItems(c, items).value;
    assert r[1..] == DecodeItems(c, items[1..]).value;
    if !items[0].Null? { NullItem(c, items[1..]); }
  }

  /** Bytes that are no document, and documents that are no object, change
      nothing. */
  lemma UnreadableSkipped(c: Codec, cmd: Bytes)
    requires var j := c.decode(cmd); j.Some? ==> !j.value.Object?
    ensures Interpret(c, cmd) == Skip
  {
  }

  lemma BatchOf(c: Codec, items: seq<Json>)
    ensures DecodeBatch(c, Object([Member(BATCH, List(items))])) ==
            Decoded(Some(DecodeItems(c, items).value), DecodeItems(c, items).failed)
  {
    NamesDiffer();
    var ms, none: Decoded<Pointers> := [Member(BATCH, List(items))], Decoded(None, false);
    assert ms[1..] == [];
    assert BatchMembers(c, ms, none) == BatchMember(c, ms[0], none);
  }

  /** A null among the items of a batch makes the replica panic. */
  lemma NilCrashes(c: Codec, cmd: Bytes, items: seq<Json>)
    requires c.decode(cmd) == Some(Object([Member(BATCH, List(items))])) && Null in items
    requires (forall i :: 0 <= i < |items| ==> items[i].Null? || items[i].Object?) && !DecodeItems(c, items).failed
    ensures Interpret(c, cmd) == Crash
  {
    BatchOf(c, items);
    NullItem(c, items);
  }

  /** So does null for the data of an action. */
  lemma NilDataCrashes(c: Codec, cmd: Bytes)
    requires c.decode(cmd) == Some(Object([Member(DATA, Null)]))
    ensures Interpret(c, cmd) == Crash
  {
    NamesDiffer();
    var ms := [Member(DATA, Null)];
    assert ms[1..] == [];
    var none: Decoded<Pointers> := Decoded(None, false);
    assert BatchMembers(c, ms, none) == BatchMember(c, ms[0], none) == none;
    assert ActionMembers(c, ms, Decoded(Some(FRESH), false)) == ActionMember(c, ms[0], Decoded(Some(FRESH), false));
  }

  // --------------------------------- every key that is written is valid UTF-8

  lemma {:induction false} DataMembersUtf8(c: Codec, ms: seq<Member>, d: Decoded<KVData>)
    requires c.utf8(d.value.key) && c.Printable(Object(ms))
    ensures c.utf8(DataMembers(c, ms, d).value.key)
  {
    if ms != [] { DataMembersUtf8(c, ms[1..], DataMember(c, ms[0], d)); }
  }

  lemma {:induction false} ActionMembersUtf8(c: Codec, ms: seq<Member>, d: Decoded<Option<KVData>>)
    requires d.value.Some? ==> c.utf8(d.value.value.key)
    requires c.utf8([]) && c.Printable(Object(ms))
    ensures var r := ActionMembers(c, ms, d).value; r.Some? ==> c.utf8(r.value.key)
  {
    if ms != [] {
      var v := ms[0].value;
      if v.Object? {
        DataMembersUtf8(c, v.members, Decoded(if d.value.Some? then d.value.value else FRESH, false));
      }
      ActionMembersUtf8(c, ms[1..], ActionMember(c, ms[0], d));
    }
  }

  lemma {:induction false} ItemsUtf8(c: Codec, items: seq<Json>)
    requires c.utf8([]) && c.Printable(List(items))
    ensures var r := AllSome(DecodeItems(c, items).value); r.Some? ==> ValidKeys(c, r.value)
  {
    if items != [] {
      if items[0].Object? { DataMembersUtf8(c, items[0].members, Decoded(FRESH, false)); }
      ItemsUtf8(c, items[1..]);
      var r := DecodeItems(c, items).value;
      assert r[1..] == DecodeItems(c, items[1..]).value;
    }
  }

  lemma {:induction false} BatchMembersUtf8(c: Codec, ms: seq<Member>, d: Decoded<Pointers>)
    requires c.utf8([]) && c.Printable(Object(ms))
    requires d.value.Some? && AllSome(d.value.value).Some? ==> ValidKeys(c, AllSome(d.value.value).value)
    ensures var r := BatchMembers(c, ms, d).value;
            r.Some? && AllSome(r.value).Some? ==> ValidKeys(c, AllSome(r.value).value)
  {
    if ms != [] {
      if ms[0].value.List? { ItemsUtf8(c, ms[0].value.items); }
      BatchMembersUtf8(c, ms[1..], BatchMember(c, ms[0], d));
    }
  }

  predicate Utf8Ops(c: Codec, ops: seq<Op>) {
    forall i :: 0 <= i < |ops| ==> c.utf8(ops[i].key)
  }

  /** Whatever bytes arrive in the log, only valid UTF-8 keys reach the store;
      this is what makes a snapshot of the store encodable without loss. */
  lemma WritesUtf8(c: Codec, cmd: Bytes)
    requires c.Lawful()
    ensures var e := Interpret(c, cmd); e.Write? ==> Utf8Ops(c, e.ops)
  {
    assert Ascii([]);
    var doc := c.decode(cmd);
    if doc.Some? && doc.value.Object? {
      var ms := doc.value.members;
      BatchMembersUtf8(c, ms, Decoded(None, false));
      ActionMembersUtf8(c, ms, Decoded(Some(FRESH), false));
      var a := DecodeAction(c, doc.value);
      if a.value.Some? { DataMembersUtf8(c, ms, Decoded(a.value.value, false)); }
    }
  }

  /** A command's meaning as a value; the log semantics only needs this much. */
  type Meaning = Bytes -> Effect

  function MeaningOf(c: Codec): (r: Meaning) {
    (cmd: Bytes) => Interpret(c, cmd)
  }

  lemma MeaningUtf8(c: Codec)
    requires c.Lawful()
    ensures forall cmd :: MeaningOf(c)(cmd).Write? ==> Utf8Ops(c, MeaningOf(c)(cmd).ops)
  {
    forall cmd | MeaningOf(c)(cmd).Write? ensures Utf8Ops(c, MeaningOf(c)(cmd).ops) {
      WritesUtf8(c, cmd);
    }
  }
}
