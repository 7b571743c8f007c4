/** The WebAuthn readers built on the CBOR cursor: the ES256 COSE key (section 13.1.1 of
    RFC 8152), authenticatorData (section 6.1 of W3C WebAuthn), and the attestation object. */
module Webauthn {
  import opened Prelude
  import opened Cbor
  import Utf8

  const ES256_ALG := -7
  const P256_CRV := 1
  const EC2_KTY := 2

  datatype CoseError =
    | CborFailure(cbor: CborError)
    | UnsupportedAlg(got: int)
    | UnsupportedCurve(got: int)
    | UnsupportedKty(got: int)
    | MissingField(field: string)
    | BadCoordLen(field: string, len: nat)

  /** The variables the decoding loop assigns. */
  datatype Fields = Fields(
    kty: Option<int>, alg: Option<int>, crv: Option<int>,
    x: Option<seq<Byte>>, y: Option<seq<Byte>>)

  const NoFields := Fields(None, None, None, None, None)

  /** One turn of the loop: an integer label, then a value read or skipped. */
  function ReadEntry(s: seq<Byte>, f: Fields): Result<Parsed<Fields>, CborError> {
    var key :- ReadInt(s);
    if key.value == 1 then
      var v :- ReadInt(key.rest);
      Ok(Parsed(f.(kty := Some(v.value)), v.rest))
    else if key.value == 3 then
      var v :- ReadInt(key.rest);
      Ok(Parsed(f.(alg := Some(v.value)), v.rest))
    else if key.value == -1 then
      var v :- ReadInt(key.rest);
      Ok(Parsed(f.(crv := Some(v.value)), v.rest))
    else if key.value == -2 then
      var v :- ReadBytes(key.rest);
      Ok(Parsed(f.(x := Some(v.value)), v.rest))
    else if key.value == -3 then
      var v :- ReadBytes(key.rest);
      Ok(Parsed(f.(y := Some(v.value)), v.rest))
    else
      var rest :- Skip(key.rest, 0);
      Ok(Parsed(f, rest))
  }

  function ReadEntries(s: seq<Byte>, n: nat, f: Fields): Result<Parsed<Fields>, CborError>
    decreases n
  {
    if n == 0 then Ok(Parsed(f, s))
    else
      var e :- ReadEntry(s, f);
      ReadEntries(e.rest, n - 1, e.value)
  }

  /** The checks after the loop, and the SEC1-uncompressed point. */
  function Finish(f: Fields): (r: Result<seq<Byte>, CoseError>)
    ensures r.Ok? <==> && f.kty == Some(EC2_KTY) && f.alg in {None, Some(ES256_ALG)} && f.crv == Some(P256_CRV)
                       && f.x.Some? && |f.x.value| == 32 && f.y.Some? && |f.y.value| == 32
    ensures r.Ok? ==> |r.value| == 65 && r.value[1..33] == f.x.value && r.value[33..] == f.y.value
  {
    if f.kty == None then Err(MissingField("kty"))
    else if f.kty.value != EC2_KTY then Err(UnsupportedKty(f.kty.value))
    else if f.alg.Some? && f.alg.value != ES256_ALG then Err(UnsupportedAlg(f.alg.value))
    else if f.crv == None then Err(MissingField("crv"))
    else if f.crv.value != P256_CRV then Err(UnsupportedCurve(f.crv.value))
    else if f.x == None then Err(MissingField("x"))
    else if f.y == None then Err(MissingField("y"))
    else if |f.x.value| != 32 then Err(BadCoordLen("x", |f.x.value|))
    else if |f.y.value| != 32 then Err(BadCoordLen("y", |f.y.value|))
    else Ok([0x04] + f.x.value + f.y.value)
  }

  /** The loop's result on a whole COSE key: the fields, and where its cursor stops. */
  function ReadKeyMap(bytes: seq<Byte>): Result<Parsed<Fields>, CborError> {
    var n :- ReadMapHeader(bytes);
    ReadEntries(n.rest, n.value, NoFields)
  }

  function DecodeEs256(bytes: seq<Byte>): Result<seq<Byte>, CoseError> {
    match ReadKeyMap(bytes)
    case Err(e) => Err(CborFailure(e))
    case Ok(p) => Finish(p.value)
  }

  /** One turn of the loop on the cursor. */
  method NextEntry(c: Cursor, f: Fields) returns (r: Result<Fields, CborError>)
    modifies c
    ensures match ReadEntry(old(c.buf), f)
            case Ok(p) => r == Ok(p.value) && c.buf == p.rest
            case Err(e) => r == Err(e)
  {
    var key :- c.ReadInteger();
    if key == 1 || key == 3 || key == -1 {
      var v :- c.ReadInteger();
      return Ok(if key == 1 then f.(kty := Some(v)) else if key == 3 then f.(alg := Some(v)) else f.(crv := Some(v)));
    }
    if key == -2 || key == -3 {
      var v :- c.ReadStringOf(MAJOR_BYTES);
      return Ok(if key == -2 then f.(x := Some(v)) else f.(y := Some(v)));
    }
    var _ :- c.SkipValue(0);
    return Ok(f);
  }

  /** `decode_es256`. The cursor `c` is the one the loop advanced. */
  method DecodeKey(bytes: seq<Byte>) returns (r: Result<seq<Byte>, CoseError>, c: Cursor)
    ensures r == DecodeEs256(bytes) && fresh(c)
    ensures r.Ok? ==> c.buf == ReadKeyMap(bytes).value.rest
  {
    hide ReadEntry, ReadMapHeader;
    c := new Cursor(bytes);
    var n := c.ReadMapCount();
    if n.Err? {
      return Err(CborFailure(n.error)), c;
    }
    ghost var start := c.buf;
    var f := NoFields;
    var i: int := 0;
    while i < n.value
      invariant 0 <= i <= n.value
      invariant ReadEntries(start, n.value, NoFields) == ReadEntries(c.buf, n.value - i, f)
    {
      var e := NextEntry(c, f);
      if e.Err? {
        return Err(CborFailure(e.error)), c;
      }
      f := e.value;
      i := i + 1;
    }
    r := Finish(f);
  }

  // ---- keys as lists of items -------------------------------------------------------

  predicate Known(lbl: int) {
    lbl in {1, 3, -1, -2, -3}
  }

  /** The integer an item denotes to `read_int`. */
  function IntOf(it: Item): Option<int> {
    match it
    case UInt(_, v) => if v <= I64_MAX then Some(v) else None
    case NInt(_, v) => if v <= I64_MAX then Some(-1 - v) else None
    case _ => None
  }

  /** The fields after an entry with this label and value; None when the reader refuses it. */
  function Assign(f: Fields, lbl: int, v: Item): Option<Fields> {
    if lbl == 1 then if IntOf(v).Some? then Some(f.(kty := IntOf(v))) else None
    else if lbl == 3 then if IntOf(v).Some? then Some(f.(alg := IntOf(v))) else None
    else if lbl == -1 then if IntOf(v).Some? then Some(f.(crv := IntOf(v))) else None
    else if lbl == -2 then if v.Bytes? then Some(f.(x := Some(v.data))) else None
    else if lbl == -3 then if v.Bytes? then Some(f.(y := Some(v.data))) else None
    else if Depth(v) <= MAX_NESTING then Some(f) else None
  }

  /** The fields after a list of keys and values in turn. */
  function FieldsOf(kvs: seq<Item>, f: Fields): Option<Fields>
    requires |kvs| % 2 == 0
  {
    if kvs == [] then Some(f)
    else if IntOf(kvs[0]) == None then None
    else
      match Assign(f, IntOf(kvs[0]).value, kvs[1])
      case None => None
      case Some(g) => FieldsOf(kvs[2..], g)
  }

  /** A leaf read on an encoded item sees the item's head and content. */
  lemma HeadOfEncoded(it: Item, rest: seq<Byte>)
    requires Proper(it)
    ensures ReadHead(Encode(it) + rest) == Ok(Parsed(Head(MajorOf(it), ArgOf(it)), Content(it) + rest))
  {
    hide ReadHead, HeadBytes;
    assert Encode(it) + rest == HeadBytes(MajorOf(it), it.w, ArgOf(it)) + (Content(it) + rest);
    ReadHeadBytes(MajorOf(it), it.w, ArgOf(it), Content(it) + rest);
  }

  lemma ReadIntEncoded(it: Item, rest: seq<Byte>)
    requires Proper(it)
    ensures IntOf(it).Some? ==> ReadInt(Encode(it) + rest) == Ok(Parsed(IntOf(it).value, rest))
    ensures IntOf(it).None? ==> ReadInt(Encode(it) + rest).Err?
  {
    hide ReadHead, Encode;
    HeadOfEncoded(it, rest);
    assert IntOf(it).Some? ==> Content(it) + rest == rest;
  }

  lemma ReadBytesEncoded(it: Item, rest: seq<Byte>)
    requires Proper(it)
    ensures it.Bytes? ==> ReadBytes(Encode(it) + rest) == Ok(Parsed(it.data, rest))
    ensures !it.Bytes? ==> ReadBytes(Encode(it) + rest).Err?
  {
    hide ReadHead, Encode;
    HeadOfEncoded(it, rest);
    if it.Bytes? {
      assert (it.data + rest)[..|it.data|] == it.data && (it.data + rest)[|it.data|..] == rest;
    }
  }

  lemma ReadEntryEncoded(k: Item, v: Item, rest: seq<Byte>, f: Fields)
    requires Proper(k) && Proper(v)
    ensures var r := ReadEntry(Encode(k) + (Encode(v) + rest), f);
            if IntOf(k).None? then r.Err?
            else match Assign(f, IntOf(k).value, v)
                 case None => r.Err?
                 case Some(g) => r == Ok(Parsed(g, rest))
  {
    hide ReadInt, ReadBytes, Skip, Encode;
    ReadIntEncoded(k, Encode(v) + rest);
    ReadIntEncoded(v, rest);
    ReadBytesEncoded(v, rest);
    SkipEncoded(v, rest, 0);
  }

  lemma EncodeManyPair(kvs: seq<Item>, rest: seq<Byte>)
    requires AllProper(kvs) && |kvs| >= 2
    ensures EncodeMany(kvs) + rest == Encode(kvs[0]) + (Encode(kvs[1]) + (EncodeMany(kvs[2..]) + rest))
  {
    hide Encode, Proper;
    var more := kvs[1..];
    assert more[0] == kvs[1] && more[1..] == kvs[2..];
    assert EncodeMany(kvs) == Encode(kvs[0]) + EncodeMany(more);
    assert EncodeMany(more) == Encode(kvs[1]) + EncodeMany(kvs[2..]);
    hide EncodeMany;
    AppendAssoc(Encode(kvs[0]), EncodeMany(more), rest);
    AppendAssoc(Encode(kvs[1]), EncodeMany(kvs[2..]), rest);
  }

  /** On encoded entries the loop computes exactly the item-level fields. */
  lemma {:induction false} ReadEntriesEncoded(kvs: seq<Item>, rest: seq<Byte>, f: Fields)
    requires AllProper(kvs) && |kvs| % 2 == 0
    ensures var r := ReadEntries(EncodeMany(kvs) + rest, |kvs| / 2, f);
            match FieldsOf(kvs, f)
            case None => r.Err?
            case Some(g) => r == Ok(Parsed(g, rest))
    decreases |kvs|
  {
    hide ReadEntry, Assign, Encode, IntOf;
    if kvs == [] {
      assert EncodeMany(kvs) + rest == rest;
    } else {
      EncodeManyPair(kvs, rest);
      var tail := EncodeMany(kvs[2..]) + rest;
      ReadEntryEncoded(kvs[0], kvs[1], tail, f);
      if IntOf(kvs[0]).Some? && Assign(f, IntOf(kvs[0]).value, kvs[1]).Some? {
        ReadEntriesEncoded(kvs[2..], rest, Assign(f, IntOf(kvs[0]).value, kvs[1]).value);
      }
    }
  }

  lemma IntIsItem(s: seq<Byte>) returns (it: Item)
    requires ReadInt(s).Ok?
    ensures Proper(it) && IntOf(it) == Some(ReadInt(s).value.value) && s == Encode(it) + ReadInt(s).value.rest
  {
    hide ReadHead, HeadBytes;
    var w := HeadIsWritten(s);
    var h := ReadHead(s).value;
    it := if h.value.major == MAJOR_UINT then UInt(w, h.value.value) else NInt(w, h.value.value);
    assert Encode(it) == HeadBytes(MajorOf(it), w, h.value.value) + [];
  }

  lemma BytesIsItem(s: seq<Byte>) returns (it: Item)
    requires ReadBytes(s).Ok?
    ensures Proper(it) && it.Bytes? && it.data == ReadBytes(s).value.value && s == Encode(it) + ReadBytes(s).value.rest
  {
    hide ReadHead, HeadBytes;
    var w := HeadIsWritten(s);
    var h := ReadHead(s).value;
    var n := h.value.value;
    it := Bytes(w, h.rest[..n]);
    var head := HeadBytes(MAJOR_BYTES, w, n);
    assert h.rest == h.rest[..n] + h.rest[n..];
    assert head + (h.rest[..n] + h.rest[n..]) == (head + h.rest[..n]) + h.rest[n..];
  }

  /** Every entry the loop accepts is a label item and a value item. */
  lemma EntryIsItems(s: seq<Byte>, f: Fields) returns (k: Item, v: Item)
    requires ReadEntry(s, f).Ok?
    ensures Proper(k) && Proper(v) && IntOf(k).Some?
    ensures s == Encode(k) + (Encode(v) + ReadEntry(s, f).value.rest)
    ensures Assign(f, IntOf(k).value, v) == Some(ReadEntry(s, f).value.value)
  {
    hide Encode, ReadInt, ReadBytes, Skip;
    k := IntIsItem(s);
    var lbl, t := IntOf(k).value, ReadInt(s).value.rest;
    if lbl == 1 || lbl == 3 || lbl == -1 {
      v := IntIsItem(t);
    } else if lbl == -2 || lbl == -3 {
      v := BytesIsItem(t);
    } else {
      v := SkippedIsItem(t, 0);
    }
  }

  lemma {:induction false} EntriesAreItems(s: seq<Byte>, n: nat, f: Fields) returns (kvs: seq<Item>)
    requires ReadEntries(s, n, f).Ok?
    ensures |kvs| == 2 * n && |kvs| % 2 == 0 && AllProper(kvs)
    ensures s == EncodeMany(kvs) + ReadEntries(s, n, f).value.rest
    ensures FieldsOf(kvs, f) == Some(ReadEntries(s, n, f).value.value)
    decreases n
  {
    hide Encode, ReadEntry, Assign;
    if n == 0 {
      kvs := [];
    } else {
      var k, v := EntryIsItems(s, f);
      var e := ReadEntry(s, f).value;
      var more := EntriesAreItems(e.rest, n - 1, e.value);
      kvs := [k, v] + more;
      assert kvs[2..] == more;
      EncodeManyPair(kvs, ReadEntries(s, n, f).value.rest);
    }
  }

  /** The item list of a key the decoder's loop accepts: the loop's cursor ends right after
      the encoded map, and its fields are those of the list. */
  lemma KeyMapIsItems(s: seq<Byte>) returns (it: Item)
    requires ReadKeyMap(s).Ok?
    ensures Proper(it) && it.Map? && s == Encode(it) + ReadKeyMap(s).value.rest
    ensures FieldsOf(it.kvs, NoFields) == Some(ReadKeyMap(s).value.value)
  {
    hide HeadBytes, ReadHead, ReadEntries, FieldsOf;
    var w := HeadIsWritten(s);
    var h := ReadHead(s).value;
    var kvs := EntriesAreItems(h.rest, h.value.value, NoFields);
    it := Map(w, kvs);
    var head, rest := HeadBytes(MAJOR_MAP, w, h.value.value), ReadKeyMap(s).value.rest;
    assert head + (EncodeMany(kvs) + rest) == (head + EncodeMany(kvs)) + rest;
  }

  // ---- the two cursors ------------------------------------------------------------------

  /** When the key decoder accepts, `skip_value` over the same bytes stops at the same byte,
      unless some value nests six levels: the decoder skips unknown values from level 0 while
      the outer skip meets them at level 1, so then, and only then, the skip is refused. */
  lemma CursorsAgree(s: seq<Byte>) returns (it: Item)
    requires ReadKeyMap(s).Ok?
    ensures Proper(it) && it.Map? && s == Encode(it) + ReadKeyMap(s).value.rest
    ensures Skip(s, 0) ==
            if Depth(it) <= MAX_NESTING then Ok(ReadKeyMap(s).value.rest) else Err(NestingTooDeep)
  {
    hide Encode, ReadKeyMap, Skip;
    it := KeyMapIsItems(s);
    SkipEncoded(it, ReadKeyMap(s).value.rest, 0);
  }

  /** The refusal does happen: an ES256 key with one unknown entry whose value is six nested
      one-element arrays decodes, yet `skip_value` over the same bytes fails. */
  lemma DeepUnknownEntry() returns (s: seq<Byte>)
    ensures DecodeEs256(s).Ok? && Skip(s, 0) == Err(NestingTooDeep)
  {
    hide Encode, EncodeMany, ReadHead, Skip, FieldsOf, Finish, ReadEntries;
    var kvs := DeepEntries();
    var key := Map(W0, kvs);
    s := Encode(key);
    assert s + [] == s;
    SkipEncoded(key, [], 0);
    HeadOfEncoded(key, []);
    ReadEntriesEncoded(kvs, [], NoFields);
    FiveEntries(kvs);
  }

  lemma DeepEntries() returns (kvs: seq<Item>)
    ensures |kvs| == 10 && AllProper(kvs) && MaxDepth(kvs) > MAX_NESTING
    ensures IntOf(kvs[0]) == Some(1) && IntOf(kvs[1]) == Some(EC2_KTY)
    ensures IntOf(kvs[2]) == Some(-1) && IntOf(kvs[3]) == Some(P256_CRV)
    ensures IntOf(kvs[4]) == Some(-2) && kvs[5].Bytes? && |kvs[5].data| == 32
    ensures IntOf(kvs[6]) == Some(-3) && kvs[7].Bytes? && |kvs[7].data| == 32
    ensures IntOf(kvs[8]) == Some(4) && Depth(kvs[9]) <= MAX_NESTING
  {
    hide MaxDepth;
    var coord := seq(32, i => 0);
    kvs := [UInt(W0, 1), UInt(W0, 2), NInt(W0, 0), UInt(W0, 1), NInt(W0, 1), Bytes(W1, coord),
            NInt(W0, 2), Bytes(W1, coord), UInt(W0, 4), Nest(6)];
    NestIs(6);
    MaxDepthAtLeast(kvs, 9);
  }

  lemma {:induction false} MaxDepthAtLeast(items: seq<Item>, i: nat)
    requires i < |items|
    ensures MaxDepth(items) >= 1 + Depth(items[i])
  {
    if i > 0 {
      MaxDepthAtLeast(items[1..], i - 1);
    }
  }

  lemma FiveEntries(kvs: seq<Item>)
    requires |kvs| == 10
    requires IntOf(kvs[0]) == Some(1) && IntOf(kvs[1]) == Some(EC2_KTY)
    requires IntOf(kvs[2]) == Some(-1) && IntOf(kvs[3]) == Some(P256_CRV)
    requires IntOf(kvs[4]) == Some(-2) && kvs[5].Bytes? && |kvs[5].data| == 32
    requires IntOf(kvs[6]) == Some(-3) && kvs[7].Bytes? && |kvs[7].data| == 32
    requires IntOf(kvs[8]) == Some(4) && Depth(kvs[9]) <= MAX_NESTING
    ensures FieldsOf(kvs, NoFields).Some? && Finish(FieldsOf(kvs, NoFields).value).Ok?
  {
    hide IntOf, Depth;
    assert kvs[2..][2..] == kvs[4..] && kvs[4..][2..] == kvs[6..] && kvs[6..][2..] == kvs[8..] && kvs[8..][2..] == [];
    var f1 := NoFields.(kty := Some(EC2_KTY));
    var f2 := f1.(crv := Some(P256_CRV));
    var f3 := f2.(x := Some(kvs[5].data));
    var f4 := f3.(y := Some(kvs[7].data));
    assert FieldsOf(kvs[8..], f4) == Some(f4);
    assert FieldsOf(kvs[6..], f3) == Some(f4);
    assert FieldsOf(kvs[4..], f2) == Some(f4);
    assert FieldsOf(kvs[2..], f1) == Some(f4);
  }

  // ---- order and unknown entries --------------------------------------------------------

  datatype Value = IntValue(n: int) | BytesValue(bytes: seq<Byte>) | OtherValue

  /** What the decoder can tell apart of a value. */
  function ValueOf(it: Item): Value {
    if IntOf(it).Some? then IntValue(IntOf(it).value)
    else if it.Bytes? then BytesValue(it.data)
    else OtherValue
  }

  /** Entry `i` of a list of keys and values in turn. */
  function LabelAt(kvs: seq<Item>, i: nat): Option<int>
    requires 2 * i < |kvs|
  {
    IntOf(kvs[2 * i])
  }

  ghost predicate DistinctLabels(kvs: seq<Item>) {
    forall i: nat, j: nat :: i < j && 2 * j < |kvs| ==> LabelAt(kvs, i) != LabelAt(kvs, j)
  }

  /** Entry `i` carries a label the decoder knows, with this value. */
  predicate HasEntry(kvs: seq<Item>, i: nat, lbl: int, v: Value) {
    2 * i + 1 < |kvs| && LabelAt(kvs, i) == Some(lbl) && ValueOf(kvs[2 * i + 1]) == v
  }

  ghost predicate SomeEntry(kvs: seq<Item>, lbl: int, v: Value) {
    exists i: nat :: HasEntry(kvs, i, lbl, v)
  }

  /** The two lists agree on the labels the decoder knows, in whatever order and among
      whatever other entries. */
  ghost predicate SameKnown(a: seq<Item>, b: seq<Item>) {
    forall lbl, v :: Known(lbl) ==> (SomeEntry(a, lbl, v) <==> SomeEntry(b, lbl, v))
  }

  /** The value a field holds, as an entry's value. */
  function Held(f: Fields, lbl: int): Option<Value>
    requires Known(lbl)
  {
    if lbl == 1 then if f.kty.Some? then Some(IntValue(f.kty.value)) else None
    else if lbl == 3 then if f.alg.Some? then Some(IntValue(f.alg.value)) else None
    else if lbl == -1 then if f.crv.Some? then Some(IntValue(f.crv.value)) else None
    else if lbl == -2 then if f.x.Some? then Some(BytesValue(f.x.value)) else None
    else if f.y.Some? then Some(BytesValue(f.y.value)) else None
  }

  /** With distinct labels, a field ends up holding the value of its one entry, and stays
      as it was when there is none. */
  lemma {:induction false} HeldIsEntry(kvs: seq<Item>, f: Fields, lbl: int)
    requires |kvs| % 2 == 0 && Known(lbl) && FieldsOf(kvs, f).Some? && DistinctLabels(kvs)
    ensures forall v :: SomeEntry(kvs, lbl, v) ==> Held(FieldsOf(kvs, f).value, lbl) == Some(v)
    ensures (forall v :: !SomeEntry(kvs, lbl, v)) ==> Held(FieldsOf(kvs, f).value, lbl) == Held(f, lbl)
    decreases |kvs|
  {
    if kvs == [] {
    } else {
      FieldsNext(kvs, f);
      var rest := kvs[2..];
      var g := Assign(f, IntOf(kvs[0]).value, kvs[1]).value;
      AssignHeld(f, IntOf(kvs[0]).value, kvs[1], lbl);
      hide FieldsOf, Assign, Held, ValueOf;
      assert forall i: nat :: 2 * i < |rest| ==> LabelAt(rest, i) == LabelAt(kvs, i + 1);
      HeldIsEntry(rest, g, lbl);
      assert LabelAt(kvs, 0) == IntOf(kvs[0]);
      forall v
        ensures SomeEntry(kvs, lbl, v) <==> SomeEntry(rest, lbl, v) || HasEntry(kvs, 0, lbl, v)
      {
        SomeEntryCons(kvs, lbl, v);
      }
      if LabelAt(kvs, 0) == Some(lbl) {
        assert forall v :: !SomeEntry(rest, lbl, v);
        assert HasEntry(kvs, 0, lbl, ValueOf(kvs[1]));
      }
    }
  }

  lemma FieldsNext(kvs: seq<Item>, f: Fields)
    requires |kvs| % 2 == 0 && kvs != [] && FieldsOf(kvs, f).Some?
    ensures IntOf(kvs[0]).Some? && Assign(f, IntOf(kvs[0]).value, kvs[1]).Some?
    ensures FieldsOf(kvs, f) == FieldsOf(kvs[2..], Assign(f, IntOf(kvs[0]).value, kvs[1]).value)
  {
    hide Assign;
  }

  lemma AssignHeld(f: Fields, k: int, v: Item, lbl: int)
    requires Known(lbl) && Assign(f, k, v).Some?
    ensures Held(Assign(f, k, v).value, lbl) == if k == lbl then Some(ValueOf(v)) else Held(f, lbl)
  {
  }

  lemma SomeEntryCons(kvs: seq<Item>, lbl: int, v: Value)
    requires |kvs| >= 2
    ensures SomeEntry(kvs, lbl, v) <==> SomeEntry(kvs[2..], lbl, v) || HasEntry(kvs, 0, lbl, v)
  {
    var rest := kvs[2..];
    if SomeEntry(kvs, lbl, v) {
      var i: nat :| HasEntry(kvs, i, lbl, v);
      if i > 0 {
        assert HasEntry(rest, i - 1, lbl, v);
      }
    }
    if SomeEntry(rest, lbl, v) {
      var i: nat :| HasEntry(rest, i, lbl, v);
      assert HasEntry(kvs, i + 1, lbl, v);
    }
  }

  lemma SameFields(a: seq<Item>, b: seq<Item>, lbl: int)
    requires |a| % 2 == 0 && |b| % 2 == 0 && DistinctLabels(a) && DistinctLabels(b) && SameKnown(a, b) && Known(lbl)
    requires FieldsOf(a, NoFields).Some? && FieldsOf(b, NoFields).Some?
    ensures Held(FieldsOf(a, NoFields).value, lbl) == Held(FieldsOf(b, NoFields).value, lbl)
  {
    HeldIsEntry(a, NoFields, lbl);
    HeldIsEntry(b, NoFields, lbl);
    if v :| SomeEntry(a, lbl, v) {
      assert SomeEntry(b, lbl, v);
    }
  }

  /** Two keys whose maps carry distinct labels and agree on the five known ones decode
      alike, to the same 65 bytes or the same refusal, whatever their entry order, their
      unknown entries, and the integer widths they were written with. */
  lemma KeyIgnoresOrderAndUnknowns(s: seq<Byte>, t: seq<Byte>, a: Item, b: Item)
    requires Proper(a) && a.Map? && Proper(b) && b.Map?
    requires ReadKeyMap(s).Ok? && s == Encode(a) + ReadKeyMap(s).value.rest
    requires ReadKeyMap(t).Ok? && t == Encode(b) + ReadKeyMap(t).value.rest
    requires DistinctLabels(a.kvs) && DistinctLabels(b.kvs) && SameKnown(a.kvs, b.kvs)
    ensures DecodeEs256(s) == DecodeEs256(t)
  {
    hide ReadKeyMap, DistinctLabels, SameKnown, FieldsOf, Encode, Finish;
    FieldsOfEncoded(s, a);
    FieldsOfEncoded(t, b);
    SameFields(a.kvs, b.kvs, 1);
    SameFields(a.kvs, b.kvs, 3);
    SameFields(a.kvs, b.kvs, -1);
    SameFields(a.kvs, b.kvs, -2);
    SameFields(a.kvs, b.kvs, -3);
  }

  lemma FieldsOfEncoded(s: seq<Byte>, it: Item)
    requires Proper(it) && it.Map? && ReadKeyMap(s).Ok? && s == Encode(it) + ReadKeyMap(s).value.rest
    ensures FieldsOf(it.kvs, NoFields) == Some(ReadKeyMap(s).value.value)
  {
    hide ReadHead, Encode, FieldsOf, ReadEntries;
    var rest := ReadKeyMap(s).value.rest;
    HeadOfEncoded(it, rest);
    ReadEntriesEncoded(it.kvs, rest, NoFields);
  }

  // ---- which keys decode ------------------------------------------------------------------

  /** An entry the loop can read: an integer label, with an integer under 1, 3 and -1, a byte
      string under -2 and -3, and anything not nested too deep under the others. */
  predicate EntryFits(k: Item, v: Item) {
    && IntOf(k).Some?
    && var lbl := IntOf(k).value;
       if lbl == 1 || lbl == 3 || lbl == -1 then IntOf(v).Some?
       else if lbl == -2 || lbl == -3 then v.Bytes?
       else Depth(v) <= 6
  }

  predicate AllFit(kvs: seq<Item>) {
    forall i :: 0 <= i < |kvs| / 2 ==> EntryFits(kvs[2 * i], kvs[2 * i + 1])
  }

  lemma {:induction false} FieldsIff(kvs: seq<Item>, f: Fields)
    requires |kvs| % 2 == 0
    ensures FieldsOf(kvs, f).Some? <==> AllFit(kvs)
    decreases |kvs|
  {
    if kvs != [] {
      var rest := kvs[2..];
      assert AllFit(kvs) <==> EntryFits(kvs[0], kvs[1]) && AllFit(rest) by {
        FitCons(kvs);
      }
      hide AllFit;
      if EntryFits(kvs[0], kvs[1]) {
        FieldsIff(rest, Assign(f, IntOf(kvs[0]).value, kvs[1]).value);
      }
    }
  }

  lemma FitCons(kvs: seq<Item>)
    requires |kvs| % 2 == 0 && kvs != []
    ensures AllFit(kvs) <==> EntryFits(kvs[0], kvs[1]) && AllFit(kvs[2..])
  {
    hide EntryFits;
    var rest := kvs[2..];
    if AllFit(kvs) {
      assert EntryFits(kvs[2 * 0], kvs[2 * 0 + 1]);
      forall i | 0 <= i < |rest| / 2
        ensures EntryFits(rest[2 * i], rest[2 * i + 1])
      {
        assert EntryFits(kvs[2 * (i + 1)], kvs[2 * (i + 1) + 1]);
      }
    }
    if EntryFits(kvs[0], kvs[1]) && AllFit(rest) {
      forall i | 0 <= i < |kvs| / 2
        ensures EntryFits(kvs[2 * i], kvs[2 * i + 1])
      {
        if i > 0 {
          assert EntryFits(rest[2 * (i - 1)], rest[2 * (i - 1) + 1]);
        }
      }
    }
  }

  /** With distinct labels a field holds a value exactly when that is its entry's. */
  lemma HeldIff(kvs: seq<Item>, lbl: int, v: Value)
    requires |kvs| % 2 == 0 && Known(lbl) && FieldsOf(kvs, NoFields).Some? && DistinctLabels(kvs)
    ensures SomeEntry(kvs, lbl, v) <==> Held(FieldsOf(kvs, NoFields).value, lbl) == Some(v)
  {
    hide FieldsOf, DistinctLabels, SomeEntry;
    HeldIsEntry(kvs, NoFields, lbl);
    assert Held(NoFields, lbl) == None;
  }

  /** The checks after the loop, and the point, of the values held. */
  lemma FinishHeld(f: Fields, x: seq<Byte>, y: seq<Byte>)
    ensures Finish(f) == Ok([0x04] + x + y) && |x| == |y| == 32 <==>
            && Held(f, 1) == Some(IntValue(2)) && Held(f, -1) == Some(IntValue(1))
            && (Held(f, 3) == None || Held(f, 3) == Some(IntValue(-7)))
            && Held(f, -2) == Some(BytesValue(x)) && Held(f, -3) == Some(BytesValue(y)) && |x| == |y| == 32
    ensures Finish(f).Ok? ==>
              && f.x.Some? && f.y.Some? && |f.x.value| == |f.y.value| == 32
              && Finish(f) == Ok([0x04] + f.x.value + f.y.value)
  {
    if Finish(f).Ok? && |x| == |y| == 32 {
      var p, q := f.x.value, f.y.value;
      var a, b := [0x04] + x + y, [0x04] + p + q;
      assert a[1..33] == x && a[33..] == y && b[1..33] == p && b[33..] == q;
    }
  }

  /** A map with distinct labels decodes to a point exactly when it can be read, is of key type
      2 and on curve 1, names no other algorithm than -7, and has these coordinates, of 32
      bytes each. */
  lemma DecodesIff(it: Item, rest: seq<Byte>, x: seq<Byte>, y: seq<Byte>)
    requires Proper(it) && it.Map? && DistinctLabels(it.kvs) && |x| == |y| == 32
    ensures DecodeEs256(Encode(it) + rest) == Ok([0x04] + x + y) <==>
            && AllFit(it.kvs) && SomeEntry(it.kvs, 1, IntValue(2)) && SomeEntry(it.kvs, -1, IntValue(1))
            && (forall v :: SomeEntry(it.kvs, 3, v) ==> v == IntValue(-7))
            && SomeEntry(it.kvs, -2, BytesValue(x)) && SomeEntry(it.kvs, -3, BytesValue(y))
  {
    assert |it.kvs| % 2 == 0;
    hide Encode, FieldsOf, AllFit, DistinctLabels, SomeEntry, ReadHead, ReadEntries, Proper, AllProper, Finish;
    KeyMapRead(it, rest);
    FieldsIff(it.kvs, NoFields);
    if AllFit(it.kvs) {
      var f := FieldsOf(it.kvs, NoFields).value;
      FinishHeld(f, x, y);
      HeldIff(it.kvs, 1, IntValue(2));
      HeldIff(it.kvs, -1, IntValue(1));
      HeldIff(it.kvs, -2, BytesValue(x));
      HeldIff(it.kvs, -3, BytesValue(y));
      forall v
        ensures SomeEntry(it.kvs, 3, v) <==> Held(f, 3) == Some(v)
      {
        HeldIff(it.kvs, 3, v);
      }
      hide Held;
    }
  }

  /** And to nothing else. */
  lemma DecodedPoint(s: seq<Byte>) returns (x: seq<Byte>, y: seq<Byte>)
    requires DecodeEs256(s).Ok?
    ensures |x| == |y| == 32 && DecodeEs256(s) == Ok([0x04] + x + y)
  {
    hide ReadKeyMap, Finish;
    var f := ReadKeyMap(s).value.value;
    FinishHeld(f, [], []);
    x, y := f.x.value, f.y.value;
  }

  ghost predicate NoEntry(kvs: seq<Item>, lbl: int) {
    forall v :: !SomeEntry(kvs, lbl, v)
  }

  lemma HeldNone(kvs: seq<Item>, lbl: int)
    requires |kvs| % 2 == 0 && Known(lbl) && FieldsOf(kvs, NoFields).Some? && DistinctLabels(kvs)
    ensures NoEntry(kvs, lbl) <==> Held(FieldsOf(kvs, NoFields).value, lbl) == None
  {
    hide FieldsOf, DistinctLabels, SomeEntry;
    var held := Held(FieldsOf(kvs, NoFields).value, lbl);
    if held.Some? {
      HeldIff(kvs, lbl, held.value);
    } else {
      forall v
        ensures !SomeEntry(kvs, lbl, v)
      {
        HeldIff(kvs, lbl, v);
      }
    }
  }

  /** The fields a readable map leaves, by its entries. */
  lemma HeldByEntries(it: Item, rest: seq<Byte>, n: int, x: seq<Byte>) returns (f: Fields)
    requires Proper(it) && it.Map? && DistinctLabels(it.kvs) && AllFit(it.kvs)
    ensures DecodeEs256(Encode(it) + rest) == Finish(f)
    ensures forall lbl :: Known(lbl) ==>
              && (NoEntry(it.kvs, lbl) <==> Held(f, lbl) == None)
              && (SomeEntry(it.kvs, lbl, IntValue(n)) <==> Held(f, lbl) == Some(IntValue(n)))
              && (SomeEntry(it.kvs, lbl, BytesValue(x)) <==> Held(f, lbl) == Some(BytesValue(x)))
  {
    assert |it.kvs| % 2 == 0;
    hide Encode, FieldsOf, AllFit, DistinctLabels, SomeEntry, NoEntry, Held, ReadHead, ReadEntries, Proper, Finish;
    KeyMapRead(it, rest);
    FieldsIff(it.kvs, NoFields);
    f := FieldsOf(it.kvs, NoFields).value;
    forall lbl | Known(lbl)
      ensures NoEntry(it.kvs, lbl) <==> Held(f, lbl) == None
      ensures SomeEntry(it.kvs, lbl, IntValue(n)) <==> Held(f, lbl) == Some(IntValue(n))
      ensures SomeEntry(it.kvs, lbl, BytesValue(x)) <==> Held(f, lbl) == Some(BytesValue(x))
    {
      HeldNone(it.kvs, lbl);
      HeldIff(it.kvs, lbl, IntValue(n));
      HeldIff(it.kvs, lbl, BytesValue(x));
    }
  }

  /** Why a readable map is refused: its key type, then its algorithm, then its curve. */
  lemma RefusedType(it: Item, rest: seq<Byte>, n: int)
    requires Proper(it) && it.Map? && DistinctLabels(it.kvs) && AllFit(it.kvs)
    ensures var r, kvs := DecodeEs256(Encode(it) + rest), it.kvs;
            && (NoEntry(kvs, 1) ==> r == Err(MissingField("kty")))
            && (SomeEntry(kvs, 1, IntValue(n)) && n != 2 ==> r == Err(UnsupportedKty(n)))
            && (SomeEntry(kvs, 1, IntValue(2)) ==>
                  && (SomeEntry(kvs, 3, IntValue(n)) && n != -7 ==> r == Err(UnsupportedAlg(n)))
                  && (NoEntry(kvs, 3) || SomeEntry(kvs, 3, IntValue(-7)) ==>
                        && (NoEntry(kvs, -1) ==> r == Err(MissingField("crv")))
                        && (SomeEntry(kvs, -1, IntValue(n)) && n != 1 ==> r == Err(UnsupportedCurve(n)))))
  {
    hide Encode, DecodeEs256, AllFit, DistinctLabels, SomeEntry, NoEntry, Proper;
    var f := HeldByEntries(it, rest, n, []);
    var f2 := HeldByEntries(it, rest, 2, []);
    var f3 := HeldByEntries(it, rest, -7, []);
  }

  /** And then its coordinates, both of them before their lengths. */
  lemma RefusedCoordinates(it: Item, rest: seq<Byte>, x: seq<Byte>, y: seq<Byte>)
    requires Proper(it) && it.Map? && DistinctLabels(it.kvs) && AllFit(it.kvs)
    requires SomeEntry(it.kvs, 1, IntValue(2)) && SomeEntry(it.kvs, -1, IntValue(1))
    requires NoEntry(it.kvs, 3) || SomeEntry(it.kvs, 3, IntValue(-7))
    ensures var r, kvs := DecodeEs256(Encode(it) + rest), it.kvs;
            && (NoEntry(kvs, -2) ==> r == Err(MissingField("x")))
            && (SomeEntry(kvs, -2, BytesValue(x)) && NoEntry(kvs, -3) ==> r == Err(MissingField("y")))
            && (SomeEntry(kvs, -2, BytesValue(x)) && SomeEntry(kvs, -3, BytesValue(y)) ==>
                  && (|x| != 32 ==> r == Err(BadCoordLen("x", |x|)))
                  && (|x| == 32 && |y| != 32 ==> r == Err(BadCoordLen("y", |y|))))
  {
    hide Encode, DecodeEs256, AllFit, DistinctLabels, SomeEntry, NoEntry, Proper;
    var f := HeldByEntries(it, rest, 2, x);
    var f2 := HeldByEntries(it, rest, 1, y);
    var f3 := HeldByEntries(it, rest, -7, []);
  }

  lemma KeyMapRead(it: Item, rest: seq<Byte>)
    requires Proper(it) && it.Map?
    ensures match FieldsOf(it.kvs, NoFields)
            case None => ReadKeyMap(Encode(it) + rest).Err?
            case Some(f) => ReadKeyMap(Encode(it) + rest) == Ok(Parsed(f, rest))
  {
    hide ReadHead, Encode, FieldsOf, ReadEntries;
    HeadOfEncoded(it, rest);
    ReadEntriesEncoded(it.kvs, rest, NoFields);
  }

  // ---- authenticatorData ---------------------------------------------------------------

  datatype AuthDataError =
    | TooShort(len: nat)
    | MissingAttestedCredData
    | CredIdTooLong(len: nat)
    | Cose(cose: CoseError)
    | CborOf(cbor: CborError)

  datatype Prefix = Prefix(rpIdHash: seq<Byte>, flags: Byte, signCount: U32)

  datatype Attested = Attested(prefix: Prefix, aaguid: seq<Byte>, credentialId: seq<Byte>, publicKey: seq<Byte>)

  /** `flags & FLAG_AT != 0`, bit 6. */
  predicate AttestedFlag(flags: Byte) {
    flags / 64 % 2 == 1
  }

  function ParsePrefix(data: seq<Byte>): Result<Prefix, AuthDataError> {
    if |data| < 37 then Err(TooShort(|data|))
    else Ok(Prefix(data[..32], data[32], U32At(data, 33)))
  }

  /** Where the COSE key starts, when the fixed part and the credential id are there. */
  function KeyOffset(data: seq<Byte>): (r: Result<nat, AuthDataError>)
    ensures r.Ok? ==> 55 <= r.value <= |data|
  {
    var prefix :- ParsePrefix(data);
    if !AttestedFlag(prefix.flags) then Err(MissingAttestedCredData)
    else if |data| < 55 then Err(TooShort(|data|))
    else
      var n: int := U16At(data, 53);
      if n > 1023 then Err(CredIdTooLong(n))
      else if |data| < 55 + n then Err(TooShort(|data|))
      else Ok(55 + n)
  }

  /** `parse_attested`: the parsed data, and the bytes after the key by `skip_value`. */
  method ParseAttested(data: seq<Byte>) returns (r: Result<Attested, AuthDataError>, rest: seq<Byte>)
    ensures r == ReadAttested(data)
    ensures r.Ok? ==>
              && KeyOffset(data).Ok? && DecodeEs256(data[KeyOffset(data).value..]) == Ok(r.value.publicKey)
              && r.value.prefix == ParsePrefix(data).value
              && r.value.aaguid == data[37..53] && r.value.credentialId == data[55..KeyOffset(data).value]
              && ReadKeyMap(data[KeyOffset(data).value..]).Ok?
              && rest == ReadKeyMap(data[KeyOffset(data).value..]).value.rest
    ensures r.Ok? <==> && KeyOffset(data).Ok? && DecodeEs256(data[KeyOffset(data).value..]).Ok?
                       && Skip(data[KeyOffset(data).value..], 0).Ok?
    ensures KeyOffset(data).Err? ==> r == Err(KeyOffset(data).error)
    ensures KeyOffset(data).Ok? ==>
              var key := data[KeyOffset(data).value..];
              && (DecodeEs256(key).Err? ==> r == Err(Cose(DecodeEs256(key).error)))
              && (DecodeEs256(key).Ok? && Skip(key, 0).Err? ==> r == Err(CborOf(Skip(key, 0).error)))
  {
    hide ReadKeyMap, Skip;
    rest := [];
    var prefix :- ParsePrefix(data);
    if !AttestedFlag(prefix.flags) {
      return Err(MissingAttestedCredData), rest;
    }
    var buf := data[37..];
    if |buf| < 16 + 2 {
      return Err(TooShort(|data|)), rest;
    }
    var aaguid := buf[..16];
    var credIdLen := U16At(buf, 16);
    if credIdLen > 1023 {
      return Err(CredIdTooLong(credIdLen)), rest;
    }
    buf := buf[18..];
    if |buf| < credIdLen {
      return Err(TooShort(|data|)), rest;
    }
    var credentialId := buf[..credIdLen];
    buf := buf[credIdLen..];
    ghost var at := KeyOffset(data).value;
    assert buf == data[at..] && aaguid == data[37..53] && credentialId == data[55..at];
    var key, decoder := DecodeKey(buf);
    if key.Err? {
      return Err(Cose(key.error)), rest;
    }
    var cborBuf := new Cursor(buf);
    var skipped := cborBuf.SkipValue(0);
    if skipped.Err? {
      return Err(CborOf(skipped.error)), rest;
    }
    ghost var it := CursorsAgree(buf);
    assert decoder.buf == cborBuf.buf;
    rest := cborBuf.buf;
    r := Ok(Attested(prefix, aaguid, credentialId, key.value));
  }

  /** `parse_attested` on values. */
  function ReadAttested(data: seq<Byte>): Result<Attested, AuthDataError> {
    var at :- KeyOffset(data);
    match DecodeEs256(data[at..])
    case Err(e) => Err(Cose(e))
    case Ok(key) =>
      match Skip(data[at..], 0)
      case Err(e) => Err(CborOf(e))
      case Ok(_) => Ok(Attested(ParsePrefix(data).value, data[37..53], data[55..at], key))
  }

  /** An authenticatorData with a credential of this id, ahead of a key and whatever follows. */
  function AuthData(hash: seq<Byte>, flags: Byte, count: U32, aaguid: seq<Byte>, id: seq<Byte>, tail: seq<Byte>)
    : seq<Byte>
    requires |hash| == 32 && |aaguid| == 16 && |id| < 0x1_0000
  {
    hash + [flags] + Be32(count) + aaguid + Be16(|id|) + id + tail
  }

  /** Its parse reaches the key exactly when bit 6 of the flags is set and the id has at most
      1023 bytes, and then every field is the one that was built in. */
  lemma AuthDataParsed(hash: seq<Byte>, flags: Byte, count: U32, aaguid: seq<Byte>, id: seq<Byte>, tail: seq<Byte>)
    requires |hash| == 32 && |aaguid| == 16 && |id| < 0x1_0000
    ensures ReadAttested(AuthData(hash, flags, count, aaguid, id, tail)) ==
            if (flags as bv8) & 0x40 == 0 then Err(MissingAttestedCredData)
            else if |id| > 1023 then Err(CredIdTooLong(|id|))
            else match DecodeEs256(tail)
                 case Err(e) => Err(Cose(e))
                 case Ok(key) =>
                   match Skip(tail, 0)
                   case Err(e) => Err(CborOf(e))
                   case Ok(_) => Ok(Attested(Prefix(hash, flags, count), aaguid, id, key))
  {
    hide Be32, Be16, U32At, U16At, DecodeEs256, Skip, AttestedFlag;
    var data := AuthData(hash, flags, count, aaguid, id, tail);
    BitSix(flags);
    AuthDataFields(hash, flags, count, aaguid, id, tail);
    ReadBe32(data, 33, count);
    ReadBe16(data, 53, |id|);
  }

  lemma BitSix(flags: Byte)
    ensures AttestedFlag(flags) <==> (flags as bv8) & 0x40 != 0
  {
  }

  lemma AuthDataFields(hash: seq<Byte>, flags: Byte, count: U32, aaguid: seq<Byte>, id: seq<Byte>, tail: seq<Byte>)
    requires |hash| == 32 && |aaguid| == 16 && |id| < 0x1_0000
    ensures var data := AuthData(hash, flags, count, aaguid, id, tail);
            && |data| == 55 + |id| + |tail| && data[..32] == hash && data[32] == flags && data[33..37] == Be32(count)
            && data[37..53] == aaguid && data[53..55] == Be16(|id|)
            && data[55..55 + |id|] == id && data[55 + |id|..] == tail
  {
    hide Be32, Be16;
  }

  /** And whatever is cut shorter than its own id is refused with the length it has. */
  lemma AuthDataCut(data: seq<Byte>)
    ensures |data| < 37 ==> ReadAttested(data) == Err(TooShort(|data|))
    ensures |data| >= 37 && (data[32] as bv8) & 0x40 == 0 ==> ReadAttested(data) == Err(MissingAttestedCredData)
    ensures 37 <= |data| < 55 && (data[32] as bv8) & 0x40 != 0 ==> ReadAttested(data) == Err(TooShort(|data|))
    ensures |data| >= 55 && (data[32] as bv8) & 0x40 != 0 ==>
              var n := 0x100 * data[53] as int + data[54];
              && (n > 1023 ==> ReadAttested(data) == Err(CredIdTooLong(n)))
              && (n <= 1023 && |data| < 55 + n ==> ReadAttested(data) == Err(TooShort(|data|)))
  {
    hide AttestedFlag, DecodeEs256, Skip;
    if |data| >= 37 {
      BitSix(data[32]);
    }
  }

  // ---- the attestation object -------------------------------------------------------------

  /** "authData". */
  const AUTH_DATA: seq<Byte> := [0x61, 0x75, 0x74, 0x68, 0x44, 0x61, 0x74, 0x61]

  lemma AuthDataLabel()
    ensures |AUTH_DATA| == |"authData"| && forall i :: 0 <= i < 8 ==> AUTH_DATA[i] as char == "authData"[i]
  {
  }

  function ExtractEntry(s: seq<Byte>, acc: Option<seq<Byte>>): Result<Parsed<Option<seq<Byte>>>, CborError> {
    var key :- ReadText(s);
    if key.value == AUTH_DATA then
      var v :- ReadBytes(key.rest);
      Ok(Parsed(Some(v.value), v.rest))
    else
      var rest :- Skip(key.rest, 0);
      Ok(Parsed(acc, rest))
  }

  function ExtractEntries(s: seq<Byte>, n: nat, acc: Option<seq<Byte>>): Result<Option<seq<Byte>>, CborError>
    decreases n
  {
    if n == 0 then Ok(acc)
    else
      var e :- ExtractEntry(s, acc);
      ExtractEntries(e.rest, n - 1, e.value)
  }

  /** `extract_auth_data`; Ok(None) stands for the missing-field error. */
  method ExtractAuthData(attObj: seq<Byte>) returns (r: Result<Option<seq<Byte>>, CborError>)
    ensures match ReadMapHeader(attObj)
            case Err(e) => r == Err(e)
            case Ok(n) => r == ExtractEntries(n.rest, n.value, None)
  {
    hide ReadMapHeader, Skip, ReadString, ExtractEntries;
    var c := new Cursor(attObj);
    var n :- c.ReadMapCount();
    ghost var start := c.buf;
    var authData: Option<seq<Byte>> := None;
    var i: int := 0;
    while i < n
      invariant 0 <= i <= n
      invariant ExtractEntries(start, n, None) == ExtractEntries(c.buf, n - i, authData)
    {
      ghost var before := c.buf;
      ExtractNext(before, n - i, authData);
      var key :- c.ReadStringOf(MAJOR_TEXT);
      if !Utf8.Valid(key) {
        return Err(NotUtf8);
      }
      if key == AUTH_DATA {
        var v :- c.ReadStringOf(MAJOR_BYTES);
        assert ExtractEntry(before, authData) == Ok(Parsed(Some(v), c.buf));
        authData := Some(v);
      } else {
        var _ :- c.SkipValue(0);
        assert ExtractEntry(before, authData) == Ok(Parsed(authData, c.buf));
      }
      i := i + 1;
    }
    NoneToExtract(c.buf, authData);
    return Ok(authData);
  }

  lemma ExtractNext(s: seq<Byte>, n: nat, acc: Option<seq<Byte>>)
    requires n > 0
    ensures ExtractEntries(s, n, acc) ==
            match ExtractEntry(s, acc)
            case Err(e) => Err(e)
            case Ok(p) => ExtractEntries(p.rest, n - 1, p.value)
  {
    hide ExtractEntry;
  }

  lemma NoneToExtract(s: seq<Byte>, acc: Option<seq<Byte>>)
    ensures ExtractEntries(s, 0, acc) == Ok(acc)
  {
  }

  /** An attestation object's entries: text keys, an `authData` byte string, and other values
      within the nesting limit. */
  predicate AttestationEntries(kvs: seq<Item>) {
    kvs != [] ==>
    && |kvs| >= 2 && Proper(kvs[0]) && Proper(kvs[1]) && kvs[0].Text? && Utf8.Valid(kvs[0].data)
    && (if kvs[0].data == AUTH_DATA then kvs[1].Bytes? else Depth(kvs[1]) <= MAX_NESTING)
    && AttestationEntries(kvs[2..])
  }

  /** The byte string of the last `authData` entry, if any. */
  function LastAuthData(kvs: seq<Item>, acc: Option<seq<Byte>>): Option<seq<Byte>>
    requires AttestationEntries(kvs)
  {
    if kvs == [] then acc
    else LastAuthData(kvs[2..], if kvs[0].data == AUTH_DATA then Some(kvs[1].data) else acc)
  }

  lemma {:induction false} EntriesProper(kvs: seq<Item>)
    requires AttestationEntries(kvs)
    ensures AllProper(kvs) && |kvs| % 2 == 0
  {
    if kvs != [] {
      EntriesProper(kvs[2..]);
      forall i | 2 <= i < |kvs|
        ensures Proper(kvs[i])
      {
        assert kvs[i] == kvs[2..][i - 2];
      }
    }
  }

  lemma ReadTextEncoded(it: Item, rest: seq<Byte>)
    requires Proper(it) && it.Text? && Utf8.Valid(it.data)
    ensures ReadText(Encode(it) + rest) == Ok(Parsed(it.data, rest))
  {
    hide ReadHead, Encode;
    HeadOfEncoded(it, rest);
    assert (it.data + rest)[..|it.data|] == it.data && (it.data + rest)[|it.data|..] == rest;
  }

  /** Reading an encoded attestation object yields its last `authData`, wherever it stands. */
  lemma {:induction false} ExtractEncoded(kvs: seq<Item>, rest: seq<Byte>, acc: Option<seq<Byte>>)
    requires AttestationEntries(kvs)
    ensures AllProper(kvs)
    ensures ExtractEntries(EncodeMany(kvs) + rest, |kvs| / 2, acc) == Ok(LastAuthData(kvs, acc))
    decreases |kvs|
  {
    hide Encode, ReadText, ReadBytes, Skip, Depth;
    EntriesProper(kvs);
    if kvs == [] {
      NoneToExtract(EncodeMany(kvs) + rest, acc);
    } else {
      hide ExtractEntries, EncodeMany;
      EncodeManyPair(kvs, rest);
      ExtractNext(EncodeMany(kvs) + rest, |kvs| / 2, acc);
      var tail := EncodeMany(kvs[2..]) + rest;
      ReadTextEncoded(kvs[0], Encode(kvs[1]) + tail);
      ReadBytesEncoded(kvs[1], tail);
      SkipEncoded(kvs[1], tail, 0);
      ExtractEncoded(kvs[2..], rest, if kvs[0].data == AUTH_DATA then Some(kvs[1].data) else acc);
    }
  }

  /** No key among these says `authData`. */
  predicate NoAuthData(kvs: seq<Item>)
    requires AttestationEntries(kvs)
  {
    kvs == [] || (kvs[0].data != [0x61, 0x75, 0x74, 0x68, 0x44, 0x61, 0x74, 0x61] && NoAuthData(kvs[2..]))
  }

  lemma {:induction false} NothingLater(kvs: seq<Item>, acc: Option<seq<Byte>>)
    requires AttestationEntries(kvs) && NoAuthData(kvs)
    ensures LastAuthData(kvs, acc) == acc
  {
    if kvs != [] {
      NothingLater(kvs[2..], acc);
    }
  }

  lemma {:induction false} LastIs(before: seq<Item>, k: Item, v: Item, after: seq<Item>, acc: Option<seq<Byte>>)
    requires AttestationEntries(before + ([k, v] + after)) && |before| % 2 == 0
    requires k.Text? && k.data == [0x61, 0x75, 0x74, 0x68, 0x44, 0x61, 0x74, 0x61]
    requires AttestationEntries(after) && NoAuthData(after)
    ensures v.Bytes? && LastAuthData(before + ([k, v] + after), acc) == Some(v.data)
    decreases |before|
  {
    hide Depth, Utf8.Valid, Proper;
    var all := before + ([k, v] + after);
    if before == [] {
      assert all[2..] == after;
      NothingLater(after, Some(v.data));
    } else {
      assert all[2..] == before[2..] + ([k, v] + after);
      LastIs(before[2..], k, v, after, if all[0].data == AUTH_DATA then Some(all[1].data) else acc);
    }
  }

  /** So of an encoded object's entries the last one under `authData` is what is read, and
      nothing is when there is none. */
  lemma LastAuthDataRead(before: seq<Item>, k: Item, v: Item, after: seq<Item>, rest: seq<Byte>)
    requires AttestationEntries(before + ([k, v] + after)) && |before| % 2 == 0
    requires k.Text? && k.data == [0x61, 0x75, 0x74, 0x68, 0x44, 0x61, 0x74, 0x61]
    requires AttestationEntries(after) && NoAuthData(after)
    ensures v.Bytes? && AllProper(before + ([k, v] + after)) && AllProper(after)
    ensures ExtractEntries(EncodeMany(before + ([k, v] + after)) + rest, |before + ([k, v] + after)| / 2, None) ==
            Ok(Some(v.data))
    ensures ExtractEntries(EncodeMany(after) + rest, |after| / 2, None) == Ok(None)
  {
    hide ExtractEntries, EncodeMany, AttestationEntries, LastAuthData, NoAuthData;
    LastIs(before, k, v, after, None);
    NothingLater(after, None);
    ExtractEncoded(before + ([k, v] + after), rest, None);
    ExtractEncoded(after, rest, None);
  }
}
