/** The minimal CBOR reader: a cursor over bytes, and `skip_value`, stated against the
    grammar of definite-length items (section 3 of RFC 8949). */
module Cbor {
  import opened Prelude
  import Utf8

  const MAX_STRING := 64 * 1024
  const MAX_NESTING := 6
  const I64_MAX := 0x7FFF_FFFF_FFFF_FFFF

  const MAJOR_UINT: Byte := 0
  const MAJOR_NINT: Byte := 1
  const MAJOR_BYTES: Byte := 2
  const MAJOR_TEXT: Byte := 3
  const MAJOR_ARRAY: Byte := 4
  const MAJOR_MAP: Byte := 5

  datatype CborError =
    | Eof(need: nat)
    | UnsupportedInfo(major: Byte, info: Byte)
    | WrongMajor(expected: Byte, got: Byte)
    | TooLarge(n: U64, cap: nat)
    | NotUtf8
    | NestingTooDeep

  /** A value read from the front of a buffer, and the bytes after it. */
  datatype Parsed<+T> = Parsed(value: T, rest: seq<Byte>)

  // ---- the readers, as functions of the buffer --------------------------------------

  function Take(s: seq<Byte>, n: nat): Result<Parsed<seq<Byte>>, CborError> {
    if |s| < n then Err(Eof(n - |s|)) else Ok(Parsed(s[..n], s[n..]))
  }

  datatype Head = Head(major: Byte, value: U64)

  function ReadHead(s: seq<Byte>): (r: Result<Parsed<Head>, CborError>)
    ensures r.Ok? ==> |r.value.rest| < |s| && r.value.value.major <= 7
  {
    if s == [] then Err(Eof(1))
    else
      var v :- ReadArg(HighBits(s[0]), LowBits(s[0]), s[1..]);
      Ok(Parsed(Head(HighBits(s[0]), v.value), v.rest))
  }

  /** `b >> 5`. */
  function HighBits(b: Byte): Byte {
    if b < 0x20 then 0 else if b < 0x40 then 1 else if b < 0x60 then 2 else if b < 0x80 then 3
    else if b < 0xA0 then 4 else if b < 0xC0 then 5 else if b < 0xE0 then 6 else 7
  }

  /** `b & 0x1f`. */
  function LowBits(b: Byte): (r: Byte)
    ensures r < 32
  {
    b - 32 * HighBits(b)
  }

  /** The argument that the additional information `info` announces. */
  function ReadArg(major: Byte, info: Byte, t: seq<Byte>): (r: Result<Parsed<U64>, CborError>)
    ensures r.Ok? ==> |r.value.rest| <= |t|
  {
    if info <= 23 then Ok(Parsed(info, t))
    else if info > 27 then Err(UnsupportedInfo(major, info))
    else
      var n := ArgLen(info);
      if |t| < n then Err(Eof(n - |t|)) else Ok(Parsed(BeValue(t[..n]), t[n..]))
  }

  function ArgLen(info: Byte): nat {
    if info == 24 then 1 else if info == 25 then 2 else if info == 26 then 4 else 8
  }

  /** A big-endian field of 1, 2, 4 or 8 bytes. */
  function BeValue(b: seq<Byte>): U64
    requires |b| == 1 || |b| == 2 || |b| == 4 || |b| == 8
  {
    if |b| == 1 then b[0] else if |b| == 2 then U16At(b, 0) else if |b| == 4 then U32At(b, 0) else U64At(b, 0)
  }

  function ReadInt(s: seq<Byte>): Result<Parsed<int>, CborError> {
    var h :- ReadHead(s);
    var v := h.value.value;
    if h.value.major == MAJOR_UINT then
      if v <= I64_MAX then Ok(Parsed(v, h.rest)) else Err(TooLarge(v, I64_MAX))
    else if h.value.major == MAJOR_NINT then
      if v <= I64_MAX then Ok(Parsed(-1 - v, h.rest)) else Err(TooLarge(v, I64_MAX))
    else Err(WrongMajor(MAJOR_UINT, h.value.major))
  }

  function ReadString(s: seq<Byte>, major: Byte): Result<Parsed<seq<Byte>>, CborError> {
    var h :- ReadHead(s);
    if h.value.major != major then Err(WrongMajor(major, h.value.major))
    else if h.value.value > MAX_STRING then Err(TooLarge(h.value.value, MAX_STRING))
    else Take(h.rest, h.value.value)
  }

  function ReadBytes(s: seq<Byte>): Result<Parsed<seq<Byte>>, CborError> {
    ReadString(s, MAJOR_BYTES)
  }

  function ReadText(s: seq<Byte>): Result<Parsed<seq<Byte>>, CborError> {
    var p :- ReadString(s, MAJOR_TEXT);
    if Utf8.Valid(p.value) then Ok(p) else Err(NotUtf8)
  }

  function ReadMapHeader(s: seq<Byte>): Result<Parsed<U64>, CborError> {
    var h :- ReadHead(s);
    if h.value.major != MAJOR_MAP then Err(WrongMajor(MAJOR_MAP, h.value.major))
    else Ok(Parsed(h.value.value, h.rest))
  }

  /** `skip_value_depth`: the bytes after one value. */
  function Skip(s: seq<Byte>, depth: nat): (r: Result<seq<Byte>, CborError>)
    ensures r.Ok? ==> |r.value| < |s|
    decreases |s|, 1
  {
    if depth > MAX_NESTING then Err(NestingTooDeep)
    else
      var h :- ReadHead(s);
      SkipAfterHead(h.value, h.rest, depth)
  }

  function SkipAfterHead(h: Head, s: seq<Byte>, depth: nat): (r: Result<seq<Byte>, CborError>)
    ensures r.Ok? ==> |r.value| <= |s|
    decreases |s|, 3
  {
    if h.major == MAJOR_UINT || h.major == MAJOR_NINT then Ok(s)
    else if h.major == MAJOR_BYTES || h.major == MAJOR_TEXT then
      if h.value > MAX_STRING then Err(TooLarge(h.value, MAX_STRING))
      else
        var p :- Take(s, h.value);
        Ok(p.rest)
    else if h.major == MAJOR_ARRAY then SkipMany(s, h.value, depth + 1)
    else if h.major == MAJOR_MAP then SkipMany(s, 2 * h.value as int, depth + 1)
    else Err(UnsupportedInfo(h.major, 0))
  }

  function SkipMany(s: seq<Byte>, n: nat, depth: nat): (r: Result<seq<Byte>, CborError>)
    ensures r.Ok? ==> |r.value| <= |s|
    decreases |s|, 2
  {
    if n == 0 then Ok(s)
    else
      var rest :- Skip(s, depth);
      SkipMany(rest, n - 1, depth)
  }

  // ---- the cursor ---------------------------------------------------------------------

  /** `buf: &mut &[u8]`. `heads` counts calls of `read_head`. A failed read leaves the
      cursor somewhere before the bytes it could not take. */
  class Cursor {
    var buf: seq<Byte>
    ghost var heads: nat

    constructor (s: seq<Byte>)
      ensures buf == s && heads == 0
    {
      buf := s;
      heads := 0;
    }

    method TakeBytes(n: nat) returns (r: Result<seq<Byte>, CborError>)
      modifies this`buf
      ensures match Take(old(buf), n)
              case Ok(p) => r == Ok(p.value) && buf == p.rest
              case Err(e) => r == Err(e) && buf == old(buf)
    {
      if |buf| < n {
        return Err(Eof(n - |buf|));
      }
      r := Ok(buf[..n]);
      buf := buf[n..];
    }

    method ReadHeadByte() returns (r: Result<Head, CborError>)
      modifies this
      ensures match ReadHead(old(buf))
              case Ok(p) => r == Ok(p.value) && buf == p.rest
              case Err(e) => r == Err(e)
      ensures heads == old(heads) + 1 && |buf| <= |old(buf)|
    {
      heads := heads + 1;
      if buf == [] {
        return Err(Eof(1));
      }
      var major, info := HighBits(buf[0]), LowBits(buf[0]);
      buf := buf[1..];
      if info <= 23 {
        return Ok(Head(major, info));
      }
      if info > 27 {
        return Err(UnsupportedInfo(major, info));
      }
      var b :- TakeBytes(ArgLen(info));
      return Ok(Head(major, BeValue(b)));
    }

    method ReadInteger() returns (r: Result<int, CborError>)
      modifies this
      ensures match ReadInt(old(buf))
              case Ok(p) => r == Ok(p.value) && buf == p.rest
              case Err(e) => r == Err(e)
    {
      var h :- ReadHeadByte();
      if h.major == MAJOR_UINT {
        return if h.value <= I64_MAX then Ok(h.value) else Err(TooLarge(h.value, I64_MAX));
      }
      if h.major == MAJOR_NINT {
        return if h.value <= I64_MAX then Ok(-1 - h.value) else Err(TooLarge(h.value, I64_MAX));
      }
      return Err(WrongMajor(MAJOR_UINT, h.major));
    }

    method ReadStringOf(major: Byte) returns (r: Result<seq<Byte>, CborError>)
      modifies this
      ensures match ReadString(old(buf), major)
              case Ok(p) => r == Ok(p.value) && buf == p.rest
              case Err(e) => r == Err(e)
    {
      var h :- ReadHeadByte();
      if h.major != major {
        return Err(WrongMajor(major, h.major));
      }
      if h.value > MAX_STRING {
        return Err(TooLarge(h.value, MAX_STRING));
      }
      r := TakeBytes(h.value);
    }

    method ReadMapCount() returns (r: Result<U64, CborError>)
      modifies this
      ensures match ReadMapHeader(old(buf))
              case Ok(p) => r == Ok(p.value) && buf == p.rest
              case Err(e) => r == Err(e)
    {
      var h :- ReadHeadByte();
      if h.major != MAJOR_MAP {
        return Err(WrongMajor(MAJOR_MAP, h.major));
      }
      return Ok(h.value);
    }

    /** `skip_value_depth`. However large the declared counts, a successful skip reads at
        most one head per byte it consumes, and a failing one at most one more. */
    method SkipValue(depth: nat) returns (r: Result<(), CborError>)
      requires depth <= MAX_NESTING + 1
      modifies this
      ensures match Skip(old(buf), depth)
              case Ok(rest) => r == Ok(()) && buf == rest
              case Err(e) => r == Err(e)
      ensures |buf| <= |old(buf)|
      ensures heads - old(heads) <= |old(buf)| - |buf| + (if r.Ok? then 0 else 1)
      decreases MAX_NESTING + 1 - depth, 0
    {
      SkipHead(buf, depth);
      hide Skip, ReadHead;
      if depth > MAX_NESTING {
        return Err(NestingTooDeep);
      }
      var h :- ReadHeadByte();
      assert Skip(old(buf), depth) == SkipAfterHead(h, buf, depth);
      if h.major == MAJOR_ARRAY {
        r := SkipElements(h.value, depth + 1);
      } else if h.major == MAJOR_MAP {
        r := SkipEntries(h.value, depth + 1);
      } else {
        r := SkipLeaf(h, depth);
      }
    }

    method SkipLeaf(h: Head, ghost depth: nat) returns (r: Result<(), CborError>)
      requires h.major != MAJOR_ARRAY && h.major != MAJOR_MAP
      modifies this`buf
      ensures match SkipAfterHead(h, old(buf), depth)
              case Ok(rest) => r == Ok(()) && buf == rest
              case Err(e) => r == Err(e) && buf == old(buf)
    {
      if h.major == MAJOR_UINT || h.major == MAJOR_NINT {
        return Ok(());
      }
      if h.major != MAJOR_BYTES && h.major != MAJOR_TEXT {
        return Err(UnsupportedInfo(h.major, 0));
      }
      if h.value > MAX_STRING {
        return Err(TooLarge(h.value, MAX_STRING));
      }
      var _ :- TakeBytes(h.value);
      return Ok(());
    }

    /** The array loop: one value per declared element. */
    method SkipElements(n: U64, depth: nat) returns (r: Result<(), CborError>)
      requires depth <= MAX_NESTING + 1
      modifies this
      ensures match SkipMany(old(buf), n, depth)
              case Ok(rest) => r == Ok(()) && buf == rest
              case Err(e) => r == Err(e)
      ensures |buf| <= |old(buf)|
      ensures heads - old(heads) <= |old(buf)| - |buf| + (if r.Ok? then 0 else 1)
      decreases MAX_NESTING + 1 - depth, 1
    {
      hide SkipMany, Skip;
      var i: int := 0;
      while i < n
        invariant 0 <= i <= n
        invariant SkipMany(old(buf), n, depth) == SkipMany(buf, n - i, depth)
        invariant |buf| <= |old(buf)| && heads - old(heads) <= |old(buf)| - |buf|
      {
        SkipManyNext(buf, n - i, depth);
        var _ :- SkipValue(depth);
        i := i + 1;
      }
      NoneToSkip(buf, depth);
      return Ok(());
    }

    /** The map loop: a key and a value per declared entry. */
    method SkipEntries(n: U64, depth: nat) returns (r: Result<(), CborError>)
      requires depth <= MAX_NESTING + 1
      modifies this
      ensures match SkipMany(old(buf), 2 * n as int, depth)
              case Ok(rest) => r == Ok(()) && buf == rest
              case Err(e) => r == Err(e)
      ensures |buf| <= |old(buf)|
      ensures heads - old(heads) <= |old(buf)| - |buf| + (if r.Ok? then 0 else 1)
      decreases MAX_NESTING + 1 - depth, 1
    {
      hide SkipMany, Skip;
      var i: int := 0;
      while i < n
        invariant 0 <= i <= n
        invariant SkipMany(old(buf), 2 * n as int, depth) == SkipMany(buf, 2 * n as int - 2 * i, depth)
        invariant |buf| <= |old(buf)| && heads - old(heads) <= |old(buf)| - |buf|
      {
        ghost var left: int := 2 * n as int - 2 * i;
        SkipManyNext(buf, left, depth);
        var _ :- SkipValue(depth); // key
        SkipManyNext(buf, left - 1, depth);
        var _ :- SkipValue(depth); // value
        i := i + 1;
      }
      NoneToSkip(buf, depth);
      return Ok(());
    }
  }

  lemma SkipHead(s: seq<Byte>, depth: nat)
    ensures depth > MAX_NESTING ==> Skip(s, depth) == Err(NestingTooDeep)
    ensures depth <= MAX_NESTING && ReadHead(s).Err? ==> Skip(s, depth) == Err(ReadHead(s).error)
    ensures depth <= MAX_NESTING && ReadHead(s).Ok? ==>
              Skip(s, depth) == SkipAfterHead(ReadHead(s).value.value, ReadHead(s).value.rest, depth)
  {
    hide ReadHead, SkipAfterHead;
  }

  lemma SkipManyNext(s: seq<Byte>, n: nat, depth: nat)
    requires n > 0
    ensures SkipMany(s, n, depth) ==
            match Skip(s, depth)
            case Err(e) => Err(e)
            case Ok(rest) => SkipMany(rest, n - 1, depth)
  {
    hide Skip;
  }

  lemma NoneToSkip(s: seq<Byte>, depth: nat)
    ensures SkipMany(s, 0, depth) == Ok(s)
  {
  }

  // ---- the item grammar -------------------------------------------------------------

  /** How many bytes follow the initial byte to carry the argument. */
  datatype Width = W0 | W1 | W2 | W4 | W8

  predicate Fits(w: Width, v: U64) {
    match w
    case W0 => v < 24
    case W1 => v < 0x100
    case W2 => v < 0x1_0000
    case W4 => v < 0x1_0000_0000
    case W8 => true
  }

  function HeadBytes(major: Byte, w: Width, v: U64): seq<Byte>
    requires major <= 7 && Fits(w, v)
  {
    [major * 32 + InfoOf(w, v)] + ArgBytes(w, v)
  }

  function InfoOf(w: Width, v: U64): (info: Byte)
    requires Fits(w, v)
    ensures info <= 27
  {
    match w
    case W0 => v
    case W1 => 24
    case W2 => 25
    case W4 => 26
    case W8 => 27
  }

  function ArgBytes(w: Width, v: U64): seq<Byte>
    requires Fits(w, v)
  {
    match w
    case W0 => []
    case W1 => [v]
    case W2 => Be16(v)
    case W4 => Be32(v)
    case W8 => Be64(v)
  }

  /** A definite-length item of major type 0 to 5. A map lists keys and values in turn. */
  datatype Item =
    | UInt(w: Width, v: U64)
    | NInt(w: Width, v: U64)
    | Bytes(w: Width, data: seq<Byte>)
    | Text(w: Width, data: seq<Byte>)
    | Array(w: Width, items: seq<Item>)
    | Map(w: Width, kvs: seq<Item>)

  /** Arguments fit their width, and strings stay within the reader's cap. */
  predicate Proper(it: Item) {
    match it
    case UInt(w, v) => Fits(w, v)
    case NInt(w, v) => Fits(w, v)
    case Bytes(w, data) => |data| <= MAX_STRING && Fits(w, |data|)
    case Text(w, data) => |data| <= MAX_STRING && Fits(w, |data|)
    case Array(w, items) => |items| < 0x1_0000_0000_0000_0000 && Fits(w, |items|) && AllProper(items)
    case Map(w, kvs) =>
      |kvs| % 2 == 0 && |kvs| / 2 < 0x1_0000_0000_0000_0000 && Fits(w, |kvs| / 2) && AllProper(kvs)
  }

  predicate AllProper(items: seq<Item>) {
    forall i :: 0 <= i < |items| ==> Proper(items[i])
  }

  function MajorOf(it: Item): Byte {
    match it
    case UInt(_, _) => MAJOR_UINT
    case NInt(_, _) => MAJOR_NINT
    case Bytes(_, _) => MAJOR_BYTES
    case Text(_, _) => MAJOR_TEXT
    case Array(_, _) => MAJOR_ARRAY
    case Map(_, _) => MAJOR_MAP
  }

  /** The argument of an item's head: a value, a byte length, or a count. */
  function ArgOf(it: Item): (v: U64)
    requires Proper(it)
    ensures Fits(it.w, v)
  {
    match it
    case UInt(_, v) => v
    case NInt(_, v) => v
    case Bytes(_, data) => |data|
    case Text(_, data) => |data|
    case Array(_, items) => |items|
    case Map(_, kvs) => |kvs| / 2
  }

  /** The bytes after an item's head. */
  function Content(it: Item): seq<Byte>
    requires Proper(it)
    decreases it, 0
  {
    match it
    case UInt(_, _) => []
    case NInt(_, _) => []
    case Bytes(_, data) => data
    case Text(_, data) => data
    case Array(_, items) => EncodeMany(items)
    case Map(_, kvs) => EncodeMany(kvs)
  }

  function Encode(it: Item): seq<Byte>
    requires Proper(it)
    decreases it, 1
  {
    HeadBytes(MajorOf(it), it.w, ArgOf(it)) + Content(it)
  }

  function EncodeMany(items: seq<Item>): seq<Byte>
    requires AllProper(items)
    decreases items, 2
  {
    if items == [] then [] else Encode(items[0]) + EncodeMany(items[1..])
  }

  /** Levels of array and map nesting below an item that are actually entered. */
  function Depth(it: Item): nat
    decreases it, 0
  {
    match it
    case Array(_, items) => MaxDepth(items)
    case Map(_, kvs) => MaxDepth(kvs)
    case _ => 0
  }

  /** One more than the deepest of `items`; 0 when there are none. */
  function MaxDepth(items: seq<Item>): nat
    decreases items, 1
  {
    if items == [] then 0
    else
      var a, b := 1 + Depth(items[0]), MaxDepth(items[1..]);
      if a >= b then a else b
  }

  lemma ReadArgBytes(major: Byte, w: Width, v: U64, rest: seq<Byte>)
    requires Fits(w, v)
    ensures ReadArg(major, InfoOf(w, v), ArgBytes(w, v) + rest) == Ok(Parsed(v, rest))
  {
    var b := ArgBytes(w, v);
    assert (b + rest)[..|b|] == b && (b + rest)[|b|..] == rest;
    match w
    case W0 =>
    case W1 =>
    case W2 => ReadBe16(b, 0, v);
    case W4 => ReadBe32(b, 0, v);
    case W8 => ReadBe64(b, 0, v);
  }

  lemma ReadHeadBytes(major: Byte, w: Width, v: U64, rest: seq<Byte>)
    requires major <= 7 && Fits(w, v)
    ensures ReadHead(HeadBytes(major, w, v) + rest) == Ok(Parsed(Head(major, v), rest))
  {
    hide ReadHead, ReadArg, ArgBytes, InfoOf, Fits;
    var info, arg := InfoOf(w, v), ArgBytes(w, v);
    ReadArgBytes(major, w, v, rest);
    ReadHeadOf(major, info, arg + rest);
    AppendAssoc([major * 32 + info], arg, rest);
  }

  lemma BitsOf(major: Byte, info: Byte)
    requires major <= 7 && info < 32
    ensures HighBits(major * 32 + info) == major && LowBits(major * 32 + info) == info
  {
  }

  lemma ReadHeadOf(major: Byte, info: Byte, t: seq<Byte>)
    requires major <= 7 && info < 32 && ReadArg(major, info, t).Ok?
    ensures var p := ReadArg(major, info, t).value;
            ReadHead([major * 32 + info] + t) == Ok(Parsed(Head(major, p.value), p.rest))
  {
    hide ReadArg, HighBits, LowBits;
    Cons(major * 32 + info, t);
    BitsOf(major, info);
  }

  lemma ArgIsWritten(major: Byte, info: Byte, t: seq<Byte>) returns (w: Width)
    requires ReadArg(major, info, t).Ok?
    ensures var p := ReadArg(major, info, t).value;
            Fits(w, p.value) && InfoOf(w, p.value) == info && t == ArgBytes(w, p.value) + p.rest
  {
    if info <= 23 {
      w := W0;
      assert t == [] + t;
    } else {
      var n := ArgLen(info);
      var b := t[..n];
      assert t == b + t[n..] && b[0..n] == b;
      if info == 24 {
        w := W1;
      } else if info == 25 {
        w := W2;
        WriteBe16(b, 0);
      } else if info == 26 {
        w := W4;
        WriteBe32(b, 0);
      } else {
        w := W8;
        WriteBe64(b, 0);
      }
    }
  }

  /** Every head the reader accepts is one the grammar writes. */
  lemma HeadIsWritten(s: seq<Byte>) returns (w: Width)
    requires ReadHead(s).Ok?
    ensures var h := ReadHead(s).value;
            Fits(w, h.value.value) && s == HeadBytes(h.value.major, w, h.value.value) + h.rest
  {
    hide ReadArg, ArgBytes, InfoOf, Fits, HighBits;
    var major, info, t := HighBits(s[0]), LowBits(s[0]), s[1..];
    w := ArgIsWritten(major, info, t);
    var p := ReadArg(major, info, t).value;
    assert s == [s[0]] + t && s[0] == major as int * 32 + info;
    AppendAssoc([s[0]], ArgBytes(w, p.value), p.rest);
  }

  // ---- skipping is exactly the grammar -------------------------------------------------

  /** Skipping an encoded item is skipping its content after its head. */
  lemma SkipPastHead(it: Item, rest: seq<Byte>, depth: nat)
    requires Proper(it) && depth <= MAX_NESTING
    ensures Skip(Encode(it) + rest, depth) == SkipAfterHead(Head(MajorOf(it), ArgOf(it)), Content(it) + rest, depth)
  {
    var head := HeadBytes(MajorOf(it), it.w, ArgOf(it));
    assert Encode(it) == head + Content(it);
    hide Encode, Content, HeadBytes, ReadHead, Skip, SkipAfterHead;
    AppendAssoc(head, Content(it), rest);
    ReadHeadBytes(MajorOf(it), it.w, ArgOf(it), Content(it) + rest);
    SkipHead(Encode(it) + rest, depth);
  }

  /** On an encoded item, whatever follows it, skipping succeeds exactly when the nesting
      limit allows, and then leaves precisely the bytes after the item. */
  lemma {:induction false} SkipEncoded(it: Item, rest: seq<Byte>, depth: nat)
    requires Proper(it)
    ensures Skip(Encode(it) + rest, depth) ==
            if depth + Depth(it) <= MAX_NESTING then Ok(rest) else Err(NestingTooDeep)
    decreases it, 1
  {
    if depth <= MAX_NESTING {
      SkipPastHead(it, rest, depth);
      SkipContent(it, rest, depth);
    }
  }

  lemma {:induction false} SkipContent(it: Item, rest: seq<Byte>, depth: nat)
    requires Proper(it) && depth <= MAX_NESTING
    ensures SkipAfterHead(Head(MajorOf(it), ArgOf(it)), Content(it) + rest, depth) ==
            if depth + Depth(it) <= MAX_NESTING then Ok(rest) else Err(NestingTooDeep)
    decreases it, 0
  {
    if it.Array? {
      SkipManyEncoded(it.items, rest, depth + 1);
    } else if it.Map? {
      SkipManyEncoded(it.kvs, rest, depth + 1);
    } else {
      assert (Content(it) + rest)[|Content(it)|..] == rest;
    }
  }

  lemma {:induction false} SkipManyEncoded(items: seq<Item>, rest: seq<Byte>, depth: nat)
    requires AllProper(items)
    ensures items == [] || depth - 1 + MaxDepth(items) <= MAX_NESTING ==>
              SkipMany(EncodeMany(items) + rest, |items|, depth) == Ok(rest)
    ensures items != [] && depth - 1 + MaxDepth(items) > MAX_NESTING ==>
              SkipMany(EncodeMany(items) + rest, |items|, depth) == Err(NestingTooDeep)
    decreases items, 2
  {
    hide Skip, SkipMany, Encode, Proper;
    if items == [] {
      assert EncodeMany(items) + rest == rest;
      NoneToSkip(rest, depth);
    } else {
      var tail := EncodeMany(items[1..]) + rest;
      AppendAssoc(Encode(items[0]), EncodeMany(items[1..]), rest);
      SkipManyNext(EncodeMany(items) + rest, |items|, depth);
      SkipEncoded(items[0], tail, depth);
      SkipManyEncoded(items[1..], rest, depth);
    }
  }

  /** Whatever is skipped is an item of the grammar within the limits. */
  lemma {:induction false} SkippedIsItem(s: seq<Byte>, depth: nat) returns (it: Item)
    requires Skip(s, depth).Ok?
    ensures Proper(it) && depth + Depth(it) <= MAX_NESTING && s == Encode(it) + Skip(s, depth).value
    decreases |s|, 0
  {
    var h := ReadHead(s).value;
    var w := HeadIsWritten(s);
    it := SkippedIsContent(h.value, w, h.rest, depth);
    var head, rest := HeadBytes(h.value.major, w, h.value.value), Skip(s, depth).value;
    assert head + (Content(it) + rest) == (head + Content(it)) + rest;
  }

  lemma {:induction false} SkippedIsContent(h: Head, w: Width, s: seq<Byte>, depth: nat) returns (it: Item)
    requires h.major <= 7 && Fits(w, h.value) && depth <= MAX_NESTING && SkipAfterHead(h, s, depth).Ok?
    ensures Proper(it) && depth + Depth(it) <= MAX_NESTING
    ensures MajorOf(it) == h.major && it.w == w && ArgOf(it) == h.value
    ensures s == Content(it) + SkipAfterHead(h, s, depth).value
    decreases |s|, 2
  {
    hide SkipMany, EncodeMany, Fits;
    if h.major == MAJOR_ARRAY {
      var items := SkippedAreItems(s, h.value, depth + 1);
      it := Array(w, items);
    } else if h.major == MAJOR_MAP {
      var kvs := SkippedAreItems(s, 2 * h.value as int, depth + 1);
      it := Map(w, kvs);
    } else {
      it := SkippedIsLeaf(h, w, s, depth);
    }
  }

  lemma SkippedIsLeaf(h: Head, w: Width, s: seq<Byte>, depth: nat) returns (it: Item)
    requires h.major <= 7 && Fits(w, h.value) && h.major != MAJOR_ARRAY && h.major != MAJOR_MAP
    requires SkipAfterHead(h, s, depth).Ok?
    ensures Proper(it) && Depth(it) == 0
    ensures MajorOf(it) == h.major && it.w == w && ArgOf(it) == h.value
    ensures s == Content(it) + SkipAfterHead(h, s, depth).value
  {
    if h.major == MAJOR_UINT {
      it := UInt(w, h.value);
    } else if h.major == MAJOR_NINT {
      it := NInt(w, h.value);
    } else {
      var data := s[..h.value];
      assert s == data + s[h.value..];
      it := if h.major == MAJOR_BYTES then Bytes(w, data) else Text(w, data);
    }
  }

  lemma EncodeManyCons(it: Item, more: seq<Item>, rest: seq<Byte>)
    requires Proper(it) && AllProper(more)
    ensures AllProper([it] + more)
    ensures EncodeMany([it] + more) + rest == Encode(it) + (EncodeMany(more) + rest)
    ensures MaxDepth([it] + more) == if 1 + Depth(it) >= MaxDepth(more) then 1 + Depth(it) else MaxDepth(more)
  {
  }

  lemma {:induction false} SkippedAreItems(s: seq<Byte>, n: nat, depth: nat) returns (items: seq<Item>)
    requires SkipMany(s, n, depth).Ok?
    ensures |items| == n && AllProper(items) && (items == [] || depth - 1 + MaxDepth(items) <= MAX_NESTING)
    ensures s == EncodeMany(items) + SkipMany(s, n, depth).value
    decreases |s|, 1
  {
    if n == 0 {
      items := [];
    } else {
      var it := SkippedIsItem(s, depth);
      var more := SkippedAreItems(Skip(s, depth).value, n - 1, depth);
      items := [it] + more;
      EncodeManyCons(it, more, SkipMany(s, n, depth).value);
    }
  }

  /** `skip_value` succeeds exactly on a definite-length item of major types 0 to 5, with
      strings of at most 64 KiB and nesting of at most 6, and leaves exactly what follows. */
  lemma SkipIff(s: seq<Byte>, rest: seq<Byte>)
    ensures Skip(s, 0) == Ok(rest) <==>
            exists it :: Proper(it) && Depth(it) <= MAX_NESTING && s == Encode(it) + rest
  {
    if Skip(s, 0) == Ok(rest) {
      var it := SkippedIsItem(s, 0);
    }
    forall it | Proper(it) && Depth(it) <= MAX_NESTING && s == Encode(it) + rest
      ensures Skip(s, 0) == Ok(rest)
    {
      SkipEncoded(it, rest, 0);
    }
  }

  // ---- the same in literal bytes ----------------------------------------------------------

  predicate IsHead(r: Result<Parsed<Head>, CborError>, major: Byte, arg: seq<Byte>, rest: seq<Byte>) {
    r.Ok? && r.value.rest == rest && r.value.value.major == major && r.value.value.value == BigEndian(arg)
  }

  /** A head is a byte of three bits of type and five of information, and the argument those
      announce. */
  lemma HeadMeans(b: Byte, t: seq<Byte>)
    ensures var r, major, info := ReadHead([b] + t), b / 32, b % 32;
            && (info < 24 ==> r == Ok(Parsed(Head(major, info), t)))
            && (info == 24 && |t| >= 1 ==> IsHead(r, major, t[..1], t[1..]))
            && (info == 25 && |t| >= 2 ==> IsHead(r, major, t[..2], t[2..]))
            && (info == 26 && |t| >= 4 ==> IsHead(r, major, t[..4], t[4..]))
            && (info == 27 && |t| >= 8 ==> IsHead(r, major, t[..8], t[8..]))
            && (info > 27 ==> r == Err(UnsupportedInfo(major, info)))
  {
    hide BigEndian;
    Cons(b, t);
    HighBitsAre(b);
    if b % 32 == 24 && |t| >= 1 {
      BigEndianOne(t[0]);
      assert t[..1] == [t[0]];
    } else if b % 32 == 25 && |t| >= 2 {
      U16Is(t[..2], 0);
      assert t[..2][0..2] == t[..2];
    } else if b % 32 == 26 && |t| >= 4 {
      U32Is(t[..4], 0);
      assert t[..4][0..4] == t[..4];
    } else if b % 32 == 27 && |t| >= 8 {
      U64Is(t[..8], 0);
      assert t[..8][0..8] == t[..8];
    }
  }

  lemma HighBitsAre(b: Byte)
    ensures HighBits(b) == b / 32 && LowBits(b) == b % 32
  {
  }

  lemma BigEndianOne(b: Byte)
    ensures BigEndian([b]) == b
  {
    BigEndianSnoc([], b);
    assert [] + [b] == [b];
  }

  /** A head cut short lacks as many bytes as are missing. */
  lemma HeadCut(b: Byte, t: seq<Byte>)
    ensures ReadHead([]) == Err(Eof(1))
    ensures b % 32 == 24 && |t| < 1 ==> ReadHead([b] + t) == Err(Eof(1 - |t|))
    ensures b % 32 == 25 && |t| < 2 ==> ReadHead([b] + t) == Err(Eof(2 - |t|))
    ensures b % 32 == 26 && |t| < 4 ==> ReadHead([b] + t) == Err(Eof(4 - |t|))
    ensures b % 32 == 27 && |t| < 8 ==> ReadHead([b] + t) == Err(Eof(8 - |t|))
  {
    Cons(b, t);
    HighBitsAre(b);
  }

  /** What each reader makes of a head: integers of types 0 and 1 below 2^63, strings of type 2
      or 3 up to 65536 bytes, maps of type 5, and nothing else. */
  lemma HeadUses(s: seq<Byte>)
    requires ReadHead(s).Ok?
    ensures var h, t := ReadHead(s).value.value, ReadHead(s).value.rest;
            && ReadInt(s) == (if h.major > 1 then Err(WrongMajor(0, h.major))
                              else if h.value >= 0x8000_0000_0000_0000
                              then Err(TooLarge(h.value, 0x7FFF_FFFF_FFFF_FFFF))
                              else Ok(Parsed(if h.major == 0 then h.value else -1 - h.value, t)))
            && ReadBytes(s) == (if h.major != 2 then Err(WrongMajor(2, h.major)) else StringAfter(h.value, t))
            && (h.major != 3 ==> ReadText(s) == Err(WrongMajor(3, h.major)))
            && (h.major == 3 ==>
                  ReadText(s) == if h.value <= 65536 && h.value <= |t| && !Utf8.Valid(t[..h.value]) then Err(NotUtf8)
                                 else StringAfter(h.value, t))
            && ReadMapHeader(s) == if h.major == 5 then Ok(Parsed(h.value, t)) else Err(WrongMajor(5, h.major))
  {
    hide ReadHead;
  }

  /** The first `n` bytes, within the limit. */
  function StringAfter(n: U64, t: seq<Byte>): Result<Parsed<seq<Byte>>, CborError> {
    if n > 65536 then Err(TooLarge(n, 65536))
    else if n > |t| then Err(Eof(n - |t|))
    else Ok(Parsed(t[..n], t[n..]))
  }

  /** Skipping a scalar or a string of each type, with the same limit. */
  lemma SkipLeafMeans(s: seq<Byte>)
    requires ReadHead(s).Ok?
    ensures var h, t := ReadHead(s).value.value, ReadHead(s).value.rest;
            && (h.major <= 1 ==> Skip(s, 0) == Ok(t))
            && (h.major == 2 || h.major == 3 ==>
                  Skip(s, 0) == if h.value > 65536 then Err(TooLarge(h.value, 65536))
                                else if h.value > |t| then Err(Eof(h.value - |t|))
                                else Ok(t[h.value..]))
            && (h.major > 5 ==> Skip(s, 0) == Err(UnsupportedInfo(h.major, 0)))
  {
    hide ReadHead, Skip;
    SkipHead(s, 0);
  }

  /** Six arrays in one another may be skipped, and seven may not. */
  lemma NestingLimit(rest: seq<Byte>)
    ensures Skip([0x81, 0x81, 0x81, 0x81, 0x81, 0x81, 0x00] + rest, 0) == Ok(rest)
    ensures Skip([0x81, 0x81, 0x81, 0x81, 0x81, 0x81, 0x81, 0x00] + rest, 0) == Err(NestingTooDeep)
  {
    hide Skip, Encode, Depth, Nest;
    NestIs(6);
    NestIs(7);
    SkipEncoded(Nest(6), rest, 0);
    SkipEncoded(Nest(7), rest, 0);
    assert seq(6, i => 0x81) + [0x00] == [0x81, 0x81, 0x81, 0x81, 0x81, 0x81, 0x00];
    assert seq(7, i => 0x81) + [0x00] == [0x81, 0x81, 0x81, 0x81, 0x81, 0x81, 0x81, 0x00];
  }

  /** An array holds as many values as its head says, and a map twice as many. */
  lemma CountedValues(n: Byte, rest: seq<Byte>)
    requires n < 24
    ensures Skip([0x80 + n] + seq(n, i => 0x00) + rest, 0) == Ok(rest)
    ensures Skip([0xA0 + n] + seq(2 * n as int, i => 0x00) + rest, 0) == Ok(rest)
  {
    hide Skip, Encode, EncodeMany, MaxDepth;
    var one: int := n;
    var a, m := Array(W0, Zeros(one)), Map(W0, Zeros(2 * one));
    ZerosAre(one);
    ZerosAre(2 * one);
    SkipEncoded(a, rest, 0);
    SkipEncoded(m, rest, 0);
    CountedBytes(n);
  }

  lemma CountedBytes(n: Byte)
    requires n < 24
    ensures var a, m := Array(W0, Zeros(n)), Map(W0, Zeros(2 * n as int));
            && Proper(a) && Proper(m)
            && Encode(a) == [0x80 + n] + seq(n, i => 0x00) && Encode(m) == [0xA0 + n] + seq(2 * n as int, i => 0x00)
  {
    hide EncodeMany;
    ZerosAre(n);
    ZerosAre(2 * n as int);
  }

  function Zeros(n: nat): seq<Item> {
    if n == 0 then [] else [UInt(W0, 0)] + Zeros(n - 1)
  }

  lemma {:induction false} ZerosAre(n: nat)
    ensures |Zeros(n)| == n && AllProper(Zeros(n)) && MaxDepth(Zeros(n)) <= 1
    ensures EncodeMany(Zeros(n)) == seq(n, i => 0x00)
  {
    if n == 0 {
      assert EncodeMany(Zeros(0)) == [];
    } else {
      ZerosAre(n - 1);
      OneZero();
      hide Encode, EncodeMany, MaxDepth, Depth, Proper;
      EncodeManyCons(UInt(W0, 0), Zeros(n - 1), []);
      NoMore(EncodeMany(Zeros(n)), EncodeMany(Zeros(n - 1)));
      assert seq(n, i => 0x00) == [0x00] + seq(n - 1, i => 0x00);
    }
  }

  lemma OneZero()
    ensures Proper(UInt(W0, 0)) && Encode(UInt(W0, 0)) == [0x00] && Depth(UInt(W0, 0)) == 0
  {
  }

  lemma NoMore(s: seq<Byte>, t: seq<Byte>)
    ensures s + [] == s && t + [] == t
  {
  }

  function Nest(n: nat): (it: Item) {
    if n == 0 then UInt(W0, 0) else Array(W0, [Nest(n - 1)])
  }

  lemma {:induction false} NestIs(n: nat)
    ensures Proper(Nest(n)) && Depth(Nest(n)) == n && Encode(Nest(n)) == seq(n, i => 0x81) + [0x00]
  {
    if n == 0 {
      OneZero();
      assert seq(0, i => 0x81) + [0x00] == [0x00];
    } else {
      NestIs(n - 1);
      NestNext(Nest(n - 1));
      hide Encode, Depth, Proper;
      AppendAssoc([0x81], seq(n - 1, i => 0x81), [0x00]);
      assert seq(n, i => 0x81) == [0x81] + seq(n - 1, i => 0x81);
    }
  }

  lemma NestNext(it: Item)
    requires Proper(it)
    ensures var a := Array(W0, [it]);
            Proper(a) && Depth(a) == 1 + Depth(it) && Encode(a) == [0x81] + Encode(it)
  {
    assert [it][1..] == [] && EncodeMany([]) == [] && MaxDepth([]) == 0;
    assert EncodeMany([it]) == Encode(it) + [];
    assert HeadBytes(MAJOR_ARRAY, W0, 1) == [0x81];
  }
}
