/** The wire format in plain numbers: what each byte of a frame is, which headers and payloads
    are accepted, and what a reader makes of anything else. */
module WireFormat {
  import opened Prelude
  import opened Frame
  import opened Transport
  import Utf8

  // ---- layout -----------------------------------------------------------------------------

  /** A big-endian field of `n` bytes at offset `i` holds `v`. */
  predicate Field(w: seq<Byte>, i: nat, n: nat, v: nat) {
    i + n <= |w| && BigEndian(w[i..i + n]) == v
  }

  /** The bytes at the end of `w`. */
  predicate Tail(w: seq<Byte>, i: nat, bytes: seq<Byte>) {
    i <= |w| && w[i..] == bytes
  }

  /** Stream id, type, payload length, payload. */
  predicate LaidOut(w: seq<Byte>, f: Frame) {
    |w| >= 9 && Field(w, 0, 4, f.streamId) && Field(w, 5, 4, |w| - 9) && Holds(w[4], w[9..], f.body)
  }

  /** The type byte, and the payload's fields one after another. */
  predicate Holds(kind: Byte, p: seq<Byte>, body: Body) {
    match body
    case Data(b) => kind == 0 && p == b
    case Resize(rows, cols) => kind == 1 && |p| == 4 && Field(p, 0, 2, rows) && Field(p, 2, 2, cols)
    case Open(id, rows, cols) =>
      && kind == 2 && |p| == |id| + 4 && p[..|id|] == id && Field(p, |id|, 2, rows) && Field(p, |id| + 2, 2, cols)
    case Close => kind == 3 && p == []
    case Ping(b) => kind == 4 && p == b
    case Pong(b) => kind == 5 && p == b
    case Hello(b) => kind == 6 && p == b
    case PasteBegin(id, total, gid, gsize, name) =>
      && kind == 7 && Field(p, 0, 4, id) && Field(p, 4, 8, total) && Field(p, 12, 4, gid) && Field(p, 16, 4, gsize)
      && Field(p, 20, 1, |name|) && Tail(p, 21, name)
    case PasteChunk(id, b) => kind == 8 && Field(p, 0, 4, id) && Tail(p, 4, b)
    case PasteEnd(id, status) => kind == 9 && Field(p, 0, 4, id) && Tail(p, 4, [status])
    case PasteReject(id, reason) => kind == 10 && Field(p, 0, 4, id) && Tail(p, 4, [reason])
    case DownloadBegin(id, total, name) =>
      && kind == 11 && Field(p, 0, 4, id) && Field(p, 4, 8, total) && Field(p, 12, 1, |name|) && Tail(p, 13, name)
    case DownloadChunk(id, b) => kind == 12 && Field(p, 0, 4, id) && Tail(p, 4, b)
    case DownloadEnd(id, status) => kind == 13 && Field(p, 0, 4, id) && Tail(p, 4, [status])
    case AcquireControl => kind == 14 && p == []
    case ReleaseControl => kind == 15 && p == []
    case TakeControl => kind == 16 && p == []
    case ControllerChanged(status) => kind == 17 && p == [status]
    case ListSessions(id) => kind == 18 && Field(p, 0, 4, id) && Tail(p, 4, [])
    case SessionList(id, json) => kind == 19 && Field(p, 0, 4, id) && Field(p, 4, 4, |json|) && Tail(p, 8, json)
    case KillSession(id, s) => kind == 20 && Field(p, 0, 4, id) && Field(p, 4, 1, |s|) && Tail(p, 5, s)
    case KillSessionAck(id, status) => kind == 21 && Field(p, 0, 4, id) && Tail(p, 4, [status])
  }

  lemma Concat4(a: seq<Byte>, b: seq<Byte>, c: seq<Byte>, d: seq<Byte>)
    ensures var s := a + b + c + d;
            && |s| == |a| + |b| + |c| + |d| && s[..|a|] == a && s[|a|..|a| + |b|] == b
            && s[|a| + |b|..|a| + |b| + |c|] == c && s[|a| + |b| + |c|..] == d
  {
  }

  lemma OneDigit(b: Byte)
    ensures BigEndian([b]) == b
  {
    BigEndianSnoc([], b);
    assert [] + [b] == [b];
  }

  lemma HeadLaidOut(f: Frame)
    requires |Payload(f.body)| < 0x1_0000_0000
    ensures var w := Encode(f);
            && Field(w, 0, 4, f.streamId) && Field(w, 5, 4, |w| - 9) && w[4] == TypeByte(TypeOf(f.body))
            && |w| == 9 + |Payload(f.body)| && w[9..] == Payload(f.body)
  {
    hide BigEndian, Be32, TypeByte;
    var p := Payload(f.body);
    Concat4(Be32(f.streamId), [TypeByte(TypeOf(f.body))], Be32(|p|), p);
    BeIs(0, f.streamId, 0);
    BeIs(0, |p|, 0);
  }

  lemma BeginPayloads(id: U32, total: U64, gid: U32, gsize: U32, name: seq<Byte>)
    requires |name| <= 255
    ensures var p := Be32(id) + Be64(total) + Be32(gid) + Be32(gsize) + [|name|] + name;
            && |p| == 21 + |name| && Field(p, 0, 4, id) && Field(p, 4, 8, total) && Field(p, 12, 4, gid)
            && Field(p, 16, 4, gsize) && Field(p, 20, 1, |name|) && Tail(p, 21, name)
    ensures var p := Be32(id) + Be64(total) + [|name|] + name;
            && |p| == 13 + |name| && Field(p, 0, 4, id) && Field(p, 4, 8, total)
            && Field(p, 12, 1, |name|) && Tail(p, 13, name)
  {
    hide BigEndian, Be32, Be64;
    BeIs(0, id, total);
    BeIs(0, gid, 0);
    BeIs(0, gsize, 0);
    OneDigit(|name|);
    var p := Be32(id) + Be64(total) + Be32(gid) + Be32(gsize) + [|name|] + name;
    assert p[0..4] == Be32(id) && p[4..12] == Be64(total) && p[12..16] == Be32(gid) && p[16..20] == Be32(gsize);
    assert p[20..21] == [|name|] && p[21..] == name;
    var q := Be32(id) + Be64(total) + [|name|] + name;
    assert q[0..4] == Be32(id) && q[4..12] == Be64(total) && q[12..13] == [|name|] && q[13..] == name;
  }

  lemma IdPayload(id: U32, tail: seq<Byte>)
    ensures var p := Be32(id) + tail;
            |p| == 4 + |tail| && Field(p, 0, 4, id) && Tail(p, 4, tail)
  {
    hide BigEndian, Be32;
    BeIs(0, id, 0);
    Append(Be32(id), tail);
  }

  lemma SizesPayload(id: seq<Byte>, rows: U16, cols: U16)
    ensures var p := id + Be16(rows) + Be16(cols);
            && |p| == |id| + 4 && p[..|id|] == id && Field(p, |id|, 2, rows) && Field(p, |id| + 2, 2, cols)
  {
    hide BigEndian, Be16;
    BeIs(rows, 0, 0);
    BeIs(cols, 0, 0);
    var p := id + Be16(rows) + Be16(cols);
    assert p[|id|..|id| + 2] == Be16(rows) && p[|id| + 2..|id| + 4] == Be16(cols);
  }

  lemma ListPayload(id: U32, n: U32, tail: seq<Byte>)
    ensures var p := Be32(id) + Be32(n) + tail;
            Field(p, 0, 4, id) && Field(p, 4, 4, n) && Tail(p, 8, tail)
  {
    hide BigEndian, Be32;
    BeIs(0, id, 0);
    BeIs(0, n, 0);
    var p := Be32(id) + Be32(n) + tail;
    assert p[0..4] == Be32(id) && p[4..8] == Be32(n) && p[8..] == tail;
  }

  lemma KillPayload(id: U32, s: seq<Byte>)
    requires |s| <= 64
    ensures var p := Be32(id) + [|s|] + s[..|s|];
            Field(p, 0, 4, id) && Field(p, 4, 1, |s|) && Tail(p, 5, s)
  {
    hide BigEndian, Be32;
    BeIs(0, id, 0);
    OneDigit(|s|);
    var p := Be32(id) + [|s|] + s[..|s|];
    assert p[0..4] == Be32(id) && p[4..5] == [|s|] && p[5..] == s;
  }

  /** What is to be shown of a body. */
  predicate IsLaidOut(b: Body) {
    |Payload(b)| < 0x1_0000_0000 && Holds(TypeByte(TypeOf(b)), Payload(b), b)
  }

  lemma StatusesLaidOut(b: Body)
    requires b.PasteEnd? || b.PasteReject? || b.DownloadEnd? || b.KillSessionAck?
    ensures IsLaidOut(b)
  {
    hide BigEndian, Be32, Field, Tail;
    match b
    case PasteEnd(id, status) => IdPayload(id, [status]);
    case PasteReject(id, reason) => IdPayload(id, [reason]);
    case DownloadEnd(id, status) => IdPayload(id, [status]);
    case KillSessionAck(id, status) => IdPayload(id, [status]);
  }

  lemma ChunksLaidOut(b: Body)
    requires WellFormedBody(b) && (b.PasteChunk? || b.DownloadChunk? || b.ListSessions?)
    ensures IsLaidOut(b)
  {
    hide BigEndian, Be32, Field, Tail;
    match b
    case PasteChunk(id, bytes) => IdPayload(id, bytes);
    case DownloadChunk(id, bytes) => IdPayload(id, bytes);
    case ListSessions(id) =>
      IdPayload(id, []);
      assert Be32(id) + [] == Be32(id);
  }

  lemma BeginsLaidOut(b: Body)
    requires WellFormedBody(b) && (b.PasteBegin? || b.DownloadBegin?)
    ensures IsLaidOut(b)
  {
    hide BigEndian, Be32, Be64, Field, Tail;
    match b
    case PasteBegin(id, total, gid, gsize, name) => BeginPayloads(id, total, gid, gsize, name);
    case DownloadBegin(id, total, name) => BeginPayloads(id, total, 0, 0, name);
  }

  lemma ListsLaidOut(b: Body)
    requires WellFormedBody(b) && (b.KillSession? || b.SessionList?)
    ensures IsLaidOut(b)
  {
    hide BigEndian, Be32, Field, Tail;
    match b
    case SessionList(id, json) => ListPayload(id, |json|, json);
    case KillSession(id, session) => KillPayload(id, session);
  }

  lemma PayloadLaidOut(b: Body)
    requires WellFormedBody(b)
    ensures IsLaidOut(b)
  {
    hide BigEndian, Be16, Be32, Be64, Field, Tail;
    if b.PasteEnd? || b.PasteReject? || b.DownloadEnd? || b.KillSessionAck? {
      StatusesLaidOut(b);
    } else if b.PasteChunk? || b.DownloadChunk? || b.ListSessions? {
      ChunksLaidOut(b);
    } else if b.PasteBegin? || b.DownloadBegin? {
      BeginsLaidOut(b);
    } else if b.KillSession? || b.SessionList? {
      ListsLaidOut(b);
    } else if b.Resize? {
      SizesPayload([], b.rows, b.cols);
      assert [] + Be16(b.rows) == Be16(b.rows);
    } else if b.Open? {
      SizesPayload(b.sessionId, b.initRows, b.initCols);
    }
  }

  /** Every frame is laid out so. */
  lemma Layout(f: Frame)
    requires WellFormed(f)
    ensures LaidOut(Encode(f), f)
  {
    hide Holds, Payload, Field;
    PayloadLaidOut(f.body);
    HeadLaidOut(f);
  }

  // ---- which headers are accepted -----------------------------------------------------------

  /** The types of the control stream. */
  predicate ControlKind(kind: Byte) {
    kind == 4 || kind == 5 || kind == 6 || 18 <= kind <= 21
  }

  /** The payload lengths of a type. */
  predicate LengthFits(kind: Byte, n: int) {
    match kind
    case 0 => n <= 65536
    case 1 => n == 4
    case 2 => 5 <= n <= 68
    case 4 => n <= 64
    case 5 => n <= 64
    case 6 => 1 <= n <= 1024
    case 7 => 21 <= n <= 276
    case 8 => 4 <= n <= 1048580
    case 9 => n == 5
    case 10 => n == 5
    case 11 => 13 <= n <= 268
    case 12 => 4 <= n <= 1048580
    case 13 => n == 5
    case 17 => n == 1
    case 18 => n == 4
    case 19 => 8 <= n <= 262152
    case 20 => 5 <= n <= 69
    case 21 => n == 5
    case _ => n == 0
  }

  /** A header is accepted exactly for a known type on its kind of stream with a length of its
      own; the type is checked first and the length last. */
  lemma HeaderIff(sid: U32, kind: Byte, len: U32)
    ensures var r := ValidateHeader(sid, kind, len);
            && (r.Ok? <==> kind <= 21 && (sid == 0 <==> ControlKind(kind)) && LengthFits(kind, len))
            && (kind > 21 ==> r == Err(UnknownType(kind)))
            && (kind <= 21 && sid == 0 && !ControlKind(kind) ==> r == Err(DataOnControlStream))
            && (kind <= 21 && sid != 0 && ControlKind(kind) ==> r == Err(ControlOnDataStream(sid)))
  {
  }

  /** What a length out of range is refused as. */
  lemma LengthRefused(sid: U32, kind: Byte, len: U32)
    requires kind <= 21 && (sid == 0 <==> ControlKind(kind)) && !LengthFits(kind, len)
    ensures ValidateHeader(sid, kind, len) == Err(
              match kind
              case 0 => PayloadTooLarge(TData, len, 65536)
              case 1 => InvalidResizeLen(len)
              case 2 => PayloadTooLarge(TOpen, len, 68)
              case 3 => InvalidCloseLen(len)
              case 4 => PayloadTooLarge(TPing, len, 64)
              case 5 => PayloadTooLarge(TPong, len, 64)
              case 6 => PayloadTooLarge(THello, len, 1024)
              case 7 => if len < 21 then PasteBeginTruncated(len) else PayloadTooLarge(TPasteBegin, len, 276)
              case 8 => if len < 4 then PasteChunkTruncated(len) else PayloadTooLarge(TPasteChunk, len, 1048580)
              case 9 => PasteEndLen(len)
              case 10 => PasteRejectLen(len)
              case 11 => if len < 13 then DownloadBeginTruncated(len) else PayloadTooLarge(TDownloadBegin, len, 268)
              case 12 => if len < 4 then DownloadChunkTruncated(len) else PayloadTooLarge(TDownloadChunk, len, 1048580)
              case 13 => DownloadEndLen(len)
              case 14 => ControlFrameNonEmpty(TAcquireControl, len)
              case 15 => ControlFrameNonEmpty(TReleaseControl, len)
              case 16 => ControlFrameNonEmpty(TTakeControl, len)
              case 17 => ControllerChangedLen(len)
              case 18 => ListSessionsLen(len)
              case 19 => if len < 8 then SessionListTruncated(len) else SessionListOverflow(len)
              case 20 => if len < 5 then KillSessionTruncated(len) else PayloadTooLarge(TKillSession, len, 69)
              case _ => KillSessionAckLen(len))
  {
  }

  // ---- which payloads are accepted ----------------------------------------------------------

  /** `[A-Za-z0-9_-]{1,64}`. */
  predicate SessionIdBytes(s: seq<Byte>) {
    1 <= |s| <= 64 && forall i :: 0 <= i < |s| ==>
      var c := s[i] as char;
      'A' <= c <= 'Z' || 'a' <= c <= 'z' || '0' <= c <= '9' || c == '-' || c == '_'
  }

  /** Of payloads of a fitting length those are accepted whose own lengths, sizes, status bytes
      and text are in order. */
  predicate PayloadFits(kind: Byte, p: seq<Byte>)
    requires LengthFits(kind, |p|)
  {
    match kind
    case 2 => SessionIdBytes(p[..|p| - 4])
    case 7 =>
      BigEndian(p[4..12]) <= 4294967295 && BigEndian(p[16..20]) > 0 && |p| == 21 + p[20] as int && Utf8.Valid(p[21..])
    case 9 => p[4] <= 1
    case 10 => p[4] <= 6
    case 11 => BigEndian(p[4..12]) <= 4294967295 && |p| == 13 + p[12] as int && Utf8.Valid(p[13..])
    case 13 => p[4] <= 1
    case 17 => p[0] <= 2
    case 19 => BigEndian(p[4..8]) == |p| - 8
    case 20 => |p| == 5 + p[4] as int && SessionIdBytes(p[5..])
    case 21 => p[4] <= 1
    case _ => true
  }

  lemma SessionIdIs(s: seq<Byte>)
    ensures SessionIdBytes(s) <==> IsValidSessionId(s)
    ensures SessionIdBytes(s) ==> Utf8.Valid(s)
  {
    forall i | 0 <= i < |s|
      ensures var c := s[i] as char;
              IsIdByte(s[i]) <==> 'A' <= c <= 'Z' || 'a' <= c <= 'z' || '0' <= c <= '9' || c == '-' || c == '_'
    {
      IdBytes(s[i]);
    }
    if SessionIdBytes(s) {
      Utf8.AsciiIsValid(s);
    }
  }

  lemma PayloadIff(ty: FrameType, p: seq<Byte>)
    requires LengthFits(TypeByte(ty), |p|)
    ensures BodyFromPayload(ty, p).Ok? <==> PayloadFits(TypeByte(ty), p)
  {
    hide BigEndian, Utf8.Valid, IsValidSessionId, SessionIdBytes, U16At, U32At, U64At;
    match ty
    case TOpen => SessionIdIs(p[..|p| - 4]);
    case TKillSession => SessionIdIs(p[5..]);
    case TPasteBegin =>
      U64Is(p, 4);
      U32Is(p, 16);
    case TDownloadBegin => U64Is(p, 4);
    case TSessionList => U32Is(p, 4);
    case _ =>
  }

  /** What a payload that is out of order is refused as: of a begin first the size, then the
      group, then the lengths, then the text. */
  lemma PayloadRefused(ty: FrameType, p: seq<Byte>)
    requires LengthFits(TypeByte(ty), |p|) && !PayloadFits(TypeByte(ty), p)
    ensures BodyFromPayload(ty, p) == Err(
              match TypeByte(ty)
              case 2 => if Utf8.Valid(p[..|p| - 4]) then InvalidSessionId else SessionIdNotUtf8
              case 7 =>
                if U64At(p, 4) > 4294967295 then PasteBeginTotalSize(U64At(p, 4))
                else if U32At(p, 16) == 0 then PasteBeginGroupSizeZero(0)
                else if |p| != 21 + p[20] as int then PasteBeginTruncated(|p|) else PasteBeginNameNotUtf8
              case 9 => PasteEndStatus(p[4])
              case 10 => PasteRejectReason(p[4])
              case 11 =>
                if U64At(p, 4) > 4294967295 then DownloadBeginTotalSize(U64At(p, 4))
                else if |p| != 13 + p[12] as int then DownloadBeginTruncated(|p|) else DownloadBeginNameNotUtf8
              case 13 => DownloadEndStatus(p[4])
              case 17 => ControllerChangedStatus(p[0])
              case 19 => SessionListJsonLen(U32At(p, 4), |p|)
              case 20 =>
                if |p| != 5 + p[4] as int then KillSessionIdLen(p[4], |p|)
                else if Utf8.Valid(p[5..]) then InvalidSessionId else SessionIdNotUtf8
              case _ => KillSessionAckStatus(p[4]))
  {
    hide BigEndian, Utf8.Valid, IsValidSessionId, SessionIdBytes, U64At, U32At;
    match ty
    case TOpen => SessionIdIs(p[..|p| - 4]);
    case TKillSession => SessionIdIs(p[5..]);
    case TPasteBegin =>
      U64Is(p, 4);
      U32Is(p, 16);
    case TDownloadBegin => U64Is(p, 4);
    case TSessionList => U32Is(p, 4);
    case _ =>
  }

  /** A message is accepted exactly when it is nine bytes and a payload of the length they say,
      of a known type, on its kind of stream, and in order. */
  lemma MessageIff(data: seq<Byte>)
    ensures FrameFromMessage(data).Ok? <==>
            && |data| >= 9 && data[4] <= 21 && (BigEndian(data[..4]) == 0 <==> ControlKind(data[4]))
            && BigEndian(data[5..9]) == |data| - 9 && LengthFits(data[4], |data| - 9)
            && PayloadFits(data[4], data[9..])
  {
    hide BigEndian, U32At, PayloadFits, LengthFits, BodyFromPayload, ValidateHeader;
    if |data| >= 9 {
      U32Is(data, 0);
      U32Is(data, 5);
      var sid, len := U32At(data, 0), U32At(data, 5);
      HeaderIff(sid, data[4], len);
      var v := ValidateHeader(sid, data[4], len);
      if v.Ok? && |data| == 9 + len as int {
        assert TypeByte(v.value) == data[4];
        PayloadIff(v.value, data[9..]);
      }
    }
  }

  // ---- what a reader makes of a stream ------------------------------------------------------

  /** The two stages never report an end of file themselves. */
  lemma StagesRefuse(sid: U32, kind: Byte, len: U32, ty: FrameType, p: seq<Byte>)
    ensures ValidateHeader(sid, kind, len) != Err(Io(UnexpectedEof))
    ensures BodyFromPayload(ty, p) != Err(Io(UnexpectedEof))
  {
    hide U16At, U32At, U64At, Utf8.Valid, IsValidSessionId;
  }

  /** A reader ends cleanly inside a header, takes a frame exactly when one stands at the front,
      and fails on everything else. */
  lemma RecvIff(s: seq<Byte>)
    ensures Recv(s).Ended? <==> |s| < 9
    ensures Recv(s).Got? <==> exists f, rest :: WellFormed(f) && s == Encode(f) + rest
    ensures forall f, rest :: WellFormed(f) && s == Encode(f) + rest ==> Recv(s) == Got(f, |Encode(f)|, rest)
  {
    forall f, rest | WellFormed(f) && s == Encode(f) + rest
      ensures Recv(s) == Got(f, |Encode(f)|, rest)
    {
      RecvEncoded(f, rest);
    }
    hide BodyFromPayload, ValidateHeader, Encode, WellFormed, U32At;
    if Recv(s).Got? {
      GotIsFrame(s);
    }
  }

  /** It fails for lack of bytes exactly when it accepted the header. */
  lemma EofIff(s: seq<Byte>)
    ensures Recv(s) == Failed(Io(UnexpectedEof)) <==>
            && |s| >= 9 && s[4] <= 21 && (BigEndian(s[..4]) == 0 <==> ControlKind(s[4]))
            && LengthFits(s[4], BigEndian(s[5..9])) && |s| < 9 + BigEndian(s[5..9])
  {
    hide BigEndian, U32At, LengthFits, BodyFromPayload, ValidateHeader;
    if |s| >= 9 {
      U32Is(s, 0);
      U32Is(s, 5);
      var sid, len := U32At(s, 0), U32At(s, 5);
      HeaderIff(sid, s[4], len);
      StagesRefuse(sid, s[4], len, TData, []);
      var v := ValidateHeader(sid, s[4], len);
      if v.Ok? && |s| >= 9 + len as int {
        StagesRefuse(sid, s[4], len, v.value, s[9..9 + len as int]);
      }
    }
  }

  lemma GotIsFrame(s: seq<Byte>)
    requires Recv(s).Got?
    ensures WellFormed(Recv(s).frame) && s == Encode(Recv(s).frame) + Recv(s).rest
  {
    hide BodyFromPayload, ValidateHeader, Encode, WellFormed, U32At;
    var data := s[..Recv(s).bytes];
    HeaderFields(s);
    HeaderFields(data);
    assert data[..9] == s[..9] && data[9..] == s[9..Recv(s).bytes];
    EncodeAfterDecode(data);
    assert s == data + Recv(s).rest;
  }
}
