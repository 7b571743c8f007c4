/** The wire frame: `[stream_id u32][type u8][length u32][payload]`, its 22 body kinds,
    the encoder, and the two-stage decoder (`validate_header`, then `from_payload`). */
module Frame {
  import opened Prelude
  import Utf8

  const HEADER_LEN := 9
  const MAX_DATA_LEN := 64 * 1024
  const MAX_SESSION_ID_LEN := 64
  const MAX_HELLO_LEN := 1024
  const MAX_PING_LEN := 64
  const MAX_PASTE_TOTAL_BYTES := 4 * 1024 * 1024 * 1024 - 1
  const MAX_PASTE_CHUNK_BYTES := 1024 * 1024
  const MAX_PASTE_NAME_LEN := 255
  const MAX_PASTE_BEGIN_LEN := 21 + MAX_PASTE_NAME_LEN
  const MAX_PASTE_CHUNK_LEN := 4 + MAX_PASTE_CHUNK_BYTES
  const PASTE_END_LEN := 5
  const PASTE_REJECT_LEN := 5
  const PASTE_STATUS_OK: Byte := 0
  const PASTE_STATUS_CANCEL: Byte := 1
  const PASTE_REJECT_MAX_REASON := 6
  const MAX_DOWNLOAD_BEGIN_LEN := 13 + MAX_PASTE_NAME_LEN
  const MAX_DOWNLOAD_CHUNK_LEN := 4 + MAX_PASTE_CHUNK_BYTES
  const DOWNLOAD_END_LEN := 5
  const DOWNLOAD_STATUS_OK: Byte := 0
  const DOWNLOAD_STATUS_CANCEL: Byte := 1
  const MAX_OPEN_LEN := MAX_SESSION_ID_LEN + 4
  const CONTROLLER_CHANGED_LEN := 1
  const CONTROLLER_STATUS_OTHER := 2
  const LIST_SESSIONS_LEN := 4
  const MAX_SESSION_LIST_LEN := 8 + 256 * 1024
  const MAX_KILL_SESSION_LEN := 5 + MAX_SESSION_ID_LEN
  const KILL_SESSION_ACK_LEN := 5
  const KILL_STATUS_MAX := 1
  const CONTROL_STREAM: U32 := 0

  datatype FrameType =
    | TData | TResize | TOpen | TClose | TPing | TPong | THello
    | TPasteBegin | TPasteChunk | TPasteEnd | TPasteReject
    | TDownloadBegin | TDownloadChunk | TDownloadEnd
    | TAcquireControl | TReleaseControl | TTakeControl | TControllerChanged
    | TListSessions | TSessionList | TKillSession | TKillSessionAck

  function TypeByte(ty: FrameType): Byte {
    match ty
    case TData => 0 case TResize => 1 case TOpen => 2 case TClose => 3
    case TPing => 4 case TPong => 5 case THello => 6
    case TPasteBegin => 7 case TPasteChunk => 8 case TPasteEnd => 9 case TPasteReject => 10
    case TDownloadBegin => 11 case TDownloadChunk => 12 case TDownloadEnd => 13
    case TAcquireControl => 14 case TReleaseControl => 15 case TTakeControl => 16
    case TControllerChanged => 17
    case TListSessions => 18 case TSessionList => 19 case TKillSession => 20 case TKillSessionAck => 21
  }

  function FromU8(b: Byte): (r: Option<FrameType>)
    ensures r.Some? ==> TypeByte(r.value) == b
    ensures r.None? <==> b > 21
  {
    match b
    case 0 => Some(TData) case 1 => Some(TResize) case 2 => Some(TOpen) case 3 => Some(TClose)
    case 4 => Some(TPing) case 5 => Some(TPong) case 6 => Some(THello)
    case 7 => Some(TPasteBegin) case 8 => Some(TPasteChunk) case 9 => Some(TPasteEnd)
    case 10 => Some(TPasteReject) case 11 => Some(TDownloadBegin) case 12 => Some(TDownloadChunk)
    case 13 => Some(TDownloadEnd) case 14 => Some(TAcquireControl) case 15 => Some(TReleaseControl)
    case 16 => Some(TTakeControl) case 17 => Some(TControllerChanged) case 18 => Some(TListSessions)
    case 19 => Some(TSessionList) case 20 => Some(TKillSession) case 21 => Some(TKillSessionAck)
    case _ => None
  }

  datatype IoKind = UnexpectedEof | InvalidData

  datatype FrameError =
    | Io(kind: IoKind)
    | UnknownType(b: Byte)
    | PayloadTooLarge(ty: FrameType, len: U32, max: int)
    | InvalidResizeLen(len: U32)
    | InvalidCloseLen(len: U32)
    | InvalidSessionId
    | SessionIdNotUtf8
    | ControlOnDataStream(sid: U32)
    | DataOnControlStream
    | PasteBeginTruncated(len: U32)
    | PasteBeginNameNotUtf8
    | PasteBeginTotalSize(size: U64)
    | PasteBeginGroupSizeZero(groupSize: U32)
    | PasteChunkTruncated(len: U32)
    | PasteEndLen(len: U32)
    | PasteEndStatus(status: Byte)
    | PasteRejectLen(len: U32)
    | PasteRejectReason(reason: Byte)
    | DownloadBeginTruncated(len: U32)
    | DownloadBeginNameNotUtf8
    | DownloadBeginTotalSize(size: U64)
    | DownloadChunkTruncated(len: U32)
    | DownloadEndLen(len: U32)
    | DownloadEndStatus(status: Byte)
    | ControllerChangedLen(len: U32)
    | ControllerChangedStatus(status: Byte)
    | ListSessionsLen(len: U32)
    | SessionListTruncated(len: U32)
    | SessionListJsonLen(jsonLen: U32, payloadLen: U32)
    | SessionListOverflow(len: U32)
    | KillSessionTruncated(len: U32)
    | KillSessionIdLen(idLen: Byte, len: U32)
    | KillSessionAckLen(len: U32)
    | KillSessionAckStatus(status: Byte)
    | ControlFrameNonEmpty(ty: FrameType, len: U32)

  datatype Body =
    | Data(data: seq<Byte>)
    | Resize(rows: U16, cols: U16)
    | Open(sessionId: Utf8.Str, initRows: U16, initCols: U16)
    | Close
    | Ping(ping: seq<Byte>)
    | Pong(pong: seq<Byte>)
    | Hello(hello: seq<Byte>)
    | PasteBegin(pasteId: U32, totalSize: U64, groupId: U32, groupSize: U32, name: Utf8.Str)
    | PasteChunk(pasteId: U32, bytes: seq<Byte>)
    | PasteEnd(pasteId: U32, status: Byte)
    | PasteReject(pasteId: U32, reason: Byte)
    | DownloadBegin(downloadId: U32, totalSize: U64, name: Utf8.Str)
    | DownloadChunk(downloadId: U32, bytes: seq<Byte>)
    | DownloadEnd(downloadId: U32, status: Byte)
    | AcquireControl
    | ReleaseControl
    | TakeControl
    | ControllerChanged(status: Byte)
    | ListSessions(requestId: U32)
    | SessionList(requestId: U32, json: seq<Byte>)
    | KillSession(requestId: U32, sessionId: Utf8.Str)
    | KillSessionAck(requestId: U32, status: Byte)

  datatype Frame = Frame(streamId: U32, body: Body)

  function TypeOf(body: Body): FrameType {
    match body
    case Data(_) => TData
    case Resize(_, _) => TResize
    case Open(_, _, _) => TOpen
    case Close => TClose
    case Ping(_) => TPing
    case Pong(_) => TPong
    case Hello(_) => THello
    case PasteBegin(_, _, _, _, _) => TPasteBegin
    case PasteChunk(_, _) => TPasteChunk
    case PasteEnd(_, _) => TPasteEnd
    case PasteReject(_, _) => TPasteReject
    case DownloadBegin(_, _, _) => TDownloadBegin
    case DownloadChunk(_, _) => TDownloadChunk
    case DownloadEnd(_, _) => TDownloadEnd
    case AcquireControl => TAcquireControl
    case ReleaseControl => TReleaseControl
    case TakeControl => TTakeControl
    case ControllerChanged(_) => TControllerChanged
    case ListSessions(_) => TListSessions
    case SessionList(_, _) => TSessionList
    case KillSession(_, _) => TKillSession
    case KillSessionAck(_, _) => TKillSessionAck
  }

  /** `[A-Za-z0-9_-]{1,64}`. */
  predicate IsValidSessionId(s: seq<Byte>) {
    0 < |s| <= MAX_SESSION_ID_LEN && forall i :: 0 <= i < |s| ==> IsIdByte(s[i])
  }

  // ---- encoding --------------------------------------------------------------

  function KeptName(name: Utf8.Str): (r: Utf8.Str)
    ensures |r| <= MAX_PASTE_NAME_LEN
  {
    Utf8.Truncate(name, MAX_PASTE_NAME_LEN)
  }

  function Payload(body: Body): seq<Byte> {
    match body
    case Data(b) => b
    case Resize(rows, cols) => Be16(rows) + Be16(cols)
    case Open(id, rows, cols) => id + Be16(rows) + Be16(cols)
    case Close => []
    case Ping(b) => b
    case Pong(b) => b
    case Hello(b) => b
    case PasteBegin(id, total, gid, gsize, name) =>
      var n := KeptName(name);
      Be32(id) + Be64(total) + Be32(gid) + Be32(gsize) + [|n|] + n
    case PasteChunk(id, bytes) => Be32(id) + bytes
    case PasteEnd(id, status) => Be32(id) + [status]
    case PasteReject(id, reason) => Be32(id) + [reason]
    case DownloadBegin(id, total, name) =>
      var n := KeptName(name);
      Be32(id) + Be64(total) + [|n|] + n
    case DownloadChunk(id, bytes) => Be32(id) + bytes
    case DownloadEnd(id, status) => Be32(id) + [status]
    case AcquireControl => []
    case ReleaseControl => []
    case TakeControl => []
    case ControllerChanged(status) => [status]
    case ListSessions(id) => Be32(id)
    case SessionList(id, json) => Be32(id) + Be32(|json| % 0x1_0000_0000) + json
    case KillSession(id, session) =>
      var n := Min(|session|, MAX_SESSION_ID_LEN);
      Be32(id) + [n] + session[..n]
    case KillSessionAck(id, status) => Be32(id) + [status]
  }

  /** Payload lengths travel as `len as u32`. */
  function Len32(p: seq<Byte>): U32 {
    |p| % 0x1_0000_0000
  }

  function Encode(f: Frame): (out: seq<Byte>)
    ensures |out| == HEADER_LEN + |Payload(f.body)|
    ensures out[9..] == Payload(f.body)
    ensures out[..4] == Be32(f.streamId)
    ensures out[4..] == [TypeByte(TypeOf(f.body))] + Be32(Len32(Payload(f.body))) + Payload(f.body)
  {
    Be32(f.streamId) + [TypeByte(TypeOf(f.body))] + Be32(Len32(Payload(f.body))) + Payload(f.body)
  }

  // ---- decoding --------------------------------------------------------------

  /** Header stage: stream scope and length bounds, without the payload. */
  function ValidateHeader(sid: U32, tyByte: Byte, len: U32): (r: Result<FrameType, FrameError>)
    ensures r.Ok? ==> TypeByte(r.value) == tyByte && (sid == CONTROL_STREAM <==> OnControlStream(r.value))
  {
    match FromU8(tyByte)
    case None => Err(UnknownType(tyByte))
    case Some(ty) =>
      match ty
      case TData =>
        if sid == CONTROL_STREAM then Err(DataOnControlStream)
        else if len > MAX_DATA_LEN then Err(PayloadTooLarge(ty, len, MAX_DATA_LEN)) else Ok(ty)
      case TResize =>
        if sid == CONTROL_STREAM then Err(DataOnControlStream)
        else if len != 4 then Err(InvalidResizeLen(len)) else Ok(ty)
      case TOpen =>
        if sid == CONTROL_STREAM then Err(DataOnControlStream)
        else if !(5 <= len <= MAX_OPEN_LEN) then Err(PayloadTooLarge(ty, len, MAX_OPEN_LEN)) else Ok(ty)
      case TClose =>
        if sid == CONTROL_STREAM then Err(DataOnControlStream)
        else if len != 0 then Err(InvalidCloseLen(len)) else Ok(ty)
      case TPing =>
        if sid != CONTROL_STREAM then Err(ControlOnDataStream(sid))
        else if len > MAX_PING_LEN then Err(PayloadTooLarge(ty, len, MAX_PING_LEN)) else Ok(ty)
      case TPong =>
        if sid != CONTROL_STREAM then Err(ControlOnDataStream(sid))
        else if len > MAX_PING_LEN then Err(PayloadTooLarge(ty, len, MAX_PING_LEN)) else Ok(ty)
      case THello =>
        if sid != CONTROL_STREAM then Err(ControlOnDataStream(sid))
        else if len == 0 || len > MAX_HELLO_LEN then Err(PayloadTooLarge(ty, len, MAX_HELLO_LEN)) else Ok(ty)
      case TPasteBegin =>
        if sid == CONTROL_STREAM then Err(DataOnControlStream)
        else if len < 21 then Err(PasteBeginTruncated(len))
        else if len > MAX_PASTE_BEGIN_LEN then Err(PayloadTooLarge(ty, len, MAX_PASTE_BEGIN_LEN)) else Ok(ty)
      case TPasteChunk =>
        if sid == CONTROL_STREAM then Err(DataOnControlStream)
        else if len < 4 then Err(PasteChunkTruncated(len))
        else if len > MAX_PASTE_CHUNK_LEN then Err(PayloadTooLarge(ty, len, MAX_PASTE_CHUNK_LEN)) else Ok(ty)
      case TPasteEnd =>
        if sid == CONTROL_STREAM then Err(DataOnControlStream)
        else if len != PASTE_END_LEN then Err(PasteEndLen(len)) else Ok(ty)
      case TPasteReject =>
        if sid == CONTROL_STREAM then Err(DataOnControlStream)
        else if len != PASTE_REJECT_LEN then Err(PasteRejectLen(len)) else Ok(ty)
      case TDownloadBegin =>
        if sid == CONTROL_STREAM then Err(DataOnControlStream)
        else if len < 13 then Err(DownloadBeginTruncated(len))
        else if len > MAX_DOWNLOAD_BEGIN_LEN then Err(PayloadTooLarge(ty, len, MAX_DOWNLOAD_BEGIN_LEN)) else Ok(ty)
      case TDownloadChunk =>
        if sid == CONTROL_STREAM then Err(DataOnControlStream)
        else if len < 4 then Err(DownloadChunkTruncated(len))
        else if len > MAX_DOWNLOAD_CHUNK_LEN then Err(PayloadTooLarge(ty, len, MAX_DOWNLOAD_CHUNK_LEN)) else Ok(ty)
      case TDownloadEnd =>
        if sid == CONTROL_STREAM then Err(DataOnControlStream)
        else if len != DOWNLOAD_END_LEN then Err(DownloadEndLen(len)) else Ok(ty)
      case TAcquireControl =>
        if sid == CONTROL_STREAM then Err(DataOnControlStream)
        else if len != 0 then Err(ControlFrameNonEmpty(ty, len)) else Ok(ty)
      case TReleaseControl =>
        if sid == CONTROL_STREAM then Err(DataOnControlStream)
        else if len != 0 then Err(ControlFrameNonEmpty(ty, len)) else Ok(ty)
      case TTakeControl =>
        if sid == CONTROL_STREAM then Err(DataOnControlStream)
        else if len != 0 then Err(ControlFrameNonEmpty(ty, len)) else Ok(ty)
      case TControllerChanged =>
        if sid == CONTROL_STREAM then Err(DataOnControlStream)
        else if len != CONTROLLER_CHANGED_LEN then Err(ControllerChangedLen(len)) else Ok(ty)
      case TListSessions =>
        if sid != CONTROL_STREAM then Err(ControlOnDataStream(sid))
        else if len != LIST_SESSIONS_LEN then Err(ListSessionsLen(len)) else Ok(ty)
      case TSessionList =>
        if sid != CONTROL_STREAM then Err(ControlOnDataStream(sid))
        else if len < 8 then Err(SessionListTruncated(len))
        else if len > MAX_SESSION_LIST_LEN then Err(SessionListOverflow(len)) else Ok(ty)
      case TKillSession =>
        if sid != CONTROL_STREAM then Err(ControlOnDataStream(sid))
        else if len < 5 then Err(KillSessionTruncated(len))
        else if len > MAX_KILL_SESSION_LEN then Err(PayloadTooLarge(ty, len, MAX_KILL_SESSION_LEN)) else Ok(ty)
      case TKillSessionAck =>
        if sid != CONTROL_STREAM then Err(ControlOnDataStream(sid))
        else if len != KILL_SESSION_ACK_LEN then Err(KillSessionAckLen(len)) else Ok(ty)
  }

  /** Payload stage. Lengths are checked again because callers may skip the header stage. */
  function BodyFromPayload(ty: FrameType, p: seq<Byte>): Result<Body, FrameError> {
    match ty
    case TData => Ok(Data(p))
    case TOpen => OpenFromPayload(p)
    case TClose => Ok(Close)
    case TResize =>
      if |p| != 4 then Err(InvalidResizeLen(Len32(p))) else Ok(Resize(U16At(p, 0), U16At(p, 2)))
    case TPing => Ok(Ping(p))
    case TPong => Ok(Pong(p))
    case THello => Ok(Hello(p))
    case TPasteBegin => PasteBeginFromPayload(p)
    case TPasteChunk =>
      if |p| < 4 then Err(PasteChunkTruncated(Len32(p)))
      else if |p| > MAX_PASTE_CHUNK_LEN then Err(PayloadTooLarge(ty, Len32(p), MAX_PASTE_CHUNK_LEN))
      else Ok(PasteChunk(U32At(p, 0), p[4..]))
    case TPasteEnd =>
      if |p| != PASTE_END_LEN then Err(PasteEndLen(Len32(p)))
      else if p[4] != PASTE_STATUS_OK && p[4] != PASTE_STATUS_CANCEL then Err(PasteEndStatus(p[4]))
      else Ok(PasteEnd(U32At(p, 0), p[4]))
    case TPasteReject =>
      if |p| != PASTE_REJECT_LEN then Err(PasteRejectLen(Len32(p)))
      else if p[4] > PASTE_REJECT_MAX_REASON then Err(PasteRejectReason(p[4]))
      else Ok(PasteReject(U32At(p, 0), p[4]))
    case TDownloadBegin => DownloadBeginFromPayload(p)
    case TDownloadChunk =>
      if |p| < 4 then Err(DownloadChunkTruncated(Len32(p)))
      else if |p| > MAX_DOWNLOAD_CHUNK_LEN then Err(PayloadTooLarge(ty, Len32(p), MAX_DOWNLOAD_CHUNK_LEN))
      else Ok(DownloadChunk(U32At(p, 0), p[4..]))
    case TDownloadEnd =>
      if |p| != DOWNLOAD_END_LEN then Err(DownloadEndLen(Len32(p)))
      else if p[4] != DOWNLOAD_STATUS_OK && p[4] != DOWNLOAD_STATUS_CANCEL then Err(DownloadEndStatus(p[4]))
      else Ok(DownloadEnd(U32At(p, 0), p[4]))
    case TAcquireControl => Ok(AcquireControl)
    case TReleaseControl => Ok(ReleaseControl)
    case TTakeControl => Ok(TakeControl)
    case TControllerChanged =>
      if |p| != CONTROLLER_CHANGED_LEN then Err(ControllerChangedLen(Len32(p)))
      else if p[0] > CONTROLLER_STATUS_OTHER then Err(ControllerChangedStatus(p[0]))
      else Ok(ControllerChanged(p[0]))
    case TListSessions =>
      if |p| != LIST_SESSIONS_LEN then Err(ListSessionsLen(Len32(p))) else Ok(ListSessions(U32At(p, 0)))
    case TSessionList =>
      if |p| < 8 then Err(SessionListTruncated(Len32(p)))
      else if U32At(p, 4) != (|p| - 8) % 0x1_0000_0000 then Err(SessionListJsonLen(U32At(p, 4), Len32(p)))
      else Ok(SessionList(U32At(p, 0), p[8..]))
    case TKillSession => KillSessionFromPayload(p)
    case TKillSessionAck =>
      if |p| != KILL_SESSION_ACK_LEN then Err(KillSessionAckLen(Len32(p)))
      else if p[4] > KILL_STATUS_MAX then Err(KillSessionAckStatus(p[4]))
      else Ok(KillSessionAck(U32At(p, 0), p[4]))
  }

  function OpenFromPayload(p: seq<Byte>): Result<Body, FrameError> {
    if |p| < 5 then Err(PayloadTooLarge(TOpen, Len32(p), MAX_OPEN_LEN))
    else
      var split := |p| - 4;
      if !Utf8.Valid(p[..split]) then Err(SessionIdNotUtf8)
      else if !IsValidSessionId(p[..split]) then Err(InvalidSessionId)
      else Ok(Open(p[..split], U16At(p, split), U16At(p, split + 2)))
  }

  function PasteBeginFromPayload(p: seq<Byte>): Result<Body, FrameError> {
    if |p| < 21 then Err(PasteBeginTruncated(Len32(p)))
    else if U64At(p, 4) > MAX_PASTE_TOTAL_BYTES then Err(PasteBeginTotalSize(U64At(p, 4)))
    else if U32At(p, 16) == 0 then Err(PasteBeginGroupSizeZero(0))
    else if |p| != 21 + p[20] as int then Err(PasteBeginTruncated(Len32(p)))
    else if !Utf8.Valid(p[21..]) then Err(PasteBeginNameNotUtf8)
    else Ok(PasteBegin(U32At(p, 0), U64At(p, 4), U32At(p, 12), U32At(p, 16), p[21..]))
  }

  function DownloadBeginFromPayload(p: seq<Byte>): Result<Body, FrameError> {
    if |p| < 13 then Err(DownloadBeginTruncated(Len32(p)))
    else if U64At(p, 4) > MAX_PASTE_TOTAL_BYTES then Err(DownloadBeginTotalSize(U64At(p, 4)))
    else if |p| != 13 + p[12] as int then Err(DownloadBeginTruncated(Len32(p)))
    else if !Utf8.Valid(p[13..]) then Err(DownloadBeginNameNotUtf8)
    else Ok(DownloadBegin(U32At(p, 0), U64At(p, 4), p[13..]))
  }

  function KillSessionFromPayload(p: seq<Byte>): Result<Body, FrameError> {
    if |p| < 5 then Err(KillSessionTruncated(Len32(p)))
    else if |p| != 5 + p[4] as int then Err(KillSessionIdLen(p[4], Len32(p)))
    else if !Utf8.Valid(p[5..]) then Err(SessionIdNotUtf8)
    else if !IsValidSessionId(p[5..]) then Err(InvalidSessionId)
    else Ok(KillSession(U32At(p, 0), p[5..]))
  }

  // ---- well-formed frames ----------------------------------------------------

  /** Frame types that live on stream 0. */
  predicate OnControlStream(ty: FrameType) {
    ty in {TPing, TPong, THello, TListSessions, TSessionList, TKillSession, TKillSessionAck}
  }

  predicate WellFormedBody(b: Body) {
    match b
    case Data(d) => |d| <= MAX_DATA_LEN
    case Open(id, _, _) => IsValidSessionId(id)
    case Ping(d) => |d| <= MAX_PING_LEN
    case Pong(d) => |d| <= MAX_PING_LEN
    case Hello(d) => 0 < |d| <= MAX_HELLO_LEN
    case PasteBegin(_, total, _, gsize, name) =>
      total <= MAX_PASTE_TOTAL_BYTES && gsize > 0 && |name| <= MAX_PASTE_NAME_LEN
    case PasteChunk(_, d) => |d| <= MAX_PASTE_CHUNK_BYTES
    case PasteEnd(_, status) => status <= 1
    case PasteReject(_, reason) => reason <= PASTE_REJECT_MAX_REASON
    case DownloadBegin(_, total, name) => total <= MAX_PASTE_TOTAL_BYTES && |name| <= MAX_PASTE_NAME_LEN
    case DownloadChunk(_, d) => |d| <= MAX_PASTE_CHUNK_BYTES
    case DownloadEnd(_, status) => status <= 1
    case ControllerChanged(status) => status <= CONTROLLER_STATUS_OTHER
    case SessionList(_, json) => |json| <= 256 * 1024
    case KillSession(_, id) => IsValidSessionId(id)
    case KillSessionAck(_, status) => status <= KILL_STATUS_MAX
    case _ => true
  }

  predicate WellFormed(f: Frame) {
    WellFormedBody(f.body) && (f.streamId == CONTROL_STREAM <==> OnControlStream(TypeOf(f.body)))
  }

  /** A body whose name, if any, has been cut to the wire cap. */
  function WithKeptName(b: Body): Body {
    match b
    case PasteBegin(id, total, gid, gsize, name) => PasteBegin(id, total, gid, gsize, KeptName(name))
    case DownloadBegin(id, total, name) => DownloadBegin(id, total, KeptName(name))
    case _ => b
  }

  // ---- body round trips --------------------------------------------------------

  lemma OpenRoundTrip(id: Utf8.Str, rows: U16, cols: U16)
    requires IsValidSessionId(id)
    ensures BodyFromPayload(TOpen, Payload(Open(id, rows, cols))) == Ok(Open(id, rows, cols))
  {
    var p := id + Be16(rows) + Be16(cols);
    assert p[..|id|] == id;
    ReadBe16(p, |id|, rows);
    ReadBe16(p, |id| + 2, cols);
  }

  lemma PasteBeginRoundTrip(id: U32, total: U64, gid: U32, gsize: U32, name: Utf8.Str)
    requires total <= MAX_PASTE_TOTAL_BYTES && gsize > 0 && |name| <= MAX_PASTE_NAME_LEN
    ensures BodyFromPayload(TPasteBegin, Payload(PasteBegin(id, total, gid, gsize, name)))
            == Ok(PasteBegin(id, total, gid, gsize, name))
  {
    hide Be32, Be64, U32At, U64At, Utf8.Valid;
    var p := Be32(id) + Be64(total) + Be32(gid) + Be32(gsize) + [|name|] + name;
    assert p == Payload(PasteBegin(id, total, gid, gsize, name));
    assert p[0..4] == Be32(id) && p[4..12] == Be64(total) && p[12..16] == Be32(gid) && p[16..20] == Be32(gsize);
    assert p[20] == |name| && p[21..] == name;
    ReadBe32(p, 0, id);
    ReadBe64(p, 4, total);
    ReadBe32(p, 12, gid);
    ReadBe32(p, 16, gsize);
  }

  lemma DownloadBeginRoundTrip(id: U32, total: U64, name: Utf8.Str)
    requires total <= MAX_PASTE_TOTAL_BYTES && |name| <= MAX_PASTE_NAME_LEN
    ensures BodyFromPayload(TDownloadBegin, Payload(DownloadBegin(id, total, name))) ==
            Ok(DownloadBegin(id, total, name))
  {
    hide Be32, Be64, U32At, U64At, Utf8.Valid;
    var p := Be32(id) + Be64(total) + [|name|] + name;
    assert p == Payload(DownloadBegin(id, total, name));
    assert p[0..4] == Be32(id) && p[4..12] == Be64(total) && p[12] == |name| && p[13..] == name;
    ReadBe32(p, 0, id);
    ReadBe64(p, 4, total);
  }

  lemma KillSessionRoundTrip(id: U32, session: Utf8.Str)
    requires IsValidSessionId(session)
    ensures BodyFromPayload(TKillSession, Payload(KillSession(id, session))) == Ok(KillSession(id, session))
  {
    var p := Be32(id) + [|session|] + session;
    assert session[..|session|] == session;
    assert p == Payload(KillSession(id, session));
    assert p[0..4] == Be32(id);
    ReadBe32(p, 0, id);
    assert p[5..] == session;
  }

  predicate StartsWithId(b: Body) {
    b.PasteChunk? || b.PasteEnd? || b.PasteReject? || b.DownloadChunk? || b.DownloadEnd? || b.ListSessions?
    || b.KillSessionAck?
  }

  lemma IdBodyRoundTrip(b: Body)
    requires WellFormedBody(b) && StartsWithId(b)
    ensures BodyFromPayload(TypeOf(b), Payload(b)) == Ok(b)
  {
  }

  lemma SessionListRoundTrip(id: U32, json: seq<Byte>)
    requires WellFormedBody(SessionList(id, json))
    ensures BodyFromPayload(TSessionList, Payload(SessionList(id, json))) == Ok(SessionList(id, json))
  {
  }

  lemma ResizeRoundTrip(rows: U16, cols: U16)
    ensures BodyFromPayload(TResize, Payload(Resize(rows, cols))) == Ok(Resize(rows, cols))
  {
  }

  /** Every well-formed body decodes from its own payload. */
  lemma BodyRoundTrip(b: Body)
    requires WellFormedBody(b)
    ensures BodyFromPayload(TypeOf(b), Payload(b)) == Ok(b)
  {
    if b.Open? {
      OpenRoundTrip(b.sessionId, b.initRows, b.initCols);
    } else if b.PasteBegin? {
      PasteBeginRoundTrip(b.pasteId, b.totalSize, b.groupId, b.groupSize, b.name);
    } else if b.DownloadBegin? {
      DownloadBeginRoundTrip(b.downloadId, b.totalSize, b.name);
    } else if b.KillSession? {
      KillSessionRoundTrip(b.requestId, b.sessionId);
    } else if StartsWithId(b) {
      IdBodyRoundTrip(b);
    } else if b.SessionList? {
      SessionListRoundTrip(b.requestId, b.json);
    } else if b.Resize? {
      ResizeRoundTrip(b.rows, b.cols);
    }
  }

  lemma HeaderAcceptsTransfer(f: Frame)
    requires WellFormed(f)
    requires f.body.PasteBegin? || f.body.PasteChunk? || f.body.DownloadBegin? || f.body.DownloadChunk? || f.body.Open?
    ensures |Payload(f.body)| < 0x1_0000_0000
    ensures ValidateHeader(f.streamId, TypeByte(TypeOf(f.body)), |Payload(f.body)|) == Ok(TypeOf(f.body))
  {
  }

  lemma HeaderAcceptsControl(f: Frame)
    requires WellFormed(f) && f.streamId == CONTROL_STREAM
    ensures |Payload(f.body)| < 0x1_0000_0000
    ensures ValidateHeader(f.streamId, TypeByte(TypeOf(f.body)), |Payload(f.body)|) == Ok(TypeOf(f.body))
  {
  }

  /** The header stage accepts the length and scope of every well-formed frame. */
  lemma HeaderAcceptsWellFormed(f: Frame)
    requires WellFormed(f)
    ensures |Payload(f.body)| < 0x1_0000_0000
    ensures ValidateHeader(f.streamId, TypeByte(TypeOf(f.body)), |Payload(f.body)|) == Ok(TypeOf(f.body))
  {
    if f.body.PasteBegin? || f.body.PasteChunk? || f.body.DownloadBegin? || f.body.DownloadChunk? || f.body.Open? {
      HeaderAcceptsTransfer(f);
    } else if f.streamId == CONTROL_STREAM {
      HeaderAcceptsControl(f);
    }
  }

  lemma OpenCanonical(p: seq<Byte>)
    requires OpenFromPayload(p).Ok?
    ensures Payload(OpenFromPayload(p).value) == p
  {
  }

  lemma PasteBeginCanonical(p: seq<Byte>)
    requires PasteBeginFromPayload(p).Ok?
    ensures Payload(PasteBeginFromPayload(p).value) == p
  {
    hide Be32, Be64, U32At, U64At, Utf8.Valid;
    WriteBe32(p, 0);
    WriteBe64(p, 4);
    WriteBe32(p, 12);
    WriteBe32(p, 16);
    assert p == p[0..4] + p[4..12] + p[12..16] + p[16..20] + [p[20]] + p[21..];
  }

  lemma DownloadBeginCanonical(p: seq<Byte>)
    requires DownloadBeginFromPayload(p).Ok?
    ensures Payload(DownloadBeginFromPayload(p).value) == p
  {
    hide Be32, Be64, U32At, U64At, Utf8.Valid;
    WriteBe32(p, 0);
    WriteBe64(p, 4);
    assert p == p[0..4] + p[4..12] + [p[12]] + p[13..];
  }

  lemma KillSessionCanonical(p: seq<Byte>)
    requires KillSessionFromPayload(p).Ok?
    ensures Payload(KillSessionFromPayload(p).value) == p
  {
    hide Be32, U32At, Utf8.Valid;
    var session := p[5..];
    WriteBe32(p, 0);
    assert Min(|session|, MAX_SESSION_ID_LEN) == |session| && session[..|session|] == session;
    assert p == p[0..4] + [p[4]] + session;
  }

  lemma SessionListCanonical(p: seq<Byte>)
    requires |p| < 0x1_0000_0000 && BodyFromPayload(TSessionList, p).Ok?
    ensures Payload(BodyFromPayload(TSessionList, p).value) == p
  {
    WriteBe32(p, 0);
    WriteBe32(p, 4);
    assert p == p[0..4] + p[4..8] + p[8..];
  }

  lemma ResizeCanonical(p: seq<Byte>)
    requires BodyFromPayload(TResize, p).Ok?
    ensures Payload(BodyFromPayload(TResize, p).value) == p
  {
  }

  lemma IdAndStatus(p: seq<Byte>)
    requires |p| == 5
    ensures Be32(U32At(p, 0)) + [p[4]] == p
  {
    hide Be32, U32At;
    WriteBe32(p, 0);
    assert p[0..4] + [p[4]] == p;
  }

  lemma IdAndTail(p: seq<Byte>)
    requires |p| >= 4
    ensures Be32(U32At(p, 0)) + p[4..] == p
  {
    WriteBe32(p, 0);
  }

  lemma IdBodyCanonical(ty: FrameType, p: seq<Byte>)
    requires ty in {TPasteChunk, TPasteEnd, TPasteReject, TDownloadChunk, TDownloadEnd, TListSessions, TKillSessionAck}
    requires BodyFromPayload(ty, p).Ok?
    ensures Payload(BodyFromPayload(ty, p).value) == p
  {
    if ty in {TPasteEnd, TPasteReject, TDownloadEnd, TKillSessionAck} {
      IdAndStatus(p);
    } else {
      IdAndTail(p);
    }
  }

  lemma PayloadCanonical(sid: U32, ty: FrameType, p: seq<Byte>)
    requires |p| < 0x1_0000_0000 && ValidateHeader(sid, TypeByte(ty), |p|) == Ok(ty)
    requires BodyFromPayload(ty, p).Ok?
    ensures Payload(BodyFromPayload(ty, p).value) == p
  {
    match ty
    case TOpen => OpenCanonical(p);
    case TPasteBegin => PasteBeginCanonical(p);
    case TDownloadBegin => DownloadBeginCanonical(p);
    case TKillSession => KillSessionCanonical(p);
    case TSessionList => SessionListCanonical(p);
    case TResize => ResizeCanonical(p);
    case _ =>
      if ty in {TPasteChunk, TPasteEnd, TPasteReject, TDownloadChunk, TDownloadEnd, TListSessions, TKillSessionAck} {
        IdBodyCanonical(ty, p);
      }
  }

  /** What the header stage knows of a type and a length. */
  predicate HeaderOk(sid: U32, ty: FrameType, p: seq<Byte>) {
    |p| < 0x1_0000_0000 && ValidateHeader(sid, TypeByte(ty), |p|) == Ok(ty)
  }

  lemma AcceptedUpload(sid: U32, ty: FrameType, p: seq<Byte>)
    requires ty in {TPasteBegin, TPasteChunk, TPasteEnd, TPasteReject}
    requires HeaderOk(sid, ty, p) && BodyFromPayload(ty, p).Ok?
    ensures TypeOf(BodyFromPayload(ty, p).value) == ty && WellFormedBody(BodyFromPayload(ty, p).value)
  {
    hide U32At, U64At, Utf8.Valid;
  }

  lemma AcceptedDownload(sid: U32, ty: FrameType, p: seq<Byte>)
    requires ty in {TDownloadBegin, TDownloadChunk, TDownloadEnd, TOpen, TData, TResize, TClose}
    requires HeaderOk(sid, ty, p) && BodyFromPayload(ty, p).Ok?
    ensures TypeOf(BodyFromPayload(ty, p).value) == ty && WellFormedBody(BodyFromPayload(ty, p).value)
  {
    hide U32At, U64At, U16At, Utf8.Valid;
  }

  lemma AcceptedControl(sid: U32, ty: FrameType, p: seq<Byte>)
    requires ty in {TAcquireControl, TReleaseControl, TTakeControl, TControllerChanged, TPing, TPong, THello}
    requires HeaderOk(sid, ty, p) && BodyFromPayload(ty, p).Ok?
    ensures TypeOf(BodyFromPayload(ty, p).value) == ty && WellFormedBody(BodyFromPayload(ty, p).value)
  {
    hide U32At, U64At, U16At, Utf8.Valid;
  }

  lemma AcceptedAdmin(sid: U32, ty: FrameType, p: seq<Byte>)
    requires ty in {TListSessions, TSessionList, TKillSession, TKillSessionAck}
    requires HeaderOk(sid, ty, p) && BodyFromPayload(ty, p).Ok?
    ensures TypeOf(BodyFromPayload(ty, p).value) == ty && WellFormedBody(BodyFromPayload(ty, p).value)
  {
    hide U32At, U64At, U16At, Utf8.Valid;
  }

  lemma AcceptedIsWellFormed(sid: U32, ty: FrameType, p: seq<Byte>)
    requires HeaderOk(sid, ty, p) && BodyFromPayload(ty, p).Ok?
    ensures TypeOf(BodyFromPayload(ty, p).value) == ty
    ensures WellFormed(Frame(sid, BodyFromPayload(ty, p).value))
  {
    assert sid == CONTROL_STREAM <==> OnControlStream(ty);
    hide BodyFromPayload, WellFormedBody, HeaderOk;
    match ty
    case TPasteBegin => AcceptedUpload(sid, ty, p);
    case TPasteChunk => AcceptedUpload(sid, ty, p);
    case TPasteEnd => AcceptedUpload(sid, ty, p);
    case TPasteReject => AcceptedUpload(sid, ty, p);
    case TDownloadBegin => AcceptedDownload(sid, ty, p);
    case TDownloadChunk => AcceptedDownload(sid, ty, p);
    case TDownloadEnd => AcceptedDownload(sid, ty, p);
    case TOpen => AcceptedDownload(sid, ty, p);
    case TData => AcceptedDownload(sid, ty, p);
    case TResize => AcceptedDownload(sid, ty, p);
    case TClose => AcceptedDownload(sid, ty, p);
    case TListSessions => AcceptedAdmin(sid, ty, p);
    case TSessionList => AcceptedAdmin(sid, ty, p);
    case TKillSession => AcceptedAdmin(sid, ty, p);
    case TKillSessionAck => AcceptedAdmin(sid, ty, p);
    case _ => AcceptedControl(sid, ty, p);
  }

  /** An accepted header and payload give a well-formed frame that encodes back to them. */
  lemma BodyCanonical(sid: U32, ty: FrameType, p: seq<Byte>)
    requires |p| < 0x1_0000_0000 && ValidateHeader(sid, TypeByte(ty), |p|) == Ok(ty)
    requires BodyFromPayload(ty, p).Ok?
    ensures TypeOf(BodyFromPayload(ty, p).value) == ty
    ensures WellFormed(Frame(sid, BodyFromPayload(ty, p).value))
    ensures Payload(BodyFromPayload(ty, p).value) == p
  {
    PayloadCanonical(sid, ty, p);
    AcceptedIsWellFormed(sid, ty, p);
  }

  /** Encoding never looks past the name cap. */
  lemma EncodeCutsNames(f: Frame)
    ensures Encode(f) == Encode(Frame(f.streamId, WithKeptName(f.body)))
  {
  }

  // ---- encoders as the program runs them -----------------------------------------

  /** `Frame::encode` for a name-carrying body: the truncation loop, then the buffer. */
  method EncodeDownloadBegin(sid: U32, id: U32, total: U64, name: Utf8.Str) returns (out: seq<Byte>)
    ensures out == Encode(Frame(sid, DownloadBegin(id, total, name)))
  {
    var n := Utf8.TruncatedLen(name, MAX_PASTE_NAME_LEN);
    var p := Be32(id);
    p := p + Be64(total);
    p := p + [n];
    p := p + name[..n];
    out := Be32(sid);
    out := out + [TypeByte(TDownloadBegin)];
    out := out + Be32(Len32(p));
    out := out + p;
  }

  method EncodePasteBegin(sid: U32, id: U32, total: U64, gid: U32, gsize: U32, name: Utf8.Str)
    returns (out: seq<Byte>)
    ensures out == Encode(Frame(sid, PasteBegin(id, total, gid, gsize, name)))
  {
    var n := Utf8.TruncatedLen(name, MAX_PASTE_NAME_LEN);
    var p := Be32(id);
    p := p + Be64(total);
    p := p + Be32(gid);
    p := p + Be32(gsize);
    p := p + [n];
    p := p + name[..n];
    out := Be32(sid);
    out := out + [TypeByte(TPasteBegin)];
    out := out + Be32(Len32(p));
    out := out + p;
  }

  /** The single-copy encoder of the bulk download path. */
  method EncodeDownloadChunk(sid: U32, id: U32, bytes: seq<Byte>) returns (out: seq<Byte>)
    ensures out == Encode(Frame(sid, DownloadChunk(id, bytes)))
  {
    var payloadLen := 4 + |bytes|;
    out := Be32(sid);
    out := out + [TypeByte(TDownloadChunk)];
    out := out + Be32(payloadLen % 0x1_0000_0000);
    out := out + Be32(id);
    out := out + bytes;
    assert out == Be32(sid) + [TypeByte(TDownloadChunk)] + Be32(payloadLen % 0x1_0000_0000) + (Be32(id) + bytes);
  }
}
