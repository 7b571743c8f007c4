/** Frames over the two transports: a length-delimited byte stream, and one frame per
    binary WebSocket message. */
module Transport {
  import opened Prelude
  import opened Frame
  import Utf8

  // ---- one frame per message -----------------------------------------------

  /** `frame_from_ws_payload`: the frame and its wire byte count. */
  function FrameFromMessage(data: seq<Byte>): Result<(Frame, nat), FrameError> {
    if |data| < HEADER_LEN then Err(Io(InvalidData))
    else
      var sid := U32At(data, 0);
      var len := U32At(data, 5);
      var ty :- ValidateHeader(sid, data[4], len);
      if |data| != HEADER_LEN + len as int then Err(Io(InvalidData))
      else
        var body :- BodyFromPayload(ty, data[9..]);
        Ok((Frame(sid, body), |data|))
  }

  /** The header of an encoding reads back as the fields that were written. */
  lemma EncodedHeader(f: Frame)
    requires |Payload(f.body)| < 0x1_0000_0000
    ensures U32At(Encode(f), 0) == f.streamId
    ensures Encode(f)[4] == TypeByte(TypeOf(f.body))
    ensures U32At(Encode(f), 5) == |Payload(f.body)|
  {
  }

  /** Decoding inverts encoding on every well-formed frame. */
  lemma DecodeAfterEncode(f: Frame)
    requires WellFormed(f)
    ensures FrameFromMessage(Encode(f)) == Ok((f, |Encode(f)|))
  {
    HeaderAcceptsWellFormed(f);
    EncodedHeader(f);
    BodyRoundTrip(f.body);
  }

  lemma HeaderBytes(data: seq<Byte>)
    requires |data| >= 9
    ensures Be32(U32At(data, 0)) + [data[4]] + Be32(U32At(data, 5)) + data[9..] == data
  {
    WriteBe32(data, 0);
    WriteBe32(data, 5);
    assert data == data[0..4] + [data[4]] + data[5..9] + data[9..];
  }

  lemma EncodeFromParts(data: seq<Byte>, body: Body)
    requires |data| >= 9 && data[4] == TypeByte(TypeOf(body))
    requires |data| == 9 + U32At(data, 5) as int && Payload(body) == data[9..]
    ensures Encode(Frame(U32At(data, 0), body)) == data
  {
    hide Be32, U32At, Payload, TypeByte;
    HeaderBytes(data);
  }

  /** Encoding inverts decoding on every accepted message: the wire form is canonical. */
  lemma EncodeAfterDecode(data: seq<Byte>)
    requires FrameFromMessage(data).Ok?
    ensures var (f, n) := FrameFromMessage(data).value; WellFormed(f) && Encode(f) == data && n == |data|
  {
    var ty := ValidateHeader(U32At(data, 0), data[4], U32At(data, 5)).value;
    BodyCanonical(U32At(data, 0), ty, data[9..]);
    EncodeFromParts(data, BodyFromPayload(ty, data[9..]).value);
  }

  /** A frame survives the wire unchanged exactly when it is well-formed. */
  lemma SurvivesIffWellFormed(f: Frame)
    ensures WellFormed(f) <==> FrameFromMessage(Encode(f)) == Ok((f, |Encode(f)|))
  {
    if WellFormed(f) {
      DecodeAfterEncode(f);
    } else if FrameFromMessage(Encode(f)).Ok? {
      EncodeAfterDecode(Encode(f));
    }
  }

  /** Two well-formed frames never share a wire form. */
  lemma EncodeInjective(f: Frame, g: Frame)
    requires WellFormed(f) && WellFormed(g) && Encode(f) == Encode(g)
    ensures f == g
  {
    DecodeAfterEncode(f);
    DecodeAfterEncode(g);
  }

  /** A frame that only its name keeps from being well-formed still decodes, with the
      name cut to its longest whole-character prefix of at most 255 bytes; and the cut
      name is a fixed point of sending it again. */
  lemma LongNamesDecode(f: Frame)
    requires WellFormed(Frame(f.streamId, WithKeptName(f.body)))
    ensures FrameFromMessage(Encode(f)) == Ok((Frame(f.streamId, WithKeptName(f.body)), |Encode(f)|))
    ensures WithKeptName(WithKeptName(f.body)) == WithKeptName(f.body)
  {
    EncodeCutsNames(f);
    DecodeAfterEncode(Frame(f.streamId, WithKeptName(f.body)));
  }

  // ---- byte stream -----------------------------------------------------------

  /** Outcome of one `recv`: a frame, its byte count and what is left of the stream;
      or a clean end; or an error. */
  datatype Received =
    | Got(frame: Frame, bytes: nat, rest: seq<Byte>)
    | Ended
    | Failed(error: FrameError)

  function Recv(s: seq<Byte>): (r: Received)
    ensures r.Got? ==> |r.rest| < |s|
  {
    if |s| < HEADER_LEN then Ended
    else
      var sid := U32At(s, 0);
      var len: int := U32At(s, 5);
      match ValidateHeader(sid, s[4], len)
      case Err(e) => Failed(e)
      case Ok(ty) =>
        if |s| < HEADER_LEN + len then Failed(Io(UnexpectedEof))
        else
          match BodyFromPayload(ty, s[9..9 + len])
          case Err(e) => Failed(e)
          case Ok(body) => Got(Frame(sid, body), HEADER_LEN + len, s[9 + len..])
  }

  /** The header fields, read from the first nine bytes. */
  lemma HeaderFields(s: seq<Byte>)
    requires |s| >= HEADER_LEN
    ensures U32At(s[..9], 0) == U32At(s, 0) && s[..9][4] == s[4] && U32At(s[..9], 5) == U32At(s, 5)
  {
  }

  /** The reader as the program holds it: a stream that each `Recv` consumes. */
  class ByteStreamRecv {
    var input: seq<Byte>

    constructor (s: seq<Byte>)
      ensures input == s
    {
      input := s;
    }

    /** Fills a buffer, or reports that the stream ended first. */
    method ReadExact(n: nat) returns (r: Option<seq<Byte>>)
      modifies this
      ensures |old(input)| >= n ==> r == Some(old(input)[..n]) && input == old(input)[n..]
      ensures |old(input)| < n ==> r == None && input == []
    {
      if |input| < n {
        input := [];
        return None;
      }
      r := Some(input[..n]);
      input := input[n..];
    }

    method Receive() returns (r: Result<Option<(Frame, nat)>, FrameError>)
      modifies this
      ensures match Recv(old(input))
              case Got(f, n, rest) => r == Ok(Some((f, n))) && input == rest
              case Ended => r == Ok(None) && input == []
              case Failed(e) => r == Err(e)
    {
      hide ValidateHeader, BodyFromPayload, U32At;
      ghost var s := input;
      var hdr := ReadExact(HEADER_LEN);
      if hdr == None {
        return Ok(None);
      }
      HeaderFields(s);
      var sid := U32At(hdr.value, 0);
      var len := U32At(hdr.value, 5);
      var v := ValidateHeader(sid, hdr.value[4], len);
      if v.Err? {
        return Err(v.error);
      }
      var payload: seq<Byte> := [];
      if len > 0 {
        var p := ReadExact(len);
        if p == None {
          return Err(Io(UnexpectedEof));
        }
        payload := p.value;
      }
      assert s[9..][..len] == s[9..9 + len] && s[9..][len..] == s[9 + len as int..];
      assert payload == s[9..9 + len] && input == s[9 + len as int..];
      var total := HEADER_LEN + len as int;
      var b := BodyFromPayload(v.value, payload);
      if b.Err? {
        return Err(b.error);
      }
      return Ok(Some((Frame(sid, b.value), total)));
    }
  }

  /** Every frame received until the stream ends or fails, and how it stopped. */
  function RecvAll(s: seq<Byte>): (seq<(Frame, nat)>, Result<(), FrameError>)
    decreases |s|
  {
    match Recv(s)
    case Ended => ([], Ok(()))
    case Failed(e) => ([], Err(e))
    case Got(f, n, rest) =>
      var (fs, end) := RecvAll(rest);
      ([(f, n)] + fs, end)
  }

  function EncodeAll(fs: seq<Frame>): seq<Byte> {
    if fs == [] then [] else Encode(fs[0]) + EncodeAll(fs[1..])
  }

  function WithSizes(fs: seq<Frame>): seq<(Frame, nat)> {
    if fs == [] then [] else [(fs[0], |Encode(fs[0])|)] + WithSizes(fs[1..])
  }

  /** A whole frame at the front is received whatever follows it. */
  lemma RecvEncoded(f: Frame, rest: seq<Byte>)
    requires WellFormed(f)
    ensures Recv(Encode(f) + rest) == Got(f, |Encode(f)|, rest)
  {
    var e := Encode(f);
    var s := e + rest;
    HeaderAcceptsWellFormed(f);
    EncodedHeader(f);
    BodyRoundTrip(f.body);
    assert s[..9] == e[..9];
    assert U32At(s, 0) == U32At(e, 0) && s[4] == e[4] && U32At(s, 5) == U32At(e, 5);
    assert s[9..|e|] == e[9..];
    assert s[|e|..] == rest;
  }

  /** A frame cut short gives a clean end inside its header and an error inside its payload. */
  lemma RecvCut(f: Frame, c: nat)
    requires WellFormed(f) && c < |Encode(f)|
    ensures Recv(Encode(f)[..c]) == if c < HEADER_LEN then Ended else Failed(Io(UnexpectedEof))
  {
    if c >= HEADER_LEN {
      var e := Encode(f);
      HeaderAcceptsWellFormed(f);
      EncodedHeader(f);
      assert U32At(e[..c], 0) == U32At(e, 0) && e[..c][4] == e[4] && U32At(e[..c], 5) == U32At(e, 5);
    }
  }

  predicate AllWellFormed(fs: seq<Frame>) {
    forall i :: 0 <= i < |fs| ==> WellFormed(fs[i])
  }

  /** How many frames lie wholly before offset `c`. */
  function WholeBefore(fs: seq<Frame>, c: nat): (k: nat)
    ensures k <= |fs|
  {
    if fs == [] || c < |Encode(fs[0])| then 0 else 1 + WholeBefore(fs[1..], c - |Encode(fs[0])|)
  }

  lemma RecvAllCons(f: Frame, rest: seq<Byte>)
    requires WellFormed(f)
    ensures RecvAll(Encode(f) + rest) == ([(f, |Encode(f)|)] + RecvAll(rest).0, RecvAll(rest).1)
  {
    RecvEncoded(f, rest);
  }

  lemma PrefixCons(fs: seq<Frame>, k: nat)
    requires k < |fs|
    ensures EncodeAll(fs[..k + 1]) == Encode(fs[0]) + EncodeAll(fs[1..][..k])
    ensures WithSizes(fs[..k + 1]) == [(fs[0], |Encode(fs[0])|)] + WithSizes(fs[1..][..k])
  {
    assert fs[..k + 1][1..] == fs[1..][..k];
  }

  /** What a reader makes of `EncodeAll(fs)` cut at offset `c`: exactly the frames wholly
      before the cut, with exact byte counts; then a clean end if the cut is at a frame
      boundary or within a header, and an end-of-file error if it is within a payload. */
  function CutOutcome(fs: seq<Frame>, c: nat): (seq<(Frame, nat)>, Result<(), FrameError>) {
    var k := WholeBefore(fs, c);
    (WithSizes(fs[..k]),
     if c - |EncodeAll(fs[..k])| < HEADER_LEN then Ok(()) else Err(Io(UnexpectedEof)))
  }

  lemma CutInFirst(fs: seq<Frame>, c: nat)
    requires fs != [] && WellFormed(fs[0]) && c < |Encode(fs[0])|
    ensures RecvAll(EncodeAll(fs)[..c]) == CutOutcome(fs, c)
  {
    assert EncodeAll(fs)[..c] == Encode(fs[0])[..c];
    RecvCut(fs[0], c);
  }

  lemma CutAfterFirst(fs: seq<Frame>, c: nat)
    requires fs != [] && |Encode(fs[0])| <= c
    ensures CutOutcome(fs, c) ==
            ([(fs[0], |Encode(fs[0])|)] + CutOutcome(fs[1..], c - |Encode(fs[0])|).0,
             CutOutcome(fs[1..], c - |Encode(fs[0])|).1)
  {
    PrefixCons(fs, WholeBefore(fs[1..], c - |Encode(fs[0])|));
  }

  /** Cutting a stream of well-formed frames anywhere. */
  lemma {:induction false} CutStream(fs: seq<Frame>, c: nat)
    requires AllWellFormed(fs) && c <= |EncodeAll(fs)|
    ensures RecvAll(EncodeAll(fs)[..c]) == CutOutcome(fs, c)
  {
    if fs == [] {
    } else if c < |Encode(fs[0])| {
      CutInFirst(fs, c);
    } else {
      var c' := c - |Encode(fs[0])|;
      CutStream(fs[1..], c');
      assert EncodeAll(fs)[..c] == Encode(fs[0]) + EncodeAll(fs[1..])[..c'];
      RecvAllCons(fs[0], EncodeAll(fs[1..])[..c']);
      CutAfterFirst(fs, c);
    }
  }

  /** The length of the first `k` frames. */
  function SizeOf(fs: seq<Frame>, k: nat): nat
    requires k <= |fs|
  {
    |EncodeAll(fs[..k])|
  }

  lemma SizeCons(fs: seq<Frame>, k: nat)
    requires 0 < k <= |fs|
    ensures SizeOf(fs, k) == |Encode(fs[0])| + SizeOf(fs[1..], k - 1)
  {
    hide Encode;
    PrefixCons(fs, k - 1);
  }

  lemma {:induction false} WholeBeforeFits(fs: seq<Frame>, c: nat)
    ensures SizeOf(fs, WholeBefore(fs, c)) <= c
    ensures forall k :: WholeBefore(fs, c) < k <= |fs| ==> SizeOf(fs, k) > c
  {
    NothingEncoded(fs);
    hide Encode, SizeOf;
    if fs != [] {
      var size := |Encode(fs[0])|;
      forall k | 0 < k <= |fs|
        ensures SizeOf(fs, k) == size + SizeOf(fs[1..], k - 1)
      {
        SizeCons(fs, k);
      }
      if size <= c {
        WholeBeforeFits(fs[1..], c - size);
      }
    }
  }

  /** The frames before the cut fit before it, and the next one does not. */
  lemma WholeBeforeIsGreatest(fs: seq<Frame>, c: nat)
    ensures |EncodeAll(fs[..WholeBefore(fs, c)])| <= c
    ensures forall k :: WholeBefore(fs, c) < k <= |fs| ==> |EncodeAll(fs[..k])| > c
  {
    hide Encode, EncodeAll, WholeBefore;
    WholeBeforeFits(fs, c);
    assert forall k :: 0 <= k <= |fs| ==> SizeOf(fs, k) == |EncodeAll(fs[..k])|;
  }

  lemma NothingEncoded(fs: seq<Frame>)
    ensures fs[..0] == [] && EncodeAll(fs[..0]) == [] && SizeOf(fs, 0) == 0
  {
  }

  /** Receiving the concatenation of any list of well-formed frames yields that list. */
  lemma ReceiveWhatWasSent(fs: seq<Frame>)
    requires AllWellFormed(fs)
    ensures RecvAll(EncodeAll(fs)) == (WithSizes(fs), Ok(()))
  {
    var c := |EncodeAll(fs)|;
    CutStream(fs, c);
    WholeBeforeIsGreatest(fs, c);
    assert EncodeAll(fs)[..c] == EncodeAll(fs);
    assert fs[..|fs|] == fs;
    hide EncodeAll, RecvAll, WithSizes, Encode, WellFormed;
    assert WholeBefore(fs, c) == |fs|;
  }

  /** The two transports accept the same frames: a message decodes exactly when the byte
      stream reader takes the same bytes as one frame with nothing left over. */
  lemma TransportsAgree(data: seq<Byte>, f: Frame, n: nat)
    ensures FrameFromMessage(data) == Ok((f, n)) <==> Recv(data) == Got(f, n, [])
  {
    if FrameFromMessage(data) == Ok((f, n)) {
      EncodeAfterDecode(data);
      RecvEncoded(f, []);
      assert Encode(f) + [] == data;
    }
    if Recv(data) == Got(f, n, []) {
      var len: int := U32At(data, 5);
      assert |data| == 9 + len;
      assert data[9..9 + len] == data[9..];
    }
  }
}
