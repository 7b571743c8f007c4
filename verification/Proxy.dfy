/** The hub's per-tab proxy: browser messages carry stream id 0, agent frames carry the
    id the hub allocated; the proxy decodes, re-stamps and re-encodes in both directions. */
module Proxy {
  import opened Prelude
  import opened Frame
  import opened Transport

  datatype WsMessage = Binary(data: seq<Byte>) | PingOrPong | Text | CloseMessage

  /** The decoding half of the browser loop: the body of an acceptable message. */
  function AcceptFromBrowser(sid: U32, data: seq<Byte>): Option<Body> {
    if |data| < HEADER_LEN then None
    else if U32At(data, 0) != 0 then None
    else
      var len := U32At(data, 5);
      match ValidateHeader(sid, data[4], len)
      case Err(_) => None
      case Ok(ty) =>
        if |data| != HEADER_LEN + len as int then None
        else
          match BodyFromPayload(ty, data[9..])
          case Err(_) => None
          case Ok(body) => Some(body)
  }

  /** `data` with its stream-id field replaced. */
  function Restamp(sid: U32, data: seq<Byte>): seq<Byte>
    requires |data| >= 4
  {
    Be32(sid) + data[4..]
  }

  lemma RestampedFields(sid: U32, data: seq<Byte>)
    requires |data| >= HEADER_LEN
    ensures var d := Restamp(sid, data);
            && |d| == |data| && U32At(d, 0) == sid
            && d[4] == data[4] && U32At(d, 5) == U32At(data, 5) && d[9..] == data[9..]
  {
  }

  /** The proxy accepts a message exactly when it is addressed to stream 0 and would be a
      frame on the allocated stream. */
  lemma AcceptsIffFrame(sid: U32, data: seq<Byte>)
    requires |data| >= HEADER_LEN
    ensures forall body :: AcceptFromBrowser(sid, data) == Some(body) <==>
              U32At(data, 0) == 0 && FrameFromMessage(Restamp(sid, data)) == Ok((Frame(sid, body), |data|))
  {
    RestampedFields(sid, data);
  }

  /** Every body that can travel on the stream, an open included, is accepted from a browser,
      however often it is sent. */
  lemma AcceptsEveryBody(sid: U32, body: Body)
    requires sid != CONTROL_STREAM && WellFormed(Frame(sid, body))
    ensures AcceptFromBrowser(sid, Restamp(0, Encode(Frame(sid, body)))) == Some(body)
  {
    hide Encode, FrameFromMessage, AcceptFromBrowser, WellFormed;
    var wire := Encode(Frame(sid, body));
    DecodeAfterEncode(Frame(sid, body));
    RestampedFields(0, wire);
    assert Restamp(sid, Restamp(0, wire)) == wire by {
      assert wire[..4] == Be32(sid);
      assert wire == wire[..4] + wire[4..];
    }
    AcceptsIffFrame(sid, Restamp(0, wire));
  }

  /** What the proxy queues to the agent is the message with only its four stream-id bytes
      replaced; it decodes at the agent to the same body; no control-stream type passes. */
  lemma ForwardedBytes(sid: U32, data: seq<Byte>)
    requires sid != CONTROL_STREAM && AcceptFromBrowser(sid, data).Some?
    ensures var body := AcceptFromBrowser(sid, data).value;
            && Encode(Frame(sid, body)) == Be32(sid) + data[4..]
            && data[..4] == Be32(0)
            && FrameFromMessage(Encode(Frame(sid, body))) == Ok((Frame(sid, body), |data|))
            && WellFormed(Frame(sid, body))
            && !OnControlStream(TypeOf(body))
  {
    AcceptsIffFrame(sid, data);
    EncodeAfterDecode(Restamp(sid, data));
    WriteBe32(data, 0);
  }

  /** Agent to browser: `Frame { stream_id: 0, body }.encode()` is the agent's message with
      its stream id zeroed. */
  lemma ReturnedBytes(message: seq<Byte>)
    requires FrameFromMessage(message).Ok?
    ensures Encode(Frame(0, FrameFromMessage(message).value.0.body)) == Restamp(0, message)
  {
    EncodeAfterDecode(message);
  }

  /** Re-stamping onto a stream and back gives the browser its own bytes. */
  lemma RestampRoundTrip(sid: U32, data: seq<Byte>)
    requires |data| >= 4 && data[..4] == Be32(0)
    ensures Restamp(0, Restamp(sid, data)) == data
  {
  }

  // ---- the browser loop --------------------------------------------------------

  /** The bodies sent to the agent before the loop stops, in order. */
  function Forwarded(sid: U32, msgs: seq<WsMessage>): seq<Body> {
    if msgs == [] then []
    else
      match msgs[0]
      case PingOrPong => Forwarded(sid, msgs[1..])
      case Text => []
      case CloseMessage => []
      case Binary(data) =>
        match AcceptFromBrowser(sid, data)
        case None => []
        case Some(body) => [body] + Forwarded(sid, msgs[1..])
  }

  /** What a browser sends for these bodies, with pings and pongs in between. */
  function BrowserMessages(sid: U32, bodies: seq<Option<Body>>): seq<WsMessage> {
    if bodies == [] then []
    else
      [if bodies[0].None? then PingOrPong else Binary(Restamp(0, Encode(Frame(sid, bodies[0].value))))]
      + BrowserMessages(sid, bodies[1..])
  }

  function Sent(bodies: seq<Option<Body>>): seq<Body> {
    if bodies == [] then []
    else (if bodies[0].None? then [] else [bodies[0].value]) + Sent(bodies[1..])
  }

  /** A message that ends the loop: a text, a close, or bytes that are not acceptable. */
  predicate Ends(sid: U32, msg: WsMessage) {
    msg.Text? || msg.CloseMessage? || (msg.Binary? && AcceptFromBrowser(sid, msg.data).None?)
  }

  lemma {:induction false} BodiesPass(sid: U32, bodies: seq<Option<Body>>, tail: seq<WsMessage>)
    requires sid != CONTROL_STREAM && Forwarded(sid, tail) == []
    requires forall i :: 0 <= i < |bodies| && bodies[i].Some? ==> WellFormed(Frame(sid, bodies[i].value))
    ensures Forwarded(sid, BrowserMessages(sid, bodies) + tail) == Sent(bodies)
  {
    hide AcceptFromBrowser, WellFormed, Encode, Restamp, Forwarded;
    if bodies == [] {
      assert BrowserMessages(sid, bodies) + tail == tail;
    } else {
      var first, more := BrowserMessages(sid, bodies)[0], BrowserMessages(sid, bodies[1..]);
      BodiesPass(sid, bodies[1..], tail);
      assert BrowserMessages(sid, bodies) == [first] + more;
      AppendAssoc([first], more, tail);
      ForwardedNext(sid, first, more + tail);
      if bodies[0].Some? {
        AcceptsEveryBody(sid, bodies[0].value);
      }
    }
  }

  /** Of whatever a browser sends, exactly the bodies before the first such message pass. */
  lemma ForwardedBodies(sid: U32, bodies: seq<Option<Body>>, end: WsMessage, rest: seq<WsMessage>)
    requires sid != CONTROL_STREAM && Ends(sid, end)
    requires forall i :: 0 <= i < |bodies| && bodies[i].Some? ==> WellFormed(Frame(sid, bodies[i].value))
    ensures Forwarded(sid, BrowserMessages(sid, bodies) + ([end] + rest)) == Sent(bodies)
    ensures Forwarded(sid, BrowserMessages(sid, bodies)) == Sent(bodies)
  {
    hide AcceptFromBrowser, WellFormed, BrowserMessages, Forwarded;
    ForwardedNext(sid, end, rest);
    NoneForwarded(sid);
    BodiesPass(sid, bodies, [end] + rest);
    BodiesPass(sid, bodies, []);
    assert BrowserMessages(sid, bodies) + [] == BrowserMessages(sid, bodies);
  }

  lemma NoneForwarded(sid: U32)
    ensures Forwarded(sid, []) == []
  {
  }

  function EncodeEach(sid: U32, bodies: seq<Body>): seq<seq<Byte>> {
    if bodies == [] then [] else [Encode(Frame(sid, bodies[0]))] + EncodeEach(sid, bodies[1..])
  }

  /** What the loop queues for the messages it is given, when the link takes `room` sends
      before one fails. */
  function Queued(sid: U32, msgs: seq<WsMessage>, room: nat): seq<seq<Byte>> {
    var bodies := Forwarded(sid, msgs);
    EncodeEach(sid, bodies[..Min(room, |bodies|)])
  }

  lemma ForwardedNext(sid: U32, msg: WsMessage, rest: seq<WsMessage>)
    ensures Forwarded(sid, [msg] + rest) ==
            if msg.PingOrPong? then Forwarded(sid, rest)
            else if msg.Binary? && AcceptFromBrowser(sid, msg.data).Some?
            then [AcceptFromBrowser(sid, msg.data).value] + Forwarded(sid, rest)
            else []
  {
    hide AcceptFromBrowser;
    Cons(msg, rest);
  }

  lemma EncodeFirst(sid: U32, body: Body, more: seq<Body>, n: nat)
    requires n <= |more|
    ensures EncodeEach(sid, ([body] + more)[..n + 1]) == [Encode(Frame(sid, body))] + EncodeEach(sid, more[..n])
  {
    hide Encode;
    assert ([body] + more)[..n + 1] == [body] + more[..n];
    Cons(body, more[..n]);
  }

  lemma QueuedNone(sid: U32, bodies: seq<Body>)
    ensures EncodeEach(sid, bodies[..0]) == []
  {
  }

  lemma QueuedNext(sid: U32, msg: WsMessage, rest: seq<WsMessage>, room: nat)
    ensures Queued(sid, [msg] + rest, room) ==
            if msg.PingOrPong? then Queued(sid, rest, room)
            else if msg.Binary? && AcceptFromBrowser(sid, msg.data).Some? && room > 0
            then [Encode(Frame(sid, AcceptFromBrowser(sid, msg.data).value))] + Queued(sid, rest, room - 1)
            else []
  {
    hide AcceptFromBrowser, Encode, Forwarded, EncodeEach;
    ForwardedNext(sid, msg, rest);
    var more := Forwarded(sid, rest);
    QueuedNone(sid, Forwarded(sid, [msg] + rest));
    if msg.Binary? && AcceptFromBrowser(sid, msg.data).Some? && room > 0 {
      EncodeFirst(sid, AcceptFromBrowser(sid, msg.data).value, more, Min(room - 1, |more|));
    }
  }

  /** One turn of the loop: stop, skip, or send one re-encoded body, which may fail. */
  method HandleMessage(sid: U32, msg: WsMessage, queued: seq<seq<Byte>>, room: nat, ghost rest: seq<WsMessage>)
    returns (go: bool, queued': seq<seq<Byte>>, room': nat)
    ensures queued' + (if go then Queued(sid, rest, room') else []) == queued + Queued(sid, [msg] + rest, room)
  {
    hide Queued, AcceptFromBrowser, Encode;
    QueuedNext(sid, msg, rest, room);
    match msg
    case PingOrPong => return true, queued, room;
    case Text => return false, queued, room;
    case CloseMessage => return false, queued, room;
    case Binary(data) =>
      var body := AcceptFromBrowser(sid, data);
      if body == None || room == 0 {
        return false, queued, room;
      }
      return true, queued + [Encode(Frame(sid, body.value))], room - 1;
  }

  /** `ws_to_stream`: each accepted message is re-encoded with the stream's id, until a
      message or a failing send ends the loop. */
  method WsToStream(sid: U32, msgs: seq<WsMessage>, room: nat) returns (queued: seq<seq<Byte>>)
    ensures queued == Queued(sid, msgs, room)
  {
    hide Queued;
    queued := [];
    var rest, go, left := msgs, true, room;
    ghost var goal := Queued(sid, msgs, room);
    while go && rest != []
      invariant queued + (if go then Queued(sid, rest, left) else []) == goal
      decreases |rest|
    {
      var msg := rest[0];
      assert rest == [msg] + rest[1..];
      rest := rest[1..];
      go, queued, left := HandleMessage(sid, msg, queued, left, rest);
    }
    NothingQueued(sid, left);
  }

  lemma NothingQueued(sid: U32, room: nat)
    ensures Queued(sid, [], room) == []
  {
  }

  function OnStream(sid: U32, bodies: seq<Body>): seq<Frame> {
    seq(|bodies|, i requires 0 <= i < |bodies| => Frame(sid, bodies[i]))
  }

  lemma OnStreamCons(sid: U32, body: Body, more: seq<Body>)
    requires WellFormed(Frame(sid, body)) && AllWellFormed(OnStream(sid, more))
    ensures AllWellFormed(OnStream(sid, [body] + more))
  {
    hide WellFormed;
    var fs, rest := OnStream(sid, [body] + more), OnStream(sid, more);
    forall i | 0 <= i < |fs|
      ensures WellFormed(fs[i])
    {
      if i > 0 {
        assert fs[i] == rest[i - 1];
      }
    }
  }

  lemma {:induction false} ForwardedWellFormed(sid: U32, msgs: seq<WsMessage>)
    requires sid != CONTROL_STREAM
    ensures AllWellFormed(OnStream(sid, Forwarded(sid, msgs)))
    decreases |msgs|
  {
    if msgs == [] {
    } else {
      hide AllWellFormed, OnStream, WellFormed, AcceptFromBrowser, Encode, FrameFromMessage;
      ForwardedWellFormed(sid, msgs[1..]);
      NoneOnStream(sid);
      if msgs[0].Binary? && AcceptFromBrowser(sid, msgs[0].data).Some? {
        ForwardedBytes(sid, msgs[0].data);
        OnStreamCons(sid, AcceptFromBrowser(sid, msgs[0].data).value, Forwarded(sid, msgs[1..]));
      }
    }
  }

  lemma NoneOnStream(sid: U32)
    ensures AllWellFormed(OnStream(sid, []))
  {
  }

  // ---- stream id allocation ----------------------------------------------------

  /** `open_stream`'s counter loop: fetch-and-add with 32-bit wrap, skipping 0. */
  method AllocStreamId(next: U32) returns (id: U32, next': U32)
    ensures id == NextId(next) && next' == Succ32(id)
    ensures id != CONTROL_STREAM
  {
    next' := next;
    id := 0;
    while id == 0
      invariant id == 0 ==> next' == next || (next == 0 && next' == 1)
      invariant id != 0 ==> id == NextId(next) && next' == Succ32(id)
      decreases if id != 0 then 0 else if next' == 0 then 2 else 1
    {
      id := next';
      next' := Succ32(next');
    }
  }

  /** Wrapping 32-bit increment. */
  function Succ32(x: U32): U32 {
    if x == 0xFFFF_FFFF then 0 else x + 1
  }

  function NextId(next: U32): U32 {
    if next == 0 then 1 else next
  }

  /** The first `n` ids handed out by a counter that starts at `next`. */
  function Allocated(next: U32, n: nat): (ids: seq<U32>)
    ensures |ids| == n
    decreases n
  {
    if n == 0 then [] else [NextId(next)] + Allocated(Succ32(NextId(next)), n - 1)
  }

  lemma {:induction false} AllocatedClosedForm(next: U32, n: nat, i: nat)
    requires i < n <= 0xFFFF_FFFF
    ensures Allocated(next, n)[i] ==
            if NextId(next) + i <= 0xFFFF_FFFF then NextId(next) + i else NextId(next) + i - 0xFFFF_FFFF
    decreases n
  {
    if i > 0 {
      AllocatedClosedForm(Succ32(NextId(next)), n - 1, i - 1);
    }
  }

  /** No id repeats until the whole 32-bit space but 0 has been used, and none is 0. */
  lemma AllocatedDistinct(next: U32, n: nat, i: nat, j: nat)
    requires i < j < n <= 0xFFFF_FFFF
    ensures Allocated(next, n)[i] != Allocated(next, n)[j] && Allocated(next, n)[i] != CONTROL_STREAM
  {
    AllocatedClosedForm(next, n, i);
    AllocatedClosedForm(next, n, j);
  }
}
