/** Whole ways through the system: from a link's reader into a stream's queues, from a browser's
    messages to the agent's session, and from the agent's download events to a browser tab. */
module Delivery {
  import opened Prelude
  import opened Broadcast
  import opened Routing
  import opened Link
  import D = Demux
  import F = Frame
  import P = Prio
  import Transport
  import Proxy
  import L = Download
  import T = Tab

  // ---- from a reader into the queues of a stream ---------------------------------------------------

  /** The frames that arrive in a run of a reader, in order. */
  function Arrivals(h: seq<D.Action>): seq<F.Frame> {
    if h == [] then []
    else
      var n := |h| - 1;
      Arrivals(h[..n]) + if h[n].Arrive? then [F.Frame(h[n].sid, h[n].body)] else []
  }

  lemma {:induction false} ArrivalsAppend(a: seq<D.Action>, b: seq<D.Action>)
    ensures Arrivals(a + b) == Arrivals(a) + Arrivals(b)
  {
    if b == [] {
      assert a + b == a;
    } else {
      var n := |b| - 1;
      ArrivalsAppend(a, b[..n]);
      assert (a + b)[..|a| + n] == a + b[..n];
    }
  }

  /** The frames that go to one queue of a stream. */
  predicate OnLane(f: F.Frame, side: D.Side, sid: U32, lo: bool) {
    f.streamId == sid && !(side.Agent? && f.body.Open?) && D.ToLo(side, f.body) == lo
  }

  lemma OneFilter<T>(p: T -> bool, x: T, rest: seq<T>)
    ensures Filter(p, [x] + rest) == (if p(x) then [x] else []) + Filter(p, rest)
  {
    FilterAppend(p, [x], rest);
    OneSelected(p, x);
  }

  /** The reader hands on the stream frames it reads, in order, until it ends. */
  lemma {:induction false} HandledInOrder(side: D.Side, got: seq<F.Frame>, p: F.Frame -> bool)
    requires forall f :: p(f) ==> f.streamId != F.CONTROL_STREAM
    ensures Filter(p, Arrivals(D.Handled(side, got))) <= Filter(p, got)
    decreases |got|
  {
    hide Filter, D.Benign;
    if got == [] {
      assert D.Handled(side, got) == [] && Arrivals([]) == [];
    } else {
      var f, rest := got[0], got[1..];
      HandledInOrder(side, rest, p);
      assert got == [f] + rest;
      OneFilter(p, f, rest);
      if f.streamId != F.CONTROL_STREAM {
        var a := D.Arrive(f.streamId, f.body);
        ArrivalsAppend([a], D.Handled(side, rest));
        assert Arrivals([a]) == [f] by {
          assert [a][..0] == [];
        }
        OneFilter(p, f, Arrivals(D.Handled(side, rest)));
      } else {
        assert [] + Filter(p, rest) == Filter(p, rest);
        if !D.Benign(side, f.body) {
          NothingSelected(p);
          assert Arrivals([]) == [];
        }
      }
    }
  }

  lemma OnStreamSnoc(sid: U32, bodies: seq<F.Body>, b: F.Body)
    ensures Proxy.OnStream(sid, bodies + [b]) == Proxy.OnStream(sid, bodies) + [F.Frame(sid, b)]
  {
  }

  /** What is addressed to a queue is everything that arrives for it once the stream is open. */
  lemma {:induction false} AddressedIsSuffix(side: D.Side, h: seq<D.Action>, sid: U32, lo: bool) returns (n: nat)
    ensures var all := Filter(f => OnLane(f, side, sid, lo), Arrivals(h));
            n <= |all| && Proxy.OnStream(sid, D.Addressed(side, h, sid, lo)) == all[n..]
    decreases |h|
  {
    hide Filter, Proxy.OnStream, D.ToLo;
    if h == [] {
      n := 0;
      NothingSelected(f => OnLane(f, side, sid, lo));
      NoneOnStream(sid);
    } else {
      var k := |h| - 1;
      var before, a := h[..k], h[k];
      n := AddressedIsSuffix(side, before, sid, lo);
      var mine := f => OnLane(f, side, sid, lo);
      var all := Filter(mine, Arrivals(before));
      if a.Arrive? {
        var f := F.Frame(a.sid, a.body);
        FilterSnoc(mine, Arrivals(before), f);
        if mine(f) {
          OnStreamSnoc(sid, D.Addressed(side, before, sid, lo), a.body);
          D.KnownIffOpened(side, before, sid, lo);
          assert (all + [f])[n..] == all[n..] + [f];
          if D.Opened(side, before, sid) == 0 {
            n := |all| + 1;
            NoneOnStream(sid);
            assert (all + [f])[n..] == [];
          }
        } else {
          assert all + [] == all;
        }
      } else {
        assert Arrivals(before) + [] == Arrivals(before);
      }
    }
  }

  lemma NoneOnStream(sid: U32)
    ensures Proxy.OnStream(sid, []) == []
  {
  }

  /** `t` is `all` from `n` on, for as long as it goes. */
  predicate StretchOf<A(==)>(t: seq<A>, all: seq<A>, n: nat) {
    n + |t| <= |all| && t == all[n..n + |t|]
  }

  lemma StretchOfLonger<A>(t: seq<A>, all: seq<A>, longer: seq<A>, n: nat)
    requires StretchOf(t, all, n) && all <= longer
    ensures StretchOf(t, longer, n)
  {
    assert longer[n..n + |t|] == all[n..n + |t|];
  }

  lemma OnStreamPrefix(sid: U32, a: seq<F.Body>, b: seq<F.Body>)
    requires a <= b
    ensures Proxy.OnStream(sid, a) <= Proxy.OnStream(sid, b)
  {
  }

  /** The reader of a link reads `got` and has handled the start of it in run `h`. */
  predicate Reads(side: D.Side, got: seq<F.Frame>, h: seq<D.Action>) {
    Arrivals(h) <= Arrivals(D.Handled(side, got))
  }

  /** With one open per stream id, what a stream's task takes from one of its queues is a
      gap-free stretch of the frames for that queue that the link's reader read. */
  lemma QueueIsStretch(side: D.Side, got: seq<F.Frame>, h: seq<D.Action>, sid: U32, lo: bool) returns (n: nat)
    requires sid != F.CONTROL_STREAM && Reads(side, got, h)
    requires D.Opened(side, h, sid) <= 1 && sid in D.Run(side, h)
    ensures StretchOf(Proxy.OnStream(sid, D.LaneOf(D.Run(side, h)[sid], lo).taken),
                      Filter(f => OnLane(f, side, sid, lo), got), n)
  {
    hide Filter, Proxy.OnStream, D.Run, D.Addressed, D.Opened, Arrivals, D.Handled;
    var mine := f => OnLane(f, side, sid, lo);
    var taken, addressed := D.LaneOf(D.Run(side, h)[sid], lo).taken, D.Addressed(side, h, sid, lo);
    var all := Filter(mine, Arrivals(h));
    n := AddressedIsSuffix(side, h, sid, lo);
    D.GapFreePrefix(side, h, sid, lo);
    OnStreamPrefix(sid, taken, addressed);
    assert StretchOf(Proxy.OnStream(sid, taken), all, n);
    FilterPrefix(mine, Arrivals(h), Arrivals(D.Handled(side, got)));
    HandledInOrder(side, got, mine);
    StretchOfLonger(Proxy.OnStream(sid, taken), all, Filter(mine, got), n);
  }

  // ---- from a browser to the agent's session ---------------------------------------------------------

  lemma LaneOfHub(sid: U32, lo: bool, f: F.Frame)
    ensures OnLane(f, D.Agent, sid, lo) <==>
            f.streamId == sid && !f.body.Open? && HubToLo(f) == lo
  {
  }

  /** Selecting a queue's frames from what was read on a half. */
  lemma LaneFilter(sid: U32, lo: bool, fs: seq<F.Frame>)
    ensures var half := if lo then HubToLo else Not(HubToLo);
            var lane, mine := f => OnLane(f, D.Agent, sid, lo), f => OfStream(f, sid);
            && Filter(lane, Filter(Both(mine, half), fs)) == Filter(lane, fs)
            && Filter(lane, Filter(half, fs)) == Filter(lane, fs)
  {
    hide Filter, OnLane, HubToLo;
    var half := if lo then HubToLo else Not(HubToLo);
    var lane, mine := f => OnLane(f, D.Agent, sid, lo), f => OfStream(f, sid);
    forall i | 0 <= i < |fs|
      ensures lane(fs[i]) == Both(lane, Both(mine, half))(fs[i]) && lane(fs[i]) == Both(lane, half)(fs[i])
    {
      LaneOfHub(sid, lo, fs[i]);
    }
    FilterTwice(lane, Both(mine, half), fs);
    FilterTwice(lane, half, fs);
    FilterSame(lane, Both(lane, Both(mine, half)), fs);
    FilterSame(lane, Both(lane, half), fs);
  }

  /** Browser to session. With one open per stream id, whatever a browser sends and whatever else
      the link carries: what the stream's task at the agent takes from each of its queues is a
      gap-free stretch, in order, of the bodies for that queue among the accepted messages and the
      close that follows them. */
  lemma SessionTakesForwarded(
    sid: U32, msgs: seq<Proxy.WsMessage>, n: nat, capHi: nat, capLo: nat, actions: seq<P.Action<F.Frame>>,
    h: seq<D.Action>, lo: bool)
    returns (k: nat)
    requires sid != F.CONTROL_STREAM && Routed(HubToLo, actions) && n <= |Proxy.Forwarded(sid, msgs)|
    requires OthersWellFormed(f => OfStream(f, sid), actions)
    requires InTurn(f => OfStream(f, sid), HubProgram(sid, msgs, n), capHi, capLo, actions)
    requires Reads(D.Agent, Messages(P.Run(capHi, capLo, actions).outs), h)
    requires D.Opened(D.Agent, h, sid) <= 1 && sid in D.Run(D.Agent, h)
    ensures StretchOf(Proxy.OnStream(sid, D.LaneOf(D.Run(D.Agent, h)[sid], lo).taken),
                      Filter(f => OnLane(f, D.Agent, sid, lo), HubProgram(sid, msgs, n)), k)
  {
    hide P.Run, Routed, InTurn, Enqueued, Filter, Messages, OthersWellFormed, HubToLo, HubProgram, Reads, D.Run,
         D.Opened, Proxy.OnStream, OnLane, Transport.RecvAll, Transport.EncodeAll;
    var got, sent := Messages(P.Run(capHi, capLo, actions).outs), HubProgram(sid, msgs, n);
    var half := if lo then HubToLo else Not(HubToLo);
    var lane, mine := f => OnLane(f, D.Agent, sid, lo), f => OfStream(f, sid);
    AgentReadsForwarded(sid, msgs, n, capHi, capLo, actions);
    k := QueueIsStretch(D.Agent, got, h, sid, lo);
    FilterPrefix(lane, Filter(Both(mine, half), got), Filter(half, sent));
    LaneFilter(sid, lo, got);
    LaneFilter(sid, lo, sent);
    var taken := Proxy.OnStream(sid, D.LaneOf(D.Run(D.Agent, h)[sid], lo).taken);
    StretchOfLonger(taken, Filter(lane, got), Filter(lane, sent), k);
  }

  // ---- from the agent's download events to a tab ----------------------------------------------------------

  /** The frame an event travels in; encoding cuts the name anyway. */
  function FrameOfEvent(sid: U32, e: L.Event): F.Frame {
    F.Frame(sid, F.WithKeptName(T.BodyOf(e)))
  }

  function EventFrames(sid: U32, es: seq<L.Event>): (r: seq<F.Frame>)
    ensures |r| == |es| && forall i :: 0 <= i < |es| ==> r[i] == FrameOfEvent(sid, es[i])
  {
    seq(|es|, i requires 0 <= i < |es| => FrameOfEvent(sid, es[i]))
  }

  /** A stream's download frames. */
  predicate OfDownloads(f: F.Frame, sid: U32) {
    f.streamId == sid && AgentToLo(f)
  }

  lemma EventFrameIs(sid: U32, e: L.Event)
    requires sid != F.CONTROL_STREAM && L.Sendable(e)
    ensures F.WellFormed(FrameOfEvent(sid, e)) && OfDownloads(FrameOfEvent(sid, e), sid)
  {
  }

  /** What the hub sends a tab for a body, and what the tab makes of it. */
  function TabAfter(s: T.TabState, bodies: seq<F.Body>): T.TabState {
    if bodies == [] then s
    else
      var n := |bodies| - 1;
      T.OnMessage(TabAfter(s, bodies[..n]), F.Encode(F.Frame(0, bodies[n])))
  }

  lemma MessageParts(b: F.Body)
    ensures var msg := F.Encode(F.Frame(0, b));
            && |msg| == F.HEADER_LEN + |F.Payload(b)| && msg[4] == F.TypeByte(F.TypeOf(b)) && msg[9..] == F.Payload(b)
            && U32At(msg, 5) == F.Len32(F.Payload(b))
  {
    hide F.Payload, F.TypeOf, F.TypeByte, Be32, U32At;
    var msg, len := F.Encode(F.Frame(0, b)), F.Len32(F.Payload(b));
    assert msg[4..] == [F.TypeByte(F.TypeOf(b))] + Be32(len) + F.Payload(b);
    assert msg[5..9] == msg[4..][1..5] == Be32(len);
    ReadBe32(msg, 5, len);
  }

  lemma PayloadSize(e: L.Event)
    requires L.Sendable(e)
    ensures |F.Payload(T.BodyOf(e))| < 0x1_0000_0000
  {
  }

  lemma KeptPayload(b: F.Body)
    ensures F.Payload(F.WithKeptName(b)) == F.Payload(b) && F.TypeOf(F.WithKeptName(b)) == F.TypeOf(b)
  {
    F.EncodeCutsNames(F.Frame(0, b));
  }

  /** A download frame is handled as the event it carries. */
  lemma MessageDelivers(s: T.TabState, e: L.Event)
    requires L.Sendable(e)
    ensures T.OnMessage(s, F.Encode(F.Frame(0, F.WithKeptName(T.BodyOf(e))))) == T.Deliver(s, e)
  {
    hide F.Encode, F.Payload, F.WithKeptName, U32At, T.OnBegin, T.OnChunk, T.OnEnd;
    var b := T.BodyOf(e);
    KeptPayload(b);
    PayloadSize(e);
    MessageParts(F.WithKeptName(b));
  }

  /** Any other frame leaves the tab's downloads alone. */
  lemma MessageIgnored(s: T.TabState, b: F.Body)
    requires !AgentToLo(F.Frame(0, b))
    ensures T.OnMessage(s, F.Encode(F.Frame(0, b))) == s
  {
    hide F.Encode, F.Payload, U32At, T.OnBegin, T.OnChunk, T.OnEnd;
    MessageParts(b);
  }

  lemma EventFramesSize(sid: U32, es: seq<L.Event>)
    ensures |EventFrames(sid, es)| == |es|
  {
  }

  lemma EventFramesSnoc(sid: U32, es: seq<L.Event>)
    requires es != []
    ensures var m := |es| - 1; EventFrames(sid, es) == EventFrames(sid, es[..m]) + [FrameOfEvent(sid, es[m])]
  {
    hide FrameOfEvent;
  }

  lemma SnocInjective<A>(a: seq<A>, x: A, b: seq<A>, y: A)
    requires a + [x] == b + [y]
    ensures a == b && x == y
  {
    assert |a + [x]| == |a| + 1 && |b + [y]| == |b| + 1;
    assert a == (a + [x])[..|a|] && b == (b + [y])[..|b|];
    assert x == (a + [x])[|a|] && y == (b + [y])[|b|];
  }

  lemma SameHalf(sid: U32, b: F.Body)
    ensures AgentToLo(F.Frame(0, b)) <==> AgentToLo(F.Frame(sid, b))
  {
  }

  lemma NothingDelivered(s: T.TabState)
    ensures T.DeliverAll(s, []) == s
  {
  }

  /** The download frames among some bodies on a stream. */
  function DownloadsAmong(sid: U32, bodies: seq<F.Body>): seq<F.Frame> {
    Filter(f => OfDownloads(f, sid), Proxy.OnStream(sid, bodies))
  }

  lemma DownloadsSnoc(sid: U32, bodies: seq<F.Body>, b: F.Body)
    ensures DownloadsAmong(sid, bodies + [b]) ==
            if AgentToLo(F.Frame(0, b)) then DownloadsAmong(sid, bodies) + [F.Frame(sid, b)]
            else DownloadsAmong(sid, bodies)
  {
    hide Filter, Proxy.OnStream, AgentToLo;
    SameHalf(sid, b);
    OnStreamSnoc(sid, bodies, b);
    FilterSnoc(f => OfDownloads(f, sid), Proxy.OnStream(sid, bodies), F.Frame(sid, b));
    assert DownloadsAmong(sid, bodies) + [] == DownloadsAmong(sid, bodies);
  }

  lemma NoDownloads(sid: U32)
    ensures DownloadsAmong(sid, []) == []
  {
  }

  /** The last event is the one the last download frame carries. */
  lemma LastEvent(sid: U32, fs: seq<F.Frame>, b: F.Body, es: seq<L.Event>)
    requires fs + [F.Frame(sid, b)] == EventFrames(sid, es)
    ensures es != [] && fs == EventFrames(sid, es[..|es| - 1]) && b == F.WithKeptName(T.BodyOf(es[|es| - 1]))
  {
    EventFramesSize(sid, es);
    EventFramesSnoc(sid, es);
    hide EventFrames, F.WithKeptName;
    SnocInjective(fs, F.Frame(sid, b), EventFrames(sid, es[..|es| - 1]), FrameOfEvent(sid, es[|es| - 1]));
  }

  lemma TabAfterSnoc(s: T.TabState, bodies: seq<F.Body>, b: F.Body)
    ensures TabAfter(s, bodies + [b]) == T.OnMessage(TabAfter(s, bodies), F.Encode(F.Frame(0, b)))
    ensures TabAfter(s, []) == s
  {
    hide T.OnMessage, F.Encode;
    assert (bodies + [b])[..|bodies|] == bodies;
  }

  lemma {:induction false} TabHandles(s: T.TabState, sid: U32, bodies: seq<F.Body>, es: seq<L.Event>)
    requires DownloadsAmong(sid, bodies) == EventFrames(sid, es)
    requires forall i :: 0 <= i < |es| ==> L.Sendable(es[i])
    ensures TabAfter(s, bodies) == T.DeliverAll(s, es)
    decreases |bodies|
  {
    hide DownloadsAmong, T.OnMessage, F.Encode, F.WithKeptName, T.Deliver, T.DeliverAll, L.Sendable, EventFrames,
         AgentToLo, TabAfter;
    if bodies == [] {
      NoDownloads(sid);
      EventFramesSize(sid, es);
      NothingDelivered(s);
      TabAfterSnoc(s, [], F.Close);
    } else {
      var n := |bodies| - 1;
      var before, b := bodies[..n], bodies[n];
      assert bodies == before + [b];
      DownloadsSnoc(sid, before, b);
      TabAfterSnoc(s, before, b);
      if AgentToLo(F.Frame(0, b)) {
        LastEvent(sid, DownloadsAmong(sid, before), b, es);
        var m := |es| - 1;
        TabHandles(s, sid, before, es[..m]);
        MessageDelivers(TabAfter(s, before), es[m]);
        T.DeliverAllSnoc(s, es[..m], es[m]);
        assert es[..m] + [es[m]] == es;
      } else {
        TabHandles(s, sid, before, es);
        MessageIgnored(TabAfter(s, before), b);
      }
    }
  }

  lemma FilterStretch<A>(p: A -> bool, t: seq<A>, all: seq<A>, n: nat) returns (m: nat)
    requires StretchOf(t, all, n)
    ensures StretchOf(Filter(p, t), Filter(p, all), m)
  {
    hide Filter;
    var a, c := all[..n], all[n + |t|..];
    assert all == a + t + c;
    FilterAppend(p, a + t, c);
    FilterAppend(p, a, t);
    m := |Filter(p, a)|;
  }

  /** Selecting the download frames from the hub's queue for a stream. */
  lemma DownloadFilter(sid: U32, fs: seq<F.Frame>)
    ensures var mine, lane := f => OfDownloads(f, sid), f => OnLane(f, D.Hub, sid, false);
            Filter(mine, Filter(lane, fs)) == Filter(mine, fs) == Filter(Both(mine, AgentToLo), fs)
  {
    hide Filter;
    var mine, lane := f => OfDownloads(f, sid), f => OnLane(f, D.Hub, sid, false);
    forall i | 0 <= i < |fs|
      ensures mine(fs[i]) == Both(mine, lane)(fs[i]) && mine(fs[i]) == Both(mine, AgentToLo)(fs[i])
    {
      assert OfDownloads(fs[i], sid) ==> OnLane(fs[i], D.Hub, sid, false) && AgentToLo(fs[i]);
    }
    FilterTwice(mine, lane, fs);
    FilterSame(mine, Both(mine, lane), fs);
    FilterSame(mine, Both(mine, AgentToLo), fs);
  }

  lemma EventProgram(sid: U32, es: seq<L.Event>)
    requires sid != F.CONTROL_STREAM && forall i :: 0 <= i < |es| ==> L.Sendable(es[i])
    ensures Transport.AllWellFormed(EventFrames(sid, es))
    ensures Filter(AgentToLo, EventFrames(sid, es)) == EventFrames(sid, es)
  {
    hide Filter, F.WellFormed, L.Sendable, FrameOfEvent, AgentToLo;
    var fs := EventFrames(sid, es);
    forall i | 0 <= i < |fs|
      ensures F.WellFormed(fs[i]) && AgentToLo(fs[i])
    {
      EventFrameIs(sid, es[i]);
    }
    FilterAll(AgentToLo, fs);
  }

  /** What a subscription has received. */
  function ReceivedBy(actions: seq<L.Action>, k: nat): seq<L.Event>
    requires k < |L.Run(actions).subs|
  {
    Received(L.Run(actions).subs[k].stretches)
  }

  lemma ReceivedSendable(actions: seq<L.Action>, k: nat)
    requires L.ReadsFit(actions) && k < |L.Run(actions).subs|
    ensures forall i :: 0 <= i < |ReceivedBy(actions, k)| ==> L.Sendable(ReceivedBy(actions, k)[i])
  {
    hide L.Run, L.Sendable, IsSubsequence, Received, SubInv;
    var log, sub, es := L.Run(actions).log, L.Run(actions).subs[k], ReceivedBy(actions, k);
    L.RunSubsInv(actions);
    L.LogSendable(actions);
    ReceivedIsSubsequence(log, sub);
    forall i | 0 <= i < |es|
      ensures L.Sendable(es[i])
    {
      SubsequenceIn(es, log[sub.start..], es[i]);
    }
  }

  /** Disk to tab. A stream's task sends the download events it receives, one at a time, on the
      agent's link among any other well-formed frames; the hub reads the link and queues what is
      for the stream, whatever else happens at its reader; its proxy passes on to the tab what it
      takes from that queue. Then the tab is handed exactly a gap-free stretch of the events the
      task received: the connection of `Tab.LaggingTabSavesWholeFiles`. */
  lemma TabIsHanded(
    sid: U32, down: seq<L.Action>, k: nat, capHi: nat, capLo: nat, actions: seq<P.Action<F.Frame>>,
    h: seq<D.Action>, s: T.TabState)
    returns (c: T.Connection)
    requires sid != F.CONTROL_STREAM && L.ReadsFit(down) && k < |L.Run(down).subs|
    requires Routed(AgentToLo, actions) && OthersWellFormed(f => OfDownloads(f, sid), actions)
    requires InTurn(f => OfDownloads(f, sid), EventFrames(sid, ReceivedBy(down, k)), capHi, capLo, actions)
    requires Reads(D.Hub, Messages(P.Run(capHi, capLo, actions).outs), h)
    requires D.Opened(D.Hub, h, sid) <= 1 && sid in D.Run(D.Hub, h)
    ensures c.sub == k && c.until == |down| && T.Possible(down, c)
    ensures TabAfter(s, D.Run(D.Hub, h)[sid].hi.taken) == T.DeliverAll(s, c.delivered)
    ensures exists n :: StretchOf(c.delivered, ReceivedBy(down, k), n)
  {
    hide P.Run, Routed, InTurn, Enqueued, Filter, Messages, OthersWellFormed, AgentToLo, Reads, D.Run, D.Opened,
         Proxy.OnStream, OnLane, L.Run, L.ReadsFit, Received, L.Sendable, TabAfter, FrameOfEvent;
    var es := ReceivedBy(down, k);
    var mine, lane := f => OfDownloads(f, sid), f => OnLane(f, D.Hub, sid, false);
    var got, taken := Messages(P.Run(capHi, capLo, actions).outs), D.Run(D.Hub, h)[sid].hi.taken;
    ReceivedSendable(down, k);
    EventProgram(sid, es);
    ReadInTurn(AgentToLo, mine, EventFrames(sid, es), capHi, capLo, actions);
    DownloadFilter(sid, got);
    var n := QueueIsStretch(D.Hub, got, h, sid, false);
    var m := FilterStretch(mine, Proxy.OnStream(sid, taken), Filter(lane, got), n);
    var mineTaken := Filter(mine, Proxy.OnStream(sid, taken));
    StretchOfLonger(mineTaken, Filter(mine, got), EventFrames(sid, es), m);
    var part := es[m..m + |mineTaken|];
    assert mineTaken == EventFrames(sid, part);
    TabHandles(s, sid, taken, part);
    c := T.Connection(k, |down|, part);
    assert StretchOf(part, es, m);
    StretchIsSubsequence(part, es, m);
    assert down[..|down|] == down;
  }

  lemma StretchIsSubsequence<A>(t: seq<A>, all: seq<A>, n: nat)
    requires StretchOf(t, all, n)
    ensures IsSubsequence(t, all)
  {
    hide IsSubsequence;
    EverySubsequence(all[n..]);
    SubsequencePrefix(all[n..], all[n..], |t|);
    assert all[n..][..|t|] == t && all[..n] + all[n..] == all;
    SubsequenceSkip(t, all[..n], all[n..]);
  }

  /** So, from the bytes on the agent's disk to the file a fresh tab saves, through a lossy
      broadcast, a shared link, the hub's queues and the proxy: every file is whole. */
  lemma TabSavesWhatWasRead(
    sid: U32, down: seq<L.Action>, k: nat, capHi: nat, capLo: nat, actions: seq<P.Action<F.Frame>>,
    h: seq<D.Action>, i: nat)
    requires sid != F.CONTROL_STREAM && L.ReadsFit(down) && k < |L.Run(down).subs|
    requires L.Spawns(down) < 0x1_0000_0000
    requires Routed(AgentToLo, actions) && OthersWellFormed(f => OfDownloads(f, sid), actions)
    requires InTurn(f => OfDownloads(f, sid), EventFrames(sid, ReceivedBy(down, k)), capHi, capLo, actions)
    requires Reads(D.Hub, Messages(P.Run(capHi, capLo, actions).outs), h)
    requires D.Opened(D.Hub, h, sid) <= 1 && sid in D.Run(D.Hub, h)
    requires i < |TabAfter(T.TabState(map[], []), D.Run(D.Hub, h)[sid].hi.taken).saved|
    ensures T.SavedIsRead(down, TabAfter(T.TabState(map[], []), D.Run(D.Hub, h)[sid].hi.taken).saved[i])
  {
    hide P.Run, Routed, InTurn, Filter, Messages, OthersWellFormed, Reads, D.Run, D.Opened, L.Run, L.ReadsFit,
         TabAfter, EventFrames, ReceivedBy, T.DeliverAll, T.Possible, StretchOf, T.SavedIsRead;
    var c := TabIsHanded(sid, down, k, capHi, capLo, actions, h, T.TabState(map[], []));
    OneConnection(down, c);
    T.LaggingTabSavesWholeFiles(down, [c]);
  }

  lemma OneConnection(down: seq<L.Action>, c: T.Connection)
    requires T.Possible(down, c)
    ensures T.Successive(down, [c]) && T.TabEvents(down, [c]) == c.delivered
  {
    hide T.Possible;
    assert [c][..0] == [] && [] + c.delivered == c.delivered;
  }
}
