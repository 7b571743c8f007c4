/** The readers that demultiplex one link into per-stream queues: the agent's, with a high and
    a low queue per stream, and the hub's, with a single one. A reader never waits for a
    stream: one that has fallen behind is dropped from the registry. */
module Demux {
  import opened Prelude
  import opened Frame

  const STREAM_HI_CAP := 64
  const STREAM_LO_CAP := 16
  const STREAM_CHAN_CAP := 64

  datatype Side = Agent | Hub

  /** A queue, everything it ever accepted, and everything taken from it. */
  datatype Lane = Lane(queue: seq<Body>, accepted: seq<Body>, taken: seq<Body>)

  /** `registered`: the reader still holds the sender; `live`: the receiver exists. */
  datatype Stream = Stream(registered: bool, live: bool, hi: Lane, lo: Lane)

  type Streams = map<U32, Stream>

  datatype Action =
    | Arrive(sid: U32, body: Body)   // the reader handles a frame for a stream
    | Register(sid: U32)             // the hub opens a stream
    | Unregister(sid: U32)           // the stream's owner is done with it
    | Take(sid: U32, lo: bool)       // the stream's task receives
    | DropReceiver(sid: U32)
    | Shutdown                       // the link is gone

  const NewStream := Stream(true, true, Lane([], [], []), Lane([], [], []))

  predicate ToLo(side: Side, body: Body) {
    side.Agent? && (body.PasteBegin? || body.PasteChunk? || body.PasteEnd?)
  }

  function Cap(side: Side, lo: bool): nat {
    if side.Hub? then STREAM_CHAN_CAP else if lo then STREAM_LO_CAP else STREAM_HI_CAP
  }

  function LaneOf(st: Stream, lo: bool): Lane {
    if lo then st.lo else st.hi
  }

  function WithLane(st: Stream, lo: bool, l: Lane): Stream {
    if lo then st.(lo := l) else st.(hi := l)
  }

  /** The frame that makes the reader register a stream. */
  predicate Opens(side: Side, a: Action) {
    if side.Agent? then a.Arrive? && a.body.Open? else a.Register?
  }

  /** `try_send`: accepted if there is a receiver and room; otherwise the stream is dropped. */
  function Offer(side: Side, st: Stream, body: Body): Stream {
    var lo := ToLo(side, body);
    var l := LaneOf(st, lo);
    if st.live && |l.queue| < Cap(side, lo)
    then WithLane(st, lo, l.(queue := l.queue + [body], accepted := l.accepted + [body]))
    else st.(registered := false)
  }

  function Taken(st: Stream, lo: bool): Stream {
    var l := LaneOf(st, lo);
    if !st.live || l.queue == [] then st
    else WithLane(st, lo, l.(queue := l.queue[1..], taken := l.taken + [l.queue[0]]))
  }

  function Step(side: Side, d: Streams, a: Action): Streams {
    if Opens(side, a) then d[a.sid := NewStream]
    else
      match a
      case Shutdown => map s | s in d :: d[s].(registered := false)
      case Arrive(sid, body) => if sid in d && d[sid].registered then d[sid := Offer(side, d[sid], body)] else d
      case Register(sid) => d
      case Unregister(sid) => if sid in d then d[sid := d[sid].(registered := false)] else d
      case Take(sid, lo) => if sid in d then d[sid := Taken(d[sid], lo)] else d
      case DropReceiver(sid) =>
        if sid in d then d[sid := d[sid].(live := false, hi := d[sid].hi.(queue := []), lo := d[sid].lo.(queue := []))]
        else d
  }

  function Run(side: Side, actions: seq<Action>): Streams {
    if actions == [] then map[]
    else Step(side, Run(side, actions[..|actions| - 1]), actions[|actions| - 1])
  }

  // ---- streams do not interfere ---------------------------------------------------------------

  predicate Concerns(a: Action, sid: U32) {
    a.Shutdown? || a.sid == sid
  }

  /** The part of a run that concerns one stream. */
  function Only(actions: seq<Action>, sid: U32): seq<Action> {
    if actions == [] then []
    else
      var n := |actions| - 1;
      Only(actions[..n], sid) + if Concerns(actions[n], sid) then [actions[n]] else []
  }

  function View(d: Streams, sid: U32): Option<Stream> {
    if sid in d then Some(d[sid]) else None
  }

  lemma StepView(side: Side, d: Streams, e: Streams, a: Action, sid: U32)
    requires View(d, sid) == View(e, sid)
    ensures View(Step(side, d, a), sid) == if Concerns(a, sid) then View(Step(side, e, a), sid) else View(d, sid)
  {
  }

  /** Whatever happens to other streams, overflow included, a stream's registration, queues
      and all it accepts and receives are those of the run with every action on another
      stream left out. */
  lemma {:induction false} NoInterference(side: Side, actions: seq<Action>, sid: U32)
    ensures View(Run(side, actions), sid) == View(Run(side, Only(actions, sid)), sid)
  {
    hide Step, View;
    if actions != [] {
      var n := |actions| - 1;
      var a, before := actions[n], actions[..n];
      NoInterference(side, before, sid);
      StepView(side, Run(side, before), Run(side, Only(before, sid)), a, sid);
      if Concerns(a, sid) {
        assert Only(actions, sid)[..|Only(before, sid)|] == Only(before, sid);
      } else {
        assert Only(actions, sid) == Only(before, sid);
      }
    }
  }

  // ---- each queue accepts a gap-free prefix -------------------------------------------------------

  function Opened(side: Side, actions: seq<Action>, sid: U32): nat {
    if actions == [] then 0
    else
      var n := |actions| - 1;
      Opened(side, actions[..n], sid) + if Opens(side, actions[n]) && actions[n].sid == sid then 1 else 0
  }

  /** The frames for a stream since it was opened that ride a given queue. */
  function Addressed(side: Side, actions: seq<Action>, sid: U32, lo: bool): seq<Body> {
    if actions == [] then []
    else
      var n := |actions| - 1;
      var a, before := actions[n], Addressed(side, actions[..n], sid, lo);
      if a.Arrive? && a.sid == sid && !Opens(side, a) && ToLo(side, a.body) == lo && Opened(side, actions[..n], sid) > 0
      then before + [a.body]
      else before
  }

  predicate LaneInv(side: Side, st: Stream, lo: bool, addressed: seq<Body>) {
    var l := LaneOf(st, lo);
    && |l.queue| <= Cap(side, lo)
    && (if st.live then l.accepted == l.taken + l.queue else l.taken <= l.accepted)
    && (if st.registered then l.accepted == addressed else l.accepted <= addressed)
  }

  predicate StreamInv(side: Side, actions: seq<Action>, sid: U32) {
    var d := Run(side, actions);
    sid in d ==> forall lo :: LaneInv(side, d[sid], lo, Addressed(side, actions, sid, lo))
  }

  /** A stream is known once it has been opened; nothing before that is addressed to it. */
  lemma {:induction false} KnownIffOpened(side: Side, actions: seq<Action>, sid: U32, lo: bool)
    ensures sid in Run(side, actions) <==> Opened(side, actions, sid) > 0
    ensures Opened(side, actions, sid) == 0 ==> Addressed(side, actions, sid, lo) == []
  {
    hide Offer, Taken, ToLo;
    if actions != [] {
      KnownIffOpened(side, actions[..|actions| - 1], sid, lo);
    }
  }

  lemma OfferLane(side: Side, st: Stream, body: Body, lo: bool, addressed: seq<Body>)
    requires st.registered && LaneInv(side, st, lo, addressed)
    ensures LaneInv(side, Offer(side, st, body), lo, if ToLo(side, body) == lo then addressed + [body] else addressed)
  {
  }

  lemma TakenLane(side: Side, st: Stream, from: bool, lo: bool, addressed: seq<Body>)
    requires LaneInv(side, st, lo, addressed)
    ensures LaneInv(side, Taken(st, from), lo, addressed)
  {
  }

  lemma {:induction false} RunStreamInv(side: Side, actions: seq<Action>, sid: U32)
    requires Opened(side, actions, sid) <= 1
    ensures StreamInv(side, actions, sid)
  {
    hide Step, LaneInv, Opens;
    if actions != [] {
      var n := |actions| - 1;
      RunStreamInv(side, actions[..n], sid);
      assert actions == actions[..n] + [actions[n]];
      forall lo
        ensures sid in Run(side, actions) ==>
                  LaneInv(side, Run(side, actions)[sid], lo, Addressed(side, actions, sid, lo))
      {
        StepLane(side, actions[..n], actions[n], sid, lo);
      }
    }
  }

  lemma StepLane(side: Side, before: seq<Action>, a: Action, sid: U32, lo: bool)
    requires StreamInv(side, before, sid) && Opened(side, before + [a], sid) <= 1
    ensures var now := before + [a];
            sid in Run(side, now) ==> LaneInv(side, Run(side, now)[sid], lo, Addressed(side, now, sid, lo))
  {
    var now := before + [a];
    assert now[..|before|] == before;
    var d := Run(side, before);
    KnownIffOpened(side, before, sid, lo);
    if sid in d {
      var was := Addressed(side, before, sid, lo);
      assert LaneInv(side, d[sid], lo, was);
      if a.Arrive? && a.sid == sid && d[sid].registered && !Opens(side, a) {
        OfferLane(side, d[sid], a.body, lo, was);
      } else if a.Take? && a.sid == sid {
        TakenLane(side, d[sid], a.lo, lo, was);
      }
    }
  }

  /** With one open per stream id, for every sequence of frames and whatever else happens: on
      each of its queues a stream accepts a gap-free prefix of the frames addressed to it,
      the whole of them while it is registered, and its task receives a prefix of that. */
  lemma GapFreePrefix(side: Side, actions: seq<Action>, sid: U32, lo: bool)
    requires Opened(side, actions, sid) <= 1 && sid in Run(side, actions)
    ensures var st := Run(side, actions)[sid];
            var l := LaneOf(st, lo);
            && l.taken <= l.accepted <= Addressed(side, actions, sid, lo)
            && |l.queue| <= Cap(side, lo)
            && (st.live ==> l.accepted == l.taken + l.queue)
            && (st.registered ==> l.accepted == Addressed(side, actions, sid, lo))
  {
    hide Run, Addressed;
    RunStreamInv(side, actions, sid);
    assert LaneInv(side, Run(side, actions)[sid], lo, Addressed(side, actions, sid, lo));
  }

  /** A registered stream leaves the registry only when its owner is done, the link is gone,
      or a frame for it finds no receiver or a full queue. */
  lemma DroppedIff(side: Side, d: Streams, a: Action, sid: U32)
    requires sid in d && d[sid].registered
    ensures !Step(side, d, a)[sid].registered <==>
            !Opens(side, a) &&
            match a
            case Shutdown => true
            case Unregister(s) => s == sid
            case Arrive(s, body) =>
              s == sid && (!d[sid].live || |LaneOf(d[sid], ToLo(side, body)).queue| >= Cap(side, ToLo(side, body)))
            case _ => false
  {
  }

  // ---- what each action does to a queue ---------------------------------------------------------

  /** The queue a body rides: on the agent the three bulk types of an upload ride the low one,
      16 deep, and everything else the high one, 64 deep; the hub has one queue, 64 deep. */
  lemma QueueOf(side: Side, body: Body)
    ensures ToLo(side, body) <==> side == Agent && 7 <= TypeByte(TypeOf(body)) <= 9
    ensures Cap(Agent, true) == 16 && Cap(Agent, false) == 64 && Cap(Hub, false) == 64
  {
  }

  /** A frame that rides this queue finds room, and someone who receives. */
  predicate Enters(side: Side, st: Stream, a: Action, lo: bool) {
    && a.Arrive? && st.registered && st.live && ToLo(side, a.body) == lo
    && |LaneOf(st, lo).queue| < if side == Agent && lo then 16 else 64
  }

  /** Everything a step on a known stream does to one of its queues: a frame that enters is
      last, one that is taken was first, and a receiver that goes away takes the rest along. */
  lemma QueueStep(side: Side, d: Streams, a: Action, sid: U32, lo: bool)
    requires sid in d && !Opens(side, a) && Concerns(a, sid)
    ensures sid in Step(side, d, a)
    ensures var st, now := d[sid], Step(side, d, a)[sid];
            var l := LaneOf(st, lo);
            && (now.live <==> st.live && !a.DropReceiver?)
            && LaneOf(now, lo) ==
               if Enters(side, st, a, lo) then Lane(l.queue + [a.body], l.accepted + [a.body], l.taken)
               else if a.Take? && a.lo == lo && st.live && l.queue != []
               then Lane(l.queue[1..], l.accepted, l.taken + [l.queue[0]])
               else if a.DropReceiver? then Lane([], l.accepted, l.taken)
               else l
  {
  }

  /** A stream is opened, or opened anew, with empty queues. */
  lemma OpenStep(side: Side, d: Streams, a: Action)
    requires if side == Agent then a.Arrive? && TypeByte(TypeOf(a.body)) == 2 else a.Register?
    ensures Opens(side, a)
    ensures Step(side, d, a) == d[a.sid := Stream(true, true, Lane([], [], []), Lane([], [], []))]
  {
  }

  // ---- the reader loops --------------------------------------------------------------------------------

  /** Control-stream frames that the reader answers or hands to a waiter; any other ends it. */
  predicate Benign(side: Side, body: Body) {
    body.Ping? || body.Pong? ||
    (if side.Agent? then body.ListSessions? || body.KillSession? else body.SessionList? || body.KillSessionAck?)
  }

  /** The stream frames handled before the reader ends. */
  function Handled(side: Side, frames: seq<Frame>): seq<Action> {
    if frames == [] then []
    else if frames[0].streamId != CONTROL_STREAM then
      [Arrive(frames[0].streamId, frames[0].body)] + Handled(side, frames[1..])
    else if Benign(side, frames[0].body) then Handled(side, frames[1..])
    else []
  }

  /** A reader goes on after a ping, a pong, and the requests or the responses its side is sent,
      and ends at any other frame of the control stream. */
  lemma HandledFirst(side: Side, f: Frame, rest: seq<Frame>)
    ensures var kind, all := TypeByte(TypeOf(f.body)), Handled(side, [f] + rest);
            if f.streamId != 0 then all == [Arrive(f.streamId, f.body)] + Handled(side, rest)
            else if kind in (if side == Agent then {4, 5, 18, 20} else {4, 5, 19, 21}) then all == Handled(side, rest)
            else all == []
  {
    Cons(f, rest);
  }

  /** A run continued from a given state. */
  function RunFrom(side: Side, d: Streams, actions: seq<Action>): Streams {
    if actions == [] then d
    else Step(side, RunFrom(side, d, actions[..|actions| - 1]), actions[|actions| - 1])
  }

  lemma {:induction false} RunFromAppend(side: Side, before: seq<Action>, after: seq<Action>)
    ensures RunFrom(side, Run(side, before), after) == Run(side, before + after)
  {
    hide Step;
    if after == [] {
      assert before + after == before;
    } else {
      var n := |after| - 1;
      RunFromAppend(side, before, after[..n]);
      assert (before + after)[..|before| + n] == before + after[..n];
    }
  }

  /** What the reader loop leaves behind is the end of a run, so what holds of runs holds of it:
      here, that every queue has accepted a gap-free prefix. */
  lemma LoopIsRun(side: Side, before: seq<Action>, frames: seq<Frame>, sid: U32, lo: bool)
    requires var all := before + (Handled(side, frames) + [Shutdown]);
             Opened(side, all, sid) <= 1 && Opened(side, all, sid) > 0
    ensures var all := before + (Handled(side, frames) + [Shutdown]);
            var d := RunFrom(side, Run(side, before), Handled(side, frames) + [Shutdown]);
            && d == Run(side, all) && sid in d
            && LaneOf(d[sid], lo).taken <= LaneOf(d[sid], lo).accepted <= Addressed(side, all, sid, lo)
  {
    hide Run, RunFrom, Addressed, Opened;
    var all := before + (Handled(side, frames) + [Shutdown]);
    RunFromAppend(side, before, Handled(side, frames) + [Shutdown]);
    KnownIffOpened(side, all, sid, lo);
    GapFreePrefix(side, all, sid, lo);
  }

  lemma NothingFrom(side: Side, d: Streams)
    ensures RunFrom(side, d, []) == d
  {
  }

  lemma RunFromSnoc(side: Side, d: Streams, actions: seq<Action>, a: Action)
    ensures RunFrom(side, d, actions + [a]) == Step(side, RunFrom(side, d, actions), a)
  {
    hide Step;
    assert (actions + [a])[..|actions|] == actions;
  }

  lemma HandledNext(side: Side, frames: seq<Frame>, k: nat)
    requires k < |frames|
    ensures var f, rest := frames[k], Handled(side, frames[k + 1..]);
            Handled(side, frames[k..]) ==
            if f.streamId != CONTROL_STREAM then [Arrive(f.streamId, f.body)] + rest
            else if Benign(side, f.body) then rest else []
  {
    hide Benign;
    assert frames[k..][0] == frames[k] && frames[k..][1..] == frames[k + 1..];
  }

  /** Nothing more is handled at the end of the input or at a fatal frame. */
  lemma NoneHandled(side: Side, frames: seq<Frame>)
    requires frames != [] ==> frames[0].streamId == CONTROL_STREAM && !Benign(side, frames[0].body)
    ensures Handled(side, frames) == []
  {
  }

  class Reader {
    const side: Side
    var streams: Streams

    constructor (side: Side)
      ensures this.side == side && streams == map[]
    {
      this.side := side;
      streams := map[];
    }

    /** Queue a body without waiting, or give the stream up. */
    method TrySend(st: Stream, body: Body) returns (after: Stream)
      ensures after == Offer(side, st, body)
    {
      var halfLo := side.Agent? && (body.PasteBegin? || body.PasteChunk? || body.PasteEnd?);
      var lane := LaneOf(st, halfLo);
      if st.live && |lane.queue| < Cap(side, halfLo) {
        after := WithLane(st, halfLo, Lane(lane.queue + [body], lane.accepted + [body], lane.taken));
      } else {
        after := st.(registered := false);
      }
    }

    /** One frame for a stream. */
    method Dispatch(sid: U32, body: Body)
      modifies this
      ensures streams == Step(side, old(streams), Arrive(sid, body))
    {
      hide Offer;
      if side.Agent? && body.Open? {
        streams := streams[sid := NewStream];
      } else if sid in streams && streams[sid].registered {
        var after := TrySend(streams[sid], body);
        streams := streams[sid := after];
      }
    }

    /** The loop over incoming frames, and the teardown after it. */
    method ReadLoop(frames: seq<Frame>)
      modifies this
      ensures streams == RunFrom(side, old(streams), Handled(side, frames) + [Shutdown])
    {
      hide Step, Benign, Handled, RunFrom;
      NothingFrom(side, streams);
      ghost var done: seq<Action> := [];
      var k := 0;
      while k < |frames|
        invariant 0 <= k <= |frames|
        invariant streams == RunFrom(side, old(streams), done)
        invariant done + Handled(side, frames[k..]) == Handled(side, frames)
      {
        var f := frames[k];
        HandledNext(side, frames, k);
        if f.streamId == CONTROL_STREAM {
          if !Benign(side, f.body) {
            break;
          }
        } else {
          Dispatch(f.streamId, f.body);
          RunFromSnoc(side, old(streams), done, Arrive(f.streamId, f.body));
          AppendAssoc(done, [Arrive(f.streamId, f.body)], Handled(side, frames[k + 1..]));
          done := done + [Arrive(f.streamId, f.body)];
        }
        k := k + 1;
      }
      assert done == Handled(side, frames) by {
        NoneHandled(side, frames[k..]);
        assert done + [] == done;
      }
      ClearStreams();
      RunFromSnoc(side, old(streams), done, Shutdown);
    }

    method ClearStreams()
      modifies this
      ensures streams == Step(side, old(streams), Shutdown)
    {
      streams := map s | s in streams :: streams[s].(registered := false);
    }
  }
}
