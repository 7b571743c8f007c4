/** A session's output fan-out: one PTY reader appends to the scrollback ring and broadcasts
    under the session lock; each attaching stream snapshots the ring and subscribes under the
    same lock. Lock sections are atomic steps. */
module FanOut {
  import opened Prelude
  import opened Broadcast
  import Frame
  import Transport

  const BROADCAST_CAP := 1024

  datatype Event = Data(bytes: seq<Byte>) | ControllerChanged(controller: U32) | Closed

  /** One attachment: the replayed snapshot, how much output preceded it, its subscription. */
  datatype Stream = Stream(snapshot: seq<Byte>, attachedAt: nat, sub: Sub<Event>)

  /** `history` is every byte ever forwarded; the program keeps only the ring. */
  datatype Fan = Fan(cap: nat, ring: seq<Byte>, history: seq<Byte>, log: seq<Event>, streams: seq<Stream>)

  datatype Action =
    | Output(fwd: seq<Byte>)      // reader: extend the ring and broadcast, if anything was forwarded
    | Announce(controller: U32)   // a controller change, broadcast after the lock is released
    | Exit                        // the shell exited
    | Attach                      // subscribe and snapshot
    | Receive(k: nat)             // attachment `k` polls its subscription

  /** The last `n` bytes of `s`, or all of it. */
  function LastBytes(s: seq<Byte>, n: nat): (r: seq<Byte>)
    ensures |r| == Min(n, |s|) && r == s[|s| - |r|..]
  {
    if |s| <= n then s else s[|s| - n..]
  }

  function Init(cap: nat): Fan {
    Fan(cap, [], [], [], [])
  }

  function Step(f: Fan, a: Action): Fan {
    match a
    case Output(fwd) =>
      if fwd == [] then f
      else f.(ring := LastBytes(f.ring + fwd, f.cap), history := f.history + fwd, log := f.log + [Data(fwd)])
    case Announce(c) => f.(log := f.log + [ControllerChanged(c)])
    case Exit => f.(log := f.log + [Closed])
    case Attach => f.(streams := f.streams + [Stream(f.ring, |f.history|, Subscribe(f.log))])
    case Receive(k) =>
      if k < |f.streams| && f.streams[k].sub.stretches != [] then
        f.(streams := f.streams[k := f.streams[k].(sub := Recv(f.log, BROADCAST_CAP, f.streams[k].sub))])
      else f
  }

  function Run(f: Fan, actions: seq<Action>): Fan {
    if actions == [] then f else Step(Run(f, actions[..|actions| - 1]), actions[|actions| - 1])
  }

  /** The output bytes among some events. */
  function DataOf(events: seq<Event>): seq<Byte> {
    if events == [] then []
    else (if events[0].Data? then events[0].bytes else []) + DataOf(events[1..])
  }

  lemma {:induction false} DataOfAppend(a: seq<Event>, b: seq<Event>)
    ensures DataOf(a + b) == DataOf(a) + DataOf(b)
  {
    if a == [] {
      assert a + b == b;
    } else {
      assert (a + b)[1..] == a[1..] + b;
      DataOfAppend(a[1..], b);
    }
  }

  predicate StreamInv(f: Fan, s: Stream) {
    && SubInv(f.log, s.sub) && s.attachedAt <= |f.history|
    && s.sub.start <= |f.log| && DataOf(f.log[..s.sub.start]) == f.history[..s.attachedAt]
    && s.snapshot == LastBytes(f.history[..s.attachedAt], f.cap)
  }

  predicate Inv(f: Fan) {
    && f.ring == LastBytes(f.history, f.cap) && DataOf(f.log) == f.history
    && forall k :: 0 <= k < |f.streams| ==> StreamInv(f, f.streams[k])
  }

  lemma LastBytesAppend(s: seq<Byte>, t: seq<Byte>, n: nat)
    ensures LastBytes(LastBytes(s, n) + t, n) == LastBytes(s + t, n)
  {
    if |s| > n {
      var cut := |s| - n;
      var all := s + t;
      assert LastBytes(s, n) == s[cut..] && s[cut..] + t == all[cut..];
      assert LastBytes(all, n) == all[cut + |t|..];
      assert all[cut..][|t|..] == all[cut + |t|..];
    }
  }

  /** More output and more events leave every attachment as it was. */
  lemma StreamInvGrows(f: Fan, g: Fan, s: Stream)
    requires StreamInv(f, s) && g.cap == f.cap && f.log <= g.log && f.history <= g.history
    ensures StreamInv(g, s)
  {
    SendInv(f.log, g.log[|f.log|..], s.sub);
    assert g.log == f.log + g.log[|f.log|..];
    assert g.log[..s.sub.start] == f.log[..s.sub.start];
    assert g.history[..s.attachedAt] == f.history[..s.attachedAt];
  }

  lemma EventInv(f: Fan, g: Fan, e: Event)
    requires Inv(f) && g.cap == f.cap && g.streams == f.streams && g.log == f.log + [e]
    requires g.history == f.history + (if e.Data? then e.bytes else [])
    requires g.ring == LastBytes(g.history, g.cap)
    ensures Inv(g)
  {
    hide StreamInv;
    DataOfAppend(f.log, [e]);
    assert DataOf([e]) == (if e.Data? then e.bytes else []) + DataOf([e][1..]);
    forall k | 0 <= k < |g.streams|
      ensures StreamInv(g, g.streams[k])
    {
      StreamInvGrows(f, g, f.streams[k]);
    }
  }

  lemma AttachInv(f: Fan)
    requires Inv(f)
    ensures Inv(Step(f, Attach))
  {
    SubscribeInv(f.log);
    assert f.log[..|f.log|] == f.log && f.history[..|f.history|] == f.history;
    forall k | 0 <= k < |f.streams|
      ensures StreamInv(Step(f, Attach), f.streams[k])
    {
      StreamInvGrows(f, Step(f, Attach), f.streams[k]);
    }
  }

  lemma OutputInv(f: Fan, fwd: seq<Byte>)
    requires Inv(f) && fwd != []
    ensures Inv(Step(f, Output(fwd)))
  {
    hide StreamInv, DataOf;
    LastBytesAppend(f.history, fwd, f.cap);
    hide LastBytes;
    EventInv(f, Step(f, Output(fwd)), Data(fwd));
  }

  lemma QuietInv(f: Fan, e: Event)
    requires Inv(f) && !e.Data?
    ensures Inv(f.(log := f.log + [e]))
  {
    hide StreamInv, DataOf, LastBytes;
    assert f.history + [] == f.history;
    EventInv(f, f.(log := f.log + [e]), e);
  }

  lemma ReceiveInv(f: Fan, k: nat)
    requires Inv(f) && k < |f.streams| && f.streams[k].sub.stretches != []
    ensures Inv(Step(f, Receive(k)))
  {
    hide SubInv, Recv, DataOf, LastBytes;
    assert StreamInv(f, f.streams[k]);
    RecvInv(f.log, BROADCAST_CAP, f.streams[k].sub);
    RecvKeepsStart(f.log, BROADCAST_CAP, f.streams[k].sub);
  }

  /** Every lock section keeps the invariant. */
  lemma StepInv(f: Fan, a: Action)
    requires Inv(f)
    ensures Inv(Step(f, a))
  {
    hide Inv;
    match a
    case Output(fwd) =>
      if fwd != [] {
        OutputInv(f, fwd);
      }
    case Announce(c) => QuietInv(f, ControllerChanged(c));
    case Exit => QuietInv(f, Closed);
    case Attach => AttachInv(f);
    case Receive(k) =>
      if k < |f.streams| && f.streams[k].sub.stretches != [] {
        ReceiveInv(f, k);
      }
  }

  /** So does every run, from a fresh session, for every ring capacity. */
  lemma {:induction false} RunInv(cap: nat, actions: seq<Action>)
    ensures Inv(Run(Init(cap), actions)) && Run(Init(cap), actions).cap == cap
  {
    hide Inv, Step;
    if actions == [] {
      InitInv(cap);
    } else {
      var n := |actions| - 1;
      RunInv(cap, actions[..n]);
      StepInv(Run(Init(cap), actions[..n]), actions[n]);
      StepKeepsCap(Run(Init(cap), actions[..n]), actions[n]);
    }
  }

  lemma InitInv(cap: nat)
    ensures Inv(Init(cap))
  {
  }

  lemma StepKeepsCap(f: Fan, a: Action)
    ensures Step(f, a).cap == f.cap
  {
  }

  // ---- what a run has put out, by its actions ------------------------------------------------

  /** What one action puts out, and what it broadcasts. */
  function OutputOf(a: Action): seq<Byte> {
    if a.Output? then a.fwd else []
  }

  function EventOf(a: Action): seq<Event> {
    match a
    case Output(fwd) => if fwd == [] then [] else [Data(fwd)]
    case Announce(c) => [ControllerChanged(c)]
    case Exit => [Closed]
    case _ => []
  }

  function Outputs(actions: seq<Action>): seq<Byte> {
    if actions == [] then [] else OutputOf(actions[0]) + Outputs(actions[1..])
  }

  function Events(actions: seq<Action>): seq<Event> {
    if actions == [] then [] else EventOf(actions[0]) + Events(actions[1..])
  }

  function Attaches(actions: seq<Action>): nat {
    if actions == [] then 0 else (if actions[0].Attach? then 1 else 0) + Attaches(actions[1..])
  }

  lemma {:induction false} OutputsSnoc(actions: seq<Action>, a: Action)
    ensures Outputs(actions + [a]) == Outputs(actions) + OutputOf(a)
  {
    hide OutputOf;
    if actions == [] {
      assert actions + [a] == [a] && [a][1..] == [];
    } else {
      assert (actions + [a])[1..] == actions[1..] + [a];
      OutputsSnoc(actions[1..], a);
    }
  }

  lemma {:induction false} EventsSnoc(actions: seq<Action>, a: Action)
    ensures Events(actions + [a]) == Events(actions) + EventOf(a)
  {
    hide EventOf;
    if actions == [] {
      assert actions + [a] == [a] && [a][1..] == [];
    } else {
      assert (actions + [a])[1..] == actions[1..] + [a];
      EventsSnoc(actions[1..], a);
    }
  }

  lemma {:induction false} AttachesSnoc(actions: seq<Action>, a: Action)
    ensures Attaches(actions + [a]) == Attaches(actions) + if a.Attach? then 1 else 0
  {
    if actions == [] {
      assert actions + [a] == [a] && [a][1..] == [];
    } else {
      assert (actions + [a])[1..] == actions[1..] + [a];
      AttachesSnoc(actions[1..], a);
    }
  }

  lemma StepIs(f: Fan, a: Action)
    ensures var g := Step(f, a);
            && g.history == f.history + OutputOf(a) && g.log == f.log + EventOf(a)
            && |g.streams| == |f.streams| + (if a.Attach? then 1 else 0)
            && (forall k :: 0 <= k < |f.streams| ==> g.streams[k].attachedAt == f.streams[k].attachedAt)
            && (a.Attach? ==> g.streams[|f.streams|].attachedAt == |f.history|)
  {
    hide Recv, LastBytes;
    assert f.history + [] == f.history && f.log + [] == f.log;
  }

  lemma RunSnoc(f: Fan, actions: seq<Action>, a: Action)
    ensures Run(f, actions + [a]) == Step(Run(f, actions), a)
  {
    hide Step;
    assert (actions + [a])[..|actions|] == actions;
  }

  /** A run's output is what its reader forwarded, its log is what was broadcast, in order, and
      it has one attachment per attach. */
  lemma {:induction false} RunIs(cap: nat, actions: seq<Action>)
    ensures var f := Run(Init(cap), actions);
            f.history == Outputs(actions) && f.log == Events(actions) && |f.streams| == Attaches(actions)
  {
    if actions != [] {
      hide Step, Outputs, Events, Attaches, Run, OutputOf, EventOf;
      var before, a := actions[..|actions| - 1], actions[|actions| - 1];
      RunIs(cap, before);
      OutputsSnoc(before, a);
      EventsSnoc(before, a);
      AttachesSnoc(before, a);
      RunSnoc(Init(cap), before, a);
      StepIs(Run(Init(cap), before), a);
      assert before + [a] == actions;
    }
  }

  /** An attachment is made at the output so far, and stays at it. */
  lemma {:induction false} AttachedAt(cap: nat, before: seq<Action>, after: seq<Action>)
    ensures Attaches(before) < |Run(Init(cap), before + [Attach] + after).streams|
    ensures Run(Init(cap), before + [Attach] + after).streams[Attaches(before)].attachedAt == |Outputs(before)|
    decreases |after|
  {
    hide Step, Outputs, Attaches, Run;
    if after == [] {
      RunIs(cap, before);
      RunSnoc(Init(cap), before, Attach);
      StepIs(Run(Init(cap), before), Attach);
      assert before + [Attach] + [] == before + [Attach];
    } else {
      var init, a := after[..|after| - 1], after[|after| - 1];
      AttachedAt(cap, before, init);
      var most := before + [Attach] + init;
      RunSnoc(Init(cap), most, a);
      StepIs(Run(Init(cap), most), a);
      assert before + [Attach] + after == most + [a];
    }
  }

  /** A stream's receive is one of its subscription, of the last 1024 events. */
  lemma ReceiveIs(f: Fan, k: nat)
    requires Inv(f) && k < |f.streams|
    ensures var s := f.streams[k];
            var now := Stream(s.snapshot, s.attachedAt, Recv(f.log, 1024, s.sub));
            Step(f, Receive(k)) == f.(streams := f.streams[k := now])
  {
    hide Recv;
    assert StreamInv(f, f.streams[k]);
  }

  /** Offset in the output of a log position. */
  function Offset(f: Fan, pos: nat): nat
    requires pos <= |f.log|
  {
    |DataOf(f.log[..pos])|
  }

  lemma StretchData(f: Fan, from: nat, end: nat)
    requires DataOf(f.log) == f.history && from <= end <= |f.log|
    ensures Offset(f, from) <= Offset(f, end) <= |f.history|
    ensures DataOf(f.log[from..end]) == f.history[Offset(f, from)..Offset(f, end)]
  {
    DataOfAppend(f.log[..from], f.log[from..end]);
    assert f.log[..from] + f.log[from..end] == f.log[..end];
    DataOfAppend(f.log[..end], f.log[end..]);
    assert f.log[..end] + f.log[end..] == f.log;
  }

  /** Whatever the interleaving, what an attachment receives between lags is one contiguous
      stretch of the forwarded output, and the first such stretch begins at the attach point. */
  lemma EachStretchContiguous(cap: nat, actions: seq<Action>, k: nat, i: nat)
    requires var f := Run(Init(cap), actions); k < |f.streams| && i < |f.streams[k].sub.stretches|
    ensures var f := Run(Init(cap), actions);
            var t := f.streams[k].sub.stretches[i];
            && EndOf(t) <= |f.log| && Offset(f, t.from) <= Offset(f, EndOf(t)) <= |f.history|
            && DataOf(t.events) == f.history[Offset(f, t.from)..Offset(f, EndOf(t))]
            && (i == 0 ==> Offset(f, t.from) == f.streams[k].attachedAt)
  {
    RunInv(cap, actions);
    var f := Run(Init(cap), actions);
    var s := f.streams[k];
    assert StreamInv(f, s);
    var t := s.sub.stretches[i];
    assert InLog(f.log, t);
    StretchData(f, t.from, EndOf(t));
  }

  /** The replayed snapshot followed by the live output of an attachment that never lagged is
      one contiguous stretch of all forwarded output: no gap, no duplicate, starting exactly
      `min(cap, output so far)` bytes before the attach point. */
  lemma ReplayThenLive(cap: nat, actions: seq<Action>, k: nat)
    requires var f := Run(Init(cap), actions); k < |f.streams| && |f.streams[k].sub.stretches| == 1
    ensures var f := Run(Init(cap), actions);
            var s := f.streams[k];
            var seen := s.snapshot + DataOf(Received(s.sub.stretches));
            && s.attachedAt <= |f.history| && |s.snapshot| == Min(cap, s.attachedAt)
            && s.attachedAt - |s.snapshot| + |seen| <= |f.history|
            && seen == f.history[s.attachedAt - |s.snapshot|..s.attachedAt - |s.snapshot| + |seen|]
  {
    hide Run, DataOf, Received;
    RunInv(cap, actions);
    ContiguousFrom(Run(Init(cap), actions), k);
  }

  lemma ContiguousFrom(f: Fan, k: nat)
    requires Inv(f) && k < |f.streams| && |f.streams[k].sub.stretches| == 1
    ensures var s := f.streams[k];
            var seen := s.snapshot + DataOf(Received(s.sub.stretches));
            && s.attachedAt <= |f.history| && |s.snapshot| == Min(f.cap, s.attachedAt)
            && s.attachedAt - |s.snapshot| + |seen| <= |f.history|
            && seen == f.history[s.attachedAt - |s.snapshot|..s.attachedAt - |s.snapshot| + |seen|]
  {
    var s := f.streams[k];
    assert StreamInv(f, s);
    NoLagIsContiguous(f.log, s.sub);
    hide DataOf, Received, SubInv, Inv;
    StretchData(f, s.sub.start, s.sub.pos);
    assert Offset(f, s.sub.start) == s.attachedAt;
    hide Offset;
    JoinReplay(f.history, f.cap, s.attachedAt, Offset(f, s.sub.pos));
  }

  lemma JoinReplay(history: seq<Byte>, cap: nat, a: nat, b: nat)
    requires a <= b <= |history|
    ensures var replay := LastBytes(history[..a], cap);
            replay + history[a..b] == history[a - |replay|..b]
  {
    var replay := LastBytes(history[..a], cap);
    assert replay == history[a - |replay|..a];
    assert history[a - |replay|..a] + history[a..b] == history[a - |replay|..b];
  }

  // ---- on the wire ---------------------------------------------------------------------------

  /** `slice::chunks`. */
  function Chunks(s: seq<Byte>, n: nat): seq<seq<Byte>>
    requires n > 0
    decreases |s|
  {
    if s == [] then [] else if |s| <= n then [s] else [s[..n]] + Chunks(s[n..], n)
  }

  predicate Sized(ps: seq<seq<Byte>>, n: nat) {
    forall i :: 0 <= i < |ps| ==> 0 < |ps[i]| <= n
  }

  lemma SizedAppend(ps: seq<seq<Byte>>, qs: seq<seq<Byte>>, n: nat)
    requires Sized(ps, n) && Sized(qs, n)
    ensures Sized(ps + qs, n)
  {
  }

  lemma SizedNone(n: nat)
    ensures Sized([], n)
  {
  }

  lemma {:induction false} ChunksFlatten(s: seq<Byte>, n: nat)
    requires n > 0
    ensures Flatten(Chunks(s, n)) == s && Sized(Chunks(s, n), n)
    decreases |s|
  {
    assert s != [] ==> Sized([s[..Min(n, |s|)]], n);
    hide Sized;
    if s == [] {
      SizedNone(n);
    } else if |s| <= n {
      assert Flatten([s]) == s + Flatten([s][1..]);
      assert s[..|s|] == s;
    } else {
      ChunksFlatten(s[n..], n);
      assert ([s[..n]] + Chunks(s[n..], n))[1..] == Chunks(s[n..], n);
      SizedAppend([s[..n]], Chunks(s[n..], n), n);
    }
  }

  /** All pieces but the last are of full size. */
  lemma {:induction false} ChunksFull(s: seq<Byte>, n: nat, i: nat)
    requires n > 0 && i + 1 < |Chunks(s, n)|
    ensures |Chunks(s, n)[i]| == n
    decreases |s|
  {
    if i > 0 {
      ChunksFull(s[n..], n, i - 1);
    }
  }

  /** The Data payloads a stream's task sends for some events. */
  function LivePieces(events: seq<Event>): seq<seq<Byte>> {
    if events == [] then [] else EventPieces(events[0]) + LivePieces(events[1..])
  }

  function EventPieces(e: Event): seq<seq<Byte>> {
    if e.Data? then Chunks(e.bytes, Frame.MAX_DATA_LEN) else []
  }

  /** All Data payloads of an attachment: the replay, then the live output. */
  function Pieces(s: Stream): seq<seq<Byte>> {
    Chunks(s.snapshot, Frame.MAX_DATA_LEN) + LivePieces(Received(s.sub.stretches))
  }

  predicate DataSized(ps: seq<seq<Byte>>) {
    Sized(ps, Frame.MAX_DATA_LEN)
  }

  lemma EventPiecesFlatten(e: Event)
    ensures Flatten(EventPieces(e)) == (if e.Data? then e.bytes else []) && DataSized(EventPieces(e))
  {
    hide Chunks;
    if e.Data? {
      ChunksFlatten(e.bytes, Frame.MAX_DATA_LEN);
    }
  }

  lemma {:induction false} LivePiecesFlatten(events: seq<Event>)
    ensures Flatten(LivePieces(events)) == DataOf(events) && DataSized(LivePieces(events))
  {
    if events == [] {
      assert Flatten<Byte>([]) == [];
    } else {
      hide Flatten, Sized, EventPieces;
      LivePiecesFlatten(events[1..]);
      EventPiecesFlatten(events[0]);
      FlattenAppend(EventPieces(events[0]), LivePieces(events[1..]));
      SizedAppend(EventPieces(events[0]), LivePieces(events[1..]), Frame.MAX_DATA_LEN);
    }
  }

  /** Cutting into 64 KiB frames neither loses nor repeats a byte. */
  lemma PiecesFlatten(s: Stream)
    ensures Flatten(Pieces(s)) == s.snapshot + DataOf(Received(s.sub.stretches)) && DataSized(Pieces(s))
  {
    hide Sized, Chunks;
    ChunksFlatten(s.snapshot, Frame.MAX_DATA_LEN);
    LivePiecesFlatten(Received(s.sub.stretches));
    FlattenAppend(Chunks(s.snapshot, Frame.MAX_DATA_LEN), LivePieces(Received(s.sub.stretches)));
    SizedAppend(Chunks(s.snapshot, Frame.MAX_DATA_LEN), LivePieces(Received(s.sub.stretches)), Frame.MAX_DATA_LEN);
  }

  function DataFrames(sid: U32, ps: seq<seq<Byte>>): seq<Frame.Frame> {
    if ps == [] then [] else [Frame.Frame(sid, Frame.Data(ps[0]))] + DataFrames(sid, ps[1..])
  }

  lemma {:induction false} DataFramesWellFormed(sid: U32, ps: seq<seq<Byte>>)
    requires sid != Frame.CONTROL_STREAM && DataSized(ps)
    ensures Transport.AllWellFormed(DataFrames(sid, ps))
  {
    if ps != [] {
      assert DataSized(ps[1..]);
      DataFramesWellFormed(sid, ps[1..]);
    }
  }
}
