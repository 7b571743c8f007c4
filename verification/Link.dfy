/** What is read at the far end of a link that many streams share: senders that each await one
    send before the next, two halves, and a byte stream between. */
module Link {
  import opened Prelude
  import opened Prio
  import opened Routing
  import F = Frame
  import Transport
  import Proxy
  import FanOut
  import Broadcast

  // ---- a sender that sends one message at a time ------------------------------------------------

  /** The message a step asks to send. */
  function Asked<T>(a: Action<T>): Option<T> {
    if (a.Hi? || a.Lo?) && a.op.Acquire? then Some(a.op.p.item) else None
  }

  /** The selected messages that hold a grant but are not enqueued yet. */
  function Holding<T>(p: T -> bool, s: Prio<T>): seq<T> {
    Filter(p, Items(s.hi.granted)) + Filter(p, Items(s.lo.granted))
  }

  /** In the whole run the selected messages are sent one at a time and in the order of
      `program`: each is asked for only when none of them is under way, and it is the next. */
  ghost predicate InTurn<T(!new)>(p: T -> bool, program: seq<T>, capHi: nat, capLo: nat, actions: seq<Action<T>>) {
    forall i :: 0 <= i < |actions| && Asked(actions[i]).Some? && p(Asked(actions[i]).value) ==>
      var n := |Filter(p, Enqueued(capHi, capLo, actions[..i]))|;
      && Holding(p, Run(capHi, capLo, actions[..i])) == []
      && n < |program| && Asked(actions[i]).value == program[n]
  }

  lemma ItemsAppend<T>(a: seq<Packet<T>>, b: seq<Packet<T>>)
    ensures Items(a + b) == Items(a) + Items(b)
  {
  }

  lemma FilterItemsSnoc<T>(p: T -> bool, a: seq<Packet<T>>, x: Packet<T>)
    ensures Filter(p, Items(a + [x])) == Filter(p, Items(a)) + if p(x.item) then [x.item] else []
  {
    ItemsAppend(a, [x]);
    assert Items([x]) == [x.item];
    FilterSnoc(p, Items(a), x.item);
  }

  lemma FilterItemsAppend<T>(p: T -> bool, a: seq<Packet<T>>, b: seq<Packet<T>>)
    ensures Filter(p, Items(a + b)) == Filter(p, Items(a)) + Filter(p, Items(b))
  {
    ItemsAppend(a, b);
    FilterAppend(p, Items(a), Items(b));
  }

  lemma FilterWithout<T>(p: T -> bool, s: seq<Packet<T>>, k: nat)
    requires k < |s|
    ensures var was, now := Filter(p, Items(s)), Filter(p, Items(Without(s, k)));
            if p(s[k].item) then s[k].item in was && |now| == |was| - 1 else now == was
  {
    hide Filter, Items;
    var a, x, b := s[..k], s[k], s[k + 1..];
    assert s == a + [x] + b;
    FilterItemsAppend(p, a + [x], b);
    FilterItemsSnoc(p, a, x);
    FilterItemsAppend(p, a, b);
    assert Filter(p, Items(a)) + [] == Filter(p, Items(a));
  }

  /** Granting adds the message; enqueueing takes it out again, among the others. */
  lemma GrantHeld<T>(p: T -> bool, h: Half<T>, op: Op<T>)
    ensures var was, now := Filter(p, Items(h.granted)), Filter(p, Items(Apply(h, op).granted));
            match op
            case Acquire(x) => now == was || (p(x.item) && now == was + [x.item])
            case Enqueue(k) =>
              if k < |h.granted| && p(h.granted[k].item) then h.granted[k].item in was && |now| == |was| - 1
              else now == was
            case _ => now == was
  {
    hide Filter, Items;
    if op.Acquire? {
      FilterItemsSnoc(p, h.granted, op.p);
      assert Filter(p, Items(h.granted)) + [] == Filter(p, Items(h.granted));
    } else if op.Enqueue? && op.k < |h.granted| {
      FilterWithout(p, h.granted, op.k);
    }
  }

  /** What has been enqueued of a program, and what is under way, is the start of it. */
  ghost predicate OnTrack<T(!new)>(p: T -> bool, program: seq<T>, done: seq<T>, s: Prio<T>) {
    |Holding(p, s)| <= 1 && done + Holding(p, s) <= program
  }

  lemma OnlyOne<T>(x: T, s: seq<T>)
    requires x in s && |s| <= 1
    ensures s == [x]
  {
  }

  lemma HalfOnTrack<T>(p: T -> bool, h: Half<T>, op: Op<T>)
    requires |Filter(p, Items(h.granted))| <= 1
    requires op.Acquire? && p(op.p.item) ==> Filter(p, Items(h.granted)) == []
    ensures var was, now := Filter(p, Items(h.granted)), Filter(p, Items(Apply(h, op).granted));
            var entered := Filter(p, EnteringHalf(h, op));
            && |now| <= 1
            && (if op.Acquire? then now == was || (p(op.p.item) && was == [] && now == [op.p.item])
                else entered + now <= was)
  {
    hide Apply, Filter, Items;
    var was, now := Filter(p, Items(h.granted)), Filter(p, Items(Apply(h, op).granted));
    GrantHeld(p, h, op);
    NothingSelected(p);
    assert [] + now == now;
    if op.Acquire? {
      assert [] + [op.p.item] == [op.p.item];
    } else if op.Enqueue? && op.k < |h.granted| {
      var x := h.granted[op.k].item;
      OneSelected(p, x);
      if p(x) {
        OnlyOne(x, was);
        assert now == [] && [x] + now == [x];
      }
    }
  }

  lemma OneSelected<T>(p: T -> bool, x: T)
    ensures Filter(p, [x]) == if p(x) then [x] else []
  {
    FilterSnoc(p, [], x);
    assert [] + [x] == [x];
  }

  lemma ShiftOne<T>(program: seq<T>, done: seq<T>, was: seq<T>, entered: seq<T>, now: seq<T>)
    requires |was| <= 1 && done + was <= program && entered + now <= was
    ensures |now| <= 1 && done + entered + now <= program
  {
    if entered == [] {
      assert done + entered + now == done + now;
    } else {
      assert now == [] && done + entered + now == done + was;
    }
  }

  lemma AddOne<T>(program: seq<T>, done: seq<T>, x: T)
    requires done <= program && |done| < |program| && program[|done|] == x
    ensures done + [x] <= program
  {
  }

  /** The same for one half, when the other holds `other`. */
  lemma StepOfHalf<T(!new)>(
    p: T -> bool, program: seq<T>, done: seq<T>, h: Half<T>, op: Op<T>, other: seq<T>)
    requires var was := Filter(p, Items(h.granted));
             |was| + |other| <= 1 && done + was <= program && done + other <= program
    requires op.Acquire? && p(op.p.item) ==>
               && Filter(p, Items(h.granted)) == [] && other == []
               && |done| < |program| && op.p.item == program[|done|]
    ensures var now, entered := Filter(p, Items(Apply(h, op).granted)), Filter(p, EnteringHalf(h, op));
            |now| + |other| <= 1 && done + entered + now <= program && (other != [] ==> entered == [] && now == [])
  {
    hide Apply, Filter, Items, EnteringHalf;
    var was, now := Filter(p, Items(h.granted)), Filter(p, Items(Apply(h, op).granted));
    var entered := Filter(p, EnteringHalf(h, op));
    HalfOnTrack(p, h, op);
    if op.Acquire? {
      NothingEnters(p, h, op);
      assert done + [] == done && done + entered + now == done + now;
      if now != was {
        AddOne(program, done, op.p.item);
      }
    } else {
      ShiftOne(program, done, was, entered, now);
    }
  }

  lemma NothingEnters<T>(p: T -> bool, h: Half<T>, op: Op<T>)
    requires !op.Enqueue?
    ensures Filter(p, EnteringHalf(h, op)) == []
  {
  }

  lemma StepOnTrack<T(!new)>(p: T -> bool, program: seq<T>, done: seq<T>, s: Prio<T>, a: Action<T>)
    requires OnTrack(p, program, done, s)
    requires Asked(a).Some? && p(Asked(a).value) ==>
               Holding(p, s) == [] && |done| < |program| && Asked(a).value == program[|done|]
    ensures OnTrack(p, program, done + Filter(p, Entering(s, a)), Step(s, a))
  {
    hide Apply, Filter, PollStep, Items, EnteringHalf;
    var hs, ls := Filter(p, Items(s.hi.granted)), Filter(p, Items(s.lo.granted));
    Parts(program, done, hs, ls);
    match a
    case Hi(op) =>
      StepOfHalf(p, program, done, s.hi, op, ls);
      Joined(program, done, Filter(p, EnteringHalf(s.hi, op)), Filter(p, Items(Apply(s.hi, op).granted)), ls);
    case Lo(op) =>
      StepOfHalf(p, program, done, s.lo, op, hs);
      Joined(program, done, Filter(p, EnteringHalf(s.lo, op)), Filter(p, Items(Apply(s.lo, op).granted)), hs);
    case Poll =>
      NothingSelected(p);
      PollKeepsGrants(s);
      assert done + [] == done;
    case DropReceiver =>
      NothingSelected(p);
      assert done + [] == done;
  }

  lemma Parts<T>(program: seq<T>, done: seq<T>, a: seq<T>, b: seq<T>)
    requires |a + b| <= 1 && done + (a + b) <= program
    ensures (a == [] || b == []) && done + a <= program && done + b <= program && done <= program
  {
    assert a == [] ==> a + b == b;
    assert b == [] ==> a + b == a;
  }

  lemma Joined<T>(program: seq<T>, done: seq<T>, entered: seq<T>, now: seq<T>, other: seq<T>)
    requires |now| + |other| <= 1 && done + entered + now <= program && done + other <= program
    requires other != [] ==> entered == [] && now == []
    ensures |now + other| <= 1 && |other + now| <= 1
    ensures done + entered + (now + other) <= program && done + entered + (other + now) <= program
  {
    if other == [] {
      assert now + other == now && other + now == now;
    } else {
      assert now + other == other && other + now == other && done + entered == done;
    }
  }

  lemma NothingSelected<T>(p: T -> bool)
    ensures Filter(p, []) == []
  {
  }

  lemma PollKeepsGrants<T>(s: Prio<T>)
    ensures PollStep(s).hi.granted == s.hi.granted && PollStep(s).lo.granted == s.lo.granted
  {
  }

  /** A sender that sends one message at a time has enqueued the start of its program. */
  lemma {:induction false} EnqueuedInTurn<T(!new)>(
    p: T -> bool, program: seq<T>, capHi: nat, capLo: nat, actions: seq<Action<T>>)
    requires InTurn(p, program, capHi, capLo, actions)
    ensures OnTrack(p, program, Filter(p, Enqueued(capHi, capLo, actions)), Run(capHi, capLo, actions))
  {
    hide Step, Entering, OnTrack, Filter, Holding, Asked;
    if actions == [] {
      StartOnTrack(p, program, capHi, capLo);
    } else {
      var n := |actions| - 1;
      var before, a := actions[..n], actions[n];
      InTurnBefore(p, program, capHi, capLo, actions);
      EnqueuedInTurn(p, program, capHi, capLo, before);
      var s, was := Run(capHi, capLo, before), Enqueued(capHi, capLo, before);
      StepOnTrack(p, program, Filter(p, was), s, a);
      FilterAppend(p, was, Entering(s, a));
    }
  }

  lemma StartOnTrack<T(!new)>(p: T -> bool, program: seq<T>, capHi: nat, capLo: nat)
    ensures OnTrack(p, program, Filter(p, Enqueued(capHi, capLo, [])), Run(capHi, capLo, []))
  {
    assert Items<T>([]) == [];
  }

  lemma InTurnBefore<T(!new)>(p: T -> bool, program: seq<T>, capHi: nat, capLo: nat, actions: seq<Action<T>>)
    requires InTurn(p, program, capHi, capLo, actions) && actions != []
    ensures InTurn(p, program, capHi, capLo, actions[..|actions| - 1])
    ensures var n := |actions| - 1;
            Asked(actions[n]).Some? && p(Asked(actions[n]).value) ==>
              var k := |Filter(p, Enqueued(capHi, capLo, actions[..n]))|;
              && Holding(p, Run(capHi, capLo, actions[..n])) == []
              && k < |program| && Asked(actions[n]).value == program[k]
  {
    hide Run, Enqueued, Filter, Holding, Asked;
    var before := actions[..|actions| - 1];
    assert forall i :: 0 <= i < |before| ==> before[i] == actions[i] && before[..i] == actions[..i];
  }

  /** What is returned at the far end of such a sender's messages: on each half the start of
      the program's messages for that half, and all of them once all were enqueued and the half
      has been drained. The halves may overtake each other. */
  lemma ReadInTurn<T(!new)>(
    toLo: T -> bool, p: T -> bool, program: seq<T>, capHi: nat, capLo: nat, actions: seq<Action<T>>)
    requires Routed(toLo, actions) && InTurn(p, program, capHi, capLo, actions)
    ensures var s := Run(capHi, capLo, actions);
            var got := Messages(s.outs);
            && Filter(Both(p, toLo), got) <= Filter(toLo, program)
            && Filter(Both(p, Not(toLo)), got) <= Filter(Not(toLo), program)
    ensures var s := Run(capHi, capLo, actions);
            var got := Messages(s.outs);
            Filter(p, Enqueued(capHi, capLo, actions)) == program && s.hi.live && s.lo.live ==>
              && (s.lo.queue == [] ==> Filter(Both(p, toLo), got) == Filter(toLo, program))
              && (s.hi.queue == [] ==> Filter(Both(p, Not(toLo)), got) == Filter(Not(toLo), program))
  {
    hide Run, Routed, InTurn, Enqueued, Filter, Messages, Holding;
    var done := Filter(p, Enqueued(capHi, capLo, actions));
    EnqueuedInTurn(p, program, capHi, capLo, actions);
    assert done <= program;
    EnqueuedHalves(toLo, capHi, capLo, actions);
    NeverReordered(toLo, Both(p, toLo), capHi, capLo, actions);
    NeverReordered(toLo, Both(p, Not(toLo)), capHi, capLo, actions);
    SelectedOn(p, toLo, Enqueued(capHi, capLo, actions));
    SelectedOn(p, Not(toLo), Enqueued(capHi, capLo, actions));
    FilterPrefix(toLo, done, program);
    FilterPrefix(Not(toLo), done, program);
  }

  lemma SelectedOn<T>(p: T -> bool, q: T -> bool, all: seq<T>)
    ensures Filter(Both(p, q), Filter(q, all)) == Filter(q, Filter(p, all))
  {
    FilterTwice(Both(p, q), q, all);
    FilterTwice(q, p, all);
    FilterSame(Both(Both(p, q), q), Both(q, p), all);
  }

  lemma {:induction false} FilterSame<T>(p: T -> bool, q: T -> bool, s: seq<T>)
    requires forall i :: 0 <= i < |s| ==> p(s[i]) == q(s[i])
    ensures Filter(p, s) == Filter(q, s)
  {
    if s != [] {
      FilterSame(p, q, s[..|s| - 1]);
    }
  }

  // ---- frames over a byte stream -------------------------------------------------------------------

  predicate AllAskedWellFormed(actions: seq<Action<F.Frame>>) {
    forall i :: 0 <= i < |actions| && Asked(actions[i]).Some? ==> F.WellFormed(Asked(actions[i]).value)
  }

  /** When only well-formed frames are sent, whatever comes out of the link is decoded at the
      far end, frame by frame, without error. */
  lemma LinkDecodes(capHi: nat, capLo: nat, actions: seq<Action<F.Frame>>)
    requires AllAskedWellFormed(actions)
    ensures var got := Messages(Run(capHi, capLo, actions).outs);
            Transport.RecvAll(Transport.EncodeAll(got)) == (Transport.WithSizes(got), Ok(()))
  {
    hide Run, F.WellFormed, Transport.RecvAll, Transport.EncodeAll, Messages, HiItems, LoItems;
    var s := Run(capHi, capLo, actions);
    RunHolds(F.WellFormed, F.WellFormed, capHi, capLo, actions);
    ConservedAndInOrder(capHi, capLo, actions);
    MessagesHold(F.WellFormed, s.outs);
    Transport.ReceiveWhatWasSent(Messages(s.outs));
  }

  /** A program of well-formed frames among other well-formed frames. */
  lemma WellFormedTogether(
    p: F.Frame -> bool, program: seq<F.Frame>, capHi: nat, capLo: nat, actions: seq<Action<F.Frame>>)
    requires InTurn(p, program, capHi, capLo, actions) && Transport.AllWellFormed(program)
    requires OthersWellFormed(p, actions)
    ensures AllAskedWellFormed(actions)
  {
    hide Run, Enqueued, Filter, Holding, F.WellFormed, Asked;
  }

  predicate OthersWellFormed(p: F.Frame -> bool, actions: seq<Action<F.Frame>>) {
    forall i :: 0 <= i < |actions| && Asked(actions[i]).Some? && !p(Asked(actions[i]).value) ==>
      F.WellFormed(Asked(actions[i]).value)
  }

  predicate OfStream(f: F.Frame, sid: U32) {
    f.streamId == sid
  }

  /** What the hub sends on a stream: the first `n` accepted bodies, then, when the proxy has
      ended, a close. */
  function HubProgram(sid: U32, msgs: seq<Proxy.WsMessage>, n: nat): seq<F.Frame>
    requires n <= |Proxy.Forwarded(sid, msgs)|
  {
    Proxy.OnStream(sid, Proxy.Forwarded(sid, msgs)[..n]) + [F.Frame(sid, F.Close)]
  }

  lemma HubProgramWellFormed(sid: U32, msgs: seq<Proxy.WsMessage>, n: nat)
    requires sid != F.CONTROL_STREAM && n <= |Proxy.Forwarded(sid, msgs)|
    ensures Transport.AllWellFormed(HubProgram(sid, msgs, n))
  {
    var bodies := Proxy.Forwarded(sid, msgs);
    Proxy.ForwardedWellFormed(sid, msgs);
    assert F.WellFormed(F.Frame(sid, F.Close));
    hide F.WellFormed, Proxy.Forwarded;
    var fs, all := HubProgram(sid, msgs, n), Proxy.OnStream(sid, bodies);
    forall i | 0 <= i < |fs|
      ensures F.WellFormed(fs[i])
    {
      if i < n {
        assert fs[i] == all[i];
      }
    }
  }

  /** Hub to agent. The hub's link carries this stream's accepted messages, sent one at a time by
      its proxy until it ends, then the close, and any other well-formed frames. The agent then
      decodes everything without error, and of this stream exactly the start of what was sent on
      each half, each in order; all of it once drained. */
  lemma AgentReadsForwarded(
    sid: U32, msgs: seq<Proxy.WsMessage>, n: nat, capHi: nat, capLo: nat, actions: seq<Action<F.Frame>>)
    requires sid != F.CONTROL_STREAM && Routed(HubToLo, actions) && n <= |Proxy.Forwarded(sid, msgs)|
    requires OthersWellFormed(f => OfStream(f, sid), actions)
    requires InTurn(f => OfStream(f, sid), HubProgram(sid, msgs, n), capHi, capLo, actions)
    ensures var s := Run(capHi, capLo, actions);
            var got, mine, sent := Messages(s.outs), f => OfStream(f, sid), HubProgram(sid, msgs, n);
            && Transport.RecvAll(Transport.EncodeAll(got)) == (Transport.WithSizes(got), Ok(()))
            && Filter(Both(mine, HubToLo), got) <= Filter(HubToLo, sent)
            && Filter(Both(mine, Not(HubToLo)), got) <= Filter(Not(HubToLo), sent)
            && (Filter(mine, Enqueued(capHi, capLo, actions)) == sent && s.hi.live && s.lo.live ==>
                  && (s.lo.queue == [] ==> Filter(Both(mine, HubToLo), got) == Filter(HubToLo, sent))
                  && (s.hi.queue == [] ==> Filter(Both(mine, Not(HubToLo)), got) == Filter(Not(HubToLo), sent)))
  {
    hide Run, Routed, InTurn, Enqueued, Filter, Messages, AllAskedWellFormed, OthersWellFormed, HubToLo, HubProgram;
    HubProgramWellFormed(sid, msgs, n);
    WellFormedTogether(f => OfStream(f, sid), HubProgram(sid, msgs, n), capHi, capLo, actions);
    LinkDecodes(capHi, capLo, actions);
    ReadInTurn(HubToLo, f => OfStream(f, sid), HubProgram(sid, msgs, n), capHi, capLo, actions);
  }

  /** Across the halves the order is not kept: two messages sent one after the other, the first
      on the low half, are returned the other way round. */
  lemma HalvesOvertake<T(!new)>(first: T, second: T, capHi: nat, capLo: nat)
    requires capHi >= 1 && capLo >= 1
    ensures var actions := [Lo(Acquire(Packet(first, 1))), Lo(Enqueue(0)), Hi(Acquire(Packet(second, 1))),
                            Hi(Enqueue(0)), Poll, Poll, Poll];
            Run(capHi, capLo, actions).outs == [FromHi(second), FromLo(first)]
  {
    hide Run, Step, Channel;
    var actions := [Lo(Acquire(Packet(first, 1))), Lo(Enqueue(0)), Hi(Acquire(Packet(second, 1))), Hi(Enqueue(0)),
                    Poll, Poll, Poll];
    var s0 := Prio(Idle<T>(capHi, [], []), Idle(capLo, [], []), false, false, false, []);
    var s2 := s0.(lo := Loaded(capLo, first));
    var s4 := s2.(hi := Loaded(capHi, second));
    NothingRun(capHi, capLo, actions);
    SendOne(capHi, second);
    SendOne(capLo, first);
    forall k | 0 <= k < 7
      ensures Run(capHi, capLo, actions[..k + 1]) == Step(Run(capHi, capLo, actions[..k]), actions[k])
    {
      RunNext(capHi, capLo, actions, k);
    }
    assert Run(capHi, capLo, actions[..1]) == Step(s0, actions[0]);
    assert Run(capHi, capLo, actions[..2]) == Step(Step(s0, actions[0]), actions[1]);
    OnLow(s0, actions[0].op, actions[1].op);
    assert Run(capHi, capLo, actions[..2]) == s2;
    assert Run(capHi, capLo, actions[..3]) == Step(s2, actions[2]);
    assert Run(capHi, capLo, actions[..4]) == Step(Step(s2, actions[2]), actions[3]);
    OnHigh(s2, actions[2].op, actions[3].op);
    assert Run(capHi, capLo, actions[..4]) == s4;
    assert Run(capHi, capLo, actions[..5]) == Step(s4, Poll);
    assert Run(capHi, capLo, actions[..6]) == Step(Step(s4, Poll), Poll);
    assert Run(capHi, capLo, actions[..7]) == Step(Step(Step(s4, Poll), Poll), Poll);
    ThreePolls(s4);
    assert actions[..7] == actions;
  }

  /** A half between sends. */
  function Idle<T>(cap: nat, sent: seq<T>, got: seq<T>): Half<T> {
    var c := Min(cap, MAX_PERMITS);
    Half(c, c, [], [], 1, true, sent, got)
  }

  function Loaded<T>(cap: nat, x: T): Half<T>
    requires cap >= 1
  {
    var c := Min(cap, MAX_PERMITS);
    Half(c, c - 1, [], [Packet(x, 1)], 1, true, [x], [])
  }

  lemma SendOne<T>(cap: nat, x: T)
    requires cap >= 1
    ensures Apply(Apply(Idle(cap, [], []), Acquire(Packet(x, 1))), Enqueue(0)) == Loaded(cap, x)
  {
    var h := Apply(Idle<T>(cap, [], []), Acquire(Packet(x, 1)));
    assert h.granted == [Packet(x, 1)];
    assert Without(h.granted, 0) == [] && [] + [Packet(x, 1)] == [Packet(x, 1)] && [] + [x] == [x];
  }

  lemma OnLow<T>(s: Prio<T>, a: Op<T>, b: Op<T>)
    ensures Step(Step(s, Lo(a)), Lo(b)) == s.(lo := Apply(Apply(s.lo, a), b))
  {
    hide Apply;
  }

  lemma OnHigh<T>(s: Prio<T>, a: Op<T>, b: Op<T>)
    ensures Step(Step(s, Hi(a)), Hi(b)) == s.(hi := Apply(Apply(s.hi, a), b))
  {
    hide Apply;
  }

  lemma ThreePolls<T>(s: Prio<T>)
    requires s.hi.live && s.lo.live && s.hi.senders > 0 && |s.hi.queue| == 1 && s.lo.queue != []
    requires !s.atLo && !s.hiClosed && !s.loClosed && s.outs == []
    ensures Step(Step(Step(s, Poll), Poll), Poll).outs == [FromHi(s.hi.queue[0].item), FromLo(s.lo.queue[0].item)]
  {
    var t := Step(s, Poll);
    assert t.hi.queue == [] && t.lo == s.lo;
    var u := Step(t, Poll);
    assert u.atLo && u.lo == s.lo && u.outs == [FromHi(s.hi.queue[0].item)];
  }

  lemma NothingRun<T>(capHi: nat, capLo: nat, actions: seq<Action<T>>)
    ensures Run(capHi, capLo, actions[..0]) ==
            Prio(Idle<T>(capHi, [], []), Idle(capLo, [], []), false, false, false, [])
  {
    assert actions[..0] == [];
  }

  lemma RunNext<T>(capHi: nat, capLo: nat, actions: seq<Action<T>>, k: nat)
    requires k < |actions|
    ensures Run(capHi, capLo, actions[..k + 1]) == Step(Run(capHi, capLo, actions[..k]), actions[k])
  {
    hide Step;
    assert actions[..k + 1][..k] == actions[..k];
  }

  // ---- replay and live output, at the hub ----------------------------------------------------------

  predicate OfData(f: F.Frame, sid: U32) {
    f.streamId == sid && f.body.Data?
  }

  /** The output bytes in some Data frames. */
  function Output(fs: seq<F.Frame>): seq<Byte> {
    if fs == [] then [] else (if fs[0].body.Data? then fs[0].body.data else []) + Output(fs[1..])
  }

  lemma {:induction false} OutputOfPrefix(sid: U32, ps: seq<seq<Byte>>, fs: seq<F.Frame>)
    requires fs <= FanOut.DataFrames(sid, ps)
    ensures Output(fs) <= Flatten(ps)
    ensures fs == FanOut.DataFrames(sid, ps) ==> Output(fs) == Flatten(ps)
    decreases |ps|
  {
    if fs != [] {
      assert FanOut.DataFrames(sid, ps)[1..] == FanOut.DataFrames(sid, ps[1..]);
      OutputOfPrefix(sid, ps[1..], fs[1..]);
    }
  }

  lemma {:induction false} DataFramesOnHi(sid: U32, ps: seq<seq<Byte>>)
    ensures Filter(Not(AgentToLo), FanOut.DataFrames(sid, ps)) == FanOut.DataFrames(sid, ps)
  {
    hide FanOut.DataFrames, Filter;
    DataFramesAre(sid, ps);
    var fs := FanOut.DataFrames(sid, ps);
    forall i | 0 <= i < |fs|
      ensures !AgentToLo(fs[i])
    {
      assert OfData(fs[i], sid);
    }
    FilterAll(Not(AgentToLo), fs);
  }

  lemma {:induction false} DataFramesAre(sid: U32, ps: seq<seq<Byte>>)
    ensures forall i :: 0 <= i < |FanOut.DataFrames(sid, ps)| ==> OfData(FanOut.DataFrames(sid, ps)[i], sid)
  {
    if ps != [] {
      DataFramesAre(sid, ps[1..]);
    }
  }

  lemma DataRidesHi(sid: U32, got: seq<F.Frame>)
    ensures Filter(Both(f => OfData(f, sid), Not(AgentToLo)), got) == Filter(f => OfData(f, sid), got)
  {
    hide Filter;
    forall i | 0 <= i < |got|
      ensures Both(f => OfData(f, sid), Not(AgentToLo))(got[i]) == (f => OfData(f, sid))(got[i])
    {
      assert OfData(got[i], sid) ==> !AgentToLo(got[i]);
    }
    FilterSame(Both(f => OfData(f, sid), Not(AgentToLo)), f => OfData(f, sid), got);
  }

  /** Agent to hub. A stream that never lagged sends its replay and its live output, cut into
      frames, one at a time on a link that carries any other well-formed frames as well. The hub
      decodes everything without error, and the output bytes it reads for this stream are one
      contiguous stretch of all forwarded output, starting exactly `min(cap, output so far)`
      bytes before the attach point; all the stream received, once drained. */
  lemma HubReadsReplay(
    sid: U32, cap: nat, session: seq<FanOut.Action>, k: nat,
    capHi: nat, capLo: nat, actions: seq<Action<F.Frame>>)
    requires sid != F.CONTROL_STREAM && Routed(AgentToLo, actions)
    requires var f := FanOut.Run(FanOut.Init(cap), session);
             k < |f.streams| && |f.streams[k].sub.stretches| == 1
    requires OthersWellFormed(f => OfData(f, sid), actions)
    requires var st := FanOut.Run(FanOut.Init(cap), session).streams[k];
             InTurn(f => OfData(f, sid), FanOut.DataFrames(sid, FanOut.Pieces(st)), capHi, capLo, actions)
    ensures var f, s := FanOut.Run(FanOut.Init(cap), session), Run(capHi, capLo, actions);
            var st, got, mine := f.streams[k], Messages(s.outs), x => OfData(x, sid);
            var read, start := Output(Filter(mine, got)), st.attachedAt - |st.snapshot|;
            && Transport.RecvAll(Transport.EncodeAll(got)) == (Transport.WithSizes(got), Ok(()))
            && |st.snapshot| == Min(cap, st.attachedAt) && start + |read| <= |f.history|
            && read == f.history[start..start + |read|]
            && (Filter(mine, Enqueued(capHi, capLo, actions)) == FanOut.DataFrames(sid, FanOut.Pieces(st))
                && s.hi.live && s.lo.live && s.hi.queue == [] ==>
                  read == st.snapshot + FanOut.DataOf(Broadcast.Received(st.sub.stretches)))
  {
    hide Run, Routed, InTurn, Enqueued, Filter, Messages, AllAskedWellFormed, OthersWellFormed, AgentToLo,
         FanOut.Run, FanOut.Pieces, FanOut.DataFrames, FanOut.DataOf, Broadcast.Received, Output;
    var st := FanOut.Run(FanOut.Init(cap), session).streams[k];
    var ps := FanOut.Pieces(st);
    var got := Messages(Run(capHi, capLo, actions).outs);
    FanOut.PiecesFlatten(st);
    FanOut.DataFramesWellFormed(sid, ps);
    WellFormedTogether(f => OfData(f, sid), FanOut.DataFrames(sid, ps), capHi, capLo, actions);
    LinkDecodes(capHi, capLo, actions);
    ReadInTurn(AgentToLo, f => OfData(f, sid), FanOut.DataFrames(sid, ps), capHi, capLo, actions);
    DataFramesOnHi(sid, ps);
    DataRidesHi(sid, got);
    OutputOfPrefix(sid, ps, Filter(f => OfData(f, sid), got));
    FanOut.ReplayThenLive(cap, session, k);
  }
}
