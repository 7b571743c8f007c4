/** Two-priority channels bounded by a budget: bytes for the socket writers, items for the
    per-stream queues. Senders acquire the budget and then enqueue; receiving releases it.
    The receiver polls the high half first. */
module Prio {
  import opened Prelude

  /** A message and what it takes from the budget. */
  datatype Packet<T> = Packet(item: T, cost: nat)

  /** One half: the free budget, sends that hold a grant but have not enqueued, the queue, the
      number of live senders, whether the receiver is alive, and the histories of what was
      enqueued and received. */
  datatype Half<T> = Half(
    cap: nat, free: nat, granted: seq<Packet<T>>, queue: seq<Packet<T>>,
    senders: nat, live: bool, sent: seq<T>, got: seq<T>)

  datatype Op<T> =
    | Acquire(p: Packet<T>)  // a send's grant, if the budget allows
    | Enqueue(k: nat)        // the `k`-th granted send goes on to the queue
    | CloneSender
    | DropSender

  const MAX_PERMITS := 0xFFFF_FFFF

  function Channel<T>(capacity: nat): Half<T> {
    var cap := Min(capacity, MAX_PERMITS);
    Half(cap, cap, [], [], 1, true, [], [])
  }

  function Without<T>(s: seq<T>, k: nat): seq<T>
    requires k < |s|
  {
    s[..k] + s[k + 1..]
  }

  function Apply<T>(h: Half<T>, op: Op<T>): Half<T> {
    match op
    case Acquire(p) =>
      if h.senders == 0 || p.cost > h.cap || p.cost > h.free then h
      else h.(free := h.free - p.cost, granted := h.granted + [p])
    case Enqueue(k) =>
      if k >= |h.granted| then h
      else if h.live then
        h.(granted := Without(h.granted, k), queue := h.queue + [h.granted[k]], sent := h.sent + [h.granted[k].item])
      else h.(granted := Without(h.granted, k), free := h.free + h.granted[k].cost)
    case CloneSender => if h.senders == 0 then h else h.(senders := h.senders + 1)
    case DropSender => if h.senders > 1 || (h.senders == 1 && h.granted == []) then h.(senders := h.senders - 1) else h
  }

  /** The receiver takes the head of the queue and its budget is free again. */
  function Pop<T>(h: Half<T>): Half<T>
    requires h.queue != []
  {
    h.(queue := h.queue[1..], free := h.free + h.queue[0].cost, got := h.got + [h.queue[0].item])
  }

  function Cost<T>(ps: seq<Packet<T>>): nat {
    if ps == [] then 0 else ps[0].cost + Cost(ps[1..])
  }

  function Items<T>(ps: seq<Packet<T>>): (r: seq<T>)
    ensures |r| == |ps|
  {
    seq(|ps|, i requires 0 <= i < |ps| => ps[i].item)
  }

  /** The receiver goes away with whatever is queued. */
  function Abandon<T>(h: Half<T>): Half<T> {
    h.(live := false, queue := [], free := h.free + Cost(h.queue))
  }

  lemma {:induction false} CostAppend<T>(a: seq<Packet<T>>, b: seq<Packet<T>>)
    ensures Cost(a + b) == Cost(a) + Cost(b)
  {
    if a == [] {
      assert a + b == b;
    } else {
      assert (a + b)[1..] == a[1..] + b;
      CostAppend(a[1..], b);
    }
  }

  lemma CostWithout<T>(s: seq<Packet<T>>, k: nat)
    requires k < |s|
    ensures Cost(s) == Cost(Without(s, k)) + s[k].cost
  {
    CostAppend(s[..k], s[k..]);
    assert s[..k] + s[k..] == s;
    CostAppend(s[..k], s[k + 1..]);
    assert s[k..][1..] == s[k + 1..];
  }

  /** The budget is conserved; what was received, then what is queued, is what was enqueued,
      in order; a send in flight keeps its half open. */
  predicate HalfInv<T(==)>(h: Half<T>) {
    && h.free + Cost(h.granted) + Cost(h.queue) == h.cap
    && (if h.live then h.sent == h.got + Items(h.queue) else h.queue == [] && h.got <= h.sent)
    && (h.senders == 0 ==> h.granted == [])
  }

  lemma ChannelInv<T>(capacity: nat)
    ensures HalfInv(Channel<T>(capacity))
  {
  }

  lemma ApplyInv<T>(h: Half<T>, op: Op<T>)
    requires HalfInv(h)
    ensures HalfInv(Apply(h, op))
  {
    if op.Acquire? {
      CostAppend(h.granted, [op.p]);
    } else if op.Enqueue? && op.k < |h.granted| {
      CostWithout(h.granted, op.k);
      CostAppend(h.queue, [h.granted[op.k]]);
      assert Items(h.queue + [h.granted[op.k]]) == Items(h.queue) + [h.granted[op.k].item];
    }
  }

  lemma AbandonInv<T>(h: Half<T>)
    requires HalfInv(h)
    ensures HalfInv(Abandon(h))
  {
  }

  /** What a sender's step does: a grant costs what the message costs and is given exactly when
      that much is free; the message then goes last into the queue, or is dropped and the cost
      given back if nobody receives; a sender with a send under way is not dropped. */
  lemma SenderSteps<T>(h: Half<T>, p: Packet<T>, k: nat)
    ensures var g := Apply(h, Acquire(p));
            if h.senders > 0 && p.cost <= h.cap && p.cost <= h.free
            then g == h.(free := h.free - p.cost, granted := h.granted + [p]) else g == h
    ensures k < |h.granted| ==>
              var g, p := Apply(h, Enqueue(k)), h.granted[k];
              && g.granted == h.granted[..k] + h.granted[k + 1..] && g.senders == h.senders
              && (h.live ==> g.queue == h.queue + [p] && g.free == h.free && g.sent == h.sent + [p.item])
              && (!h.live ==> g.queue == h.queue && g.free == h.free + p.cost && g.sent == h.sent)
    ensures h.senders > 0 ==> Apply(h, CloneSender) == h.(senders := h.senders + 1)
    ensures h.senders > 1 || (h.senders == 1 && h.granted == []) ==>
              Apply(h, DropSender) == h.(senders := h.senders - 1)
  {
  }

  /** A new channel has all of its capacity free, up to 2^32 - 1, and one sender. */
  lemma NewChannel<T>(capacity: nat)
    ensures var h := Channel<T>(capacity);
            && h.cap == h.free == (if capacity < 0x1_0000_0000 then capacity else 0xFFFF_FFFF)
            && h.senders == 1 && h.live && h.granted == [] && h.queue == [] && h.sent == [] && h.got == []
  {
  }

  // ---- the priority receiver ----------------------------------------------------------------

  /** What one call of `recv` returns: a message from either half, or the end. */
  datatype Out<T> = FromHi(item: T) | FromLo(item: T) | Ended

  /** Both halves, the receiver's flags, whether its next poll is of the low half, and
      everything it has returned. */
  datatype Prio<T> = Prio(hi: Half<T>, lo: Half<T>, hiClosed: bool, loClosed: bool, atLo: bool, outs: seq<Out<T>>)

  datatype Action<T> = Hi(op: Op<T>) | Lo(op: Op<T>) | Poll | DropReceiver

  function Start<T>(capHi: nat, capLo: nat): Prio<T> {
    Prio(Channel(capHi), Channel(capLo), false, false, false, [])
  }

  /** One poll of one half. Senders may run between any two polls. */
  function PollStep<T>(s: Prio<T>): Prio<T> {
    if !s.atLo then
      if s.hiClosed && s.loClosed then s.(outs := s.outs + [Ended])
      else if s.hiClosed then s.(atLo := true)
      else if s.hi.queue != [] then s.(hi := Pop(s.hi), outs := s.outs + [FromHi(s.hi.queue[0].item)])
      else if s.hi.senders == 0 then s.(hiClosed := true)
      else s.(atLo := true)
    else if s.loClosed then s.(atLo := false)
    else if s.lo.queue != [] then s.(lo := Pop(s.lo), atLo := false, outs := s.outs + [FromLo(s.lo.queue[0].item)])
    else if s.lo.senders == 0 then s.(loClosed := true, atLo := false)
    else s.(atLo := false)
  }

  function Step<T>(s: Prio<T>, a: Action<T>): Prio<T> {
    match a
    case Hi(op) => s.(hi := Apply(s.hi, op))
    case Lo(op) => s.(lo := Apply(s.lo, op))
    case Poll => if s.hi.live && s.lo.live then PollStep(s) else s
    case DropReceiver => s.(hi := Abandon(s.hi), lo := Abandon(s.lo))
  }

  function Run<T>(capHi: nat, capLo: nat, actions: seq<Action<T>>): Prio<T> {
    if actions == [] then Start(capHi, capLo)
    else Step(Run(capHi, capLo, actions[..|actions| - 1]), actions[|actions| - 1])
  }

  function HiItems<T>(outs: seq<Out<T>>): seq<T> {
    if outs == [] then []
    else HiItems(outs[..|outs| - 1]) + if outs[|outs| - 1].FromHi? then [outs[|outs| - 1].item] else []
  }

  function LoItems<T>(outs: seq<Out<T>>): seq<T> {
    if outs == [] then []
    else LoItems(outs[..|outs| - 1]) + if outs[|outs| - 1].FromLo? then [outs[|outs| - 1].item] else []
  }

  /** A half marked closed has no sender, no send in flight and nothing queued. */
  predicate Finished<T>(h: Half<T>) {
    Closed(h) && h.granted == []
  }

  predicate Closed<T>(h: Half<T>) {
    h.senders == 0 && h.queue == []
  }

  predicate EndIsLast<T>(outs: seq<Out<T>>) {
    forall i, j :: 0 <= i < j < |outs| && outs[i].Ended? ==> outs[j].Ended?
  }

  predicate Inv<T(==)>(s: Prio<T>) {
    && HalfInv(s.hi) && HalfInv(s.lo) && s.hi.live == s.lo.live
    && s.hi.got == HiItems(s.outs) && s.lo.got == LoItems(s.outs)
    && (s.hiClosed ==> Finished(s.hi)) && (s.loClosed ==> Finished(s.lo))
    && (s.outs != [] && s.outs[|s.outs| - 1].Ended? ==> s.hiClosed && s.loClosed && !s.atLo)
    && EndIsLast(s.outs)
  }

  lemma ApplyFinished<T>(h: Half<T>, op: Op<T>)
    ensures Finished(h) ==> Apply(h, op) == h
    ensures Apply(h, op).got == h.got && Apply(h, op).live == h.live && Apply(h, op).cap == h.cap
    ensures h.sent <= Apply(h, op).sent
  {
  }

  lemma TakeHiInv<T>(s: Prio<T>)
    requires Inv(s) && s.hi.live && !s.hiClosed && s.hi.queue != []
    ensures Inv(s.(hi := Pop(s.hi), outs := s.outs + [FromHi(s.hi.queue[0].item)]))
  {
  }

  lemma TakeLoInv<T>(s: Prio<T>)
    requires Inv(s) && s.lo.live && !s.loClosed && s.lo.queue != []
    ensures Inv(s.(lo := Pop(s.lo), atLo := false, outs := s.outs + [FromLo(s.lo.queue[0].item)]))
  {
  }

  lemma EndInv<T>(s: Prio<T>)
    requires Inv(s) && s.hiClosed && s.loClosed && !s.atLo
    ensures Inv(s.(outs := s.outs + [Ended]))
  {
  }

  lemma PollInv<T>(s: Prio<T>)
    requires Inv(s) && s.hi.live
    ensures Inv(PollStep(s))
  {
    NoGrants(s.hi);
    NoGrants(s.lo);
    hide HalfInv, EndIsLast, Pop;
    if !s.atLo && s.hiClosed && s.loClosed {
      EndInv(s);
    } else if !s.atLo && !s.hiClosed && s.hi.queue != [] {
      TakeHiInv(s);
    } else if s.atLo && !s.loClosed && s.lo.queue != [] {
      TakeLoInv(s);
    }
  }

  lemma NoGrants<T>(h: Half<T>)
    requires HalfInv(h)
    ensures h.senders == 0 ==> h.granted == []
  {
  }

  lemma StepInv<T>(s: Prio<T>, a: Action<T>)
    requires Inv(s)
    ensures Inv(Step(s, a))
  {
    hide HalfInv, EndIsLast, PollStep;
    match a
    case Hi(op) =>
      ApplyInv(s.hi, op);
      ApplyFinished(s.hi, op);
    case Lo(op) =>
      ApplyInv(s.lo, op);
      ApplyFinished(s.lo, op);
    case Poll =>
      if s.hi.live && s.lo.live {
        PollInv(s);
      }
    case DropReceiver =>
      AbandonInv(s.hi);
      AbandonInv(s.lo);
  }

  lemma {:induction false} RunInv<T>(capHi: nat, capLo: nat, actions: seq<Action<T>>)
    ensures Inv(Run(capHi, capLo, actions))
  {
    hide Step, HalfInv;
    if actions == [] {
      ChannelInv<T>(capHi);
      ChannelInv<T>(capLo);
    } else {
      var n := |actions| - 1;
      RunInv(capHi, capLo, actions[..n]);
      StepInv(Run(capHi, capLo, actions[..n]), actions[n]);
    }
  }

  /** For every interleaving of sends, polls and drops: in each half, free budget plus granted
      and queued costs is the capacity; and what the receiver returned from it is exactly the
      first messages enqueued, in order, with only the queued ones missing while it lives. */
  lemma ConservedAndInOrder<T>(capHi: nat, capLo: nat, actions: seq<Action<T>>)
    ensures var s := Run(capHi, capLo, actions);
            && s.hi.free + Cost(s.hi.granted) + Cost(s.hi.queue) == s.hi.cap == Min(capHi, MAX_PERMITS)
            && s.lo.free + Cost(s.lo.granted) + Cost(s.lo.queue) == s.lo.cap == Min(capLo, MAX_PERMITS)
            && HiItems(s.outs) <= s.hi.sent && LoItems(s.outs) <= s.lo.sent
            && (s.hi.live ==> s.hi.sent == HiItems(s.outs) + Items(s.hi.queue))
            && (s.lo.live ==> s.lo.sent == LoItems(s.outs) + Items(s.lo.queue))
  {
    hide Run, EndIsLast;
    RunInv(capHi, capLo, actions);
    CapsKept(capHi, capLo, actions);
  }

  lemma {:induction false} CapsKept<T>(capHi: nat, capLo: nat, actions: seq<Action<T>>)
    ensures var s := Run(capHi, capLo, actions);
            s.hi.cap == Min(capHi, MAX_PERMITS) && s.lo.cap == Min(capLo, MAX_PERMITS)
  {
    hide Apply;
    if actions != [] {
      var n := |actions| - 1;
      CapsKept(capHi, capLo, actions[..n]);
      var s := Run(capHi, capLo, actions[..n]);
      if actions[n].Hi? {
        ApplyFinished(s.hi, actions[n].op);
      } else if actions[n].Lo? {
        ApplyFinished(s.lo, actions[n].op);
      }
    }
  }

  /** `None` is returned only when both halves have no sender left and everything ever
      enqueued has been received; nothing but `None` is returned after it. */
  lemma NoneOnlyWhenDone<T>(capHi: nat, capLo: nat, actions: seq<Action<T>>, i: nat)
    requires var s := Run(capHi, capLo, actions); i < |s.outs| && s.outs[i].Ended?
    ensures var s := Run(capHi, capLo, actions);
            && Finished(s.hi) && Finished(s.lo)
            && (s.hi.live ==> s.hi.sent == HiItems(s.outs) && s.lo.sent == LoItems(s.outs))
            && forall j :: i <= j < |s.outs| ==> s.outs[j].Ended?
  {
    hide Run;
    RunInv(capHi, capLo, actions);
  }

  /** Once both halves are finished, three polls at most mark them closed and the next one
      returns `None`. */
  lemma DoneLeadsToNone<T>(s: Prio<T>)
    requires Finished(s.hi) && Finished(s.lo)
    ensures var t := PollStep(PollStep(PollStep(PollStep(PollStep(s)))));
            t.outs != [] && t.outs[|t.outs| - 1].Ended?
  {
  }

  /** The last poll before the receiver came to poll the low half. */
  lemma {:induction false} LastHiPoll<T>(capHi: nat, capLo: nat, actions: seq<Action<T>>) returns (m: nat)
    requires var s := Run(capHi, capLo, actions); s.atLo && s.hi.live
    ensures m < |actions| && actions[m].Poll?
    ensures var s := Run(capHi, capLo, actions[..m]); !s.atLo && s.hi.queue == []
    ensures forall k :: m < k < |actions| ==> !actions[k].Poll?
    decreases |actions|
  {
    hide Inv, Step;
    var n := |actions| - 1;
    RunInv(capHi, capLo, actions[..n]);
    ReachesLo(Run(capHi, capLo, actions[..n]), actions[n]);
    if actions[n].Poll? {
      m := n;
    } else {
      m := LastHiPoll(capHi, capLo, actions[..n]);
      assert actions[..n][..m] == actions[..m];
      forall k | m < k < |actions|
        ensures !actions[k].Poll?
      {
        assert k < n ==> actions[..n][k] == actions[k];
      }
    }
  }

  lemma ReachesLo<T>(s: Prio<T>, a: Action<T>)
    requires Inv(s) && Step(s, a).atLo && Step(s, a).hi.live
    ensures s.hi.live && if a.Poll? then !s.atLo && s.hi.queue == [] else s.atLo
  {
  }

  /** A low message is returned only if the poll just before, whatever the senders did in
      between, was of the high half and found nothing there. */
  lemma LoOnlyAfterHiEmpty<T>(capHi: nat, capLo: nat, actions: seq<Action<T>>) returns (m: nat)
    requires var s := Run(capHi, capLo, actions);
             var t := Step(s, Poll);
             |t.outs| > |s.outs| && t.outs[|s.outs|].FromLo?
    ensures m < |actions| && actions[m].Poll?
    ensures var s := Run(capHi, capLo, actions[..m]); !s.atLo && s.hi.queue == []
    ensures forall k :: m < k < |actions| ==> !actions[k].Poll?
  {
    hide Run;
    m := LastHiPoll(capHi, capLo, actions);
  }

  // ---- one call of `recv` ---------------------------------------------------------------------

  /** What senders do between two polls. */
  predicate SendersOnly<T>(turn: seq<Action<T>>) {
    forall i :: 0 <= i < |turn| ==> turn[i].Hi? || turn[i].Lo?
  }

  function AfterTurn<T>(s: Prio<T>, turn: seq<Action<T>>): (r: Prio<T>)
    requires SendersOnly(turn)
    ensures r.outs == s.outs && r.atLo == s.atLo && r.hiClosed == s.hiClosed && r.loClosed == s.loClosed
    ensures r.hi.live == s.hi.live && r.lo.live == s.lo.live
  {
    if turn == [] then s
    else
      var n := |turn| - 1;
      var before := AfterTurn(s, turn[..n]);
      ApplyKeepsLive(before.hi, turn[n].op);
      ApplyKeepsLive(before.lo, turn[n].op);
      Step(before, turn[n])
  }

  lemma ApplyKeepsLive<T>(h: Half<T>, op: Op<T>)
    ensures Apply(h, op).live == h.live
  {
  }

  predicate AllSendersOnly<T>(turns: seq<seq<Action<T>>>) {
    forall i :: 0 <= i < |turns| ==> SendersOnly(turns[i])
  }

  /** The state at the next poll: the next turn has passed, if there is one. */
  function AtPoll<T>(s: Prio<T>, turns: seq<seq<Action<T>>>): (r: Prio<T>)
    requires AllSendersOnly(turns)
    ensures r.outs == s.outs && r.atLo == s.atLo && r.hiClosed == s.hiClosed && r.loClosed == s.loClosed
  {
    if turns == [] then s else AfterTurn(s, turns[0])
  }

  function Later<T>(turns: seq<seq<Action<T>>>): seq<seq<Action<T>>> {
    if turns == [] then [] else turns[1..]
  }

  /** A poll of the low half after which the receiver has to wait. */
  predicate Waits<T>(s: Prio<T>) {
    s.atLo && (s.loClosed || (s.lo.queue == [] && s.lo.senders > 0))
  }

  function OpenHalves<T>(s: Prio<T>): nat {
    (if s.hiClosed then 0 else 1) + (if s.loClosed then 0 else 1)
  }

  /** Polls, with the senders' turns between them, until something is returned or the receiver
      has to wait. */
  function RecvUnder<T>(s: Prio<T>, turns: seq<seq<Action<T>>>): Prio<T>
    requires AllSendersOnly(turns)
    decreases OpenHalves(s), if s.atLo then 0 else 1
  {
    var e := AtPoll(s, turns);
    var t := PollStep(e);
    if |t.outs| > |e.outs| || Waits(e) then t else RecvUnder(t, Later(turns))
  }

  /** The run that a turn, or a call, is. */
  lemma {:induction false} TurnIsRun<T>(capHi: nat, capLo: nat, actions: seq<Action<T>>, turn: seq<Action<T>>)
    requires SendersOnly(turn)
    ensures Run(capHi, capLo, actions + turn) == AfterTurn(Run(capHi, capLo, actions), turn)
  {
    hide Step;
    if turn == [] {
      assert actions + turn == actions;
    } else {
      var n := |turn| - 1;
      TurnIsRun(capHi, capLo, actions, turn[..n]);
      assert (actions + turn)[..|actions| + n] == actions + turn[..n];
    }
  }

  lemma PollIsRun<T>(capHi: nat, capLo: nat, actions: seq<Action<T>>)
    requires var s := Run(capHi, capLo, actions); s.hi.live && s.lo.live
    ensures Run(capHi, capLo, actions + [Poll]) == PollStep(Run(capHi, capLo, actions))
  {
    hide PollStep;
    assert (actions + [Poll])[..|actions|] == actions;
  }

  /** A call of `recv`, whatever the senders do between its polls, is part of a run; so every
      theorem about runs is one about calls. */
  lemma {:induction false} RecvIsRun<T>(capHi: nat, capLo: nat, actions: seq<Action<T>>, turns: seq<seq<Action<T>>>)
    returns (more: seq<Action<T>>)
    requires AllSendersOnly(turns)
    requires var s := Run(capHi, capLo, actions); s.hi.live && s.lo.live
    ensures Run(capHi, capLo, actions + more) == RecvUnder(Run(capHi, capLo, actions), turns)
    decreases OpenHalves(Run(capHi, capLo, actions)), if Run(capHi, capLo, actions).atLo then 0 else 1
  {
    hide Run, PollStep, AfterTurn;
    var turn := if turns == [] then [] else turns[0];
    TurnIsRun(capHi, capLo, actions, turn);
    NoTurn(Run(capHi, capLo, actions));
    PollIsRun(capHi, capLo, actions + turn);
    more := turn + [Poll];
    assert actions + more == actions + turn + [Poll];
    var e, t := Run(capHi, capLo, actions + turn), Run(capHi, capLo, actions + more);
    if |t.outs| <= |e.outs| && !Waits(e) {
      PollDescends(e);
      var rest := RecvIsRun(capHi, capLo, actions + more, Later(turns));
      assert actions + more + rest == actions + (more + rest);
      more := more + rest;
    }
  }

  lemma NoTurn<T>(s: Prio<T>)
    ensures AfterTurn(s, []) == s
  {
  }

  lemma PollDescends<T>(e: Prio<T>)
    requires |PollStep(e).outs| <= |e.outs| && !Waits(e)
    ensures var t := PollStep(e);
            && t.hi.live == e.hi.live && t.lo.live == e.lo.live
            && (e.hiClosed ==> t.hiClosed) && (e.loClosed ==> t.loClosed)
            && (t.hiClosed == e.hiClosed && t.loClosed == e.loClosed ==> !e.atLo && t.atLo)
  {
  }

  /** What a call returns when no sender runs meanwhile: the oldest high message; failing
      that, the oldest low one; failing that, the end if no sender is left; else it waits. */
  lemma {:induction false} RecvMeans<T>(s: Prio<T>)
    requires !s.atLo && (s.hiClosed ==> Closed(s.hi)) && (s.loClosed ==> Closed(s.lo))
    ensures RecvUnder(s, []).outs ==
            if s.hi.queue != [] then s.outs + [FromHi(s.hi.queue[0].item)]
            else if s.lo.queue != [] then s.outs + [FromLo(s.lo.queue[0].item)]
            else if s.hi.senders == 0 && s.lo.senders == 0 then s.outs + [Ended]
            else s.outs
    ensures !RecvUnder(s, []).atLo
    decreases OpenHalves(s)
  {
    var t := PollStep(s);
    if t.atLo {
      var u := PollStep(t);
      if !s.loClosed && s.lo.queue == [] && s.lo.senders == 0 {
        RecvMeans(u);
      }
    } else if !s.hiClosed && s.hi.queue == [] {
      RecvMeans(t);
    }
  }

  datatype Polled<T> = Ready(message: Option<T>) | Pending
  datatype SendResult<T> = Sent | Refused(item: T) | Blocked

  class BoundedChannel<T> {
    const cap: nat
    var free: nat
    var granted: seq<Packet<T>>
    var queue: seq<Packet<T>>
    var senders: nat
    var live: bool
    ghost var sent: seq<T>
    ghost var got: seq<T>

    ghost function Model(): Half<T>
      reads this
    {
      Half(cap, free, granted, queue, senders, live, sent, got)
    }

    constructor (capacity: nat)
      ensures Model() == Channel(capacity)
    {
      cap := Min(capacity, MAX_PERMITS);
      free := Min(capacity, MAX_PERMITS);
      granted, queue, senders, live := [], [], 1, true;
      sent, got := [], [];
    }

    /** The first half of `send`: refuse, wait for, or take the budget. */
    method AcquireFor(p: Packet<T>) returns (r: SendResult<T>)
      modifies this`free, this`granted
      ensures Model() == Apply(old(Model()), Acquire(p))
      ensures senders > 0 ==> (r.Refused? <==> p.cost > cap) && (r.Blocked? <==> old(free) < p.cost <= cap)
      ensures r.Refused? ==> r.item == p.item
      ensures granted == old(granted) + (if r.Sent? then [p] else [])
      ensures free == old(free) - if r.Sent? then p.cost else 0
    {
      if p.cost > cap {
        return Refused(p.item);
      }
      if senders == 0 || p.cost > free {
        return Blocked;
      }
      free := free - p.cost;
      granted := granted + [p];
      return Sent;
    }

    /** The second half: hand the message over, or give the budget back if nobody receives. */
    method EnqueueGranted(k: nat) returns (r: SendResult<T>)
      requires k < |granted|
      modifies this`free, this`granted, this`queue, this`sent
      ensures Model() == Apply(old(Model()), Enqueue(k))
      ensures r == if live then Sent else Refused(old(granted)[k].item)
      ensures granted == old(granted)[..k] + old(granted)[k + 1..]
      ensures queue == old(queue) + (if live then [old(granted)[k]] else [])
      ensures free == old(free) + if live then 0 else old(granted)[k].cost
    {
      var p := granted[k];
      granted := granted[..k] + granted[k + 1..];
      if live {
        queue := queue + [p];
        sent := sent + [p.item];
        return Sent;
      }
      free := free + p.cost;
      return Refused(p.item);
    }

    /** `send`, with no other step between its halves. */
    method Send(item: T, cost: nat) returns (r: SendResult<T>)
      requires senders > 0
      modifies this`free, this`granted, this`queue, this`sent
      ensures var h := Apply(old(Model()), Acquire(Packet(item, cost)));
              Model() == if cost <= cap && cost <= old(free) then Apply(h, Enqueue(|old(granted)|)) else h
      ensures r.Refused? <==> cost > cap || (cost <= old(free) && !live)
      ensures r.Blocked? <==> old(free) < cost <= cap
      ensures queue == old(queue) + (if r.Sent? then [Packet(item, cost)] else []) && granted == old(granted)
      ensures free == old(free) - if r.Sent? then cost else 0
      ensures r.Refused? ==> r.item == item
    {
      hide Apply;
      r := AcquireFor(Packet(item, cost));
      if r.Sent? {
        r := EnqueueGranted(|granted| - 1);
      }
    }

    /** Whatever a sender does. */
    method Do(op: Op<T>)
      modifies this
      ensures Model() == Apply(old(Model()), op)
    {
      match op
      case Acquire(p) =>
        var _ := AcquireFor(p);
      case Enqueue(k) =>
        if k < |granted| {
          var _ := EnqueueGranted(k);
        }
      case CloneSender =>
        if senders > 0 {
          senders := senders + 1;
        }
      case DropSender =>
        if senders > 1 || (senders == 1 && granted == []) {
          senders := senders - 1;
        }
    }

    method TryRecv() returns (r: Polled<T>)
      modifies this
      ensures Model() == if old(queue) != [] then Pop(old(Model())) else old(Model())
      ensures r == if old(queue) != [] then Ready(Some(old(queue)[0].item))
                   else if senders == 0 then Ready(None) else Pending
      ensures if old(queue) != [] then queue == old(queue)[1..] && free == old(free) + old(queue)[0].cost
              else queue == [] && free == old(free)
    {
      if queue != [] {
        r := Ready(Some(queue[0].item));
        free := free + queue[0].cost;
        got := got + [queue[0].item];
        queue := queue[1..];
      } else if senders == 0 {
        r := Ready(None);
      } else {
        r := Pending;
      }
    }
  }

  /** What a returned message, or the end, adds to what the receiver has returned. */
  function OutOf<T>(r: Polled<T>, lo: bool): seq<Out<T>> {
    match r
    case Pending => []
    case Ready(None) => [Ended]
    case Ready(Some(x)) => [if lo then FromLo(x) else FromHi(x)]
  }

  class Receiver<T> {
    const hi: BoundedChannel<T>
    const lo: BoundedChannel<T>
    var hiClosed: bool
    var loClosed: bool
    ghost var atLo: bool
    ghost var outs: seq<Out<T>>

    ghost function Model(): Prio<T>
      reads this, hi, lo
    {
      Prio(hi.Model(), lo.Model(), hiClosed, loClosed, atLo, outs)
    }

    constructor (capHi: nat, capLo: nat)
      ensures fresh(hi) && fresh(lo) && hi != lo
      ensures Model() == Start(capHi, capLo)
    {
      hi := new BoundedChannel(capHi);
      lo := new BoundedChannel(capLo);
      hiClosed, loClosed, atLo, outs := false, false, false, [];
    }

    /** The senders take their turn. */
    method LetSendersRun(turn: seq<Action<T>>)
      requires hi != lo && SendersOnly(turn)
      modifies hi, lo
      ensures Model() == AfterTurn(old(Model()), turn)
    {
      hide Apply;
      for k := 0 to |turn|
        invariant Model() == AfterTurn(old(Model()), turn[..k])
      {
        assert turn[..k + 1][..k] == turn[..k];
        match turn[k]
        case Hi(op) => hi.Do(op);
        case Lo(op) => lo.Do(op);
      }
      assert turn[..|turn|] == turn;
    }

    /** The turn before a poll, if one is left. */
    method NextTurn(turns: seq<seq<Action<T>>>) returns (later: seq<seq<Action<T>>>)
      requires hi != lo && AllSendersOnly(turns)
      modifies hi, lo
      ensures Model() == AtPoll(old(Model()), turns) && later == Later(turns)
    {
      later := turns;
      if turns != [] {
        LetSendersRun(turns[0]);
        later := turns[1..];
      }
    }

    /** Poll a half; None when the other one has to be polled. */
    method PollHi() returns (r: Option<Polled<T>>)
      requires hi != lo && !atLo && !(hiClosed && loClosed)
      modifies this, hi
      ensures Model() == PollStep(old(Model()))
      ensures r == None ==> atLo && outs == old(outs) && hiClosed == old(hiClosed)
      ensures r.Some? ==> r.value.Ready? && !atLo && !old(hiClosed) && (hiClosed <==> r.value.message.None?)
      ensures r.Some? ==> outs == old(outs) + if r.value.message.Some? then OutOf(r.value, false) else []
      ensures loClosed == old(loClosed)
    {
      if !hiClosed {
        var v := hi.TryRecv();
        if v.Ready? {
          if v.message.Some? {
            outs := outs + [FromHi(v.message.value)];
          } else {
            hiClosed := true;
          }
          return Some(v);
        }
      }
      atLo := true;
      return None;
    }

    method PollLo() returns (r: Polled<T>)
      requires hi != lo && atLo
      modifies this, lo
      ensures Model() == PollStep(old(Model())) && !atLo
      ensures outs == old(outs) + if r.Ready? && r.message.None? then [] else OutOf(r, true)
      ensures r.Pending? <==> Waits(old(Model()))
      ensures hiClosed == old(hiClosed) && (r == Ready(None) ==> !old(loClosed) && loClosed)
    {
      atLo := false;
      if !loClosed {
        var v := lo.TryRecv();
        if v.Ready? {
          if v.message.Some? {
            outs := outs + [FromLo(v.message.value)];
          } else {
            loClosed := true;
          }
        }
        return v;
      }
      return Pending;
    }

    /** `recv`, with whatever the senders do between its polls. */
    method Recv(turns: seq<seq<Action<T>>>) returns (r: Polled<T>)
      requires hi != lo && !atLo && AllSendersOnly(turns)
      modifies this, hi, lo
      ensures Model() == RecvUnder(old(Model()), turns)
      ensures exists fromLo :: outs == old(outs) + OutOf(r, fromLo)
    {
      hide PollStep, AtPoll, Waits;
      var left := turns;
      while true
        invariant AllSendersOnly(left) && !atLo && outs == old(outs)
        invariant RecvUnder(Model(), left) == RecvUnder(old(Model()), turns)
        decreases (if hiClosed then 0 else 1) + (if loClosed then 0 else 1)
      {
        left := NextTurn(left);
        if hiClosed && loClosed {
          EndPoll(Model());
          outs := outs + [Ended];
          assert outs == old(outs) + OutOf<T>(Ready(None), true);
          return Ready(None);
        }
        TopNeverWaits(Model());
        var v := PollHi();
        if v.Some? {
          if v.value.message.Some? {
            assert outs == old(outs) + OutOf(v.value, false);
            return v.value;
          }
          continue;
        }
        left := NextTurn(left);
        r := PollLo();
        if r.Pending? || r.message.Some? {
          assert outs == old(outs) + OutOf(r, true);
          return r;
        }
      }
    }
  }

  lemma EndPoll<T>(s: Prio<T>)
    requires !s.atLo && s.hiClosed && s.loClosed
    ensures PollStep(s) == s.(outs := s.outs + [Ended])
  {
  }

  lemma TopNeverWaits<T>(s: Prio<T>)
    requires !s.atLo
    ensures !Waits(s)
  {
  }
}
