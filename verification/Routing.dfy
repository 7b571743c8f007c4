/** Which half of a link each frame rides, and why what rides one half never arrives out of
    order, while the halves may overtake each other. */
module Routing {
  import opened Prelude
  import opened Prio
  import Frame

  // ---- selections -----------------------------------------------------------------------------

  function Filter<T>(p: T -> bool, s: seq<T>): seq<T> {
    if s == [] then []
    else Filter(p, s[..|s| - 1]) + if p(s[|s| - 1]) then [s[|s| - 1]] else []
  }

  function Both<T>(p: T -> bool, q: T -> bool): T -> bool {
    x => p(x) && q(x)
  }

  function Not<T>(p: T -> bool): T -> bool {
    x => !p(x)
  }

  lemma FilterSnoc<T>(p: T -> bool, s: seq<T>, x: T)
    ensures Filter(p, s + [x]) == Filter(p, s) + if p(x) then [x] else []
  {
    assert (s + [x])[..|s|] == s;
  }

  lemma {:induction false} FilterAppend<T>(p: T -> bool, s: seq<T>, t: seq<T>)
    ensures Filter(p, s + t) == Filter(p, s) + Filter(p, t)
  {
    if t == [] {
      assert s + t == s;
    } else {
      var n := |t| - 1;
      FilterAppend(p, s, t[..n]);
      FilterSnoc(p, s + t[..n], t[n]);
      assert s + t[..n] + [t[n]] == s + t;
    }
  }

  lemma {:induction false} FilterPrefix<T>(p: T -> bool, s: seq<T>, t: seq<T>)
    requires s <= t
    ensures Filter(p, s) <= Filter(p, t)
  {
    FilterAppend(p, s, t[|s|..]);
    assert s + t[|s|..] == t;
  }

  lemma {:induction false} FilterTwice<T>(p: T -> bool, q: T -> bool, s: seq<T>)
    ensures Filter(p, Filter(q, s)) == Filter(Both(p, q), s) == Filter(q, Filter(p, s))
  {
    if s != [] {
      var n := |s| - 1;
      var ps, qs := Filter(p, s[..n]), Filter(q, s[..n]);
      FilterTwice(p, q, s[..n]);
      FilterSnoc(p, qs, s[n]);
      FilterSnoc(q, ps, s[n]);
      assert ps + [] == ps && qs + [] == qs && Filter(Both(p, q), s[..n]) + [] == Filter(Both(p, q), s[..n]);
    }
  }

  lemma {:induction false} FilterAll<T>(p: T -> bool, s: seq<T>)
    requires forall i :: 0 <= i < |s| ==> p(s[i])
    ensures Filter(p, s) == s
  {
    if s != [] {
      FilterAll(p, s[..|s| - 1]);
    }
  }

  lemma {:induction false} FilterNone<T>(p: T -> bool, s: seq<T>)
    requires forall i :: 0 <= i < |s| ==> !p(s[i])
    ensures Filter(p, s) == []
  {
    if s != [] {
      FilterNone(p, s[..|s| - 1]);
    }
  }

  /** Everything a receiver returned, from either half, in order. */
  function Messages<T>(outs: seq<Out<T>>): seq<T> {
    if outs == [] then []
    else Messages(outs[..|outs| - 1]) + if outs[|outs| - 1].Ended? then [] else [outs[|outs| - 1].item]
  }

  // ---- what is sent on each half -----------------------------------------------------------------

  /** Each send on a half is of a message its half allows. */
  predicate Respects<T>(onHi: T -> bool, onLo: T -> bool, actions: seq<Action<T>>) {
    && (forall i :: 0 <= i < |actions| && actions[i].Hi? && actions[i].op.Acquire? ==> onHi(actions[i].op.p.item))
    && (forall i :: 0 <= i < |actions| && actions[i].Lo? && actions[i].op.Acquire? ==> onLo(actions[i].op.p.item))
  }

  /** Each send goes to the half that `toLo` names. */
  predicate Routed<T>(toLo: T -> bool, actions: seq<Action<T>>) {
    Respects(Not(toLo), toLo, actions)
  }

  predicate AllHold<T>(p: T -> bool, h: Half<T>) {
    && (forall i :: 0 <= i < |h.granted| ==> p(h.granted[i].item))
    && (forall i :: 0 <= i < |h.sent| ==> p(h.sent[i]))
  }

  lemma ApplyHolds<T>(p: T -> bool, h: Half<T>, op: Op<T>)
    requires AllHold(p, h) && (op.Acquire? ==> p(op.p.item))
    ensures AllHold(p, Apply(h, op))
  {
  }

  lemma {:induction false} RunHolds<T>(
    onHi: T -> bool, onLo: T -> bool, capHi: nat, capLo: nat, actions: seq<Action<T>>)
    requires Respects(onHi, onLo, actions)
    ensures var s := Run(capHi, capLo, actions); AllHold(onHi, s.hi) && AllHold(onLo, s.lo)
  {
    if actions != [] {
      var n := |actions| - 1;
      var a := actions[n];
      RunHolds(onHi, onLo, capHi, capLo, actions[..n]);
      var s := Run(capHi, capLo, actions[..n]);
      hide Apply, AllHold, Run;
      if a.Hi? {
        ApplyHolds(onHi, s.hi, a.op);
      } else if a.Lo? {
        ApplyHolds(onLo, s.lo, a.op);
      } else {
        PollHolds(onHi, onLo, s, a);
      }
      assert Run(capHi, capLo, actions) == Step(s, a) by {
        LastStep(capHi, capLo, actions);
      }
    }
  }

  lemma LastStep<T>(capHi: nat, capLo: nat, actions: seq<Action<T>>)
    requires actions != []
    ensures Run(capHi, capLo, actions) == Step(Run(capHi, capLo, actions[..|actions| - 1]), actions[|actions| - 1])
  {
  }

  lemma PollHolds<T>(onHi: T -> bool, onLo: T -> bool, s: Prio<T>, a: Action<T>)
    requires AllHold(onHi, s.hi) && AllHold(onLo, s.lo) && (a.Poll? || a.DropReceiver?)
    ensures AllHold(onHi, Step(s, a).hi) && AllHold(onLo, Step(s, a).lo)
  {
  }

  /** Every message returned came over one of the halves. */
  lemma {:induction false} MessagesHold<T>(p: T -> bool, outs: seq<Out<T>>)
    requires forall i :: 0 <= i < |HiItems(outs)| ==> p(HiItems(outs)[i])
    requires forall i :: 0 <= i < |LoItems(outs)| ==> p(LoItems(outs)[i])
    ensures forall i :: 0 <= i < |Messages(outs)| ==> p(Messages(outs)[i])
  {
    if outs != [] {
      var n := |outs| - 1;
      var his, los := HiItems(outs[..n]), LoItems(outs[..n]);
      assert forall i :: 0 <= i < |his| ==> HiItems(outs)[i] == his[i];
      assert forall i :: 0 <= i < |los| ==> LoItems(outs)[i] == los[i];
      MessagesHold(p, outs[..n]);
      if outs[n].FromHi? {
        assert HiItems(outs)[|his|] == outs[n].item;
      } else if outs[n].FromLo? {
        assert LoItems(outs)[|los|] == outs[n].item;
      }
    }
  }

  /** A selection sees the two halves' items and nothing else. */
  lemma {:induction false} OneSided<T>(p: T -> bool, outs: seq<Out<T>>)
    ensures Filter(p, HiItems(outs)) == [] ==> Filter(p, Messages(outs)) == Filter(p, LoItems(outs))
    ensures Filter(p, LoItems(outs)) == [] ==> Filter(p, Messages(outs)) == Filter(p, HiItems(outs))
  {
    if outs != [] {
      var n := |outs| - 1;
      OneSided(p, outs[..n]);
      var ms, hs, ls := Messages(outs[..n]), HiItems(outs[..n]), LoItems(outs[..n]);
      assert ms + [] == ms && hs + [] == hs && ls + [] == ls;
      if !outs[n].Ended? {
        FilterSnoc(p, ms, outs[n].item);
        FilterSnoc(p, hs, outs[n].item);
        FilterSnoc(p, ls, outs[n].item);
      }
    }
  }

  lemma SentOnHalves<T>(toLo: T -> bool, capHi: nat, capLo: nat, actions: seq<Action<T>>)
    requires Routed(toLo, actions)
    ensures var s := Run(capHi, capLo, actions);
            && (forall i :: 0 <= i < |HiItems(s.outs)| ==> !toLo(HiItems(s.outs)[i]))
            && (forall i :: 0 <= i < |LoItems(s.outs)| ==> toLo(LoItems(s.outs)[i]))
  {
    hide Run, HiItems, LoItems;
    RunHolds(Not(toLo), toLo, capHi, capLo, actions);
    ConservedAndInOrder(capHi, capLo, actions);
  }

  /** For every run of a channel whose sends obey a routing: a selection of messages all routed
      to one half is received in exactly the order it was enqueued there, none skipped, and all
      of it once that half has been drained. */
  lemma NeverReordered<T(!new)>(toLo: T -> bool, p: T -> bool, capHi: nat, capLo: nat, actions: seq<Action<T>>)
    requires Routed(toLo, actions)
    ensures var s := Run(capHi, capLo, actions);
            && (forall x: T :: p(x) ==> toLo(x)) ==>
                 && Filter(p, Messages(s.outs)) <= Filter(p, s.lo.sent)
                 && (s.lo.live && s.lo.queue == [] ==> Filter(p, Messages(s.outs)) == Filter(p, s.lo.sent))
    ensures var s := Run(capHi, capLo, actions);
            && (forall x: T :: p(x) ==> !toLo(x)) ==>
                 && Filter(p, Messages(s.outs)) <= Filter(p, s.hi.sent)
                 && (s.hi.live && s.hi.queue == [] ==> Filter(p, Messages(s.outs)) == Filter(p, s.hi.sent))
  {
    hide Run, Routed, HiItems, LoItems, Filter, Messages, Cost, Items;
    var s := Run(capHi, capLo, actions);
    var his, los := HiItems(s.outs), LoItems(s.outs);
    SentOnHalves(toLo, capHi, capLo, actions);
    ConservedAndInOrder(capHi, capLo, actions);
    OneSided(p, s.outs);
    if forall x: T :: p(x) ==> toLo(x) {
      FilterNone(p, his);
      FilterPrefix(p, los, s.lo.sent);
      NothingQueued(los, s.lo);
    }
    if forall x: T :: p(x) ==> !toLo(x) {
      FilterNone(p, los);
      FilterPrefix(p, his, s.hi.sent);
      NothingQueued(his, s.hi);
    }
  }

  lemma NothingQueued<T>(items: seq<T>, h: Half<T>)
    ensures h.queue == [] ==> items + Items(h.queue) == items
  {
  }

  // ---- the order in which messages enter a channel -----------------------------------------------

  function EnteringHalf<T>(h: Half<T>, op: Op<T>): seq<T> {
    if op.Enqueue? && op.k < |h.granted| && h.live then [h.granted[op.k].item] else []
  }

  function Entering<T>(s: Prio<T>, a: Action<T>): seq<T> {
    match a
    case Hi(op) => EnteringHalf(s.hi, op)
    case Lo(op) => EnteringHalf(s.lo, op)
    case _ => []
  }

  /** All messages enqueued in a run, on either half, in order. */
  function Enqueued<T>(capHi: nat, capLo: nat, actions: seq<Action<T>>): seq<T> {
    if actions == [] then []
    else
      var n := |actions| - 1;
      Enqueued(capHi, capLo, actions[..n]) + Entering(Run(capHi, capLo, actions[..n]), actions[n])
  }

  lemma ApplyEnters<T>(h: Half<T>, op: Op<T>)
    ensures Apply(h, op).sent == h.sent + EnteringHalf(h, op)
  {
  }

  lemma StepEnters<T>(toLo: T -> bool, s: Prio<T>, a: Action<T>)
    requires AllHold(Not(toLo), s.hi) && AllHold(toLo, s.lo)
    ensures Step(s, a).hi.sent == s.hi.sent + Filter(Not(toLo), Entering(s, a))
    ensures Step(s, a).lo.sent == s.lo.sent + Filter(toLo, Entering(s, a))
  {
    hide Apply, Filter, PollStep;
    var more := Entering(s, a);
    match a
    case Hi(op) =>
      ApplyEnters(s.hi, op);
      FilterAll(Not(toLo), more);
      FilterNone(toLo, more);
      assert s.lo.sent + [] == s.lo.sent;
    case Lo(op) =>
      ApplyEnters(s.lo, op);
      FilterAll(toLo, more);
      FilterNone(Not(toLo), more);
      assert s.hi.sent + [] == s.hi.sent;
    case Poll =>
      FilterNone(toLo, []);
      FilterNone(Not(toLo), []);
      PollKeepsSent(s);
    case DropReceiver =>
      FilterNone(toLo, []);
      FilterNone(Not(toLo), []);
  }

  lemma PollKeepsSent<T>(s: Prio<T>)
    ensures PollStep(s).hi.sent == s.hi.sent && PollStep(s).lo.sent == s.lo.sent
  {
  }

  /** Each half is enqueued in the common order. */
  lemma {:induction false} EnqueuedHalves<T>(toLo: T -> bool, capHi: nat, capLo: nat, actions: seq<Action<T>>)
    requires Routed(toLo, actions)
    ensures var s, all := Run(capHi, capLo, actions), Enqueued(capHi, capLo, actions);
            Filter(Not(toLo), all) == s.hi.sent && Filter(toLo, all) == s.lo.sent
  {
    hide Step, Entering, AllHold;
    if actions != [] {
      var n := |actions| - 1;
      var before, a := actions[..n], actions[n];
      EnqueuedHalves(toLo, capHi, capLo, before);
      RunHolds(Not(toLo), toLo, capHi, capLo, before);
      var s, was := Run(capHi, capLo, before), Enqueued(capHi, capLo, before);
      FilterAppend(toLo, was, Entering(s, a));
      FilterAppend(Not(toLo), was, Entering(s, a));
      StepEnters(toLo, s, a);
    }
  }

  // ---- the two links ----------------------------------------------------------------------------

  /** `send_frame_to_hub`: downloads ride the low half. */
  predicate AgentToLo(f: Frame.Frame) {
    Frame.TypeOf(f.body) in {Frame.TDownloadBegin, Frame.TDownloadChunk, Frame.TDownloadEnd}
  }

  /** `send_frame` of the hub's agent link: pastes ride the low half. */
  predicate HubToLo(f: Frame.Frame) {
    Frame.TypeOf(f.body) in {Frame.TPasteBegin, Frame.TPasteChunk, Frame.TPasteEnd}
  }

  /** By type byte: 11, 12 and 13 from the agent, and 7, 8 and 9 from the hub. */
  lemma BulkTypes(f: Frame.Frame)
    ensures AgentToLo(f) <==> 11 <= Frame.Encode(f)[4] <= 13
    ensures HubToLo(f) <==> 7 <= Frame.Encode(f)[4] <= 9
  {
    hide Frame.Payload;
  }

  /** The frames of one download. */
  predicate OfDownload(f: Frame.Frame, sid: U32, id: U32) {
    && f.streamId == sid && (f.body.DownloadBegin? || f.body.DownloadChunk? || f.body.DownloadEnd?)
    && f.body.downloadId == id
  }

  /** The frames of one upload. */
  predicate OfPaste(f: Frame.Frame, sid: U32, id: U32) {
    && f.streamId == sid && (f.body.PasteBegin? || f.body.PasteChunk? || f.body.PasteEnd?)
    && f.body.pasteId == id
  }

  /** So a download's begin, chunks and end leave the agent in the order they were queued,
      whatever else the link carries. */
  lemma DownloadsNeverReordered(capHi: nat, capLo: nat, actions: seq<Action<Frame.Frame>>, sid: U32, id: U32)
    requires Routed(AgentToLo, actions)
    ensures var s := Run(capHi, capLo, actions);
            var mine := f => OfDownload(f, sid, id);
            Filter(mine, Messages(s.outs)) <= Filter(mine, s.lo.sent)
  {
    hide Run, Routed, Filter, Messages;
    NeverReordered(AgentToLo, f => OfDownload(f, sid, id), capHi, capLo, actions);
  }

  /** And a paste's begin, chunks and end leave the hub in order. */
  lemma PastesNeverReordered(capHi: nat, capLo: nat, actions: seq<Action<Frame.Frame>>, sid: U32, id: U32)
    requires Routed(HubToLo, actions)
    ensures var s := Run(capHi, capLo, actions);
            var mine := f => OfPaste(f, sid, id);
            Filter(mine, Messages(s.outs)) <= Filter(mine, s.lo.sent)
  {
    hide Run, Routed, Filter, Messages;
    NeverReordered(HubToLo, f => OfPaste(f, sid, id), capHi, capLo, actions);
  }
}
