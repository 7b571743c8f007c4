/** The control lease of a session: which attached stream drives the shared PTY, at what
    geometry, and whose input reaches it. Lock sections are atomic steps. */
module Lease {
  import opened Prelude

  datatype Size = Size(rows: U16, cols: U16)

  /** `SessionInner`, as far as the lease goes. */
  datatype Lease = Lease(controller: Option<U32>, lastSize: Size, attached: map<U32, Size>)

  datatype Op =
    | Attach(sid: U32, size: Size)
    | Detach(sid: U32)
    | Acquire(sid: U32)
    | Release(sid: U32)
    | Take(sid: U32)
    | Resize(sid: U32, size: Size)

  function Apply(l: Lease, op: Op): Lease {
    match op
    case Attach(sid, size) =>
      if l.controller == None then Lease(Some(sid), size, l.attached[sid := size])
      else l.(attached := l.attached[sid := size])
    case Detach(sid) =>
      Lease(if l.controller == Some(sid) then None else l.controller, l.lastSize, l.attached - {sid})
    case Acquire(sid) =>
      if sid !in l.attached || l.controller.Some? then l
      else l.(controller := Some(sid), lastSize := l.attached[sid])
    case Release(sid) => if l.controller == Some(sid) then l.(controller := None) else l
    case Take(sid) =>
      if sid !in l.attached then l else l.(controller := Some(sid), lastSize := l.attached[sid])
    case Resize(sid, size) =>
      l.(attached := l.attached[sid := size], lastSize := if l.controller == Some(sid) then size else l.lastSize)
  }

  /** The controller is attached, and the PTY has its reported geometry. */
  predicate Inv(l: Lease) {
    l.controller.Some? ==> l.controller.value in l.attached && l.lastSize == l.attached[l.controller.value]
  }

  /** The one way to break it: attaching again, at another size, the stream that already
      controls. */
  predicate Reattaches(l: Lease, op: Op) {
    op.Attach? && l.controller == Some(op.sid) && op.size != l.lastSize
  }

  /** A lock section keeps the lease consistent exactly when it is not such an attach. */
  lemma KeepsInvIff(l: Lease, op: Op)
    requires Inv(l)
    ensures Inv(Apply(l, op)) <==> !Reattaches(l, op)
  {
  }

  /** Control leaves a holder exactly by its own release or detach, or by another attached
      stream's take. */
  lemma LosesControlIff(l: Lease, op: Op, holder: U32)
    requires l.controller == Some(holder)
    ensures Apply(l, op).controller != Some(holder) <==>
            op == Release(holder) || op == Detach(holder) || (op.Take? && op.sid != holder && op.sid in l.attached)
  {
  }

  /** Control reaches a stream exactly by its own take or, when nobody controls, its own
      attach or acquire. */
  lemma GainsControlIff(l: Lease, op: Op, sid: U32)
    requires l.controller != Some(sid)
    ensures Apply(l, op).controller == Some(sid) <==>
            || (op == Take(sid) && sid in l.attached)
            || (l.controller == None && op == Acquire(sid) && sid in l.attached)
            || (l.controller == None && op.Attach? && op.sid == sid)
  {
  }

  /** Only a stream's own attach, resize or detach touches its entry among the attached. */
  lemma AttachedChanges(l: Lease, op: Op)
    ensures var was, now := l.attached, Apply(l, op).attached;
            && (op.Attach? || op.Resize? ==> now == was[op.sid := op.size])
            && (op.Detach? ==> now == was - {op.sid})
            && (op.Acquire? || op.Release? || op.Take? ==> now == was)
  {
  }

  /** The PTY's geometry becomes the size last reported by whoever gains control or takes it
      again, or the new size of the stream that has it. Nothing else changes it. */
  lemma SizeChanges(l: Lease, op: Op)
    ensures var l', holder := Apply(l, op), Apply(l, op).controller;
            if holder.Some? && (l.controller != holder || (op == Take(holder.value) && holder.value in l.attached)) then
              holder.value in l'.attached && l'.lastSize == l'.attached[holder.value]
            else if op.Resize? && l.controller == Some(op.sid) then l'.lastSize == op.size
            else l'.lastSize == l.lastSize
  {
  }

  // ---- runs, with input ----------------------------------------------------------------------

  /** A write that passed the lease check at step `at` of the run. */
  datatype Grant = Grant(sid: U32, bytes: seq<Byte>, at: nat)

  /** What the PTY's input queue holds: a stream's input, or bytes the agent itself wrote at
      step `at` (typed paste paths, error lines), which no lease gates. */
  datatype Input = Typed(grant: Grant) | Internal(bytes: seq<Byte>, at: nat)

  /** The bytes of each queued input. */
  function BytesOf(q: seq<Input>): (r: seq<seq<Byte>>) {
    if q == [] then []
    else
      var x := q[|q| - 1];
      BytesOf(q[..|q| - 1]) + [if x.Typed? then x.grant.bytes else x.bytes]
  }

  lemma BytesOfSnoc(q: seq<Input>, x: Input)
    ensures BytesOf(q + [x]) == BytesOf(q) + [if x.Typed? then x.grant.bytes else x.bytes]
  {
    assert (q + [x])[..|q|] == q;
  }

  /** The lease, the writes between their check and their enqueue, and the PTY input queue. */
  datatype World = World(lease: Lease, granted: seq<Grant>, queue: seq<Input>, steps: nat)

  datatype Action =
    | Locked(op: Op)
    | Check(sid: U32, bytes: seq<Byte>)         // `write_input_from` under the lock
    | Enqueue(i: nat, room: bool)               // its `try_send`, after the lock; dropped when full
    | WriteInternal(bytes: seq<Byte>, ok: bool) // `write_internal`; fails when the shell is gone

  function Step(w: World, a: Action): World {
    match a
    case Locked(op) => w.(lease := Apply(w.lease, op), steps := w.steps + 1)
    case Check(sid, bytes) =>
      if w.lease.controller == Some(sid)
      then w.(granted := w.granted + [Grant(sid, bytes, w.steps)], steps := w.steps + 1)
      else w.(steps := w.steps + 1)
    case Enqueue(i, room) =>
      if i < |w.granted| then
        World(w.lease, w.granted[..i] + w.granted[i + 1..],
              if room then w.queue + [Typed(w.granted[i])] else w.queue, w.steps + 1)
      else w.(steps := w.steps + 1)
    case WriteInternal(bytes, ok) =>
      w.(queue := if ok then w.queue + [Internal(bytes, w.steps)] else w.queue, steps := w.steps + 1)
  }

  function Start(size: Size): World {
    World(Lease(None, size, map[]), [], [], 0)
  }

  function Run(size: Size, actions: seq<Action>): (w: World)
    ensures w.steps == |actions|
  {
    if actions == [] then Start(size) else Step(Run(size, actions[..|actions| - 1]), actions[|actions| - 1])
  }

  /** The lease before step `i` of a run. */
  function LeaseAt(size: Size, actions: seq<Action>, i: nat): Lease
    requires i <= |actions|
  {
    Run(size, actions[..i]).lease
  }

  lemma LeaseAtNext(size: Size, actions: seq<Action>, i: nat)
    requires i < |actions|
    ensures LeaseAt(size, actions, i + 1) ==
            if actions[i].Locked? then Apply(LeaseAt(size, actions, i), actions[i].op) else LeaseAt(size, actions, i)
  {
    hide Apply;
    assert actions[..i + 1][..i] == actions[..i];
  }

  /** No step of the run attaches again, at another size, the stream that then controls. */
  ghost predicate NoReattach(size: Size, actions: seq<Action>) {
    forall i :: 0 <= i < |actions| && actions[i].Locked? ==> !Reattaches(LeaseAt(size, actions, i), actions[i].op)
  }

  lemma {:induction false} InvHolds(size: Size, actions: seq<Action>, i: nat)
    requires NoReattach(size, actions) && i <= |actions|
    ensures Inv(LeaseAt(size, actions, i))
  {
    hide Apply, LeaseAt, Inv, Reattaches;
    if i == 0 {
      StartInv(size, actions);
    } else {
      InvHolds(size, actions, i - 1);
      LeaseAtNext(size, actions, i - 1);
      if actions[i - 1].Locked? {
        KeepsInvIff(LeaseAt(size, actions, i - 1), actions[i - 1].op);
      }
    }
  }

  /** Over a run, the controller is always an attached stream and `last_size` always its
      reported geometry, exactly when no step is such an attach. */
  lemma RunInvIff(size: Size, actions: seq<Action>)
    ensures (forall i :: 0 <= i <= |actions| ==> Inv(LeaseAt(size, actions, i))) <==> NoReattach(size, actions)
  {
    hide Apply, LeaseAt, Inv, Reattaches;
    if NoReattach(size, actions) {
      forall i | 0 <= i <= |actions|
        ensures Inv(LeaseAt(size, actions, i))
      {
        InvHolds(size, actions, i);
      }
    }
    if forall i :: 0 <= i <= |actions| ==> Inv(LeaseAt(size, actions, i)) {
      forall i | 0 <= i < |actions| && actions[i].Locked?
        ensures !Reattaches(LeaseAt(size, actions, i), actions[i].op)
      {
        assert Inv(LeaseAt(size, actions, i)) && Inv(LeaseAt(size, actions, i + 1));
        LeaseAtNext(size, actions, i);
        KeepsInvIff(LeaseAt(size, actions, i), actions[i].op);
      }
    }
  }

  /** And it does break: a browser that sends a second open on its socket, with another size,
      makes the agent attach the same stream id again. */
  lemma ReattachBreaksInv(size: Size, sid: U32, a: Size, b: Size)
    requires a != b
    ensures var actions := [Locked(Attach(sid, a)), Locked(Attach(sid, b))];
            var l := LeaseAt(size, actions, 2);
            l.controller == Some(sid) && l.attached == map[sid := b] && l.lastSize == a && !Inv(l)
  {
    hide LeaseAt;
    var actions := [Locked(Attach(sid, a)), Locked(Attach(sid, b))];
    StartLease(size, actions);
    LeaseAtNext(size, actions, 0);
    LeaseAtNext(size, actions, 1);
    assert map[sid := a][sid := b] == map[sid := b];
  }

  lemma StartLease(size: Size, actions: seq<Action>)
    ensures LeaseAt(size, actions, 0) == Lease(None, size, map[])
  {
    assert actions[..0] == [];
  }

  /** In particular it is kept as long as every attach is of a stream not already attached, as
      when each browser sends one open per socket. */
  lemma {:induction false} FreshAttachesKeepInv(size: Size, actions: seq<Action>, i: nat)
    requires i <= |actions|
    requires forall k :: 0 <= k < |actions| && actions[k].Locked? && actions[k].op.Attach? ==>
               actions[k].op.sid !in LeaseAt(size, actions, k).attached
    ensures Inv(LeaseAt(size, actions, i))
    decreases i
  {
    hide Apply, LeaseAt;
    if i == 0 {
      StartInv(size, actions);
    } else {
      FreshAttachesKeepInv(size, actions, i - 1);
      LeaseAtNext(size, actions, i - 1);
      if actions[i - 1].Locked? {
        KeepsInvIff(LeaseAt(size, actions, i - 1), actions[i - 1].op);
      }
    }
  }

  lemma StartInv(size: Size, actions: seq<Action>)
    ensures Inv(LeaseAt(size, actions, 0))
  {
  }

  /** The steps by which a stream reports its size. */
  predicate Reports(a: Action, sid: U32) {
    a.Locked? && (a.op.Attach? || a.op.Resize?) && a.op.sid == sid
  }

  /** The stream's last report before step `i`, with no detach since. */
  predicate LastReport(actions: seq<Action>, i: nat, sid: U32, k: nat)
    requires i <= |actions|
  {
    && k < i && Reports(actions[k], sid)
    && forall j :: k < j < i ==> !Reports(actions[j], sid) && actions[j] != Locked(Detach(sid))
  }

  lemma LastReportNext(actions: seq<Action>, i: nat, sid: U32, k: nat)
    requires i < |actions| && k <= i
    ensures LastReport(actions, i + 1, sid, k) <==>
            if k == i then Reports(actions[i], sid)
            else LastReport(actions, i, sid, k) && !Reports(actions[i], sid) && actions[i] != Locked(Detach(sid))
  {
  }

  /** At any point of a run a stream is attached exactly when it has reported a size since it
      last detached, and with the size it last reported. */
  lemma {:induction false} AttachedIff(size: Size, actions: seq<Action>, i: nat, sid: U32)
    requires i <= |actions|
    ensures sid in LeaseAt(size, actions, i).attached <==> exists k: nat :: LastReport(actions, i, sid, k)
    ensures forall k: nat :: LastReport(actions, i, sid, k) ==>
              && sid in LeaseAt(size, actions, i).attached
              && LeaseAt(size, actions, i).attached[sid] == actions[k].op.size
  {
    hide LeaseAt, Apply;
    if i == 0 {
      StartLease(size, actions);
      assert forall k: nat :: !LastReport(actions, 0, sid, k);
    } else {
      AttachedIff(size, actions, i - 1, sid);
      LeaseAtNext(size, actions, i - 1);
      var before, a := LeaseAt(size, actions, i - 1), actions[i - 1];
      if a.Locked? {
        AttachedChanges(before, a.op);
      }
      forall k | 0 <= k < i
        ensures LastReport(actions, i, sid, k) <==>
                if k == i - 1 then Reports(a, sid)
                else LastReport(actions, i - 1, sid, k) && !Reports(a, sid) && a != Locked(Detach(sid))
      {
        LastReportNext(actions, i - 1, sid, k);
      }
      assert forall k: nat :: LastReport(actions, i, sid, k) || LastReport(actions, i - 1, sid, k) ==> k < i;
      hide LastReport;
      if Reports(a, sid) {
        assert LastReport(actions, i, sid, i - 1);
      } else if sid in before.attached && a != Locked(Detach(sid)) {
        var k: nat :| LastReport(actions, i - 1, sid, k);
        assert LastReport(actions, i, sid, k);
      }
    }
  }

  /** So a stream that has detached, and has reported nothing since, cannot get control. */
  lemma DetachedIsRefused(size: Size, actions: seq<Action>, k: nat, i: nat, sid: U32)
    requires k < i <= |actions| && actions[k] == Locked(Detach(sid))
    requires forall j :: k < j < i ==> !Reports(actions[j], sid)
    ensures Apply(LeaseAt(size, actions, i), Take(sid)) == LeaseAt(size, actions, i)
    ensures Apply(LeaseAt(size, actions, i), Acquire(sid)) == LeaseAt(size, actions, i)
  {
    hide LeaseAt;
    AttachedIff(size, actions, i, sid);
  }

  predicate Ousts(l: Lease, a: Action, holder: U32) {
    a.Locked? &&
    (a.op == Release(holder) || a.op == Detach(holder) || (a.op.Take? && a.op.sid != holder && a.op.sid in l.attached))
  }

  /** Over any run: a stream that held the lease before step `i` and does not before step `j`
      lost it at some step between, by its own release or detach or by another's take. */
  lemma {:induction false} LostOnlyByOuster(size: Size, actions: seq<Action>, i: nat, j: nat, holder: U32)
    returns (k: nat)
    requires i <= j <= |actions|
    requires LeaseAt(size, actions, i).controller == Some(holder)
    requires LeaseAt(size, actions, j).controller != Some(holder)
    ensures i <= k < j && Ousts(LeaseAt(size, actions, k), actions[k], holder)
    ensures LeaseAt(size, actions, k).controller == Some(holder)
    decreases j - i
  {
    hide LeaseAt, Apply;
    LeaseAtNext(size, actions, i);
    if LeaseAt(size, actions, i + 1).controller == Some(holder) {
      k := LostOnlyByOuster(size, actions, i + 1, j, holder);
    } else {
      k := i;
      LosesControlIff(LeaseAt(size, actions, i), actions[i].op, holder);
    }
  }

  /** A grant is backed by a check of the run, made by the stream that then held the lease. */
  predicate Backed(size: Size, actions: seq<Action>, g: Grant) {
    && g.at < |actions| && actions[g.at] == Check(g.sid, g.bytes)
    && LeaseAt(size, actions, g.at).controller == Some(g.sid)
  }

  predicate AllBacked(size: Size, actions: seq<Action>, gs: seq<Grant>) {
    forall i :: 0 <= i < |gs| ==> Backed(size, actions, gs[i])
  }

  /** A queued input is a backed grant, or a write of the agent's own. */
  predicate Justified(size: Size, actions: seq<Action>, x: Input) {
    match x
    case Typed(g) => Backed(size, actions, g)
    case Internal(bytes, at) => at < |actions| && actions[at] == WriteInternal(bytes, true)
  }

  predicate AllJustified(size: Size, actions: seq<Action>, q: seq<Input>) {
    forall i :: 0 <= i < |q| ==> Justified(size, actions, q[i])
  }

  lemma BackedLater(size: Size, actions: seq<Action>, a: Action, g: Grant)
    requires Backed(size, actions, g)
    ensures Backed(size, actions + [a], g)
  {
    hide Run;
    assert (actions + [a])[..g.at] == actions[..g.at];
  }

  lemma AllLater(size: Size, actions: seq<Action>, a: Action, gs: seq<Grant>, q: seq<Input>)
    requires AllBacked(size, actions, gs) && AllJustified(size, actions, q)
    ensures AllBacked(size, actions + [a], gs) && AllJustified(size, actions + [a], q)
  {
    hide Backed;
    forall i | 0 <= i < |gs|
      ensures Backed(size, actions + [a], gs[i])
    {
      BackedLater(size, actions, a, gs[i]);
    }
    forall i | 0 <= i < |q|
      ensures Justified(size, actions + [a], q[i])
    {
      assert Justified(size, actions, q[i]);
      if q[i].Typed? {
        BackedLater(size, actions, a, q[i].grant);
      }
    }
  }

  lemma NewGrantBacked(size: Size, actions: seq<Action>, sid: U32, bytes: seq<Byte>)
    requires Run(size, actions).lease.controller == Some(sid)
    ensures Backed(size, actions + [Check(sid, bytes)], Grant(sid, bytes, |actions|))
  {
    hide Run;
    assert (actions + [Check(sid, bytes)])[..|actions|] == actions;
  }

  /** Over every run, a stream's input is queued to the PTY only if the stream held the lease
      when it was checked (it may have lost it before the enqueue); everything else in the
      queue was written by the agent itself. */
  lemma {:induction false} InputOnlyFromHolder(size: Size, actions: seq<Action>)
    ensures var w := Run(size, actions);
            AllJustified(size, actions, w.queue) && AllBacked(size, actions, w.granted)
  {
    hide Backed, Apply;
    if actions != [] {
      var n := |actions| - 1;
      var before, a := actions[..n], actions[n];
      assert actions == before + [a];
      InputOnlyFromHolder(size, before);
      var w := Run(size, before);
      AllLater(size, before, a, w.granted, w.queue);
      if a.Check? && w.lease.controller == Some(a.sid) {
        NewGrantBacked(size, before, a.sid, a.bytes);
      }
    }
  }
}
