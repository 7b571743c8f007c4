/** The aggregate cap on a paste group. A group's declared total is meant to bound the bytes of
    all its files, but uploads of a cancelled group join a later one with the same id. Here is
    when the total still covers the files, when the cap still holds, and a run that breaks it. */
module PasteCap {
  import opened Prelude
  import opened Paste
  import opened PasteSafety
  import Frame

  /** File `f` is being uploaded for group id `gid`, or is finished in it. */
  ghost predicate Belongs(r: Registry, gid: U32, f: FileId) {
    || (exists id :: id in r.pending && r.pending[id].file == f && r.pending[id].group == gid)
    || (gid in r.groups && f in r.groups[gid].finished)
  }

  function TotalOf(d: Sendings, f: FileId): nat {
    if f in d then d[f].total else 0
  }

  /** The sizes declared for the first `n` files that belong to `gid`. */
  ghost function LoadUpTo(r: Registry, d: Sendings, gid: U32, n: nat): nat {
    if n == 0 then 0
    else LoadUpTo(r, d, gid, n - 1) + if Belongs(r, gid, n - 1) then TotalOf(d, n - 1) else 0
  }

  ghost function Load(r: Registry, d: Sendings, gid: U32): nat {
    LoadUpTo(r, d, gid, r.next)
  }

  /** Every group's declared total covers its files. */
  ghost predicate Covered(r: Registry, d: Sendings) {
    forall gid :: gid in r.groups ==> Load(r, d, gid) <= r.groups[gid].declared
  }

  /** A begin that creates a group under an id that pending uploads still carry. */
  ghost predicate Reuses(r: Registry, d: Sendings, a: Action) {
    Admits(r, a) && a.gid !in r.groups && Load(r, d, a.gid) > 0
  }

  lemma {:induction false} LoadMono(r: Registry, d: Sendings, r': Registry, d': Sendings, gid: U32, n: nat)
    requires forall f: FileId :: f < n && Belongs(r', gid, f) ==> Belongs(r, gid, f)
    requires forall f: FileId :: f < n ==> TotalOf(d', f) == TotalOf(d, f)
    ensures LoadUpTo(r', d', gid, n) <= LoadUpTo(r, d, gid, n)
    decreases n
  {
    hide Belongs, TotalOf;
    if n > 0 {
      LoadMono(r, d, r', d', gid, n - 1);
    }
  }

  /** From `r` to `r'` no file is opened, no group is created or declares anything else, and
      none gains a member. */
  ghost predicate Shrinks(r: Registry, r': Registry) {
    && r'.next == r.next
    && (forall gid :: gid in r'.groups ==> gid in r.groups && r'.groups[gid].declared == r.groups[gid].declared)
    && (forall gid: U32, f: FileId :: gid in r'.groups && Belongs(r', gid, f) ==> Belongs(r, gid, f))
  }

  /** Forgetting uploads and groups. */
  lemma SubShrinks(r: Registry, r': Registry)
    requires r'.next == r.next
    requires forall id :: id in r'.pending ==> id in r.pending && r'.pending[id] == r.pending[id]
    requires forall gid :: gid in r'.groups ==> gid in r.groups && r'.groups[gid] == r.groups[gid]
    ensures Shrinks(r, r')
  {
  }

  lemma StageShrinks(r: Registry, id: U32)
    requires id in r.pending && r.pending[id].group in r.groups
    ensures Shrinks(r, Stage(r, id))
  {
    var p, r' := r.pending[id], Stage(r, id);
    assert Belongs(r, p.group, p.file);
    forall gid: U32, f: FileId | gid in r'.groups && Belongs(r', gid, f)
      ensures Belongs(r, gid, f)
    {
      if f in r'.groups[gid].finished && f !in r.groups[gid].finished {
        assert gid == p.group && f == p.file;
      }
    }
  }

  lemma ShrinksTwice(r: Registry, s: Registry, t: Registry)
    requires Shrinks(r, s) && Shrinks(s, t)
    ensures Shrinks(r, t)
  {
    hide Belongs;
  }

  lemma CommittedShrinks(r: Registry, id: U32, controls: bool)
    requires id in r.pending
    ensures Shrinks(r, Committed(r, id, controls))
  {
    hide Shrinks;
    var r' := Committed(r, id, controls);
    if r.pending[id].group in r.groups {
      StageShrinks(r, id);
      SubShrinks(Stage(r, id), r');
      ShrinksTwice(r, Stage(r, id), r');
    } else {
      SubShrinks(r, r');
    }
  }

  lemma EndShrinks(r: Registry, id: U32, status: Byte, controls: bool, flush: Flush)
    ensures Shrinks(r, OnEnd(r, id, status, controls, flush))
  {
    hide Shrinks, Committed;
    var r' := OnEnd(r, id, status, controls, flush);
    if id in r.pending && status != Frame.PASTE_STATUS_CANCEL && r.pending[id].written == r.pending[id].total {
      var s := Committed(r, id, controls);
      CommittedShrinks(r, id, controls);
      SubShrinks(s, r');
      ShrinksTwice(r, s, r');
    } else {
      SubShrinks(r, r');
    }
  }

  lemma ChunkShrinks(r: Registry, id: U32, bytes: seq<Byte>, writes: bool)
    ensures Shrinks(r, OnChunk(r, id, bytes, writes))
  {
  }

  /** Chunks, ends, teardown and rejected begins. */
  lemma StepShrinks(r: Registry, a: Action)
    requires !Admits(r, a)
    ensures Shrinks(r, Step(r, a))
  {
    hide Shrinks, OnEnd, OnChunk;
    match a
    case Begin(_, _, _, _, _, _) => SubShrinks(r, Step(r, a));
    case Chunk(id, bytes, writes) => ChunkShrinks(r, id, bytes, writes);
    case End(id, status, controls, flush) => EndShrinks(r, id, status, controls, flush);
    case Teardown => SubShrinks(r, Step(r, a));
  }

  /** No group of the registry claims more than the cap. */
  ghost predicate Laden(r: Registry, d: Sendings) {
    forall gid :: gid in r.groups ==> Load(r, d, gid) <= Frame.MAX_PASTE_TOTAL_BYTES
  }

  /** A begin that is let through although, with it, its group id's uploads and files come to
      more than the cap. */
  ghost predicate Overloads(r: Registry, d: Sendings, a: Action) {
    Admits(r, a) && Load(r, d, a.gid) + (if a.opens then a.total else 0) > Frame.MAX_PASTE_TOTAL_BYTES
  }

  ghost predicate Known(r: Registry, d: Sendings) {
    forall f: FileId :: f in d <==> f < r.next
  }

  /** What arrives never changes a size already declared. */
  lemma TotalsKept(r: Registry, d: Sendings, a: Action)
    requires Known(r, d)
    ensures forall f: FileId :: f < r.next ==> TotalOf(Arrived(r, d, a), f) == TotalOf(d, f)
  {
  }

  lemma ShrinkLoad(r: Registry, d: Sendings, a: Action, gid: U32)
    requires Known(r, d) && Shrinks(r, Step(r, a)) && gid in Step(r, a).groups
    ensures gid in r.groups && Step(r, a).groups[gid].declared == r.groups[gid].declared
    ensures Load(Step(r, a), Arrived(r, d, a), gid) <= Load(r, d, gid)
  {
    hide Belongs, TotalOf, Step, Arrived;
    TotalsKept(r, d, a);
    LoadMono(r, d, Step(r, a), Arrived(r, d, a), gid, r.next);
  }

  // ---- the one step that can break it ---------------------------------------------------------

  lemma LoadSame(r: Registry, d: Sendings, r': Registry, d': Sendings, gid: U32, n: nat)
    requires forall f: FileId :: f < n ==> (Belongs(r', gid, f) <==> Belongs(r, gid, f))
    requires forall f: FileId :: f < n ==> TotalOf(d', f) == TotalOf(d, f)
    ensures LoadUpTo(r', d', gid, n) == LoadUpTo(r, d, gid, n)
  {
  }

  /** From `r` to `r'` at most one upload, of the next file, and one empty group are new. */
  predicate Adds(r: Registry, r': Registry) {
    && (forall id :: id in r.pending ==> id in r'.pending && r'.pending[id] == r.pending[id])
    && (forall id :: id in r'.pending && id !in r.pending ==> r'.pending[id].file == r.next)
    && (forall gid :: gid in r.groups ==> gid in r'.groups && r'.groups[gid].finished == r.groups[gid].finished)
    && (forall gid :: gid in r'.groups && gid !in r.groups ==> r'.groups[gid].finished == [])
  }

  lemma OpenedAdds(r: Registry, m: Registry, id: U32, total: U64, gid: U32, ok: bool)
    requires Adds(r, m) && m.next == r.next && m.pending == r.pending && id !in r.pending && gid in m.groups
    ensures Adds(r, Opened(m, id, total, gid, ok))
    ensures Opened(m, id, total, gid, ok).next == if ok then r.next + 1 else r.next
  {
  }

  /** What an admitted begin leaves of the uploads and the finished files there were. */
  lemma AdmittedKeeps(r: Registry, a: Action)
    requires Admits(r, a)
    ensures Adds(r, Step(r, a)) && Step(r, a).next == if a.opens then r.next + 1 else r.next
  {
    hide Opened, CancelGroup, Rejected;
    var m := if a.gid in r.groups then Declared(r, a.gid, SatAdd(r.groups[a.gid].declared, a.total))
             else r.(groups := r.groups[a.gid := Group(a.size, [], a.total)]);
    OpenedAdds(r, m, a.id, a.total, a.gid, a.opens);
  }

  /** An admitted begin adds its own file to its own group, and nothing else. */
  lemma AdmittedMembers(r: Registry, a: Action, gid: U32, f: FileId)
    requires Admits(r, a)
    ensures f < r.next ==> (Belongs(Step(r, a), gid, f) <==> Belongs(r, gid, f))
    ensures Step(r, a).next == if a.opens then r.next + 1 else r.next
  {
    AdmittedKeeps(r, a);
    hide Step, Admits;
  }

  lemma AdmittedLoad(r: Registry, d: Sendings, a: Action, gid: U32)
    requires Admits(r, a) && Known(r, d) && Fresh(r)
    ensures Load(Step(r, a), Arrived(r, d, a), gid) ==
            Load(r, d, gid) + if a.opens && gid == a.gid then a.total else 0
  {
    hide Load, LoadUpTo, Belongs, TotalOf, Step, Arrived;
    var r', d' := Step(r, a), Arrived(r, d, a);
    TotalsKept(r, d, a);
    forall f: FileId | f < r.next
      ensures Belongs(r', gid, f) <==> Belongs(r, gid, f)
    {
      AdmittedMembers(r, a, gid, f);
    }
    AdmittedMembers(r, a, gid, 0);
    LoadSame(r, d, r', d', gid, r.next);
    LoadIs(r, d, gid);
    LoadIs(r', d', gid);
    if a.opens {
      NewMember(r, d, a, gid);
    }
  }

  lemma LoadIs(r: Registry, d: Sendings, gid: U32)
    ensures Load(r, d, gid) == LoadUpTo(r, d, gid, r.next)
    ensures r.next > 0 ==>
              LoadUpTo(r, d, gid, r.next) ==
              LoadUpTo(r, d, gid, r.next - 1) + if Belongs(r, gid, r.next - 1) then TotalOf(d, r.next - 1) else 0
  {
  }

  /** No group or upload refers to a file that is yet to be opened. */
  ghost predicate Fresh(r: Registry) {
    forall gid: U32 :: !Belongs(r, gid, r.next)
  }

  lemma NewMember(r: Registry, d: Sendings, a: Action, gid: U32)
    requires Admits(r, a) && a.opens && Fresh(r)
    ensures Belongs(Step(r, a), gid, r.next) <==> gid == a.gid
    ensures TotalOf(Arrived(r, d, a), r.next) == a.total
  {
    var r' := Step(r, a);
    assert r'.pending[a.id].file == r.next && r'.pending[a.id].group == a.gid;
    assert !Belongs(r, gid, r.next);
  }

  lemma AdmittedDeclared(r: Registry, a: Action, gid: U32)
    requires Bounded(r) && Decoded(a) && Admits(r, a)
    ensures var before := if gid in r.groups then r.groups[gid].declared else 0;
            gid in Step(r, a).groups <==> gid in r.groups || gid == a.gid
    ensures var before := if gid in r.groups then r.groups[gid].declared else 0;
            gid in Step(r, a).groups ==>
              Step(r, a).groups[gid].declared as int == before + if a.opens && gid == a.gid then a.total else 0
  {
  }

  /** The declared totals go on covering every group's files after a step exactly when the step
      is not a begin that reuses the id of a group some of whose uploads are still pending. */
  lemma StepCoveredIff(r: Registry, w: Places, d: Sendings, a: Action)
    requires Inv(r, w, d) && Bounded(r) && Decoded(a) && Covered(r, d)
    ensures Covered(Step(r, a), Arrived(r, d, a)) <==> !Reuses(r, d, a)
  {
    hide Inv, Bounded, Step, Arrived, Load, Admits, Known, Shrinks;
    InvKnown(r, w, d);
    if !Admits(r, a) {
      StepShrinks(r, a);
      forall gid | gid in Step(r, a).groups
        ensures Load(Step(r, a), Arrived(r, d, a), gid) <= Step(r, a).groups[gid].declared
      {
        ShrinkLoad(r, d, a, gid);
      }
    } else {
      AdmittedCovered(r, d, a);
    }
  }

  lemma AdmittedCovered(r: Registry, d: Sendings, a: Action)
    requires Known(r, d) && Fresh(r) && Bounded(r) && Decoded(a) && Covered(r, d) && Admits(r, a)
    ensures Covered(Step(r, a), Arrived(r, d, a)) <==> !Reuses(r, d, a)
  {
    hide Load, Step, Arrived, Fresh, Known, Bounded;
    var r', d' := Step(r, a), Arrived(r, d, a);
    forall gid | gid in r'.groups
      ensures Load(r', d', gid) <= r'.groups[gid].declared <==> (gid in r.groups || Load(r, d, gid) == 0)
    {
      AdmittedLoad(r, d, a, gid);
      AdmittedDeclared(r, a, gid);
    }
    AdmittedDeclared(r, a, a.gid);
    forall gid | gid in r'.groups
      ensures gid in r.groups || gid == a.gid
    {
      AdmittedDeclared(r, a, gid);
    }
  }

  /** After a step no group claims more than the cap exactly when the step does not overload
      one. This is the cap itself, whatever ids are reused. */
  lemma StepLadenIff(r: Registry, w: Places, d: Sendings, a: Action)
    requires Inv(r, w, d) && Bounded(r) && Decoded(a) && Laden(r, d)
    ensures Laden(Step(r, a), Arrived(r, d, a)) <==> !Overloads(r, d, a)
  {
    hide Inv, Bounded, Step, Arrived, Load, Admits, Known, Shrinks;
    InvKnown(r, w, d);
    if !Admits(r, a) {
      StepShrinks(r, a);
      forall gid | gid in Step(r, a).groups
        ensures Load(Step(r, a), Arrived(r, d, a), gid) <= Frame.MAX_PASTE_TOTAL_BYTES
      {
        ShrinkLoad(r, d, a, gid);
      }
    } else {
      AdmittedLaden(r, d, a);
    }
  }

  lemma AdmittedLaden(r: Registry, d: Sendings, a: Action)
    requires Known(r, d) && Fresh(r) && Bounded(r) && Decoded(a) && Laden(r, d) && Admits(r, a)
    ensures Laden(Step(r, a), Arrived(r, d, a)) <==> !Overloads(r, d, a)
  {
    hide Load, Step, Arrived, Fresh, Known, Bounded;
    var r', d' := Step(r, a), Arrived(r, d, a);
    AdmittedDeclared(r, a, a.gid);
    AdmittedLoad(r, d, a, a.gid);
    forall gid | gid in r'.groups && gid != a.gid
      ensures Load(r', d', gid) <= Frame.MAX_PASTE_TOTAL_BYTES
    {
      AdmittedDeclared(r, a, gid);
      AdmittedLoad(r, d, a, gid);
    }
  }

  lemma MembersWereOpened(r: Registry, w: Places, d: Sendings, gid: U32, f: FileId)
    requires Inv(r, w, d) && Belongs(r, gid, f)
    ensures f < r.next
  {
    if gid in r.groups && f in r.groups[gid].finished {
      var i :| 0 <= i < |r.groups[gid].finished| && r.groups[gid].finished[i] == f;
      assert At(r, f, Staged(gid, i));
    } else {
      var id :| id in r.pending && r.pending[id].file == f;
      assert At(r, f, Pending(id));
    }
  }

  lemma InvKnown(r: Registry, w: Places, d: Sendings)
    requires Inv(r, w, d)
    ensures Known(r, d) && Fresh(r)
  {
    hide Belongs;
    forall gid: U32
      ensures !Belongs(r, gid, r.next)
    {
      if Belongs(r, gid, r.next) {
        MembersWereOpened(r, w, d, gid, r.next);
      }
    }
  }

  // ---- what is typed into the terminal ----------------------------------------------------------

  function BatchTotal(d: Sendings, fs: seq<FileId>): nat {
    if fs == [] then 0 else TotalOf(d, fs[0]) + BatchTotal(d, fs[1..])
  }

  lemma {:induction false} BatchTotalAppend(d: Sendings, a: seq<FileId>, b: seq<FileId>)
    ensures BatchTotal(d, a + b) == BatchTotal(d, a) + BatchTotal(d, b)
  {
    if a == [] {
      assert a + b == b;
    } else {
      assert (a + b)[1..] == a[1..] + b;
      BatchTotalAppend(d, a[1..], b);
    }
  }

  predicate Distinct(fs: seq<FileId>) {
    forall i, j :: 0 <= i < j < |fs| ==> fs[i] != fs[j]
  }

  /** Distinct members of a group weigh at most the group. */
  lemma {:induction false} MembersWithinLoad(r: Registry, d: Sendings, gid: U32, fs: seq<FileId>, n: nat)
    requires Distinct(fs) && forall i :: 0 <= i < |fs| ==> fs[i] < n && Belongs(r, gid, fs[i])
    ensures BatchTotal(d, fs) <= LoadUpTo(r, d, gid, n)
    decreases n
  {
    hide Belongs, TotalOf, BatchTotal;
    if fs == [] {
      NoBatch(d, fs);
      return;
    }
    assert fs[0] < n;
    if i :| 0 <= i < |fs| && fs[i] == n - 1 {
      var rest := fs[..i] + fs[i + 1..];
      BatchRemove(d, fs, i);
      assert forall j :: 0 <= j < |rest| ==> rest[j] == fs[if j < i then j else j + 1];
      MembersWithinLoad(r, d, gid, rest, n - 1);
    } else {
      MembersWithinLoad(r, d, gid, fs, n - 1);
    }
  }

  lemma NoBatch(d: Sendings, fs: seq<FileId>)
    ensures fs == [] ==> BatchTotal(d, fs) == 0
  {
  }

  lemma BatchRemove(d: Sendings, fs: seq<FileId>, i: nat)
    requires i < |fs|
    ensures BatchTotal(d, fs) == BatchTotal(d, fs[..i] + fs[i + 1..]) + TotalOf(d, fs[i])
  {
    hide TotalOf;
    var a, b := fs[..i], fs[i..];
    assert a + b == fs && b[0] == fs[i] && b[1..] == fs[i + 1..];
    BatchTotalAppend(d, a, b);
    BatchTotalAppend(d, a, b[1..]);
  }

  lemma GroupBatch(r: Registry, w: Places, d: Sendings, id: U32)
    requires Inv(r, w, d) && Laden(r, d) && id in r.pending && r.pending[id].group in r.groups
    ensures var p := r.pending[id];
            BatchTotal(d, r.groups[p.group].finished + [p.file]) <= Frame.MAX_PASTE_TOTAL_BYTES
  {
    var p := r.pending[id];
    var fs: seq<FileId> := r.groups[p.group].finished + [p.file];
    forall i | 0 <= i < |fs|
      ensures fs[i] < r.next && Belongs(r, p.group, fs[i])
      ensures w[fs[i]] == if i < |fs| - 1 then Staged(p.group, i) else Pending(id)
    {
      assert At(r, fs[i], if i < |fs| - 1 then Staged(p.group, i) else Pending(id));
    }
    assert Distinct(fs);
    MembersWithinLoad(r, d, p.group, fs, r.next);
  }

  lemma LoneBatch(r: Registry, w: Places, d: Sendings, id: U32)
    requires Inv(r, w, d) && Bounded(r) && id in r.pending
    ensures BatchTotal(d, [r.pending[id].file]) <= Frame.MAX_PASTE_TOTAL_BYTES
  {
  }

  predicate Capped(d: Sendings, batches: seq<seq<FileId>>) {
    forall b :: 0 <= b < |batches| ==> BatchTotal(d, batches[b]) <= Frame.MAX_PASTE_TOTAL_BYTES
  }

  lemma {:induction false} BatchTotalKept(d: Sendings, d': Sendings, n: nat, fs: seq<FileId>)
    requires forall f: FileId :: f < n ==> TotalOf(d', f) == TotalOf(d, f)
    requires forall i :: 0 <= i < |fs| ==> fs[i] < n
    ensures BatchTotal(d', fs) == BatchTotal(d, fs)
  {
    hide TotalOf;
    if fs != [] {
      BatchTotalKept(d, d', n, fs[1..]);
    }
  }

  lemma StepCapped(r: Registry, w: Places, d: Sendings, a: Action)
    requires Inv(r, w, d) && Bounded(r) && Laden(r, d) && Capped(d, r.injected)
    ensures Capped(d, Step(r, a).injected)
  {
    hide Inv, Laden, Step, BatchTotal;
    InjectsIff(r, a);
    if Step(r, a).injected != r.injected {
      var p := r.pending[a.id];
      if p.group in r.groups {
        GroupBatch(r, w, d, a.id);
      } else {
        LoneBatch(r, w, d, a.id);
        assert [] + [p.file] == [p.file];
      }
    }
  }

  ghost predicate AllOpened(n: nat, batches: seq<seq<FileId>>) {
    forall b, i :: 0 <= b < |batches| && 0 <= i < |batches[b]| ==> batches[b][i] < n
  }

  lemma InjectedWereOpened(r: Registry, w: Places, d: Sendings, a: Action)
    requires Inv(r, w, d) && Bounded(r)
    ensures AllOpened(r.next, Step(r, a).injected)
  {
    hide Step, Faithful;
    InjectsIff(r, a);
    forall b, i | 0 <= b < |r.injected| && 0 <= i < |r.injected[b]|
      ensures r.injected[b][i] < r.next
    {
      assert At(r, r.injected[b][i], Injected(b, i));
    }
    if Step(r, a).injected != r.injected {
      var p := r.pending[a.id];
      assert At(r, p.file, Pending(a.id));
      if p.group in r.groups {
        var fs := r.groups[p.group].finished;
        forall i | 0 <= i < |fs|
          ensures fs[i] < r.next
        {
          assert At(r, fs[i], Staged(p.group, i));
        }
      }
    }
  }

  lemma CappedKept(d: Sendings, d': Sendings, n: nat, batches: seq<seq<FileId>>)
    requires Capped(d, batches) && AllOpened(n, batches)
    requires forall f: FileId :: f < n ==> TotalOf(d', f) == TotalOf(d, f)
    ensures Capped(d', batches)
  {
    hide TotalOf;
    forall b | 0 <= b < |batches|
      ensures BatchTotal(d', batches[b]) <= Frame.MAX_PASTE_TOTAL_BYTES
    {
      BatchTotalKept(d, d', n, batches[b]);
    }
  }

  // ---- over runs ------------------------------------------------------------------------------------

  ghost predicate LadenAt(limits: Limits, actions: seq<Action>, i: nat)
    requires i <= |actions|
  {
    Laden(Run(limits, actions[..i]), Sent(limits, actions[..i]))
  }

  ghost predicate OverloadsAt(limits: Limits, actions: seq<Action>, i: nat)
    requires i < |actions|
  {
    Overloads(Run(limits, actions[..i]), Sent(limits, actions[..i]), actions[i])
  }

  predicate AllDecoded(actions: seq<Action>) {
    forall i :: 0 <= i < |actions| ==> Decoded(actions[i])
  }

  lemma SentNext(limits: Limits, actions: seq<Action>, i: nat)
    requires i < |actions|
    ensures Sent(limits, actions[..i + 1]) ==
            Arrived(Run(limits, actions[..i]), Sent(limits, actions[..i]), actions[i])
  {
    hide Arrived;
    assert actions[..i + 1][..i] == actions[..i];
  }

  lemma LadenNext(limits: Limits, actions: seq<Action>, i: nat)
    requires AllDecoded(actions) && i < |actions| && LadenAt(limits, actions, i)
    ensures LadenAt(limits, actions, i + 1) <==> !OverloadsAt(limits, actions, i)
  {
    hide Run, Sent, Step, Arrived, Laden, Overloads, Bounded, Inv, Decoded;
    var before := actions[..i];
    var w := RunInv(limits, before);
    RunBounded(limits, before);
    StepLadenIff(Run(limits, before), w, Sent(limits, before), actions[i]);
    RunNext(limits, actions, i);
    SentNext(limits, actions, i);
  }

  lemma {:induction false} LadenUpTo(limits: Limits, actions: seq<Action>, i: nat)
    requires AllDecoded(actions) && i <= |actions|
    requires forall k :: 0 <= k < |actions| ==> !OverloadsAt(limits, actions, k)
    ensures LadenAt(limits, actions, i)
  {
    hide LadenAt, OverloadsAt, Decoded;
    if i == 0 {
      StartLaden(limits, actions);
    } else {
      LadenUpTo(limits, actions, i - 1);
      LadenNext(limits, actions, i - 1);
    }
  }

  lemma StartLaden(limits: Limits, actions: seq<Action>)
    ensures LadenAt(limits, actions, 0)
  {
    assert actions[..0] == [];
  }

  /** Over every run of accepted frames, no paste action ever claims more than 4 GiB - 1
      exactly when no begin overloads its group id. */
  lemma RunLadenIff(limits: Limits, actions: seq<Action>)
    requires AllDecoded(actions)
    ensures (forall i :: 0 <= i <= |actions| ==> LadenAt(limits, actions, i)) <==>
            (forall i :: 0 <= i < |actions| ==> !OverloadsAt(limits, actions, i))
  {
    hide LadenAt, OverloadsAt, Decoded;
    if forall i :: 0 <= i < |actions| ==> !OverloadsAt(limits, actions, i) {
      forall i | 0 <= i <= |actions|
        ensures LadenAt(limits, actions, i)
      {
        LadenUpTo(limits, actions, i);
      }
    }
    if forall i :: 0 <= i <= |actions| ==> LadenAt(limits, actions, i) {
      forall i | 0 <= i < |actions|
        ensures !OverloadsAt(limits, actions, i)
      {
        assert LadenAt(limits, actions, i) && LadenAt(limits, actions, i + 1);
        LadenNext(limits, actions, i);
      }
    }
  }

  lemma {:induction false} CappedUpTo(limits: Limits, actions: seq<Action>, i: nat)
    requires AllDecoded(actions) && i <= |actions|
    requires forall k :: 0 <= k < |actions| ==> !OverloadsAt(limits, actions, k)
    ensures Capped(Sent(limits, actions[..i]), Run(limits, actions[..i]).injected)
  {
    hide Run, Sent, Step, Arrived, Capped, Laden, Overloads, Bounded, Inv, Decoded;
    if i == 0 {
      StartCapped(limits, actions);
    } else {
      CappedUpTo(limits, actions, i - 1);
      LadenUpTo(limits, actions, i - 1);
      NextCapped(limits, actions, i - 1);
    }
  }

  lemma StartCapped(limits: Limits, actions: seq<Action>)
    ensures Capped(Sent(limits, actions[..0]), Run(limits, actions[..0]).injected)
  {
    assert actions[..0] == [];
  }

  lemma NextCapped(limits: Limits, actions: seq<Action>, i: nat)
    requires AllDecoded(actions) && i < |actions| && LadenAt(limits, actions, i)
    requires Capped(Sent(limits, actions[..i]), Run(limits, actions[..i]).injected)
    ensures Capped(Sent(limits, actions[..i + 1]), Run(limits, actions[..i + 1]).injected)
  {
    hide Run, Sent, Step, Arrived, Capped, Laden, Bounded, Inv, Decoded, Known;
    var r, d, a := Run(limits, actions[..i]), Sent(limits, actions[..i]), actions[i];
    var w := RunInv(limits, actions[..i]);
    RunBounded(limits, actions[..i]);
    InvKnown(r, w, d);
    StepCapped(r, w, d, a);
    InjectedWereOpened(r, w, d, a);
    TotalsKept(r, d, a);
    CappedKept(d, Arrived(r, d, a), r.next, Step(r, a).injected);
    RunNext(limits, actions, i);
    SentNext(limits, actions, i);
  }

  /** And then no batch typed into the terminal holds more than that. */
  lemma BatchesWithinCap(limits: Limits, actions: seq<Action>, b: nat)
    requires AllDecoded(actions) && b < |Run(limits, actions).injected|
    requires forall i :: 0 <= i < |actions| ==> !OverloadsAt(limits, actions, i)
    ensures BatchTotal(Sent(limits, actions), Run(limits, actions).injected[b]) <= Frame.MAX_PASTE_TOTAL_BYTES
  {
    hide Run, Sent, OverloadsAt, BatchTotal, Decoded;
    CappedUpTo(limits, actions, |actions|);
    assert actions[..|actions|] == actions;
  }

  // ---- a run that exceeds the cap ------------------------------------------------------------------

  const MIB := 1024 * 1024
  const THREE_GIB := 3 * 1024 * MIB
  const LIMITS := Limits(32, 32)

  /** The begin of a 3 GiB upload for group 7 of two. */
  function BigBegin(id: U32): Action {
    Begin(id, THREE_GIB, 7, 2, true, true)
  }

  /** Upload of 3 GiB for group 7, with so many bytes written. */
  function Big(file: FileId, written: U64): Upload {
    Upload(file, THREE_GIB, written, 7)
  }

  /** Registries along that run. */
  function Stop(pending: map<U32, Upload>, groups: map<U32, Group>, next: nat, disk: map<FileId, seq<Byte>>,
                injected: seq<seq<FileId>>, rejects: seq<Reject>): Registry {
    Registry(LIMITS, pending, groups, next, disk, injected, rejects)
  }

  const Refusal := [Reject(2, GROUP_OVERSIZE)]
  const HalfFull := map[7 := Group(2, [], THREE_GIB)]

  lemma FirstBegin()
    ensures Step(Empty(LIMITS), BigBegin(1)) ==
            Stop(map[1 := Big(0, 0)], HalfFull, 1, map[0 := []], [], [])
  {
  }

  lemma SecondBegin()
    ensures Step(Stop(map[1 := Big(0, 0)], HalfFull, 1, map[0 := []], [], []), BigBegin(2)) ==
            Stop(map[1 := Big(0, 0)], map[], 1, map[0 := []], [], Refusal)
  {
    hide Opened, Declared;
    var r := Stop(map[1 := Big(0, 0)], HalfFull, 1, map[0 := []], [], []);
    assert SatAdd(THREE_GIB, THREE_GIB) > Frame.MAX_PASTE_TOTAL_BYTES;
    assert Step(r, BigBegin(2)) == Rejected(CancelGroup(r, 7), 2, GROUP_OVERSIZE);
    assert HalfFull - {7} == map[] && r.disk - Elements<FileId>([]) == r.disk;
  }

  lemma ThirdBegin()
    ensures Step(Stop(map[1 := Big(0, 0)], map[], 1, map[0 := []], [], Refusal), BigBegin(2)) ==
            Uploading([], [])
  {
  }

  /** Both uploads under way, with what each file holds. */
  function Uploading(one: seq<Byte>, two: seq<Byte>): Registry
    requires |one| <= THREE_GIB && |two| <= THREE_GIB
  {
    Stop(map[1 := Big(0, |one|), 2 := Big(1, |two|)], HalfFull, 2, map[0 := one, 1 := two], [], Refusal)
  }

  lemma ChunkForOne(one: seq<Byte>, two: seq<Byte>, p: seq<Byte>)
    requires |one| + |p| <= THREE_GIB && |two| <= THREE_GIB
    ensures Step(Uploading(one, two), Chunk(1, p, true)) == Uploading(one + p, two)
  {
    var r := Uploading(one, two);
    assert SatAdd(|one|, |p|) == |one + p|;
    assert r.disk[0 := one + p] == map[0 := one + p, 1 := two];
    assert r.pending[1 := Big(0, |one + p|)] == map[1 := Big(0, |one + p|), 2 := Big(1, |two|)];
  }

  lemma ChunkForTwo(one: seq<Byte>, two: seq<Byte>, p: seq<Byte>)
    requires |one| <= THREE_GIB && |two| + |p| <= THREE_GIB
    ensures Step(Uploading(one, two), Chunk(2, p, true)) == Uploading(one, two + p)
  {
    var r := Uploading(one, two);
    assert SatAdd(|two|, |p|) == |two + p|;
    assert r.disk[1 := two + p] == map[0 := one, 1 := two + p];
    assert r.pending[2 := Big(1, |two + p|)] == map[1 := Big(0, |one|), 2 := Big(1, |two + p|)];
  }

  function ChunksFor(id: U32, pieces: seq<seq<Byte>>): seq<Action> {
    if pieces == [] then [] else [Chunk(id, pieces[0], true)] + ChunksFor(id, pieces[1..])
  }

  lemma RunSnoc(actions: seq<Action>, a: Action)
    ensures Run(LIMITS, actions + [a]) == Step(Run(LIMITS, actions), a)
  {
    hide Step;
    assert (actions + [a])[..|actions|] == actions;
  }

  lemma {:induction false} FeedOne(before: seq<Action>, one: seq<Byte>, two: seq<Byte>, pieces: seq<seq<Byte>>)
    requires |one| + |Flatten(pieces)| <= THREE_GIB && |two| <= THREE_GIB
    requires Run(LIMITS, before) == Uploading(one, two)
    ensures Run(LIMITS, before + ChunksFor(1, pieces)) == Uploading(one + Flatten(pieces), two)
    decreases |pieces|
  {
    hide Run, Step, Uploading;
    if pieces == [] {
      assert before + [] == before && one + [] == one;
    } else {
      var p, rest := pieces[0], pieces[1..];
      RunSnoc(before, Chunk(1, p, true));
      ChunkForOne(one, two, p);
      FeedOne(before + [Chunk(1, p, true)], one + p, two, rest);
      assert before + [Chunk(1, p, true)] + ChunksFor(1, rest) == before + ChunksFor(1, pieces);
      assert one + p + Flatten(rest) == one + Flatten(pieces);
    }
  }

  lemma {:induction false} FeedTwo(before: seq<Action>, one: seq<Byte>, two: seq<Byte>, pieces: seq<seq<Byte>>)
    requires |one| <= THREE_GIB && |two| + |Flatten(pieces)| <= THREE_GIB
    requires Run(LIMITS, before) == Uploading(one, two)
    ensures Run(LIMITS, before + ChunksFor(2, pieces)) == Uploading(one, two + Flatten(pieces))
    decreases |pieces|
  {
    hide Run, Step, Uploading;
    if pieces == [] {
      assert before + [] == before && two + [] == two;
    } else {
      var p, rest := pieces[0], pieces[1..];
      RunSnoc(before, Chunk(2, p, true));
      ChunkForTwo(one, two, p);
      FeedTwo(before + [Chunk(2, p, true)], one, two + p, rest);
      assert before + [Chunk(2, p, true)] + ChunksFor(2, rest) == before + ChunksFor(2, pieces);
      assert two + p + Flatten(rest) == two + Flatten(pieces);
    }
  }

  /** An end that commits. */
  function Ok(id: U32): Action {
    End(id, Frame.PASTE_STATUS_OK, true, Flushed)
  }

  lemma TwoEnds(file: seq<Byte>)
    requires |file| == THREE_GIB
    ensures Step(Step(Uploading(file, file), Ok(1)), Ok(2)) ==
            Stop(map[], map[], 2, map[0 := file, 1 := file], [[0, 1]], Refusal)
  {
    var r := Uploading(file, file);
    var one := map[7 := Group(2, [0], THREE_GIB)];
    assert r.pending - {1} == map[2 := Big(1, THREE_GIB)] && [] + [0] == [0];
    assert Stage(r, 1) == Stop(map[2 := Big(1, THREE_GIB)], one, 2, r.disk, [], Refusal);
    assert r.disk[0 := file] == r.disk && r.disk[1 := file] == r.disk;
    var s := Step(r, Ok(1));
    assert s == Stage(r, 1);
    assert s.pending - {2} == map[] && [0] + [1] == [0, 1];
    assert Stage(s, 2).groups - {7} == map[];
  }

  /** Two uploads of 3 GiB under one group id, in pieces: the second begin is refused and cancels
      the group, but the first upload stays pending and joins the group that a third begin
      creates. */
  function OverCapRun(pieces: seq<seq<Byte>>): seq<Action> {
    [BigBegin(1), BigBegin(2), BigBegin(2)] + ChunksFor(1, pieces) + ChunksFor(2, pieces) + [Ok(1)] + [Ok(2)]
  }

  lemma ThreeBegins()
    ensures Run(LIMITS, [BigBegin(1), BigBegin(2), BigBegin(2)]) == Uploading([], [])
  {
    hide Step, Run, Stop, Uploading, BigBegin;
    FirstBegin();
    SecondBegin();
    ThirdBegin();
    var all := [BigBegin(1), BigBegin(2), BigBegin(2)];
    RunNext(LIMITS, all, 0);
    RunNext(LIMITS, all, 1);
    RunNext(LIMITS, all, 2);
  }

  /** Any file of 3 GiB, however it is cut into pieces. */
  lemma OverCapByPieces(pieces: seq<seq<Byte>>)
    requires |Flatten(pieces)| == THREE_GIB
    ensures var r, file := Run(LIMITS, OverCapRun(pieces)), Flatten(pieces);
            r.injected == [[0, 1]] && r.disk == map[0 := file, 1 := file]
  {
    hide Step, Run, Uploading, ChunksFor, BigBegin;
    var file := Flatten(pieces);
    var start := [BigBegin(1), BigBegin(2), BigBegin(2)];
    ThreeBegins();
    assert [] + file == file;
    FeedOne(start, [], [], pieces);
    FeedTwo(start + ChunksFor(1, pieces), file, [], pieces);
    var fed := start + ChunksFor(1, pieces) + ChunksFor(2, pieces);
    RunSnoc(fed, Ok(1));
    RunSnoc(fed + [Ok(1)], Ok(2));
    TwoEnds(file);
  }

  function Repeat(piece: seq<Byte>, n: nat): seq<seq<Byte>> {
    if n == 0 then [] else [piece] + Repeat(piece, n - 1)
  }

  lemma {:induction false} RepeatSize(piece: seq<Byte>, n: nat)
    ensures |Flatten(Repeat(piece, n))| == n * |piece|
    ensures forall i :: 0 <= i < |Repeat(piece, n)| ==> Repeat(piece, n)[i] == piece
  {
    if n > 0 {
      RepeatSize(piece, n - 1);
      assert ([piece] + Repeat(piece, n - 1))[1..] == Repeat(piece, n - 1);
    }
  }

  lemma {:induction false} ChunksAre(id: U32, pieces: seq<seq<Byte>>)
    ensures |ChunksFor(id, pieces)| == |pieces|
    ensures forall i :: 0 <= i < |pieces| ==> ChunksFor(id, pieces)[i] == Chunk(id, pieces[i], true)
  {
    if pieces != [] {
      ChunksAre(id, pieces[1..]);
    }
  }

  /** The cap is exceeded by a run of frames that the decoder accepts: one batch, two files of
      3072 pieces of 1 MiB each, 6 GiB. */
  lemma CapExceeded(piece: seq<Byte>)
    requires |piece| == MIB
    ensures var actions := OverCapRun(Repeat(piece, 3072));
            var r := Run(LIMITS, actions);
            && AllDecoded(actions)
            && r.injected == [[0, 1]] && 0 in r.disk && 1 in r.disk
            && |r.disk[0]| + |r.disk[1]| > Frame.MAX_PASTE_TOTAL_BYTES
  {
    hide Run, Repeat, ChunksFor;
    var pieces := Repeat(piece, 3072);
    RepeatSize(piece, 3072);
    OverCapByPieces(pieces);
    ChunksAre(1, pieces);
    ChunksAre(2, pieces);
    assert forall i :: 0 <= i < |pieces| ==> Decoded(Chunk(1, pieces[i], true)) && Decoded(Chunk(2, pieces[i], true));
  }
}
