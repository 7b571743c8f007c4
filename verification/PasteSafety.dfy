/** What every run of the paste handlers keeps: each file has one owner, what is typed into the
    terminal is whole, and the registry stays within its limits. */
module PasteSafety {
  import opened Prelude
  import opened Paste
  import Frame
  import Transport

  // ---- where every file is ----------------------------------------------------------------------

  datatype Slot =
    | Pending(id: U32)
    | Staged(gid: U32, i: nat)
    | Injected(batch: nat, i: nat)
    | Deleted

  predicate At(r: Registry, f: FileId, s: Slot) {
    match s
    case Pending(id) => id in r.pending && r.pending[id].file == f
    case Staged(gid, i) => gid in r.groups && i < |r.groups[gid].finished| && r.groups[gid].finished[i] == f
    case Injected(b, i) => b < |r.injected| && i < |r.injected[b]| && r.injected[b][i] == f
    case Deleted => f < r.next && f !in r.disk
  }

  type Places = map<FileId, Slot>

  /** `w` says where every opened file is; it is there and nowhere else. */
  ghost predicate Placed(r: Registry, w: Places) {
    && (forall f: FileId :: f in w <==> f < r.next)
    && (forall f: FileId, s: Slot :: At(r, f, s) <==> f in w && w[f] == s)
  }

  lemma DropPlaced(r: Registry, w: Places, id: U32)
    requires Placed(r, w) && id in r.pending
    ensures Placed(Drop(r, id), w[r.pending[id].file := Deleted])
  {
    var r', f0 := Drop(r, id), r.pending[id].file;
    assert At(r, f0, Pending(id));
    assert f0 in w && w[f0] == Pending(id);
    var w' := w[f0 := Deleted];
    forall f: FileId, s: Slot
      ensures At(r', f, s) <==> f in w' && w'[f] == s
    {
      assert At(r, f, s) <==> f in w && w[f] == s;
    }
  }

  function Emptied(w: Places, gid: U32): Places {
    map f | f in w :: if w[f].Staged? && w[f].gid == gid then Deleted else w[f]
  }

  lemma CancelGroupPlaced(r: Registry, w: Places, gid: U32)
    requires Placed(r, w)
    ensures Placed(CancelGroup(r, gid), Emptied(w, gid))
  {
    var r', w' := CancelGroup(r, gid), Emptied(w, gid);
    forall f: FileId, s: Slot
      ensures At(r', f, s) <==> f in w' && w'[f] == s
    {
      assert At(r, f, s) <==> f in w && w[f] == s;
      if f in w {
        assert At(r, f, w[f]);
      }
      if gid in r.groups && f in Elements(r.groups[gid].finished) {
        var i :| 0 <= i < |r.groups[gid].finished| && r.groups[gid].finished[i] == f;
        assert At(r, f, Staged(gid, i));
      }
    }
  }

  lemma StagePlaced(r: Registry, w: Places, id: U32)
    requires Placed(r, w) && id in r.pending && r.pending[id].group in r.groups
    ensures var p := r.pending[id];
            Placed(Stage(r, id), w[p.file := Staged(p.group, |r.groups[p.group].finished|)])
  {
    var p := r.pending[id];
    var r', w' := Stage(r, id), w[p.file := Staged(p.group, |r.groups[p.group].finished|)];
    assert At(r, p.file, Pending(id));
    forall f: FileId, s: Slot
      ensures At(r', f, s) <==> f in w' && w'[f] == s
    {
      assert At(r, f, s) <==> f in w && w[f] == s;
    }
  }

  function Typed(w: Places, gid: U32, batch: nat): Places {
    map f | f in w :: if w[f].Staged? && w[f].gid == gid then Injected(batch, w[f].i) else w[f]
  }

  lemma InjectGroupPlaced(r: Registry, w: Places, gid: U32)
    requires Placed(r, w) && gid in r.groups
    ensures Placed(InjectGroup(r, gid), Typed(w, gid, |r.injected|))
  {
    var r', w' := InjectGroup(r, gid), Typed(w, gid, |r.injected|);
    forall f: FileId, s: Slot
      ensures At(r', f, s) <==> f in w' && w'[f] == s
    {
      assert At(r, f, s) <==> f in w && w[f] == s;
      if s.Injected? {
        assert At(r, f, Staged(gid, s.i)) <==> f in w && w[f] == Staged(gid, s.i);
      }
    }
  }

  lemma InjectAlonePlaced(r: Registry, w: Places, id: U32)
    requires Placed(r, w) && id in r.pending
    ensures Placed(InjectAlone(r, id), w[r.pending[id].file := Injected(|r.injected|, 0)])
  {
    var r', f0 := InjectAlone(r, id), r.pending[id].file;
    var w' := w[f0 := Injected(|r.injected|, 0)];
    assert At(r, f0, Pending(id));
    forall f: FileId, s: Slot
      ensures At(r', f, s) <==> f in w' && w'[f] == s
    {
      assert At(r, f, s) <==> f in w && w[f] == s;
    }
  }

  /** Opening adds one file, pending. */
  lemma OpenedPlaced(r: Registry, w: Places, id: U32, total: U64, gid: U32)
    requires Placed(r, w) && id !in r.pending && gid in r.groups
    ensures Placed(Opened(r, id, total, gid, true), w[r.next := Pending(id)])
  {
    var r', w' := Opened(r, id, total, gid, true), w[r.next := Pending(id)];
    forall f: FileId, s: Slot
      ensures At(r', f, s) <==> f in w' && w'[f] == s
    {
      assert At(r, f, s) <==> f in w && w[f] == s;
    }
  }

  /** Registries that agree on which files sit where. */
  predicate SamePlaces(r: Registry, r': Registry) {
    && r'.pending.Keys == r.pending.Keys && (forall id :: id in r.pending ==> r'.pending[id].file == r.pending[id].file)
    && (forall gid :: gid in r.groups ==> gid in r'.groups && r'.groups[gid].finished == r.groups[gid].finished)
    && (forall gid :: gid in r'.groups && gid !in r.groups ==> r'.groups[gid].finished == [])
    && r'.injected == r.injected && r'.next == r.next && r'.disk.Keys == r.disk.Keys
  }

  lemma SamePlaced(r: Registry, r': Registry, w: Places)
    requires Placed(r, w) && SamePlaces(r, r')
    ensures Placed(r', w)
  {
    forall f: FileId, s: Slot
      ensures At(r', f, s) <==> At(r, f, s)
    {
    }
  }

  function TornDown(w: Places): Places {
    map f | f in w :: if w[f].Pending? || w[f].Staged? then Deleted else w[f]
  }

  lemma TeardownPlaced(r: Registry, w: Places)
    requires Placed(r, w)
    ensures Placed(OnTeardown(r), TornDown(w))
  {
    var r', w' := OnTeardown(r), TornDown(w);
    forall f: FileId, s: Slot
      ensures At(r', f, s) <==> f in w' && w'[f] == s
    {
      assert At(r, f, s) <==> f in w && w[f] == s;
      if f in w {
        assert At(r, f, w[f]);
      }
      if f in PendingFiles(r.pending) {
        var id :| id in r.pending && r.pending[id].file == f;
        assert At(r, f, Pending(id));
      }
      if f in StagedFiles(r.groups) {
        var gid, i :| gid in r.groups && 0 <= i < |r.groups[gid].finished| && r.groups[gid].finished[i] == f;
        assert At(r, f, Staged(gid, i));
      }
    }
  }

  // ---- what every file holds ------------------------------------------------------------------------

  /** What the browser sent for a file, the size it declared and the chunks that have arrived,
      and how the flush at its end went. */
  datatype Sending = Sending(total: U64, bytes: seq<Byte>, flush: Flush)
  type Sendings = map<FileId, Sending>

  function Arrived(r: Registry, d: Sendings, a: Action): Sendings {
    if a.Begin? && Step(r, a).next > r.next then d[r.next := Sending(a.total, [], Flushed)]
    else if a.Chunk? && a.id in r.pending && r.pending[a.id].file in d then
      var f := r.pending[a.id].file;
      d[f := d[f].(bytes := d[f].bytes + a.bytes)]
    else if Completes(r, a) && r.pending[a.id].file in d then
      var f := r.pending[a.id].file;
      d[f := d[f].(flush := a.flush)]
    else d
  }

  /** The end of an upload that has all its bytes. */
  predicate Completes(r: Registry, a: Action) {
    && a.End? && a.id in r.pending && a.status != Frame.PASTE_STATUS_CANCEL
    && r.pending[a.id].written == r.pending[a.id].total
  }

  function Sent(limits: Limits, actions: seq<Action>): Sendings {
    if actions == [] then map[]
    else
      var n := |actions| - 1;
      Arrived(Run(limits, actions[..n]), Sent(limits, actions[..n]), actions[n])
  }

  predicate Kept(s: Slot) {
    s.Staged? || s.Injected?
  }

  /** Every file that exists holds what was sent for it, as far as its flush got that to the
      disk, and one past its end was sent whole. */
  predicate Faithful(r: Registry, w: Places, d: Sendings) {
    && w.Keys == d.Keys
    && (forall f :: f in w && w[f] != Deleted ==> f in r.disk && r.disk[f] == Reached(d[f].bytes, d[f].flush))
    && (forall f :: f in w && Kept(w[f]) ==> |d[f].bytes| == d[f].total)
    && (forall id :: id in r.pending ==>
          var p := r.pending[id];
          && p.file in d && p.total == d[p.file].total <= Frame.MAX_PASTE_TOTAL_BYTES
          && p.written == |d[p.file].bytes| && d[p.file].flush == Flushed)
  }

  ghost predicate Inv(r: Registry, w: Places, d: Sendings) {
    Placed(r, w) && Faithful(r, w, d)
  }

  /** Moving and deleting files changes none of those that are left. */
  lemma FaithfulMove(r: Registry, w: Places, r': Registry, w': Places, d: Sendings)
    requires Faithful(r, w, d) && w'.Keys == w.Keys
    requires forall id :: id in r'.pending ==> id in r.pending && r'.pending[id] == r.pending[id]
    requires forall f :: f in w' && w'[f] != Deleted ==> w[f] != Deleted && f in r'.disk && r'.disk[f] == r.disk[f]
    requires forall f :: f in w' && Kept(w'[f]) ==> Kept(w[f]) || |d[f].bytes| == d[f].total
    ensures Faithful(r', w', d)
  {
  }

  /** A file whose place is not `Deleted` exists. */
  lemma PlacedExists(r: Registry, w: Places, f: FileId)
    requires Placed(r, w) && f in w && w[f] != Deleted
    ensures f in r.disk
  {
    assert At(r, f, Deleted) <==> w[f] == Deleted;
  }

  lemma DropInv(r: Registry, w: Places, d: Sendings, id: U32) returns (w': Places)
    requires Inv(r, w, d) && id in r.pending
    ensures Inv(Drop(r, id), w', d)
  {
    var f0 := r.pending[id].file;
    assert At(r, f0, Pending(id));
    w' := w[f0 := Deleted];
    DropPlaced(r, w, id);
    FaithfulMove(r, w, Drop(r, id), w', d);
  }

  lemma CancelGroupInv(r: Registry, w: Places, d: Sendings, gid: U32) returns (w': Places)
    requires Inv(r, w, d)
    ensures Inv(CancelGroup(r, gid), w', d) && CancelGroup(r, gid).next == r.next
  {
    w' := Emptied(w, gid);
    CancelGroupPlaced(r, w, gid);
    forall f | f in w' && w'[f] != Deleted
      ensures f in CancelGroup(r, gid).disk
    {
      PlacedExists(CancelGroup(r, gid), w', f);
    }
    FaithfulMove(r, w, CancelGroup(r, gid), w', d);
  }

  lemma StageInv(r: Registry, w: Places, d: Sendings, id: U32) returns (w': Places)
    requires Inv(r, w, d) && id in r.pending && r.pending[id].group in r.groups
    requires r.pending[id].written == r.pending[id].total
    ensures Inv(Stage(r, id), w', d)
  {
    var p := r.pending[id];
    assert At(r, p.file, Pending(id));
    w' := w[p.file := Staged(p.group, |r.groups[p.group].finished|)];
    StagePlaced(r, w, id);
    FaithfulMove(r, w, Stage(r, id), w', d);
  }

  lemma InjectGroupInv(r: Registry, w: Places, d: Sendings, gid: U32) returns (w': Places)
    requires Inv(r, w, d) && gid in r.groups
    ensures Inv(InjectGroup(r, gid), w', d)
  {
    w' := Typed(w, gid, |r.injected|);
    InjectGroupPlaced(r, w, gid);
    FaithfulMove(r, w, InjectGroup(r, gid), w', d);
  }

  lemma InjectAloneInv(r: Registry, w: Places, d: Sendings, id: U32) returns (w': Places)
    requires Inv(r, w, d) && id in r.pending && r.pending[id].written == r.pending[id].total
    ensures Inv(InjectAlone(r, id), w', d)
  {
    var f0 := r.pending[id].file;
    assert At(r, f0, Pending(id));
    w' := w[f0 := Injected(|r.injected|, 0)];
    InjectAlonePlaced(r, w, id);
    FaithfulMove(r, w, InjectAlone(r, id), w', d);
  }

  lemma TeardownInv(r: Registry, w: Places, d: Sendings) returns (w': Places)
    requires Inv(r, w, d)
    ensures w' == TornDown(w) && Inv(OnTeardown(r), w', d)
  {
    w' := TornDown(w);
    TeardownPlaced(r, w);
    forall f | f in w' && w'[f] != Deleted
      ensures f in OnTeardown(r).disk
    {
      PlacedExists(OnTeardown(r), w', f);
    }
    FaithfulMove(r, w, OnTeardown(r), w', d);
  }

  lemma OpenedInv(r: Registry, w: Places, d: Sendings, id: U32, total: U64, gid: U32) returns (w': Places)
    requires Inv(r, w, d) && id !in r.pending && gid in r.groups && total <= Frame.MAX_PASTE_TOTAL_BYTES
    ensures Inv(Opened(r, id, total, gid, true), w', d[r.next := Sending(total, [], Flushed)])
  {
    w' := w[r.next := Pending(id)];
    OpenedPlaced(r, w, id, total, gid);
    assert r.next !in w;
  }

  /** Bookkeeping that touches no file. */
  lemma SameInv(r: Registry, r': Registry, w: Places, d: Sendings)
    requires Inv(r, w, d) && SamePlaces(r, r') && r'.pending == r.pending && r'.disk == r.disk
    ensures Inv(r', w, d)
  {
    SamePlaced(r, r', w);
    FaithfulMove(r, w, r', w, d);
  }

  lemma WrittenInv(r: Registry, w: Places, d: Sendings, id: U32, bytes: seq<Byte>)
    requires Inv(r, w, d) && id in r.pending && r.pending[id].written as int + |bytes| <= r.pending[id].total
    ensures var f := r.pending[id].file;
            f in d && Inv(Written(r, id, bytes), w, d[f := d[f].(bytes := d[f].bytes + bytes)])
  {
    var f0 := r.pending[id].file;
    assert At(r, f0, Pending(id));
    SamePlaced(r, Written(r, id, bytes), w);
    forall other | other in r.pending && other != id
      ensures r.pending[other].file != f0
    {
      assert At(r, r.pending[other].file, Pending(other));
    }
  }

  lemma RejectedInv(r: Registry, w: Places, d: Sendings, id: U32, reason: Byte)
    requires Inv(r, w, d)
    ensures Inv(Rejected(r, id, reason), w, d) && Rejected(r, id, reason).next == r.next
  {
    SameInvOf(r, Rejected(r, id, reason), w, d);
  }

  lemma BeginInv(r: Registry, w: Places, d: Sendings, a: Action) returns (w': Places)
    requires Inv(r, w, d) && a.Begin?
    ensures Inv(Step(r, a), w', Arrived(r, d, a))
  {
    hide Inv, SamePlaces, Rejected, CancelGroup, Opened, Declared;
    w' := w;
    if !a.controls {
      RejectedInv(r, w, d, a.id, NOT_CONTROLLER);
    } else if |r.pending| >= r.limits.pastes {
      RejectedInv(r, w, d, a.id, REGISTRY_FULL);
    } else if a.id in r.pending {
      RejectedInv(r, w, d, a.id, DUPLICATE_PASTE);
    } else if a.gid in r.groups {
      if SatAdd(r.groups[a.gid].declared, a.total) > Frame.MAX_PASTE_TOTAL_BYTES {
        w' := CancelGroupInv(r, w, d, a.gid);
        RejectedInv(CancelGroup(r, a.gid), w', d, a.id, GROUP_OVERSIZE);
      } else {
        w' := ExtendedInv(r, w, d, a);
      }
    } else if |r.groups| >= r.limits.groups {
      RejectedInv(r, w, d, a.id, REGISTRY_FULL);
    } else if a.total > Frame.MAX_PASTE_TOTAL_BYTES {
      RejectedInv(r, w, d, a.id, GROUP_OVERSIZE);
    } else {
      w' := AdmittedInv(r, r.(groups := r.groups[a.gid := Group(a.size, [], a.total)]), w, d, a);
    }
  }

  lemma ExtendedInv(r: Registry, w: Places, d: Sendings, a: Action) returns (w': Places)
    requires Inv(r, w, d) && a.Begin? && a.id !in r.pending && a.gid in r.groups
    requires SatAdd(r.groups[a.gid].declared, a.total) <= Frame.MAX_PASTE_TOTAL_BYTES
    ensures var m := Declared(r, a.gid, SatAdd(r.groups[a.gid].declared, a.total));
            var r' := Opened(m, a.id, a.total, a.gid, a.opens);
            Inv(r', w', if r'.next > r.next then d[r.next := Sending(a.total, [], Flushed)] else d)
  {
    hide Inv, Opened;
    w' := AdmittedInv(r, Declared(r, a.gid, SatAdd(r.groups[a.gid].declared, a.total)), w, d, a);
  }

  /** Only groups' declared totals, empty new groups and rejections differ. */
  lemma SameInvOf(r: Registry, r': Registry, w: Places, d: Sendings)
    requires Inv(r, w, d) && r'.(groups := r.groups, rejects := r.rejects) == r
    requires forall gid :: gid in r.groups ==> gid in r'.groups && r'.groups[gid].finished == r.groups[gid].finished
    requires forall gid :: gid in r'.groups && gid !in r.groups ==> r'.groups[gid].finished == []
    ensures Inv(r', w, d)
  {
    hide Inv;
    SameInv(r, r', w, d);
  }

  lemma AdmittedInv(r: Registry, m: Registry, w: Places, d: Sendings, a: Action) returns (w': Places)
    requires Inv(r, w, d) && a.Begin? && a.total <= Frame.MAX_PASTE_TOTAL_BYTES
    requires a.id !in r.pending && a.gid in m.groups
    requires m.(groups := r.groups) == r
    requires forall gid :: gid in r.groups ==> gid in m.groups && m.groups[gid].finished == r.groups[gid].finished
    requires forall gid :: gid in m.groups && gid !in r.groups ==> m.groups[gid].finished == []
    ensures var r' := Opened(m, a.id, a.total, a.gid, a.opens);
            Inv(r', w', if r'.next > r.next then d[r.next := Sending(a.total, [], Flushed)] else d)
  {
    hide Inv;
    SameInvOf(r, m, w, d);
    if a.opens {
      w' := OpenedInv(m, w, d, a.id, a.total, a.gid);
    } else {
      w' := w;
      SameInvOf(m, Opened(m, a.id, a.total, a.gid, false), w, d);
    }
  }

  lemma ChunkInv(r: Registry, w: Places, d: Sendings, a: Action) returns (w': Places)
    requires Inv(r, w, d) && a.Chunk?
    ensures Inv(Step(r, a), w', Arrived(r, d, a))
  {
    w' := w;
    if a.id in r.pending {
      var p := r.pending[a.id];
      if SatAdd(p.written, |a.bytes|) > p.total || !a.writes {
        w' := DropInv(r, w, d, a.id);
        MoreForDeleted(Drop(r, a.id), w', d, p.file, a.bytes);
        SameInvOf(Drop(r, a.id), Step(r, a), w', Arrived(r, d, a));
      } else {
        WrittenInv(r, w, d, a.id, a.bytes);
      }
    }
  }

  /** What arrives for a deleted file matters no more. */
  lemma MoreForDeleted(r: Registry, w: Places, d: Sendings, f: FileId, bytes: seq<Byte>)
    requires Inv(r, w, d) && f in d && f !in r.disk
    ensures Inv(r, w, d[f := d[f].(bytes := d[f].bytes + bytes)])
  {
    assert f in w;
    assert At(r, f, Deleted);
    forall id | id in r.pending
      ensures r.pending[id].file != f
    {
      assert At(r, r.pending[id].file, Pending(id));
    }
  }

  lemma CommittedInv(r: Registry, w: Places, d: Sendings, id: U32, controls: bool) returns (w': Places)
    requires Inv(r, w, d) && id in r.pending && r.pending[id].written == r.pending[id].total
    ensures Inv(Committed(r, id, controls), w', d)
  {
    hide Inv;
    var gid := r.pending[id].group;
    if gid !in r.groups {
      if controls {
        w' := InjectAloneInv(r, w, d, id);
      } else {
        w' := DropInv(r, w, d, id);
      }
    } else {
      w' := StageInv(r, w, d, id);
      var s := Stage(r, id);
      if |s.groups[gid].finished| >= s.groups[gid].size {
        if controls {
          w' := InjectGroupInv(s, w', d, gid);
        } else {
          w' := CancelGroupInv(s, w', d, gid);
        }
      }
    }
  }

  /** Recording a flush of a file that is no longer pending. */
  lemma AfterFlushInv(r: Registry, w: Places, d: Sendings, f: FileId, flush: Flush)
    requires Inv(r, w, d) && f in d && d[f].flush == Flushed
    requires forall id :: id in r.pending ==> r.pending[id].file != f
    ensures Inv(AfterFlush(r, f, flush), w, d[f := d[f].(flush := flush)])
  {
    var r', d' := AfterFlush(r, f, flush), d[f := d[f].(flush := flush)];
    SamePlaced(r, r', w);
    FlushedReaches(d[f].bytes);
    AfterFlushFaithful(r, w, d, f, flush);
  }

  lemma AfterFlushFaithful(r: Registry, w: Places, d: Sendings, f: FileId, flush: Flush)
    requires Faithful(r, w, d) && f in d && Reached(d[f].bytes, d[f].flush) == d[f].bytes
    requires forall id :: id in r.pending ==> r.pending[id].file != f
    ensures Faithful(AfterFlush(r, f, flush), w, d[f := d[f].(flush := flush)])
  {
    hide Reached, Placed;
    var r', d' := AfterFlush(r, f, flush), d[f := d[f].(flush := flush)];
    assert d'.Keys == d.Keys;
    forall g | g in w && w[g] != Deleted
      ensures g in r'.disk && r'.disk[g] == Reached(d'[g].bytes, d'[g].flush)
    {
    }
  }

  lemma FlushedReaches(bytes: seq<Byte>)
    ensures Reached(bytes, Flushed) == bytes
  {
  }

  lemma FilesDiffer(r: Registry, w: Places, d: Sendings, id: U32)
    requires Inv(r, w, d) && id in r.pending
    ensures r.pending[id].file in d && d[r.pending[id].file].flush == Flushed
    ensures forall other :: other in r.pending && other != id ==> r.pending[other].file != r.pending[id].file
  {
    assert At(r, r.pending[id].file, Pending(id));
    forall other | other in r.pending && other != id
      ensures r.pending[other].file != r.pending[id].file
    {
      assert At(r, r.pending[other].file, Pending(other));
    }
  }

  lemma CommittedPending(r: Registry, id: U32, controls: bool)
    requires id in r.pending
    ensures Committed(r, id, controls).pending == r.pending - {id}
  {
  }

  lemma EndInv(r: Registry, w: Places, d: Sendings, a: Action) returns (w': Places)
    requires Inv(r, w, d) && a.End?
    ensures Inv(Step(r, a), w', Arrived(r, d, a))
  {
    hide Inv, Committed, AfterFlush, Drop, CancelGroup, Rejected;
    w' := w;
    if a.id in r.pending {
      var p := r.pending[a.id];
      if a.status == Frame.PASTE_STATUS_CANCEL {
        w' := DropInv(r, w, d, a.id);
        w' := CancelGroupInv(Drop(r, a.id), w', d, p.group);
      } else if p.written != p.total {
        w' := DropInv(r, w, d, a.id);
        RejectedInv(Drop(r, a.id), w', d, a.id, SIZE_MISMATCH);
        w' := CancelGroupInv(Rejected(Drop(r, a.id), a.id, SIZE_MISMATCH), w', d, p.group);
      } else {
        w' := CommittedInv(r, w, d, a.id, a.controls);
        FilesDiffer(r, w, d, a.id);
        CommittedPending(r, a.id, a.controls);
        AfterFlushInv(Committed(r, a.id, a.controls), w', d, p.file, a.flush);
      }
    }
  }

  lemma StepInv(r: Registry, w: Places, d: Sendings, a: Action) returns (w': Places)
    requires Inv(r, w, d)
    ensures Inv(Step(r, a), w', Arrived(r, d, a))
  {
    hide Inv, OnBegin, OnChunk, OnEnd;
    match a
    case Begin(_, _, _, _, _, _) => w' := BeginInv(r, w, d, a);
    case Chunk(_, _, _) => w' := ChunkInv(r, w, d, a);
    case End(_, _, _, _) => w' := EndInv(r, w, d, a);
    case Teardown => w' := TeardownInv(r, w, d);
  }

  lemma {:induction false} RunInv(limits: Limits, actions: seq<Action>) returns (w: Places)
    ensures Inv(Run(limits, actions), w, Sent(limits, actions))
  {
    hide Step, Arrived;
    w := map[];
    if actions != [] {
      var n := |actions| - 1;
      w := RunInv(limits, actions[..n]);
      w := StepInv(Run(limits, actions[..n]), w, Sent(limits, actions[..n]), actions[n]);
    }
  }

  /** After every run of handlers, every file ever opened is in exactly one place: pending
      under one paste id, staged at one position of one group, injected at one position of
      one batch, or deleted. */
  lemma EveryFileInOnePlace(limits: Limits, actions: seq<Action>, f: FileId) returns (s: Slot)
    requires f < Run(limits, actions).next
    ensures forall t: Slot :: At(Run(limits, actions), f, t) <==> t == s
  {
    hide At, Faithful, Run;
    var w := RunInv(limits, actions);
    s := w[f];
  }

  /** An injected file exists. What arrived for its paste, in arrival order and whatever other
      pastes were interleaved, has exactly the size declared for it, and the file holds all of
      that exactly when its flush lost nothing. */
  lemma InjectedFilesAreWhole(limits: Limits, actions: seq<Action>, b: nat, i: nat)
    requires var r := Run(limits, actions); b < |r.injected| && i < |r.injected[b]|
    ensures var r, d := Run(limits, actions), Sent(limits, actions);
            var f := r.injected[b][i];
            && f in r.disk && f in d && |d[f].bytes| == d[f].total
            && r.disk[f] == Reached(d[f].bytes, d[f].flush)
            && (r.disk[f] == d[f].bytes <==> d[f].flush.Flushed? || d[f].flush.kept >= d[f].total)
  {
    hide Run, Sent;
    var w := RunInv(limits, actions);
    assert At(Run(limits, actions), Run(limits, actions).injected[b][i], Injected(b, i));
  }

  /** A registry with one file, 0, uploading under id 1 for group 7 of one. */
  function OneUpload(limits: Limits, written: U64, content: seq<Byte>): Registry {
    Registry(limits, map[1 := Upload(0, 2, written, 7)], map[7 := Group(1, [], 2)], 1, map[0 := content], [], [])
  }

  lemma OneBegin(limits: Limits)
    requires limits.pastes > 0 && limits.groups > 0
    ensures Step(Empty(limits), Begin(1, 2, 7, 1, true, true)) == OneUpload(limits, 0, [])
  {
  }

  lemma OneChunk(limits: Limits, bytes: seq<Byte>)
    requires |bytes| == 2
    ensures Step(OneUpload(limits, 0, []), Chunk(1, bytes, true)) == OneUpload(limits, 2, bytes)
  {
    assert [] + bytes == bytes;
  }

  lemma OneEnd(limits: Limits, bytes: seq<Byte>)
    ensures Step(OneUpload(limits, 2, bytes), End(1, Frame.PASTE_STATUS_OK, true, Short(0))) ==
            Registry(limits, map[], map[], 1, map[0 := []], [[0]], [])
  {
    var r := OneUpload(limits, 2, bytes);
    var s := Stage(r, 1);
    assert [] + [0] == [0] && s.pending == map[] && s.groups == map[7 := Group(1, [0], 2)];
    assert InjectGroup(s, 7) == Registry(limits, map[], map[], 1, map[0 := bytes], [[0]], []);
  }

  /** And one that lost something is typed all the same: two bytes arrive, none reach the disk. */
  lemma ShortFileInjected(limits: Limits, bytes: seq<Byte>)
    requires limits.pastes > 0 && limits.groups > 0 && |bytes| == 2
    ensures var actions := [Begin(1, 2, 7, 1, true, true), Chunk(1, bytes, true),
                            End(1, Frame.PASTE_STATUS_OK, true, Short(0))];
            var r := Run(limits, actions);
            r.injected == [[0]] && r.disk == map[0 := []] && r.rejects == []
  {
    hide Run, Step, OneUpload;
    var actions := [Begin(1, 2, 7, 1, true, true), Chunk(1, bytes, true),
                    End(1, Frame.PASTE_STATUS_OK, true, Short(0))];
    RunNext(limits, actions, 0);
    RunNext(limits, actions, 1);
    RunNext(limits, actions, 2);
    OneBegin(limits);
    OneChunk(limits, bytes);
    OneEnd(limits, bytes);
  }

  lemma RunNext(limits: Limits, actions: seq<Action>, k: nat)
    requires k < |actions|
    ensures Run(limits, actions[..k + 1]) == Step(Run(limits, actions[..k]), actions[k])
    ensures Run(limits, actions[..0]) == Empty(limits) && actions[..|actions|] == actions
  {
    hide Step;
    assert actions[..k + 1][..k] == actions[..k];
  }

  /** Teardown leaves nothing pending and nothing staged: of all the files opened, exactly the
      injected ones remain on disk. */
  lemma TeardownLeavesOnlyInjected(limits: Limits, actions: seq<Action>)
    ensures var r := Run(limits, actions + [Teardown]);
            && r.pending == map[] && r.groups == map[]
            && forall f: FileId :: f in r.disk && f < r.next <==> exists b: nat, i: nat :: At(r, f, Injected(b, i))
  {
    hide Run, Faithful;
    var all := actions + [Teardown];
    var r := Run(limits, all);
    var w := RunInv(limits, all);
    LastStep(limits, actions);
    forall f: FileId
      ensures f in r.disk && f < r.next <==> exists b: nat, i: nat :: At(r, f, Injected(b, i))
    {
      if f in w {
        assert At(r, f, w[f]);
        assert At(r, f, Deleted) <==> w[f] == Deleted;
        assert w[f].Injected? ==> At(r, f, Injected(w[f].batch, w[f].i));
      }
    }
  }

  lemma LastStep(limits: Limits, actions: seq<Action>)
    ensures Run(limits, actions + [Teardown]) == OnTeardown(Run(limits, actions))
  {
  }

  // ---- bounds ------------------------------------------------------------------------------------------

  /** What the decoder guarantees of a begin and of a chunk. */
  predicate Decoded(a: Action) {
    && (a.Begin? ==> a.total <= Frame.MAX_PASTE_TOTAL_BYTES && a.size > 0)
    && (a.Chunk? ==> |a.bytes| <= Frame.MAX_PASTE_CHUNK_BYTES)
  }

  predicate UploadBounded(p: Upload) {
    p.written <= p.total <= Frame.MAX_PASTE_TOTAL_BYTES
  }

  predicate GroupBounded(g: Group) {
    g.declared <= Frame.MAX_PASTE_TOTAL_BYTES && |g.finished| < g.size
  }

  predicate Bounded(r: Registry) {
    && |r.pending| <= r.limits.pastes && |r.groups| <= r.limits.groups
    && (forall id :: id in r.pending ==> UploadBounded(r.pending[id]))
    && (forall gid :: gid in r.groups ==> GroupBounded(r.groups[gid]))
  }

  lemma DropBounded(r: Registry, id: U32)
    requires Bounded(r) && id in r.pending
    ensures Bounded(Drop(r, id))
  {
  }

  lemma CancelGroupBounded(r: Registry, gid: U32)
    requires Bounded(r)
    ensures Bounded(CancelGroup(r, gid))
  {
  }

  lemma OpenedBounded(r: Registry, id: U32, total: U64, gid: U32, ok: bool)
    requires Bounded(r) && |r.pending| < r.limits.pastes && gid in r.groups
    requires total <= Frame.MAX_PASTE_TOTAL_BYTES
    ensures Bounded(Opened(r, id, total, gid, ok))
  {
  }

  lemma RejectedBounded(r: Registry, id: U32, reason: Byte)
    requires Bounded(r)
    ensures Bounded(Rejected(r, id, reason))
  {
  }

  /** Reserving in an existing group, or a new one. */
  lemma ReservedBounded(r: Registry, a: Action)
    requires Bounded(r) && a.Begin? && Decoded(a)
    ensures a.gid in r.groups && SatAdd(r.groups[a.gid].declared, a.total) <= Frame.MAX_PASTE_TOTAL_BYTES ==>
              Bounded(Declared(r, a.gid, SatAdd(r.groups[a.gid].declared, a.total)))
    ensures a.gid !in r.groups && |r.groups| < r.limits.groups ==>
              Bounded(r.(groups := r.groups[a.gid := Group(a.size, [], a.total)]))
  {
  }

  lemma BeginBounded(r: Registry, a: Action)
    requires Bounded(r) && a.Begin? && Decoded(a)
    ensures Bounded(Step(r, a))
  {
    hide Opened, CancelGroup, Bounded, Rejected;
    ReservedBounded(r, a);
    if !a.controls {
      RejectedBounded(r, a.id, NOT_CONTROLLER);
    } else if |r.pending| >= r.limits.pastes {
      RejectedBounded(r, a.id, REGISTRY_FULL);
    } else if a.id in r.pending {
      RejectedBounded(r, a.id, DUPLICATE_PASTE);
    } else if a.gid in r.groups {
      var declared := SatAdd(r.groups[a.gid].declared, a.total);
      if declared > Frame.MAX_PASTE_TOTAL_BYTES {
        CancelGroupBounded(r, a.gid);
        RejectedBounded(CancelGroup(r, a.gid), a.id, GROUP_OVERSIZE);
      } else {
        OpenedBounded(Declared(r, a.gid, declared), a.id, a.total, a.gid, a.opens);
      }
    } else if |r.groups| >= r.limits.groups {
      RejectedBounded(r, a.id, REGISTRY_FULL);
    } else {
      OpenedBounded(r.(groups := r.groups[a.gid := Group(a.size, [], a.total)]), a.id, a.total, a.gid, a.opens);
    }
  }

  lemma ChunkBounded(r: Registry, a: Action)
    requires Bounded(r) && a.Chunk?
    ensures Bounded(Step(r, a))
  {
  }

  lemma CommittedBounded(r: Registry, id: U32, controls: bool)
    requires Bounded(r) && id in r.pending
    ensures Bounded(Committed(r, id, controls))
  {
    hide CancelGroup, Bounded, Drop, InjectAlone, InjectGroup, Stage;
    if r.pending[id].group in r.groups {
      StagedBounded(r, id);
    } else {
      DropBounded(r, id);
      InjectAloneBounded(r, id);
    }
  }

  lemma AfterFlushBounded(r: Registry, f: FileId, flush: Flush)
    requires Bounded(r)
    ensures Bounded(AfterFlush(r, f, flush))
  {
    hide UploadBounded, GroupBounded;
  }

  lemma EndBounded(r: Registry, a: Action)
    requires Bounded(r) && a.End?
    ensures Bounded(Step(r, a))
  {
    hide CancelGroup, Bounded, Drop, Rejected, Committed, AfterFlush;
    if a.id in r.pending {
      var p := r.pending[a.id];
      DropBounded(r, a.id);
      CancelGroupBounded(Drop(r, a.id), p.group);
      RejectedBounded(Drop(r, a.id), a.id, SIZE_MISMATCH);
      CancelGroupBounded(Rejected(Drop(r, a.id), a.id, SIZE_MISMATCH), p.group);
      CommittedBounded(r, a.id, a.controls);
      AfterFlushBounded(Committed(r, a.id, a.controls), p.file, a.flush);
    }
  }

  lemma InjectAloneBounded(r: Registry, id: U32)
    requires Bounded(r) && id in r.pending
    ensures Bounded(InjectAlone(r, id))
  {
  }

  lemma StagedBounded(r: Registry, id: U32)
    requires Bounded(r) && id in r.pending && r.pending[id].group in r.groups
    ensures var s, gid := Stage(r, id), r.pending[id].group;
            && gid in s.groups && (|s.groups[gid].finished| < s.groups[gid].size ==> Bounded(s))
            && Bounded(InjectGroup(s, gid)) && Bounded(CancelGroup(s, gid))
  {
  }

  /** In every reachable state: pending uploads and groups are within their limits, no upload
      holds more than it declared nor declares more than 4 GiB - 1, no group's declared total
      exceeds 4 GiB - 1, and every group still waits for a file. */
  lemma {:induction false} RunBounded(limits: Limits, actions: seq<Action>)
    requires forall i :: 0 <= i < |actions| ==> Decoded(actions[i])
    ensures Bounded(Run(limits, actions))
  {
    hide Bounded, OnBegin, OnChunk, OnEnd;
    if actions == [] {
      EmptyBounded(limits);
    } else {
      var n := |actions| - 1;
      RunBounded(limits, actions[..n]);
      var r := Run(limits, actions[..n]);
      match actions[n]
      case Begin(_, _, _, _, _, _) => BeginBounded(r, actions[n]);
      case Chunk(_, _, _) => ChunkBounded(r, actions[n]);
      case End(_, _, _, _) => EndBounded(r, actions[n]);
      case Teardown => TeardownBounded(r);
    }
  }

  lemma EmptyBounded(limits: Limits)
    ensures Bounded(Empty(limits))
  {
  }

  lemma TeardownBounded(r: Registry)
    ensures Bounded(OnTeardown(r))
  {
  }

  /** So neither addition ever saturates. */
  lemma NothingSaturates(limits: Limits, actions: seq<Action>, a: Action)
    requires (forall i :: 0 <= i < |actions| ==> Decoded(actions[i])) && Decoded(a)
    ensures var r := Run(limits, actions);
            && (a.Begin? && a.gid in r.groups ==>
                  SatAdd(r.groups[a.gid].declared, a.total) == r.groups[a.gid].declared as int + a.total)
            && (a.Chunk? && a.id in r.pending ==>
                  SatAdd(r.pending[a.id].written, |a.bytes|) == r.pending[a.id].written as int + |a.bytes|)
  {
    hide Run;
    RunBounded(limits, actions);
  }

  /** A begin that gets as far as opening its file. */
  predicate Admits(r: Registry, a: Action) {
    && a.Begin? && a.controls && |r.pending| < r.limits.pastes && a.id !in r.pending
    && if a.gid in r.groups then SatAdd(r.groups[a.gid].declared, a.total) <= Frame.MAX_PASTE_TOTAL_BYTES
       else |r.groups| < r.limits.groups && a.total <= Frame.MAX_PASTE_TOTAL_BYTES
  }

  /** A failed open restores an existing group's declared total exactly, so that nothing is
      left of the begin but its rejection; a group created for it stays behind, empty. */
  lemma FailedOpenRestores(r: Registry, a: Action)
    requires Bounded(r) && Decoded(a) && Admits(r, a) && !a.opens
    ensures a.gid in r.groups <==> Step(r, a) == Rejected(r, a.id, OPEN_FAILED)
    ensures a.gid !in r.groups ==>
              Step(r, a) == Rejected(r.(groups := r.groups[a.gid := Group(a.size, [], 0)]), a.id, OPEN_FAILED)
  {
  }

  /** Files reach the terminal only at an end sent by the controller for an upload of exactly
      the declared size, and then as one batch: the whole group in order of completion, as
      many files as the group declared, or that one file if its group is gone. */
  lemma InjectsIff(r: Registry, a: Action)
    requires Bounded(r)
    ensures Step(r, a).injected != r.injected <==>
            && a.End? && a.controls && a.status != Frame.PASTE_STATUS_CANCEL && a.id in r.pending
            && var p := r.pending[a.id];
               && p.written == p.total
               && (p.group in r.groups ==> |r.groups[p.group].finished| + 1 == r.groups[p.group].size)
    ensures Step(r, a).injected != r.injected ==>
            var p := r.pending[a.id];
            Step(r, a).injected ==
            r.injected + [(if p.group in r.groups then r.groups[p.group].finished else []) + [p.file]]
  {
    if a.End? && a.id in r.pending {
      assert [] + [r.pending[a.id].file] == [r.pending[a.id].file];
    }
    assert forall batch: seq<FileId> :: |r.injected + [batch]| == |r.injected| + 1;
  }

  /** The action of a paste frame, with what the surroundings decide. */
  function ActionOf(b: Frame.Body, controls: bool, ok: bool, flush: Flush): Option<Action> {
    match b
    case PasteBegin(id, total, gid, size, _) => Some(Begin(id, total, gid, size, controls, ok))
    case PasteChunk(id, bytes) => Some(Chunk(id, bytes, ok))
    case PasteEnd(id, status) => Some(End(id, status, controls, flush))
    case _ => None
  }

  /** Every paste frame the decoder accepts is within bounds. */
  lemma AcceptedIsDecoded(data: seq<Byte>, controls: bool, ok: bool, flush: Flush)
    requires Transport.FrameFromMessage(data).Ok?
    ensures var a := ActionOf(Transport.FrameFromMessage(data).value.0.body, controls, ok, flush);
            a.Some? ==> Decoded(a.value)
  {
    hide Transport.FrameFromMessage, Frame.Encode;
    Transport.EncodeAfterDecode(data);
  }

  /** The frame that carries an action, on a stream. */
  function FrameOf(sid: U32, a: Action): Frame.Frame
    requires !a.Teardown?
  {
    Frame.Frame(sid,
      match a
      case Begin(id, total, gid, size, _, _) => Frame.PasteBegin(id, total, gid, size, [])
      case Chunk(id, bytes, _) => Frame.PasteChunk(id, bytes)
      case End(id, status, _, _) => Frame.PasteEnd(id, status))
  }

  /** And every action within bounds can arrive in an accepted frame. */
  lemma DecodedIsAccepted(sid: U32, a: Action)
    requires sid != Frame.CONTROL_STREAM && !a.Teardown? && Decoded(a)
    requires a.End? ==> a.status == Frame.PASTE_STATUS_OK || a.status == Frame.PASTE_STATUS_CANCEL
    ensures Transport.FrameFromMessage(Frame.Encode(FrameOf(sid, a))).Ok?
    ensures Transport.FrameFromMessage(Frame.Encode(FrameOf(sid, a))).value.0 == FrameOf(sid, a)
  {
    hide Transport.FrameFromMessage, Frame.Encode;
    Transport.DecodeAfterEncode(FrameOf(sid, a));
  }
}
