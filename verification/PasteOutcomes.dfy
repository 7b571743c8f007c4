/** What each outcome of a paste handler leaves behind: in the two maps, among the files, and of
    each file's place. */
module PasteOutcomes {
  import opened Prelude
  import opened Paste
  import opened PasteSafety

  /** The files that are left are unchanged. */
  predicate SameContents(r: Registry, r': Registry) {
    r'.disk.Keys <= r.disk.Keys && forall f :: f in r'.disk ==> r'.disk[f] == r.disk[f]
  }

  /** Nothing but one more rejection. */
  predicate OnlyRejects(r: Registry, r': Registry, id: U32, reason: Byte) {
    && r'.pending == r.pending && r'.groups == r.groups && r'.disk == r.disk
    && r'.next == r.next && r'.injected == r.injected && r'.rejects == r.rejects + [Reject(id, reason)]
  }

  // ---- a begin ----------------------------------------------------------------------------------

  /** The checks of a begin, each made only if those before it passed. */
  lemma BeginRefused(r: Registry, id: U32, total: U64, gid: U32, size: U32, controls: bool, opens: bool)
    ensures var r' := Step(r, Begin(id, total, gid, size, controls, opens));
            if !controls then OnlyRejects(r, r', id, 6)
            else if |r.pending| >= r.limits.pastes then OnlyRejects(r, r', id, 0)
            else if id in r.pending then OnlyRejects(r, r', id, 4)
            else if gid !in r.groups && |r.groups| >= r.limits.groups then OnlyRejects(r, r', id, 0)
            else if gid !in r.groups && total > 4294967295 then OnlyRejects(r, r', id, 5)
            else true
  {
  }

  /** A begin that would take its group over the cap costs the group what it has finished. The
      group's uploads under way are left alone. */
  lemma BeginOverCap(r: Registry, id: U32, total: U64, gid: U32, size: U32, opens: bool)
    requires |r.pending| < r.limits.pastes && id !in r.pending
    requires gid in r.groups && r.groups[gid].declared as int + total > 4294967295
    ensures var r' := Step(r, Begin(id, total, gid, size, true, opens));
            && r'.pending == r.pending && r'.groups == r.groups - {gid}
            && SameContents(r, r')
            && (forall f :: f in r.disk ==> (f in r'.disk <==> f !in r.groups[gid].finished))
            && r'.next == r.next && r'.injected == r.injected && r'.rejects == r.rejects + [Reject(id, 5)]
  {
    ElementsAre(r.groups[gid].finished);
  }

  /** A begin that passes the checks. */
  predicate Passes(r: Registry, id: U32, total: U64, gid: U32) {
    && |r.pending| < r.limits.pastes && id !in r.pending
    && if gid in r.groups then r.groups[gid].declared as int + total <= 4294967295
       else |r.groups| < r.limits.groups && total <= 4294967295
  }

  function GroupOr(r: Registry, gid: U32, size: U32): Group {
    if gid in r.groups then r.groups[gid] else Group(size, [], 0)
  }

  /** It opens an empty file, pending for the group it is declared to. */
  lemma BeginOpens(r: Registry, id: U32, total: U64, gid: U32, size: U32)
    requires Passes(r, id, total, gid)
    ensures var r', was := Step(r, Begin(id, total, gid, size, true, true)), GroupOr(r, gid, size);
            && r'.injected == r.injected && r'.rejects == r.rejects
            && r'.groups == r.groups[gid := was.(declared := was.declared + total)]
            && r'.pending == r.pending[id := Upload(r.next, total, 0, gid)]
            && r'.disk == r.disk[r.next := []] && r'.next == r.next + 1
  {
  }

  /** If that fails, the group is as before, or is there with nothing declared. */
  lemma BeginFails(r: Registry, id: U32, total: U64, gid: U32, size: U32)
    requires Passes(r, id, total, gid)
    ensures var r' := Step(r, Begin(id, total, gid, size, true, false));
            && r'.injected == r.injected && r'.rejects == r.rejects + [Reject(id, 1)]
            && r'.groups == r.groups[gid := GroupOr(r, gid, size)]
            && r'.pending == r.pending && r'.disk == r.disk && r'.next == r.next
  {
    if gid in r.groups {
      var g := r.groups[gid];
      PutTwice(r.groups, gid, g.(declared := g.declared + total), g);
    } else {
      PutTwice(r.groups, gid, Group(size, [], total), Group(size, [], 0));
    }
  }

  lemma PutTwice<K, V>(m: map<K, V>, k: K, v: V, w: V)
    ensures m[k := v][k := w] == m[k := w]
  {
  }

  lemma ElementsAre<T>(s: seq<T>)
    ensures forall x :: x in Elements(s) <==> x in s
  {
  }

  // ---- a chunk ----------------------------------------------------------------------------------

  /** More than the upload has room for. */
  predicate Overruns(p: Upload, bytes: seq<Byte>) {
    p.written as int + |bytes| > p.total && p.total < 0xFFFF_FFFF_FFFF_FFFF
  }

  /** A chunk that overruns its upload or cannot be written costs the upload and its file; its
      group waits on. */
  lemma ChunkRefused(r: Registry, id: U32, bytes: seq<Byte>, writes: bool)
    requires id in r.pending && (Overruns(r.pending[id], bytes) || !writes)
    ensures var r' := Step(r, Chunk(id, bytes, writes));
            && r'.pending == r.pending - {id} && r'.groups == r.groups
            && r'.disk == r.disk - {r.pending[id].file}
            && r'.next == r.next && r'.injected == r.injected
            && r'.rejects == r.rejects + [Reject(id, if Overruns(r.pending[id], bytes) then 2 else 3)]
  {
  }

  /** Any other chunk is appended to its upload's file and counted, up to what a 64-bit counter
      holds. */
  lemma ChunkAccepted(r: Registry, id: U32, bytes: seq<Byte>)
    requires id in r.pending && !Overruns(r.pending[id], bytes)
    ensures var r', p := Step(r, Chunk(id, bytes, true)), r.pending[id];
            var was := if p.file in r.disk then r.disk[p.file] else [];
            var written := if p.written + |bytes| <= 0xFFFF_FFFF_FFFF_FFFF then p.written + |bytes|
                           else 0xFFFF_FFFF_FFFF_FFFF;
            && r'.pending == r.pending[id := Upload(p.file, p.total, written, p.group)]
            && r'.groups == r.groups && r'.disk == r.disk[p.file := was + bytes]
            && r'.next == r.next && r'.injected == r.injected && r'.rejects == r.rejects
  {
  }

  // ---- an end -----------------------------------------------------------------------------------

  /** An end that calls its upload off, or comes when not all of it has. */
  predicate CallsOff(p: Upload, status: Byte) {
    status == 1 || p.written != p.total
  }

  /** A cancel, or an end with the count wrong, costs the upload, its group, and the files of
      both. Only the wrong count is answered. */
  lemma EndCallsOff(r: Registry, id: U32, status: Byte, controls: bool, flush: Flush)
    requires id in r.pending && CallsOff(r.pending[id], status)
    ensures var r', p := Step(r, End(id, status, controls, flush)), r.pending[id];
            && r'.pending == r.pending - {id} && r'.groups == r.groups - {p.group}
            && SameContents(r, r')
            && (forall f :: f in r.disk ==>
                  (f in r'.disk <==> f != p.file && (p.group in r.groups ==> f !in r.groups[p.group].finished)))
            && r'.next == r.next && r'.injected == r.injected
            && r'.rejects == r.rejects + if status == 1 then [] else [Reject(id, 2)]
  {
    var p := r.pending[id];
    assert r.groups - {p.group} == if p.group in r.groups then r.groups - {p.group} else r.groups;
    assert r.rejects + [] == r.rejects;
    if p.group in r.groups {
      ElementsAre(r.groups[p.group].finished);
    }
  }

  /** The files an upload's end would complete: its group's, with its own last. */
  function Batch(r: Registry, p: Upload): seq<FileId> {
    (if p.group in r.groups then r.groups[p.group].finished else []) + [p.file]
  }

  predicate Waits(r: Registry, p: Upload) {
    p.group in r.groups && |r.groups[p.group].finished| + 1 < r.groups[p.group].size
  }

  /** The end of a whole upload. While the group waits for more, the file joins it. Then the
      group is gone, and the batch is typed for the controller and deleted for anyone else. */
  lemma EndCommits(r: Registry, id: U32, status: Byte, controls: bool, flush: Flush)
    requires id in r.pending && !CallsOff(r.pending[id], status)
    ensures var r', p := Step(r, End(id, status, controls, flush)), r.pending[id];
            && r'.pending == r.pending - {id} && r'.next == r.next && r'.rejects == r.rejects
            && (Waits(r, p) ==>
                  && r'.groups == r.groups[p.group := r.groups[p.group].(finished := Batch(r, p))]
                  && r'.injected == r.injected)
            && (!Waits(r, p) ==>
                  && r'.groups == r.groups - {p.group}
                  && r'.injected == r.injected + if controls then [Batch(r, p)] else [])
  {
    var p := r.pending[id];
    assert r.injected + [] == r.injected && [] + [p.file] == [p.file];
    assert p.group !in r.groups ==> r.groups - {p.group} == r.groups;
    if p.group in r.groups {
      assert r.groups[p.group := r.groups[p.group].(finished := Batch(r, p))] - {p.group} == r.groups - {p.group};
    }
  }

  /** Of the files only the upload's own changes, to what its flush left of it, and only a batch
      that may not be typed is deleted. */
  lemma EndCommitsFiles(r: Registry, id: U32, status: Byte, controls: bool, flush: Flush, f: FileId)
    requires id in r.pending && !CallsOff(r.pending[id], status)
    ensures var r', p := Step(r, End(id, status, controls, flush)), r.pending[id];
            && r'.disk.Keys <= r.disk.Keys
            && (f in r.disk ==> (f in r'.disk <==> controls || Waits(r, p) || f !in Batch(r, p)))
            && (f in r'.disk ==>
                  r'.disk[f] ==
                  if f == p.file && flush.Short? && flush.kept < |r.disk[f]| then r.disk[f][..flush.kept]
                  else r.disk[f])
  {
    var p := r.pending[id];
    CommittedIsSettled(r, id, controls);
    ElementsAre(Batch(r, p));
    if f in r.disk {
      assert r.disk[f][..|r.disk[f]|] == r.disk[f];
    }
  }

  /** A chunk or an end of an unknown upload changes nothing. */
  lemma UnknownUpload(r: Registry, id: U32, bytes: seq<Byte>, writes: bool, status: Byte, controls: bool, flush: Flush)
    requires id !in r.pending
    ensures Step(r, Chunk(id, bytes, writes)) == r && Step(r, End(id, status, controls, flush)) == r
  {
  }

  /** The end of the stream: only what was typed is left. */
  lemma TeardownLeaves(r: Registry, f: FileId)
    ensures var r' := Step(r, Teardown);
            && r'.pending == map[] && r'.groups == map[] && SameContents(r, r')
            && r'.next == r.next && r'.injected == r.injected && r'.rejects == r.rejects
            && (f in r'.disk <==>
                  && f in r.disk && (forall id :: id in r.pending ==> r.pending[id].file != f)
                  && forall gid :: gid in r.groups ==> f !in r.groups[gid].finished)
  {
    if gid :| gid in r.groups && f in r.groups[gid].finished {
      var i :| 0 <= i < |r.groups[gid].finished| && r.groups[gid].finished[i] == f;
      assert f in StagedFiles(r.groups);
    }
  }

  // ---- where each file goes -----------------------------------------------------------------------

  /** Where a step takes the file that is in a place. */
  function NextSlot(r: Registry, a: Action, s: Slot): Slot {
    match a
    case Begin(id, total, gid, _, controls, _) =>
      if controls && |r.pending| < r.limits.pastes && id !in r.pending && gid in r.groups
         && r.groups[gid].declared as int + total > 4294967295 && s.Staged? && s.gid == gid
      then Deleted else s
    case Chunk(id, bytes, writes) =>
      if id in r.pending && (Overruns(r.pending[id], bytes) || !writes) && s == Pending(id) then Deleted else s
    case End(id, status, controls, _) =>
      if id !in r.pending || !(s == Pending(id) || (s.Staged? && s.gid == r.pending[id].group)) then s
      else if CallsOff(r.pending[id], status) then Deleted
      else if Waits(r, r.pending[id]) then
        if s.Staged? then s else Staged(r.pending[id].group, |Batch(r, r.pending[id])| - 1)
      else if !controls then Deleted
      else Injected(|r.injected|, if s.Staged? then s.i else |Batch(r, r.pending[id])| - 1)
    case Teardown => if s.Pending? || s.Staged? then Deleted else s
  }

  /** A file is in one place, and it was opened. */
  lemma PlacedOnce(r: Registry, w: Places, f: FileId, s: Slot, t: Slot)
    requires Placed(r, w) && At(r, f, s)
    ensures f < r.next && (At(r, f, t) <==> t == s)
  {
    hide At;
  }

  lemma StaysAt(r: Registry, r': Registry, id: U32, reason: Byte, f: FileId, s: Slot)
    requires OnlyRejects(r, r', id, reason) && At(r, f, s)
    ensures At(r', f, s)
  {
  }

  lemma OverCapMoves(r: Registry, w: Places, a: Action, f: FileId, s: Slot)
    requires Placed(r, w) && At(r, f, s) && a.Begin? && a.controls
    requires |r.pending| < r.limits.pastes && a.id !in r.pending
    requires a.gid in r.groups && r.groups[a.gid].declared as int + a.total > 4294967295
    ensures At(Step(r, a), f, NextSlot(r, a, s))
  {
    hide Step, Placed;
    PlacedOnce(r, w, f, s, s);
    BeginOverCap(r, a.id, a.total, a.gid, a.size, a.opens);
  }

  lemma OpensMoves(r: Registry, w: Places, a: Action, f: FileId, s: Slot)
    requires Placed(r, w) && At(r, f, s) && a.Begin? && a.controls && Passes(r, a.id, a.total, a.gid)
    ensures At(Step(r, a), f, s)
  {
    hide Step, Placed;
    PlacedOnce(r, w, f, s, s);
    if a.opens {
      BeginOpens(r, a.id, a.total, a.gid, a.size);
    } else {
      BeginFails(r, a.id, a.total, a.gid, a.size);
    }
  }

  lemma BeginMoves(r: Registry, w: Places, a: Action, f: FileId, s: Slot)
    requires Placed(r, w) && At(r, f, s) && a.Begin?
    ensures At(Step(r, a), f, NextSlot(r, a, s))
  {
    hide Step, Placed, At, OnlyRejects;
    if a.controls && Passes(r, a.id, a.total, a.gid) {
      OpensMoves(r, w, a, f, s);
    } else if a.controls && |r.pending| < r.limits.pastes && a.id !in r.pending && a.gid in r.groups {
      OverCapMoves(r, w, a, f, s);
    } else {
      BeginRefused(r, a.id, a.total, a.gid, a.size, a.controls, a.opens);
      var reason :| OnlyRejects(r, Step(r, a), a.id, reason);
      StaysAt(r, Step(r, a), a.id, reason, f, s);
    }
  }

  lemma ChunkMoves(r: Registry, w: Places, a: Action, f: FileId, s: Slot)
    requires Placed(r, w) && At(r, f, s) && a.Chunk?
    ensures At(Step(r, a), f, NextSlot(r, a, s))
  {
    if a.id in r.pending {
      var file := r.pending[a.id].file;
      assert At(r, file, Pending(a.id));
      PlacedOnce(r, w, file, Pending(a.id), s);
      PlacedOnce(r, w, f, s, Pending(a.id));
    }
  }

  lemma CallOffMoves(r: Registry, w: Places, a: Action, f: FileId, s: Slot)
    requires Placed(r, w) && At(r, f, s) && a.End? && a.id in r.pending && CallsOff(r.pending[a.id], a.status)
    ensures At(Step(r, a), f, NextSlot(r, a, s))
  {
    hide Step, Placed;
    EndCallsOff(r, a.id, a.status, a.controls, a.flush);
    var p := r.pending[a.id];
    PlacedOnce(r, w, f, s, s);
    assert At(r, p.file, Pending(a.id));
    PlacedOnce(r, w, f, s, Pending(a.id));
    if p.group in r.groups && f in r.groups[p.group].finished {
      var i :| 0 <= i < |r.groups[p.group].finished| && r.groups[p.group].finished[i] == f;
      PlacedOnce(r, w, f, s, Staged(p.group, i));
    }
  }

  lemma InBatch(r: Registry, w: Places, id: U32, f: FileId, s: Slot)
    requires Placed(r, w) && At(r, f, s) && id in r.pending
    ensures var p := r.pending[id];
            f in Batch(r, p) <==> s == Pending(id) || (s.Staged? && s.gid == p.group)
  {
    hide Placed;
    var p := r.pending[id];
    var finished := if p.group in r.groups then r.groups[p.group].finished else [];
    assert forall x :: x in finished + [p.file] <==> x in finished || x == p.file;
    assert At(r, p.file, Pending(id));
    PlacedOnce(r, w, f, s, Pending(id));
    if f in finished {
      var i :| 0 <= i < |finished| && finished[i] == f;
      PlacedOnce(r, w, f, s, Staged(p.group, i));
    }
  }

  lemma CommitMoves(r: Registry, w: Places, a: Action, f: FileId, s: Slot)
    requires Placed(r, w) && At(r, f, s) && a.End? && a.id in r.pending && !CallsOff(r.pending[a.id], a.status)
    ensures At(Step(r, a), f, NextSlot(r, a, s))
  {
    hide Step, Placed;
    var p := r.pending[a.id];
    EndCommits(r, a.id, a.status, a.controls, a.flush);
    PlacedOnce(r, w, f, s, s);
    PlacedOnce(r, w, f, s, Deleted);
    assert At(r, p.file, Pending(a.id));
    PlacedOnce(r, w, f, s, Pending(a.id));
    InBatch(r, w, a.id, f, s);
    EndCommitsFiles(r, a.id, a.status, a.controls, a.flush, f);
  }

  lemma TeardownMoves(r: Registry, w: Places, f: FileId, s: Slot)
    requires Placed(r, w) && At(r, f, s)
    ensures At(Step(r, Teardown), f, NextSlot(r, Teardown, s))
  {
    PlacedOnce(r, w, f, s, s);
    if s.Injected? {
      forall id | id in r.pending
        ensures r.pending[id].file != f
      {
        PlacedOnce(r, w, f, s, Pending(id));
      }
      forall gid, i | gid in r.groups && 0 <= i < |r.groups[gid].finished|
        ensures r.groups[gid].finished[i] != f
      {
        PlacedOnce(r, w, f, s, Staged(gid, i));
      }
    }
  }

  /** Every step takes every file where it should, and only there: a refusal or a cancel deletes
      its own files and no others. */
  lemma FilesMove(limits: Limits, actions: seq<Action>, a: Action, f: FileId, s: Slot)
    requires At(Run(limits, actions), f, s)
    ensures At(Step(Run(limits, actions), a), f, NextSlot(Run(limits, actions), a, s))
  {
    hide Run, Faithful, Step, At, Placed;
    var w := RunInv(limits, actions);
    var r := Run(limits, actions);
    match a
    case Begin(_, _, _, _, _, _) => BeginMoves(r, w, a, f, s);
    case Chunk(_, _, _) => ChunkMoves(r, w, a, f, s);
    case End(id, status, _, _) =>
      if id !in r.pending {
        UnknownUpload(r, id, [], true, status, a.controls, a.flush);
      } else if CallsOff(r.pending[id], status) {
        CallOffMoves(r, w, a, f, s);
      } else {
        CommitMoves(r, w, a, f, s);
      }
    case Teardown => TeardownMoves(r, w, f, s);
  }
}
