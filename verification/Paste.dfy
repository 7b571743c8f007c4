/** One stream's paste registry: files being uploaded in chunks, gathered into groups, and
    typed into the terminal as one batch when a group is complete. Each handler runs to
    completion before the next one starts. */
module Paste {
  import opened Prelude
  import Frame

  const REGISTRY_FULL: Byte := 0
  const OPEN_FAILED: Byte := 1
  const SIZE_MISMATCH: Byte := 2
  const WRITE_FAILED: Byte := 3
  const DUPLICATE_PASTE: Byte := 4
  const GROUP_OVERSIZE: Byte := 5
  const NOT_CONTROLLER: Byte := 6

  /** Opened files are numbered in the order they were opened. */
  type FileId = nat

  datatype Upload = Upload(file: FileId, total: U64, written: U64, group: U32)
  datatype Group = Group(size: U32, finished: seq<FileId>, declared: U64)
  datatype Reject = Reject(pasteId: U32, reason: Byte)
  datatype Limits = Limits(pastes: nat, groups: nat)

  /** The flush at the end of an upload. When it fails, only the first `kept` bytes, if there are
      that many, have reached the disk. */
  datatype Flush = Flushed | Short(kept: nat)

  /** The two maps of the stream's task, the files it has opened that still exist, the batches
      typed into the terminal, and the rejections sent. */
  datatype Registry = Registry(
    limits: Limits, pending: map<U32, Upload>, groups: map<U32, Group>,
    next: FileId, disk: map<FileId, seq<Byte>>, injected: seq<seq<FileId>>, rejects: seq<Reject>)

  function SatAdd(a: nat, b: nat): U64 {
    Min(a + b, 0xFFFF_FFFF_FFFF_FFFF)
  }

  function SatSub(a: U64, b: U64): U64 {
    if a >= b then a - b else 0
  }

  function Elements<T>(s: seq<T>): set<T> {
    set i | 0 <= i < |s| :: s[i]
  }

  function Empty(limits: Limits): Registry {
    Registry(limits, map[], map[], 0, map[], [], [])
  }

  // ---- the moves a handler makes ----------------------------------------------------------

  function Rejected(r: Registry, pasteId: U32, reason: Byte): Registry {
    r.(rejects := r.rejects + [Reject(pasteId, reason)])
  }

  /** Forget an upload and delete its file. */
  function Drop(r: Registry, id: U32): Registry
    requires id in r.pending
  {
    r.(pending := r.pending - {id}, disk := r.disk - {r.pending[id].file})
  }

  /** Forget a group and delete the files finished in it. */
  function CancelGroup(r: Registry, gid: U32): Registry {
    if gid !in r.groups then r
    else r.(groups := r.groups - {gid}, disk := r.disk - Elements(r.groups[gid].finished))
  }

  /** An upload is complete: its file joins its group. */
  function Stage(r: Registry, id: U32): Registry
    requires id in r.pending && r.pending[id].group in r.groups
  {
    var p := r.pending[id];
    var g := r.groups[p.group];
    r.(pending := r.pending - {id}, groups := r.groups[p.group := g.(finished := g.finished + [p.file])])
  }

  function InjectGroup(r: Registry, gid: U32): Registry
    requires gid in r.groups
  {
    r.(groups := r.groups - {gid}, injected := r.injected + [r.groups[gid].finished])
  }

  function InjectAlone(r: Registry, id: U32): Registry
    requires id in r.pending
  {
    r.(pending := r.pending - {id}, injected := r.injected + [[r.pending[id].file]])
  }

  function Written(r: Registry, id: U32, bytes: seq<Byte>): Registry
    requires id in r.pending
  {
    var p := r.pending[id];
    var was := if p.file in r.disk then r.disk[p.file] else [];
    r.(pending := r.pending[id := p.(written := SatAdd(p.written, |bytes|))], disk := r.disk[p.file := was + bytes])
  }

  function Declared(r: Registry, gid: U32, declared: U64): Registry
    requires gid in r.groups
  {
    r.(groups := r.groups[gid := r.groups[gid].(declared := declared)])
  }

  /** `open_paste_file` yields a fresh file or fails; a failure takes the declaration back. */
  function Opened(r: Registry, id: U32, total: U64, gid: U32, ok: bool): Registry
    requires gid in r.groups
  {
    if ok then
      r.(pending := r.pending[id := Upload(r.next, total, 0, gid)], next := r.next + 1, disk := r.disk[r.next := []])
    else Rejected(Declared(r, gid, SatSub(r.groups[gid].declared, total)), id, OPEN_FAILED)
  }

  // ---- the handlers -------------------------------------------------------------------------

  datatype Action =
    | Begin(id: U32, total: U64, gid: U32, size: U32, controls: bool, opens: bool)
    | Chunk(id: U32, bytes: seq<Byte>, writes: bool)
    | End(id: U32, status: Byte, controls: bool, flush: Flush)
    | Teardown

  function OnBegin(r: Registry, id: U32, total: U64, gid: U32, size: U32, controls: bool, opens: bool): Registry {
    if !controls then Rejected(r, id, NOT_CONTROLLER)
    else if |r.pending| >= r.limits.pastes then Rejected(r, id, REGISTRY_FULL)
    else if id in r.pending then Rejected(r, id, DUPLICATE_PASTE)
    else if gid in r.groups then
      var declared := SatAdd(r.groups[gid].declared, total);
      if declared > Frame.MAX_PASTE_TOTAL_BYTES then Rejected(CancelGroup(r, gid), id, GROUP_OVERSIZE)
      else Opened(Declared(r, gid, declared), id, total, gid, opens)
    else if |r.groups| >= r.limits.groups then Rejected(r, id, REGISTRY_FULL)
    else if total > Frame.MAX_PASTE_TOTAL_BYTES then Rejected(r, id, GROUP_OVERSIZE)
    else Opened(r.(groups := r.groups[gid := Group(size, [], total)]), id, total, gid, opens)
  }

  function OnChunk(r: Registry, id: U32, bytes: seq<Byte>, writes: bool): Registry {
    if id !in r.pending then r
    else if SatAdd(r.pending[id].written, |bytes|) > r.pending[id].total then Rejected(Drop(r, id), id, SIZE_MISMATCH)
    else if !writes then Rejected(Drop(r, id), id, WRITE_FAILED)
    else Written(r, id, bytes)
  }

  /** A complete upload joins its group, which is typed or dropped when that fills it; without
      a group it is typed, or dropped, alone. */
  function Committed(r: Registry, id: U32, controls: bool): Registry
    requires id in r.pending
  {
    var gid := r.pending[id].group;
    if gid !in r.groups then
      if controls then InjectAlone(r, id) else Drop(r, id)
    else
      var s := Stage(r, id);
      if |s.groups[gid].finished| < s.groups[gid].size then s
      else if controls then InjectGroup(s, gid)
      else CancelGroup(s, gid)
  }

  function Reached(bytes: seq<Byte>, flush: Flush): seq<Byte> {
    if flush.Short? then bytes[..Min(flush.kept, |bytes|)] else bytes
  }

  /** A file, if it still exists, keeps what its flush got to the disk. */
  function AfterFlush(r: Registry, f: FileId, flush: Flush): Registry {
    if f in r.disk then r.(disk := r.disk[f := Reached(r.disk[f], flush)]) else r
  }

  /** A failed flush is not acted upon. */
  function OnEnd(r: Registry, id: U32, status: Byte, controls: bool, flush: Flush): Registry {
    if id !in r.pending then r
    else
      var p := r.pending[id];
      if status == Frame.PASTE_STATUS_CANCEL then CancelGroup(Drop(r, id), p.group)
      else if p.written != p.total then CancelGroup(Rejected(Drop(r, id), id, SIZE_MISMATCH), p.group)
      else AfterFlush(Committed(r, id, controls), p.file, flush)
  }

  function PendingFiles(pending: map<U32, Upload>): set<FileId> {
    set id | id in pending :: pending[id].file
  }

  function StagedFiles(groups: map<U32, Group>): set<FileId> {
    set gid, i | gid in groups && 0 <= i < |groups[gid].finished| :: groups[gid].finished[i]
  }

  function OnTeardown(r: Registry): Registry {
    r.(pending := map[], groups := map[], disk := r.disk - PendingFiles(r.pending) - StagedFiles(r.groups))
  }

  function Step(r: Registry, a: Action): Registry {
    match a
    case Begin(id, total, gid, size, controls, opens) => OnBegin(r, id, total, gid, size, controls, opens)
    case Chunk(id, bytes, writes) => OnChunk(r, id, bytes, writes)
    case End(id, status, controls, flush) => OnEnd(r, id, status, controls, flush)
    case Teardown => OnTeardown(r)
  }

  function Run(limits: Limits, actions: seq<Action>): Registry {
    if actions == [] then Empty(limits)
    else Step(Run(limits, actions[..|actions| - 1]), actions[|actions| - 1])
  }

  lemma MapSizes<K, V>(m: map<K, V>, k: K, v: V)
    ensures |m - {k}| <= |m|
    ensures |m[k := v]| == if k in m then |m| else |m| + 1
    ensures k in m ==> |m - {k}| == |m| - 1
  {
  }

  // ---- the handlers as written ---------------------------------------------------------------------------

  class PasteRegistry {
    const limits: Limits
    var pending: map<U32, Upload>
    var groups: map<U32, Group>
    var next: FileId
    var disk: map<FileId, seq<Byte>>
    var injected: seq<seq<FileId>>
    var rejects: seq<Reject>

    ghost function Model(): Registry
      reads this
    {
      Registry(limits, pending, groups, next, disk, injected, rejects)
    }

    constructor (limits: Limits)
      ensures Model() == Empty(limits)
    {
      this.limits := limits;
      pending, groups, next := map[], map[], 0;
      disk, injected, rejects := map[], [], [];
    }

    method SendReject(id: U32, reason: Byte)
      modifies this`rejects
      ensures rejects == old(rejects) + [Reject(id, reason)]
    {
      rejects := rejects + [Reject(id, reason)];
    }

    method RemoveFiles(paths: seq<FileId>)
      modifies this`disk
      ensures disk == old(disk) - Elements(paths)
    {
      for k := 0 to |paths|
        invariant disk == old(disk) - Elements(paths[..k])
      {
        assert Elements(paths[..k + 1]) == Elements(paths[..k]) + {paths[k]} by {
          assert forall i :: 0 <= i < k ==> paths[..k + 1][i] == paths[..k][i];
          assert paths[..k + 1][k] == paths[k];
        }
        disk := disk - {paths[k]};
      }
      assert paths[..|paths|] == paths;
    }

    method HandlePasteBegin(id: U32, total: U64, gid: U32, size: U32, controls: bool, opens: bool)
      modifies this
      ensures Model() == OnBegin(old(Model()), id, total, gid, size, controls, opens)
    {
      if !controls {
        SendReject(id, NOT_CONTROLLER);
        return;
      }
      if |pending| >= limits.pastes {
        SendReject(id, REGISTRY_FULL);
        return;
      }
      if id in pending {
        SendReject(id, DUPLICATE_PASTE);
        return;
      }
      if gid in groups {
        var g := groups[gid];
        var declared := SatAdd(g.declared, total);
        if declared > Frame.MAX_PASTE_TOTAL_BYTES {
          groups := groups - {gid};
          RemoveFiles(g.finished);
          SendReject(id, GROUP_OVERSIZE);
          return;
        }
        groups := groups[gid := g.(declared := declared)];
      } else {
        if |groups| >= limits.groups {
          SendReject(id, REGISTRY_FULL);
          return;
        }
        if total > Frame.MAX_PASTE_TOTAL_BYTES {
          SendReject(id, GROUP_OVERSIZE);
          return;
        }
        groups := groups[gid := Group(size, [], total)];
      }
      if opens {
        disk := disk[next := []];
        pending := pending[id := Upload(next, total, 0, gid)];
        next := next + 1;
      } else {
        groups := groups[gid := groups[gid].(declared := SatSub(groups[gid].declared, total))];
        SendReject(id, OPEN_FAILED);
      }
    }

    method HandlePasteChunk(id: U32, bytes: seq<Byte>, writes: bool)
      modifies this
      ensures Model() == OnChunk(old(Model()), id, bytes, writes)
    {
      if id !in pending {
        return;
      }
      var p := pending[id];
      if SatAdd(p.written, |bytes|) > p.total {
        pending := pending - {id};
        disk := disk - {p.file};
        SendReject(id, SIZE_MISMATCH);
        return;
      }
      if !writes {
        pending := pending - {id};
        disk := disk - {p.file};
        SendReject(id, WRITE_FAILED);
        return;
      }
      var was := if p.file in disk then disk[p.file] else [];
      disk := disk[p.file := was + bytes];
      pending := pending[id := p.(written := SatAdd(p.written, |bytes|))];
    }

    /** Forget a group, if there is one, and delete what was finished in it. */
    method CancelPasteGroup(gid: U32)
      modifies this`groups, this`disk
      ensures Model() == CancelGroup(old(Model()), gid)
    {
      if gid in groups {
        var paths := groups[gid].finished;
        groups := groups - {gid};
        RemoveFiles(paths);
      }
    }

    method InjectPastePaths(paths: seq<FileId>, controls: bool)
      modifies this`disk, this`injected
      ensures disk == if controls then old(disk) else old(disk) - Elements(paths)
      ensures injected == if controls then old(injected) + [paths] else old(injected)
    {
      if !controls {
        RemoveFiles(paths);
        return;
      }
      injected := injected + [paths];
    }

    method HandlePasteEnd(id: U32, status: Byte, controls: bool, flush: Flush)
      modifies this
      ensures Model() == OnEnd(old(Model()), id, status, controls, flush)
    {
      hide CancelGroup, AfterFlush, Committed, Settled;
      if id !in pending {
        return;
      }
      var p := pending[id];
      pending := pending - {id};
      if status == Frame.PASTE_STATUS_CANCEL {
        disk := disk - {p.file};
        CancelPasteGroup(p.group);
        return;
      }
      if p.written != p.total {
        disk := disk - {p.file};
        SendReject(id, SIZE_MISMATCH);
        CancelPasteGroup(p.group);
        return;
      }
      FlushFile(p.file, flush);
      StageAndInject(p.file, p.group, controls);
      CommittedIsSettled(old(Model()), id, controls);
      FlushSettled(old(Model()).(pending := pending), p.file, p.group, controls, flush);
    }

    /** `flush`, whose failure is only logged. */
    method FlushFile(file: FileId, flush: Flush)
      modifies this`disk
      ensures Model() == AfterFlush(old(Model()), file, flush)
    {
      if file in disk {
        disk := disk[file := Reached(disk[file], flush)];
      }
    }

    /** The block of `handle_paste_end` that pushes a committed path and drains a full group. */
    method StageAndInject(file: FileId, gid: U32, controls: bool)
      modifies this`groups, this`disk, this`injected
      ensures Model() == Settled(old(Model()), file, gid, controls)
    {
      if gid !in groups {
        assert groups - {gid} == groups && [] + [file] == [file];
        InjectPastePaths([file], controls);
        return;
      }
      var g := groups[gid];
      var finished := g.finished + [file];
      if |finished| >= g.size {
        groups := groups - {gid};
        InjectPastePaths(finished, controls);
      } else {
        groups := groups[gid := g.(finished := finished)];
      }
    }

    method DrainPastes()
      modifies this`pending, this`disk
      ensures pending == map[] && disk == old(disk) - PendingFiles(old(pending))
    {
      while pending != map[]
        invariant disk - PendingFiles(pending) == old(disk) - PendingFiles(old(pending))
        decreases |pending|
      {
        var id :| id in pending;
        var p := pending[id];
        PendingSplit(pending, id);
        MapSizes(pending, id, p);
        pending := pending - {id};
        disk := disk - {p.file};
      }
      assert disk - PendingFiles(pending) == disk;
    }

    method DrainGroups()
      modifies this`groups, this`disk
      ensures groups == map[] && disk == old(disk) - StagedFiles(old(groups))
    {
      while groups != map[]
        invariant disk - StagedFiles(groups) == old(disk) - StagedFiles(old(groups))
        decreases |groups|
      {
        var gid :| gid in groups;
        var g := groups[gid];
        StagedSplit(groups, gid);
        MapSizes(groups, gid, g);
        groups := groups - {gid};
        RemoveFiles(g.finished);
      }
      assert disk - StagedFiles(groups) == disk;
    }

    /** The end of the stream's task. */
    method TearDown()
      modifies this`pending, this`groups, this`disk
      ensures Model() == OnTeardown(old(Model()))
    {
      DrainPastes();
      DrainGroups();
    }
  }

  /** What pushing a finished file onto its group leads to. */
  function Settled(r: Registry, file: FileId, gid: U32, controls: bool): Registry {
    if gid in r.groups && |r.groups[gid].finished| + 1 < r.groups[gid].size then
      r.(groups := r.groups[gid := r.groups[gid].(finished := r.groups[gid].finished + [file])])
    else
      var batch := (if gid in r.groups then r.groups[gid].finished else []) + [file];
      var groups := r.groups - {gid};
      if controls then r.(groups := groups, injected := r.injected + [batch])
      else r.(groups := groups, disk := r.disk - Elements(batch))
  }

  lemma CommittedIsSettled(r: Registry, id: U32, controls: bool)
    requires id in r.pending
    ensures var p := r.pending[id];
            Settled(r.(pending := r.pending - {id}), p.file, p.group, controls) == Committed(r, id, controls)
  {
    var p := r.pending[id];
    if p.group in r.groups {
      var s := Stage(r, id);
      assert s.groups - {p.group} == r.groups - {p.group};
    } else {
      assert r.groups - {p.group} == r.groups && [] + [p.file] == [p.file];
      assert Elements([p.file]) == {p.file} by {
        assert [p.file][0] == p.file;
      }
    }
  }

  /** Flushing before or after the file is settled comes to the same. */
  lemma FlushSettled(r: Registry, file: FileId, gid: U32, controls: bool, flush: Flush)
    ensures Settled(AfterFlush(r, file, flush), file, gid, controls) ==
            AfterFlush(Settled(r, file, gid, controls), file, flush)
  {
    hide Reached;
    var batch := (if gid in r.groups then r.groups[gid].finished else []) + [file];
    assert file in Elements(batch) by {
      assert batch[|batch| - 1] == file;
    }
    if file in r.disk {
      var disk := r.disk[file := Reached(r.disk[file], flush)];
      assert disk - Elements(batch) == r.disk - Elements(batch);
    }
  }

  lemma PendingSplit(pending: map<U32, Upload>, id: U32)
    requires id in pending
    ensures PendingFiles(pending) == PendingFiles(pending - {id}) + {pending[id].file}
  {
    var rest := pending - {id};
    forall k | k in pending
      ensures pending[k].file in PendingFiles(rest) + {pending[id].file}
    {
      if k != id {
        assert rest[k].file in PendingFiles(rest);
      }
    }
    forall k | k in rest
      ensures rest[k].file in PendingFiles(pending)
    {
      assert pending[k].file == rest[k].file;
    }
  }

  lemma StagedSplit(groups: map<U32, Group>, gid: U32)
    requires gid in groups
    ensures StagedFiles(groups) == StagedFiles(groups - {gid}) + Elements(groups[gid].finished)
  {
    var rest := groups - {gid};
    forall g, i | g in groups && 0 <= i < |groups[g].finished|
      ensures groups[g].finished[i] in StagedFiles(rest) + Elements(groups[gid].finished)
    {
      if g != gid {
        assert rest[g].finished[i] in StagedFiles(rest);
      }
    }
    forall g, i | g in rest && 0 <= i < |rest[g].finished|
      ensures rest[g].finished[i] in StagedFiles(groups)
    {
      assert groups[g].finished[i] == rest[g].finished[i];
    }
  }
}
