/** A tab that reconnects to another session: download ids count up per session and a tab never
    clears its buffers, so what one session left behind meets the other's events. Exactly which
    carried buffers do harm. */
module Carried {
  import opened Prelude
  import opened Broadcast
  import opened Download
  import opened Tab
  import Frame
  import Utf8

  // ---- the buffers a tab can carry ------------------------------------------------------------------

  /** A buffer holds what its counter says, no more than was declared, and no more was declared
      than a tab accepts. */
  predicate Consistent(carried: map<U32, Buffer>) {
    forall id :: id in carried ==>
      carried[id].received == Sum(carried[id].chunks) <= carried[id].total <= MAX_DOWNLOAD_TOTAL_BYTES
  }

  lemma DeliverConsistent(s: TabState, e: Event)
    requires Consistent(s.downloads)
    ensures Consistent(Deliver(s, e).downloads)
  {
    hide Deliver, SavedName, Sum;
    match e
    case Begin(id, total, name) =>
      DeliverBegin(s, id, total, name);
      NoSum();
    case Chunk(id, bytes) =>
      DeliverChunk(s, id, bytes);
      if id in s.downloads {
        SumSnoc(s.downloads[id].chunks, bytes);
      }
    case End(id, status) => DeliverEnd(s, id, status);
  }

  /** Whatever events a tab was handed, its buffers are such. */
  lemma {:induction false} TabsAreConsistent(s: TabState, es: seq<Event>)
    requires Consistent(s.downloads)
    ensures Consistent(DeliverAll(s, es).downloads)
    decreases |es|
  {
    hide Consistent, Deliver;
    if es != [] {
      DeliverConsistent(s, es[0]);
      TabsAreConsistent(Deliver(s, es[0]), es[1..]);
    }
  }

  // ---- what is beside the carried ids is untouched ------------------------------------------------

  /** Files saved under other ids than some. */
  function SavedBeside(files: seq<Saved>, ids: set<U32>): seq<Saved> {
    if files == [] then []
    else
      var n := |files| - 1;
      SavedBeside(files[..n], ids) + if files[n].id in ids then [] else [files[n]]
  }

  /** What a tab holds and has saved beside some ids. */
  function Beside(s: TabState, ids: set<U32>): TabState {
    TabState(s.downloads - ids, SavedBeside(s.saved, ids))
  }

  lemma SavedBesideSnoc(files: seq<Saved>, f: Saved, ids: set<U32>)
    ensures SavedBeside(files + [f], ids) == SavedBeside(files, ids) + if f.id in ids then [] else [f]
  {
    assert (files + [f])[..|files|] == files;
  }

  lemma {:induction false} BesideHasAll(files: seq<Saved>, ids: set<U32>, k: nat)
    requires k < |files| && files[k].id !in ids
    ensures files[k] in SavedBeside(files, ids)
  {
    if k < |files| - 1 {
      BesideHasAll(files[..|files| - 1], ids, k);
    }
  }

  lemma FewerBeside<V>(m: map<U32, V>, ids: set<U32>)
    ensures |m - ids| <= |m|
  {
    assert (m - ids).Keys <= m.Keys;
    SubsetSize((m - ids).Keys, m.Keys);
    assert |m - ids| == |(m - ids).Keys| && |m| == |m.Keys|;
  }

  lemma PutBeside<V>(m: map<U32, V>, ids: set<U32>, id: U32, v: V)
    ensures m[id := v] - ids == if id in ids then m - ids else (m - ids)[id := v]
  {
    var r := if id in ids then m - ids else (m - ids)[id := v];
    assert (m[id := v] - ids).Keys == r.Keys;
  }

  lemma DropBeside<V>(m: map<U32, V>, ids: set<U32>, id: U32)
    ensures (m - {id}) - ids == if id in ids then m - ids else (m - ids) - {id}
  {
    var r := if id in ids then m - ids else (m - ids) - {id};
    assert ((m - {id}) - ids).Keys == r.Keys;
  }

  /** An event leaves what is beside the ids alone, or does there what it would do without
      them. (Their buffers count against the limit, so a begin may be refused.) */
  lemma DeliverBeside(s: TabState, e: Event, ids: set<U32>)
    ensures Beside(Deliver(s, e), ids) == Beside(s, ids) || Beside(Deliver(s, e), ids) == Deliver(Beside(s, ids), e)
  {
    hide Deliver;
    match e
    case Begin(id, total, name) => BeginBeside(s, id, total, name, ids);
    case Chunk(id, bytes) => ChunkBeside(s, id, bytes, ids);
    case End(id, status) => EndBeside(s, id, status, ids);
  }

  lemma BeginBeside(s: TabState, id: U32, total: U64, name: Utf8.Str, ids: set<U32>)
    ensures var e := Begin(id, total, name);
            Beside(Deliver(s, e), ids) == Beside(s, ids) || Beside(Deliver(s, e), ids) == Deliver(Beside(s, ids), e)
  {
    hide Deliver, SavedName, SavedBeside;
    DeliverBegin(s, id, total, name);
    DeliverBegin(Beside(s, ids), id, total, name);
    FewerBeside(s.downloads, ids);
    PutBeside(s.downloads, ids, id, Buffer(SavedName(name), total, 0, []));
  }

  lemma ChunkBeside(s: TabState, id: U32, bytes: seq<Byte>, ids: set<U32>)
    ensures var e := Chunk(id, bytes);
            Beside(Deliver(s, e), ids) == Beside(s, ids) || Beside(Deliver(s, e), ids) == Deliver(Beside(s, ids), e)
  {
    hide Deliver, SavedName, SavedBeside;
    DeliverChunk(s, id, bytes);
    if id in s.downloads {
      var dl := s.downloads[id];
      if dl.received + |bytes| > dl.total {
        DropBeside(s.downloads, ids, id);
      } else {
        PutBeside(s.downloads, ids, id, dl.(received := dl.received + |bytes|, chunks := dl.chunks + [bytes]));
      }
      if id !in ids {
        DeliverChunk(Beside(s, ids), id, bytes);
      }
    }
  }

  lemma EndBeside(s: TabState, id: U32, status: Byte, ids: set<U32>)
    ensures var e := End(id, status);
            Beside(Deliver(s, e), ids) == Beside(s, ids) || Beside(Deliver(s, e), ids) == Deliver(Beside(s, ids), e)
  {
    hide Deliver, SavedName, SavedBeside;
    DeliverEnd(s, id, status);
    DeliverEnd(Beside(s, ids), id, status);
    if id in s.downloads {
      var f := Saved(id, s.downloads[id].name, Flatten(s.downloads[id].chunks));
      DropBeside(s.downloads, ids, id);
      SavedBesideSnoc(s.saved, f, ids);
      assert SavedBeside(s.saved, ids) + [] == SavedBeside(s.saved, ids);
    }
  }

  lemma {:induction false} DeliverAllBeside(s: TabState, got: seq<Event>, ids: set<U32>) returns (part: seq<Event>)
    ensures IsSubsequence(part, got) && Beside(DeliverAll(s, got), ids) == DeliverAll(Beside(s, ids), part)
    decreases |got|
  {
    hide Deliver, Beside;
    if got == [] {
      part := [];
    } else {
      var e := got[0];
      DeliverBeside(s, e, ids);
      part := DeliverAllBeside(Deliver(s, e), got[1..], ids);
      if Beside(Deliver(s, e), ids) != Beside(s, ids) {
        part := [e] + part;
        Cons(e, part[1..]);
      }
    }
  }

  /** A tab that carries buffers into a session mixes nothing into the downloads whose ids it
      does not carry: each of those it saves is whole. */
  lemma OnlyCarriedIdsMix(carried: map<U32, Buffer>, actions: seq<Action>, cs: seq<Connection>, k: nat)
    requires Spawns(actions) < 0x1_0000_0000 && Successive(actions, cs)
    requires var files := DeliverAll(TabState(carried, []), TabEvents(actions, cs)).saved;
             k < |files| && files[k].id !in carried
    ensures var files := DeliverAll(TabState(carried, []), TabEvents(actions, cs)).saved;
            SavedIsRead(actions, files[k])
  {
    hide DeliverAll, Run, TabEvents, Successive, SavedIsRead, IsSubsequence, SavedOk, BufferOk, NoteAll;
    var got, ids := TabEvents(actions, cs), carried.Keys;
    var files := DeliverAll(TabState(carried, []), got).saved;
    var part := DeliverAllBeside(TabState(carried, []), got, ids);
    assert carried - ids == map[];
    TabEventsInWholeLog(actions, cs);
    SubsequenceTwice(part, got, Run(actions).log);
    SavedFilesAreWhole(actions, part);
    BesideHasAll(files, ids, k);
    var j :| 0 <= j < |SavedBeside(files, ids)| && SavedBeside(files, ids)[j] == files[k];
    SavedOkIsRead(actions, files[k]);
  }

  // ---- no session uses id 0 ---------------------------------------------------------------------------

  lemma TaskStepOwn(id: U32, t: Task, i: Input)
    ensures forall e :: e in TaskStep(id, t, i).1 ==> e.id == id
  {
  }

  lemma {:induction false} LogIds(actions: seq<Action>)
    ensures var w := Run(actions); forall e :: e in w.log ==> e.id in w.tasks
  {
    hide TaskStep;
    if actions != [] {
      var n := |actions| - 1;
      LogIds(actions[..n]);
      var w := Run(actions[..n]);
      if actions[n].Advance? && actions[n].id in w.tasks {
        TaskStepOwn(actions[n].id, w.tasks[actions[n].id], actions[n].input);
      }
    }
  }

  lemma DeliverSaves(s: TabState, e: Event)
    ensures s.saved <= Deliver(s, e).saved
    ensures forall k :: |s.saved| <= k < |Deliver(s, e).saved| ==> Deliver(s, e).saved[k].id == e.id
  {
    hide Deliver, SavedName;
    match e
    case Begin(id, total, name) => DeliverBegin(s, id, total, name);
    case Chunk(id, bytes) => DeliverChunk(s, id, bytes);
    case End(id, status) => DeliverEnd(s, id, status);
  }

  /** A file is saved for an event of its own download. */
  lemma {:induction false} SavedHasEvent(s: TabState, es: seq<Event>, k: nat) returns (e: Event)
    requires |s.saved| <= k < |DeliverAll(s, es).saved|
    ensures e in es && e.id == DeliverAll(s, es).saved[k].id
    decreases |es|
  {
    hide Deliver;
    var t := Deliver(s, es[0]);
    DeliverSaves(s, es[0]);
    if k < |t.saved| {
      e := es[0];
      SavedStays(t, es[1..]);
    } else {
      e := SavedHasEvent(t, es[1..], k);
    }
  }

  lemma {:induction false} SavedStays(s: TabState, es: seq<Event>)
    ensures s.saved <= DeliverAll(s, es).saved
    decreases |es|
  {
    hide Deliver;
    if es != [] {
      DeliverSaves(s, es[0]);
      SavedStays(Deliver(s, es[0]), es[1..]);
    }
  }

  lemma SavedIdPositive(carried: map<U32, Buffer>, actions: seq<Action>, cs: seq<Connection>, k: nat)
    requires Spawns(actions) < 0x1_0000_0000 && Successive(actions, cs)
    requires k < |DeliverAll(TabState(carried, []), TabEvents(actions, cs)).saved|
    ensures DeliverAll(TabState(carried, []), TabEvents(actions, cs)).saved[k].id >= 1
  {
    hide DeliverAll, Run, TabEvents, Successive, IsSubsequence, TaskInv, Disciplined, NoteAll;
    var e := SavedHasEvent(TabState(carried, []), TabEvents(actions, cs), k);
    TabEventsInWholeLog(actions, cs);
    SubsequenceIn(TabEvents(actions, cs), Run(actions).log, e);
    LogIds(actions);
    RunInv(actions);
  }

  // ---- a session that fills a carried buffer ----------------------------------------------------------

  function Spawning(n: nat): seq<Action> {
    if n == 0 then [] else Spawning(n - 1) + [Spawn]
  }

  lemma RunSnoc(actions: seq<Action>, a: Action)
    ensures Run(actions + [a]) == Step(Run(actions), a)
    ensures Spawns(actions + [a]) == Spawns(actions) + if a.Spawn? then 1 else 0
  {
    hide Step;
    assert (actions + [a])[..|actions|] == actions;
  }

  lemma OnDiskSnoc(actions: seq<Action>, a: Action, id: U32)
    ensures OnDisk(actions + [a], id) ==
            if a.Advance? && a.id == id && id in Run(actions).tasks
            then Meet(OnDisk(actions, id), Run(actions).tasks[id], a.input) else OnDisk(actions, id)
  {
    hide Run, Meet;
    assert (actions + [a])[..|actions|] == actions;
  }

  lemma IdleRun()
    ensures Run([]) == Idle && Spawns([]) == 0 && forall id: U32 :: OnDisk([], id) == None
  {
  }

  lemma {:induction false} SpawningRun(n: nat)
    requires n < 0x1_0000_0000
    ensures var w := Run(Spawning(n));
            && w.next == n + 1 && w.log == [] && w.subs == []
            && (forall i: U32 :: 1 <= i <= n ==> i in w.tasks && w.tasks[i] == Fresh)
    ensures Spawns(Spawning(n)) == n && ReadsFit(Spawning(n)) && forall id: U32 :: OnDisk(Spawning(n), id) == None
  {
    hide Run, Spawns, OnDisk;
    if n == 0 {
      IdleRun();
    } else {
      SpawningRun(n - 1);
      RunSnoc(Spawning(n - 1), Spawn);
      forall id: U32
        ensures OnDisk(Spawning(n), id) == None
      {
        OnDiskSnoc(Spawning(n - 1), Spawn, id);
      }
    }
  }

  /** One stream is attached and has received everything. */
  predicate CaughtUp(w: World) {
    w.subs == [Sub(0, |w.log|, [Stretch(0, w.log)])]
  }

  /** Download `id` is at task `t`, and its file has been met under `name`. */
  predicate At(actions: seq<Action>, id: U32, t: Task, name: Option<Utf8.Str>) {
    var w := Run(actions);
    && CaughtUp(w) && id in w.tasks && w.tasks[id] == t && Spawns(actions) == id && ReadsFit(actions)
    && (match name
        case None => OnDisk(actions, id) == None
        case Some(n) => OnDisk(actions, id).Some? && OnDisk(actions, id).value.name == n)
  }

  lemma Ready(id: U32) returns (actions: seq<Action>)
    requires id >= 1
    ensures At(actions, id, Fresh, None) && Run(actions).log == []
  {
    SpawningRun(id);
    actions := Spawning(id) + [Attach];
    RunSnoc(Spawning(id), Attach);
    OnDiskSnoc(Spawning(id), Attach, id);
    assert [] + [Subscribe<Event>([])] == [Subscribe<Event>([])];
  }

  lemma PollOne(w: World, was: seq<Event>, e: Event)
    requires w.subs == [Sub(0, |was|, [Stretch(0, was)])] && w.log == was + [e]
    ensures CaughtUp(Step(w, Poll(0))) && Step(w, Poll(0)) == w.(subs := Step(w, Poll(0)).subs)
  {
    var s := w.subs[0];
    assert w.log[|was|] == e;
    assert s.stretches[0 := Stretch(0, was + [e])] == [Stretch(0, was + [e])];
    assert Recv(w.log, DOWNLOAD_BROADCAST_CAP, s) == Sub(0, |was| + 1, [Stretch(0, was + [e])]);
    assert w.subs[0 := Sub(0, |w.log|, [Stretch(0, w.log)])] == [Sub(0, |w.log|, [Stretch(0, w.log)])];
  }

  /** The task takes a step that sends one event, and the stream receives it. */
  lemma SendOne(before: seq<Action>, id: U32, t: Task, name: Option<Utf8.Str>, i: Input, e: Event)
    returns (after: seq<Action>)
    requires At(before, id, t, name) && TaskStep(id, t, i).1 == [e]
    requires i.Got? ==> |i.bytes| <= Frame.MAX_PASTE_CHUNK_BYTES
    requires if name == None then t.Fresh? && i.Opened? else !t.Fresh?
    ensures Run(after).log == Run(before).log + [e]
    ensures At(after, id, TaskStep(id, t, i).0, if name == None then Some(i.name) else name)
  {
    hide TaskStep;
    var middle := before + [Advance(id, i)];
    after := middle + [Poll(0)];
    RunSnoc(before, Advance(id, i));
    RunSnoc(middle, Poll(0));
    OnDiskSnoc(before, Advance(id, i), id);
    OnDiskSnoc(middle, Poll(0), id);
    PollOne(Run(middle), Run(before).log, e);
  }

  /** A buffer after `m` more chunks of one byte. */
  function Grown(dl: Buffer, b: Byte, m: nat): Buffer {
    if m == 0 then dl
    else
      var before := Grown(dl, b, m - 1);
      before.(received := before.received + 1, chunks := before.chunks + [[b]])
  }

  function Copies(b: Byte, m: nat): seq<Byte> {
    if m == 0 then [] else Copies(b, m - 1) + [b]
  }

  lemma {:induction false} GrownIs(dl: Buffer, b: Byte, m: nat)
    ensures var g := Grown(dl, b, m);
            && g.name == dl.name && g.total == dl.total && g.received == dl.received + m
            && Flatten(g.chunks) == Flatten(dl.chunks) + Copies(b, m)
  {
    if m == 0 {
      assert Flatten(dl.chunks) + [] == Flatten(dl.chunks);
    } else {
      GrownIs(dl, b, m - 1);
      FlattenSnoc(Grown(dl, b, m - 1).chunks, [b]);
      AppendAssoc(Flatten(dl.chunks), Copies(b, m - 1), [b]);
    }
  }

  /** The session's download `id` has sent `m` of `size` bytes, one at a time; the tab, which
      carries a buffer under that id, has added them to it. */
  ghost predicate Filling(
    carried: map<U32, Buffer>, id: U32, size: U64, name: Utf8.Str, b: Byte, m: nat, actions: seq<Action>)
    requires id in carried
  {
    && (exists chunks :: At(actions, id, Reading(size, m, chunks), Some(name)))
    && DeliverAll(TabState(carried, []), Run(actions).log) == TabState(carried[id := Grown(carried[id], b, m)], [])
  }

  lemma BeginFilling(carried: map<U32, Buffer>, id: U32, size: U64, name: Utf8.Str, b: Byte)
    returns (actions: seq<Action>)
    requires id in carried && id >= 1 && size <= Frame.MAX_PASTE_TOTAL_BYTES
    ensures Filling(carried, id, size, name, b, 0, actions)
  {
    hide Run, At, Deliver, SavedName;
    var before := Ready(id);
    var begin := Begin(id, size, name);
    actions := SendOne(before, id, Fresh, None, Opened(size, name, true), begin);
    assert At(actions, id, Reading(size, 0, []), Some(name));
    assert [] + [begin] == [begin];
    DeliverOne(TabState(carried, []), begin);
    DeliverBegin(TabState(carried, []), id, size, name);
    assert carried[id := carried[id]] == carried;
  }

  lemma DeliverOne(s: TabState, e: Event)
    ensures DeliverAll(s, [e]) == Deliver(s, e)
  {
    hide Deliver;
    assert DeliverAll(s, [e]) == DeliverAll(Deliver(s, e), [e][1..]);
  }

  lemma {:induction false} KeepFilling(
    carried: map<U32, Buffer>, id: U32, size: U64, name: Utf8.Str, b: Byte, m: nat)
    returns (actions: seq<Action>)
    requires id in carried && id >= 1 && m <= size <= Frame.MAX_PASTE_TOTAL_BYTES
    requires carried[id].received + m <= carried[id].total
    ensures Filling(carried, id, size, name, b, m, actions)
  {
    hide Run, At, Deliver, DeliverAll, SavedName;
    if m == 0 {
      actions := BeginFilling(carried, id, size, name, b);
    } else {
      var before := KeepFilling(carried, id, size, name, b, m - 1);
      var chunks :| At(before, id, Reading(size, m - 1, chunks), Some(name));
      var chunk := Chunk(id, [b]);
      actions := SendOne(before, id, Reading(size, m - 1, chunks), Some(name), Got([b], true), chunk);
      assert At(actions, id, Reading(size, m, chunks + [[b]]), Some(name));
      var s := TabState(carried[id := Grown(carried[id], b, m - 1)], []);
      DeliverAllSnoc(TabState(carried, []), Run(before).log, chunk);
      DeliverChunk(s, id, [b]);
      GrownIs(carried[id], b, m - 1);
      assert s.downloads[id := Grown(carried[id], b, m)] == carried[id := Grown(carried[id], b, m)];
    }
  }

  /** The file the tab ends up with: the carried bytes, then the session's. */
  function MixedFile(dl: Buffer, id: U32, b: Byte, m: nat): Saved {
    Saved(id, dl.name, Flatten(dl.chunks) + Copies(b, m))
  }

  /** For every buffer a tab can carry under an id that sessions use there is a session, of that
      many downloads, in which the tab saves one file: the carried bytes and the session's, under
      the carried name. */
  lemma CarriedMixes(carried: map<U32, Buffer>, id: U32, name: Utf8.Str, b: Byte)
    returns (actions: seq<Action>, c: Connection)
    requires Consistent(carried) && id in carried && id >= 1
    ensures Spawns(actions) == id && ReadsFit(actions) && Successive(actions, [c])
    ensures var dl := carried[id];
            DeliverAll(TabState(carried, []), TabEvents(actions, [c])) ==
            TabState(carried - {id}, [MixedFile(dl, id, b, dl.total - dl.received)])
    ensures OnDisk(actions, id).Some? && OnDisk(actions, id).value.name == name
  {
    var dl := carried[id];
    var m := dl.total - dl.received;
    var before := KeepFilling(carried, id, m, name, b, m);
    var chunks :| At(before, id, Reading(m, m, chunks), Some(name));
    var end := End(id, Frame.DOWNLOAD_STATUS_OK);
    actions := SendOne(before, id, Reading(m, m, chunks), Some(name), Got([], true), end);
    c := WholeLog(actions);
    hide Run, At, Deliver, DeliverAll, SavedName, Grown, TabEvents, Successive, OnDisk, Copies, Spawns, ReadsFit;
    var s := TabState(carried[id := Grown(dl, b, m)], []);
    DeliverAllSnoc(TabState(carried, []), Run(before).log, end);
    DeliverEnd(s, id, Frame.DOWNLOAD_STATUS_OK);
    GrownIs(dl, b, m);
    assert s.downloads - {id} == carried - {id};
    assert [] + [MixedFile(dl, id, b, m)] == [MixedFile(dl, id, b, m)];
  }

  /** A connection that delivers the whole log. */
  lemma WholeLog(actions: seq<Action>) returns (c: Connection)
    requires CaughtUp(Run(actions))
    ensures Successive(actions, [c]) && TabEvents(actions, [c]) == Run(actions).log
  {
    hide Run;
    var w := Run(actions);
    c := Connection(0, |actions|, w.log);
    assert actions[..|actions|] == actions;
    assert Received([Stretch(0, w.log)]) == w.log + Received<Event>([Stretch(0, w.log)][1..]);
    assert w.log + [] == w.log;
    EverySubsequence(w.log);
    assert [c][..0] == [] && [] + w.log == w.log;
  }

  // ---- the exact condition ---------------------------------------------------------------------------------

  /** In this session and over these connections, everything the tab saves is a file it read. */
  ghost predicate SavesOnlyRead(carried: map<U32, Buffer>, actions: seq<Action>, cs: seq<Connection>) {
    Spawns(actions) < 0x1_0000_0000 && Successive(actions, cs) ==>
      var files := DeliverAll(TabState(carried, []), TabEvents(actions, cs)).saved;
      forall k :: 0 <= k < |files| ==> SavedIsRead(actions, files[k])
  }

  /** A name other than the carried one. */
  function OtherName(name: seq<Byte>): Utf8.Str {
    if name == [0x61] then [0x62] else [0x61]
  }

  lemma OtherNameDiffers(name: seq<Byte>)
    ensures SavedName(OtherName(name)) != name
  {
  }

  lemma UncarriedIsSafe(carried: map<U32, Buffer>, actions: seq<Action>, cs: seq<Connection>)
    requires forall id :: id in carried ==> id == 0
    ensures SavesOnlyRead(carried, actions, cs)
  {
    hide DeliverAll, Run, TabEvents, Successive, SavedIsRead;
    if Spawns(actions) < 0x1_0000_0000 && Successive(actions, cs) {
      var files := DeliverAll(TabState(carried, []), TabEvents(actions, cs)).saved;
      forall k | 0 <= k < |files|
        ensures SavedIsRead(actions, files[k])
      {
        SavedIdPositive(carried, actions, cs, k);
        OnlyCarriedIdsMix(carried, actions, cs, k);
      }
    }
  }

  lemma CarriedIsUnsafe(carried: map<U32, Buffer>, id: U32) returns (actions: seq<Action>, cs: seq<Connection>)
    requires Consistent(carried) && id in carried && id >= 1
    ensures ReadsFit(actions) && !SavesOnlyRead(carried, actions, cs)
  {
    hide DeliverAll, Run, TabEvents, Successive, SavedName, OnDisk, Consistent;
    var name := OtherName(carried[id].name);
    OtherNameDiffers(carried[id].name);
    var c;
    actions, c := CarriedMixes(carried, id, name, 0);
    cs := [c];
    var files := DeliverAll(TabState(carried, []), TabEvents(actions, cs)).saved;
    assert files[0].name == carried[id].name && !SavedIsRead(actions, files[0]);
  }

  /** Whatever session a tab with these buffers connects to, and however, every file it saves is
      one that session read, exactly when it carries no buffer under an id that sessions use. */
  lemma SafeIffNothingCarried(carried: map<U32, Buffer>)
    requires Consistent(carried)
    ensures (forall actions: seq<Action>, cs: seq<Connection> :: SavesOnlyRead(carried, actions, cs)) <==>
            (forall id :: id in carried ==> id == 0)
  {
    hide SavesOnlyRead, Consistent;
    if forall id :: id in carried ==> id == 0 {
      forall actions: seq<Action>, cs: seq<Connection>
        ensures SavesOnlyRead(carried, actions, cs)
      {
        UncarriedIsSafe(carried, actions, cs);
      }
    } else {
      var id :| id in carried && id != 0;
      var actions, cs := CarriedIsUnsafe(carried, id);
    }
  }

  /** It happens: a tab loses its session half way through a two-byte file, reconnects to a new
      session, and saves one byte of each as one file. */
  lemma SessionsMix(a: Byte, b: Byte, name: Utf8.Str, other: Utf8.Str)
    returns (first: seq<Action>, c: Connection, second: seq<Action>, d: Connection)
    ensures Spawns(first) == Spawns(second) == 1 && ReadsFit(first) && ReadsFit(second)
    ensures Successive(first, [c]) && Successive(second, [d])
    ensures var lost := DeliverAll(TabState(map[], []), TabEvents(first, [c]));
            DeliverAll(lost, TabEvents(second, [d])).saved == [Saved(1, SavedName(name), [a, b])]
    ensures OnDisk(second, 1).Some? && OnDisk(second, 1).value.name == other
  {
    hide SavedName, DeliverAll, Run, OnDisk, Spawns, Successive, TabEvents, CaughtUp, Consistent, MixedFile;
    first := HalfWay(a, name);
    c := WholeLog(first);
    var dl := Buffer(SavedName(name), 2, 1, [[a]]);
    HalfBuffer(a, name);
    HalfMixed(dl, a, b);
    second, d := CarriedMixes(map[1 := dl], 1, other, b);
  }

  lemma HalfBuffer(a: Byte, name: Utf8.Str)
    ensures DeliverAll(TabState(map[], []), [Begin(1, 2, name), Chunk(1, [a])]) ==
            TabState(map[1 := Buffer(SavedName(name), 2, 1, [[a]])], [])
  {
    hide Deliver, SavedName, DeliverAll;
    var empty, begin, chunk := TabState(map[], []), Begin(1, 2, name), Chunk(1, [a]);
    DeliverTwo(empty, begin, chunk);
    DeliverBegin(empty, 1, 2, name);
    var begun := TabState(map[1 := Buffer(SavedName(name), 2, 0, [])], []);
    assert Deliver(empty, begin) == begun;
    DeliverChunk(begun, 1, [a]);
    assert [] + [[a]] == [[a]];
    assert begun.downloads[1 := Buffer(SavedName(name), 2, 1, [[a]])] == map[1 := Buffer(SavedName(name), 2, 1, [[a]])];
  }

  lemma HalfMixed(dl: Buffer, a: Byte, b: Byte)
    requires dl.received == 1 && dl.total == 2 && dl.chunks == [[a]]
    ensures Consistent(map[1 := dl]) && MixedFile(dl, 1, b, 1) == Saved(1, dl.name, [a, b])
  {
    FlattenSnoc([], [a]);
    assert [] + [[a]] == [[a]] && Flatten<Byte>([]) + [a] == [a];
    assert Copies(b, 1) == [] + [b] && [a] + [b] == [a, b];
  }

  /** One download, half read and received. */
  lemma HalfWay(a: Byte, name: Utf8.Str) returns (actions: seq<Action>)
    ensures CaughtUp(Run(actions)) && Spawns(actions) == 1 && ReadsFit(actions)
    ensures Run(actions).log == [Begin(1, 2, name), Chunk(1, [a])]
  {
    hide Run, OnDisk, Spawns;
    var ready := Ready(1);
    var begun := SendOne(ready, 1, Fresh, None, Opened(2, name, true), Begin(1, 2, name));
    actions := SendOne(begun, 1, Reading(2, 0, []), Some(name), Got([a], true), Chunk(1, [a]));
    assert [] + [Begin(1, 2, name)] + [Chunk(1, [a])] == [Begin(1, 2, name), Chunk(1, [a])];
  }

  lemma DeliverTwo(s: TabState, d: Event, e: Event)
    ensures DeliverAll(s, [d, e]) == Deliver(Deliver(s, d), e)
  {
    hide Deliver;
    DeliverAllSnoc(s, [d], e);
    assert [d] + [e] == [d, e];
    DeliverOne(s, d);
  }
}
