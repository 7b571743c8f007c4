/** Chunked downloads on the agent: any number of reading tasks share one small lossy
    broadcast channel. */
module Download {
  import opened Prelude
  import opened Broadcast
  import Frame
  import Utf8

  const DOWNLOAD_BROADCAST_CAP := 32

  datatype Event =
    | Begin(id: U32, total: U64, name: Utf8.Str)
    | Chunk(id: U32, bytes: seq<Byte>)
    | End(id: U32, status: Byte)

  function Sum(chunks: seq<seq<Byte>>): nat {
    |Flatten(chunks)|
  }

  // ---- one reading task ------------------------------------------------------------------

  /** `stream_download` between two awaits. */
  datatype Task =
    | Fresh
    | Reading(total: U64, sent: nat, chunks: seq<seq<Byte>>)
    | Finished

  /** What a download meets next. `heard` says whether the channel has any receiver: without one
      a send fails and nothing is broadcast. */
  datatype Input =
    | OpenFailed(heard: bool)
    | Opened(size: U64, name: Utf8.Str, heard: bool)
    | Got(bytes: seq<Byte>, heard: bool)   // a read; empty at end of file
    | ReadFailed(heard: bool)

  function Cancel(id: U32, heard: bool): seq<Event> {
    if heard then [End(id, Frame.DOWNLOAD_STATUS_CANCEL)] else []
  }

  function TaskStep(id: U32, t: Task, i: Input): (Task, seq<Event>) {
    if t.Fresh? && i.OpenFailed? then (Finished, Cancel(id, i.heard))
    else if t.Fresh? && i.Opened? then
      if i.size > Frame.MAX_PASTE_TOTAL_BYTES then (Finished, Cancel(id, i.heard))
      else if !i.heard then (Finished, [])
      else (Reading(i.size, 0, []), [Begin(id, i.size, i.name)])
    else if t.Reading? && i.ReadFailed? then (Finished, Cancel(id, i.heard))
    else if t.Reading? && i.Got? then
      if i.bytes == [] then
        if t.sent != t.total then (Finished, Cancel(id, i.heard))
        else (Finished, if i.heard then [End(id, Frame.DOWNLOAD_STATUS_OK)] else [])
      else if t.sent + |i.bytes| > t.total then (Finished, Cancel(id, i.heard))
      else if !i.heard then (Finished, [])
      else (Reading(t.total, t.sent + |i.bytes|, t.chunks + [i.bytes]), [Chunk(id, i.bytes)])
    else (t, [])
  }

  /** A task's events over a list of reads. */
  function TaskEvents(id: U32, t: Task, inputs: seq<Input>): seq<Event>
    decreases |inputs|
  {
    if inputs == [] then []
    else
      var (t', es) := TaskStep(id, t, inputs[0]);
      es + TaskEvents(id, t', inputs[1..])
  }

  lemma {:induction false} FinishedIsSilent(id: U32, inputs: seq<Input>)
    ensures TaskEvents(id, Finished, inputs) == []
  {
    if inputs != [] {
      FinishedIsSilent(id, inputs[1..]);
    }
  }

  lemma NoEvents(id: U32, t: Task)
    ensures TaskEvents(id, t, []) == []
  {
  }

  lemma TaskEventsNext(id: U32, t: Task, inputs: seq<Input>, k: nat)
    requires k < |inputs|
    ensures var (t', es) := TaskStep(id, t, inputs[k]);
            && TaskEvents(id, t, inputs[k..]) == es + TaskEvents(id, t', inputs[k + 1..])
            && (t'.Finished? ==> TaskEvents(id, t, inputs[k..]) == es)
  {
    hide TaskStep;
    assert inputs[k..][1..] == inputs[k + 1..];
    FinishedIsSilent(id, inputs[k + 1..]);
  }

  // ---- a task's events, from beginning to end -----------------------------------------------

  /** Reads of these pieces, each broadcast to someone. */
  function Reads(chunks: seq<seq<Byte>>): seq<Input> {
    seq(|chunks|, i requires 0 <= i < |chunks| => Got(chunks[i], true))
  }

  function Chunks(id: U32, chunks: seq<seq<Byte>>): seq<Event> {
    seq(|chunks|, i requires 0 <= i < |chunks| => Chunk(id, chunks[i]))
  }

  predicate NoneEmpty(chunks: seq<seq<Byte>>) {
    forall i :: 0 <= i < |chunks| ==> chunks[i] != []
  }

  lemma {:induction false} ChunksRead(id: U32, total: U64, sent: nat, done: seq<seq<Byte>>,
                                      chunks: seq<seq<Byte>>, more: seq<Input>)
    requires NoneEmpty(chunks) && sent + Sum(chunks) <= total
    ensures TaskEvents(id, Reading(total, sent, done), Reads(chunks) + more) ==
            Chunks(id, chunks) + TaskEvents(id, Reading(total, sent + Sum(chunks), done + chunks), more)
    decreases |chunks|
  {
    hide TaskEvents;
    if chunks == [] {
      assert Reads(chunks) + more == more && done + chunks == done && Chunks(id, chunks) == [];
    } else {
      var rest := chunks[1..];
      ChunksRead(id, total, sent + |chunks[0]|, done + [chunks[0]], rest, more);
      var inputs := Reads(chunks) + more;
      assert inputs[1..] == Reads(rest) + more && inputs[0..] == inputs;
      TaskEventsNext(id, Reading(total, sent, done), inputs, 0);
      assert done + [chunks[0]] + rest == done + chunks;
      assert Chunks(id, chunks) == [Chunk(id, chunks[0])] + Chunks(id, rest);
    }
  }

  /** The read after which a task stops: one that fails, the end of the file, one that is too
      many bytes for the announced size, or one that nobody is there to hear. */
  predicate Stops(size: U64, sent: nat, last: Input) {
    last.ReadFailed? || (last.Got? && (last.bytes == [] || sent + |last.bytes| > size || !last.heard))
  }

  /** The whole life of a download that opened: its size and name, each piece read, and the end,
      with status 0 if the announced size was read to the end of the file and 1 otherwise. The
      end is lost when nobody hears it, and nothing comes after it. */
  lemma WholeDownload(id: U32, size: U64, name: Utf8.Str, chunks: seq<seq<Byte>>, last: Input, later: seq<Input>)
    requires size <= 4294967295 && NoneEmpty(chunks) && Sum(chunks) <= size && Stops(size, Sum(chunks), last)
    ensures TaskEvents(id, Fresh, [Opened(size, name, true)] + (Reads(chunks) + ([last] + later))) ==
            [Begin(id, size, name)] + Chunks(id, chunks)
            + if !last.heard then []
              else [End(id, if last.Got? && last.bytes == [] && Sum(chunks) == size then 0 else 1)]
  {
    hide TaskEvents, Sum;
    var inputs := [Opened(size, name, true)] + (Reads(chunks) + ([last] + later));
    Cons(Opened(size, name, true), Reads(chunks) + ([last] + later));
    assert inputs[0..] == inputs;
    TaskEventsNext(id, Fresh, inputs, 0);
    NoChunks();
    ChunksRead(id, size, 0, [], chunks, [last] + later);
    var ended := [last] + later;
    assert ended[0..] == ended && [] + chunks == chunks;
    TaskEventsNext(id, Reading(size, Sum(chunks), chunks), ended, 0);
  }

  lemma NoChunks()
    ensures Sum([]) == 0
  {
  }

  /** A file that cannot be opened, or is too large, only has an end, with status 1; and one that
      nobody asks for any more has nothing. */
  lemma NoDownload(id: U32, opening: Input, later: seq<Input>)
    requires opening.OpenFailed? || (opening.Opened? && (opening.size > 4294967295 || !opening.heard))
    ensures TaskEvents(id, Fresh, [opening] + later) == if opening.heard then [End(id, 1)] else []
  {
    hide TaskEvents;
    var inputs := [opening] + later;
    assert inputs[0..] == inputs;
    TaskEventsNext(id, Fresh, inputs, 0);
  }

  /** The read loop with its `sent` counter, from an opened file. */
  method StreamFile(id: U32, total: U64, inputs: seq<Input>) returns (events: seq<Event>)
    requires forall i :: 0 <= i < |inputs| ==> inputs[i].Got? || inputs[i].ReadFailed?
    ensures events == TaskEvents(id, Reading(total, 0, []), inputs)
  {
    hide TaskEvents;
    events := [];
    var sent: nat := 0;
    ghost var chunks: seq<seq<Byte>> := [];
    for k := 0 to |inputs|
      invariant events + TaskEvents(id, Reading(total, sent, chunks), inputs[k..]) ==
                TaskEvents(id, Reading(total, 0, []), inputs)
    {
      TaskEventsNext(id, Reading(total, sent, chunks), inputs, k);
      var i := inputs[k];
      if i.ReadFailed? {
        return events + Cancel(id, i.heard);
      }
      var n := |i.bytes|;
      if n == 0 {
        if sent != total {
          return events + Cancel(id, i.heard);
        }
        return events + if i.heard then [End(id, Frame.DOWNLOAD_STATUS_OK)] else [];
      }
      if sent + n > total {
        return events + Cancel(id, i.heard);
      }
      if !i.heard {
        return;
      }
      sent := sent + n;
      chunks := chunks + [i.bytes];
      events := events + [Chunk(id, i.bytes)];
    }
    assert inputs[|inputs|..] == [];
    NoEvents(id, Reading(total, sent, chunks));
    assert events + [] == events;
  }

  /** `stream_download`, and the cancel its caller broadcasts when it fails. */
  method StreamDownload(id: U32, opening: Input, inputs: seq<Input>) returns (events: seq<Event>)
    requires opening.OpenFailed? || opening.Opened?
    requires forall i :: 0 <= i < |inputs| ==> inputs[i].Got? || inputs[i].ReadFailed?
    ensures events == TaskEvents(id, Fresh, [opening] + inputs)
  {
    hide TaskEvents;
    ghost var all := [opening] + inputs;
    assert all[1..] == inputs && all[0..] == all;
    TaskEventsNext(id, Fresh, all, 0);
    if opening.OpenFailed? || opening.size > Frame.MAX_PASTE_TOTAL_BYTES {
      return Cancel(id, opening.heard);
    }
    if !opening.heard {
      return [];
    }
    events := StreamFile(id, opening.size, inputs);
    events := [Begin(id, opening.size, opening.name)] + events;
  }

  // ---- what a log of events says -----------------------------------------------------------

  /** A download, as far as the events so far tell. */
  datatype Entry = Entry(total: U64, name: Utf8.Str, chunks: seq<seq<Byte>>, status: Option<Byte>)

  type Ledger = map<U32, Entry>

  function Note(l: Ledger, e: Event): Ledger {
    match e
    case Begin(id, total, name) => l[id := Entry(total, name, [], None)]
    case Chunk(id, bytes) => if id in l then l[id := l[id].(chunks := l[id].chunks + [bytes])] else l
    case End(id, status) =>
      if id in l then l[id := l[id].(status := Some(status))] else l[id := Entry(0, [], [], Some(status))]
  }

  /** The discipline every reading task keeps. */
  predicate MayFollow(l: Ledger, e: Event) {
    match e
    case Begin(id, total, _) => id !in l && total <= Frame.MAX_PASTE_TOTAL_BYTES
    case Chunk(id, bytes) =>
      id in l && l[id].status == None && bytes != [] && Sum(l[id].chunks) + |bytes| <= l[id].total
    case End(id, status) =>
      && (id in l ==> l[id].status == None)
      && (status == Frame.DOWNLOAD_STATUS_OK ==> id in l && Sum(l[id].chunks) == l[id].total)
      && (status == Frame.DOWNLOAD_STATUS_OK || status == Frame.DOWNLOAD_STATUS_CANCEL)
  }

  function NoteAll(l: Ledger, log: seq<Event>): Ledger
    decreases |log|
  {
    if log == [] then l else NoteAll(Note(l, log[0]), log[1..])
  }

  predicate Disciplined(l: Ledger, log: seq<Event>)
    decreases |log|
  {
    log == [] || (MayFollow(l, log[0]) && Disciplined(Note(l, log[0]), log[1..]))
  }

  lemma {:induction false} NoteSnoc(l: Ledger, log: seq<Event>, e: Event)
    ensures NoteAll(l, log + [e]) == Note(NoteAll(l, log), e)
    ensures Disciplined(l, log + [e]) <==> Disciplined(l, log) && MayFollow(NoteAll(l, log), e)
    decreases |log|
  {
    hide Note, MayFollow;
    if log == [] {
      assert log + [e] == [e];
      assert [e][1..] == [];
    } else {
      assert (log + [e])[1..] == log[1..] + [e];
      NoteSnoc(Note(l, log[0]), log[1..], e);
    }
  }

  // ---- all tasks, interleaved ----------------------------------------------------------------

  /** `next_download_id`, the running tasks, every event broadcast so far, and the streams
      subscribed to them. */
  datatype World = World(next: nat, tasks: map<U32, Task>, log: seq<Event>, subs: seq<Sub<Event>>)

  datatype Action =
    | Spawn                           // a download request arrives
    | Advance(id: U32, input: Input)  // a task runs to its next await
    | Attach                          // a stream subscribes
    | Poll(k: nat)                    // stream `k` receives, or learns that it lagged

  function Step(w: World, a: Action): World {
    match a
    case Spawn => w.(next := w.next + 1, tasks := w.tasks[w.next % 0x1_0000_0000 := Fresh])
    case Advance(id, input) =>
      if id !in w.tasks then w
      else
        var (t, es) := TaskStep(id, w.tasks[id], input);
        w.(tasks := w.tasks[id := t], log := w.log + es)
    case Attach => w.(subs := w.subs + [Subscribe(w.log)])
    case Poll(k) =>
      if k < |w.subs| && w.subs[k].stretches != []
      then w.(subs := w.subs[k := Recv(w.log, DOWNLOAD_BROADCAST_CAP, w.subs[k])])
      else w
  }

  const Idle := World(1, map[], [], [])

  function Run(actions: seq<Action>): World {
    if actions == [] then Idle else Step(Run(actions[..|actions| - 1]), actions[|actions| - 1])
  }

  predicate TaskInv(l: Ledger, id: U32, t: Task) {
    match t
    case Fresh => id !in l
    case Reading(total, sent, chunks) =>
      id in l && l[id].total == total && l[id].chunks == chunks && l[id].status == None && sent == Sum(chunks)
    case Finished => true
  }

  predicate WorldInv(w: World) {
    var l := NoteAll(map[], w.log);
    && Disciplined(map[], w.log)
    && (forall id :: id in l ==> id in w.tasks)
    && (forall id :: id in w.tasks ==> 1 <= id < w.next && TaskInv(l, id, w.tasks[id]))
  }

  /** At most one event per step, and one its download is entitled to. */
  lemma TaskStepDisciplined(l: Ledger, id: U32, t: Task, i: Input)
    requires TaskInv(l, id, t)
    ensures var (t', es) := TaskStep(id, t, i);
            && |es| <= 1 && (es == [] ==> TaskInv(l, id, t'))
            && (es != [] ==> es[0].id == id && MayFollow(l, es[0]) && TaskInv(Note(l, es[0]), id, t'))
  {
    if t.Reading? && i.Got? {
      FlattenSnoc(t.chunks, i.bytes);
    }
    assert Flatten<Byte>([]) == [];
  }

  lemma AdvanceInv(w: World, id: U32, i: Input)
    requires WorldInv(w)
    ensures WorldInv(Step(w, Advance(id, i)))
  {
    hide TaskStep, MayFollow, Disciplined, NoteAll;
    if id in w.tasks {
      var l := NoteAll(map[], w.log);
      TaskStepDisciplined(l, id, w.tasks[id], i);
      var (t, es) := TaskStep(id, w.tasks[id], i);
      if es == [] {
        assert w.log + es == w.log;
      } else {
        assert es == [es[0]];
        NoteSnoc(map[], w.log, es[0]);
      }
    }
  }

  lemma SpawnInv(w: World)
    requires WorldInv(w) && 1 <= w.next < 0x1_0000_0000
    ensures WorldInv(Step(w, Spawn))
  {
  }

  function Spawns(actions: seq<Action>): nat {
    if actions == [] then 0
    else Spawns(actions[..|actions| - 1]) + if actions[|actions| - 1].Spawn? then 1 else 0
  }

  /** Over every interleaving of fewer than 2^32 downloads, the log keeps the discipline. */
  lemma {:induction false} RunInv(actions: seq<Action>)
    requires Spawns(actions) < 0x1_0000_0000
    ensures WorldInv(Run(actions)) && Run(actions).next == 1 + Spawns(actions)
  {
    hide WorldInv;
    if actions == [] {
      IdleInv();
    } else {
      var n := |actions| - 1;
      RunInv(actions[..n]);
      var w := Run(actions[..n]);
      match actions[n]
      case Spawn => SpawnInv(w);
      case Advance(id, i) => AdvanceInv(w, id, i);
      case Attach => SubsIrrelevant(w, Step(w, actions[n]));
      case Poll(k) => SubsIrrelevant(w, Step(w, actions[n]));
    }
  }

  lemma SubsIrrelevant(w: World, v: World)
    requires WorldInv(w) && v.(subs := []) == w.(subs := [])
    ensures WorldInv(v)
  {
  }

  lemma IdleInv()
    ensures WorldInv(Idle)
  {
  }

  // ---- what is read from disk ---------------------------------------------------------------------

  /** A file as its task met it: size and name when it was opened, and every byte read. */
  datatype Disk = Disk(size: U64, name: Utf8.Str, bytes: seq<Byte>)

  function Meet(d: Option<Disk>, t: Task, i: Input): Option<Disk> {
    if t.Fresh? && i.Opened? then Some(Disk(i.size, i.name, []))
    else if t.Reading? && i.Got? && d.Some? then Some(d.value.(bytes := d.value.bytes + i.bytes))
    else d
  }

  /** Download `id`'s file over a run. */
  function OnDisk(actions: seq<Action>, id: U32): Option<Disk> {
    if actions == [] then None
    else
      var n := |actions| - 1;
      var a, w := actions[n], Run(actions[..n]);
      if a.Advance? && a.id == id && id in w.tasks then Meet(OnDisk(actions[..n], id), w.tasks[id], a.input)
      else OnDisk(actions[..n], id)
  }

  /** An open or a committed download has announced and sent exactly what was read. */
  predicate EntryTrue(l: Ledger, id: U32, t: Task, d: Option<Disk>) {
    && (t.Fresh? ==> d == None)
    && (id in l && (t.Reading? || l[id].status == Some(Frame.DOWNLOAD_STATUS_OK)) ==>
          d == Some(Disk(l[id].total, l[id].name, Flatten(l[id].chunks))))
  }

  lemma TaskStepTrue(l: Ledger, id: U32, t: Task, i: Input, d: Option<Disk>)
    requires TaskInv(l, id, t) && EntryTrue(l, id, t, d)
    ensures var (t', es) := TaskStep(id, t, i);
            EntryTrue(NoteAll(l, es), id, t', Meet(d, t, i))
  {
    if t.Reading? && i.Got? {
      FlattenSnoc(t.chunks, i.bytes);
    }
    assert Flatten<Byte>([]) == [];
    assert d.Some? ==> d.value.bytes + [] == d.value.bytes;
    var es := TaskStep(id, t, i).1;
    assert es == [] || (|es| == 1 && es[1..] == []);
  }

  ghost predicate AllTrue(l: Ledger, tasks: map<U32, Task>, actions: seq<Action>) {
    forall id: U32 ::
      if id in tasks then EntryTrue(l, id, tasks[id], OnDisk(actions, id)) else OnDisk(actions, id) == None
  }

  lemma {:induction false} NoteAllAppend(l: Ledger, a: seq<Event>, b: seq<Event>)
    ensures NoteAll(l, a + b) == NoteAll(NoteAll(l, a), b)
    decreases |a|
  {
    if a == [] {
      assert a + b == b;
    } else {
      assert (a + b)[1..] == a[1..] + b;
      NoteAllAppend(Note(l, a[0]), a[1..], b);
    }
  }

  /** A task's own events touch only its own entry. */
  lemma NoteOwn(l: Ledger, id: U32, t: Task, i: Input, other: U32)
    requires other != id
    ensures var l' := NoteAll(l, TaskStep(id, t, i).1);
            (other in l <==> other in l') && (other in l ==> l[other] == l'[other])
  {
  }

  lemma AdvanceTrue(actions: seq<Action>, id: U32, i: Input)
    requires var w := Run(actions);
             id in w.tasks && WorldInv(w) && AllTrue(NoteAll(map[], w.log), w.tasks, actions)
    ensures var w, now := Step(Run(actions), Advance(id, i)), actions + [Advance(id, i)];
            AllTrue(NoteAll(map[], w.log), w.tasks, now)
  {
    hide TaskStep, NoteAll, Run, EntryTrue, Meet, Disciplined;
    var w := Run(actions);
    var now := actions + [Advance(id, i)];
    assert now[..|actions|] == actions;
    var l := NoteAll(map[], w.log);
    var (t, es) := TaskStep(id, w.tasks[id], i);
    NoteAllAppend(map[], w.log, es);
    var l' := NoteAll(l, es);
    forall other: U32
      ensures if other in w.tasks[id := t] then EntryTrue(l', other, w.tasks[id := t][other], OnDisk(now, other))
              else OnDisk(now, other) == None
    {
      if other == id {
        TaskStepTrue(l, id, w.tasks[id], i, OnDisk(actions, id));
      } else {
        assert OnDisk(now, other) == OnDisk(actions, other);
        if other in w.tasks {
          NoteOwn(l, id, w.tasks[id], i, other);
          EntryTrueSame(l, l', other, w.tasks[other], OnDisk(actions, other));
        }
      }
    }
  }

  lemma EntryTrueSame(l: Ledger, l': Ledger, id: U32, t: Task, d: Option<Disk>)
    requires EntryTrue(l, id, t, d)
    requires (id in l <==> id in l') && (id in l ==> l[id] == l'[id])
    ensures EntryTrue(l', id, t, d)
  {
  }

  lemma {:induction false} RunTrue(actions: seq<Action>)
    requires Spawns(actions) < 0x1_0000_0000
    ensures var w := Run(actions); AllTrue(NoteAll(map[], w.log), w.tasks, actions)
  {
    hide NoteAll, WorldInv, TaskStep, EntryTrue, Meet;
    if actions != [] {
      var n := |actions| - 1;
      var before, a := actions[..n], actions[n];
      assert actions == before + [a];
      RunTrue(before);
      RunInv(before);
      var w := Run(before);
      if a.Advance? && a.id in w.tasks {
        AdvanceTrue(before, a.id, a.input);
      } else {
        assert forall id: U32 :: OnDisk(actions, id) == OnDisk(before, id);
        if a.Spawn? {
          SpawnTrue(w, before, actions);
        }
      }
    }
  }

  lemma SpawnTrue(w: World, before: seq<Action>, actions: seq<Action>)
    requires WorldInv(w) && 1 <= w.next < 0x1_0000_0000
    requires AllTrue(NoteAll(map[], w.log), w.tasks, before)
    requires forall id: U32 :: OnDisk(actions, id) == OnDisk(before, id)
    ensures AllTrue(NoteAll(map[], w.log), w.tasks[w.next := Fresh], actions)
  {
  }

  // ---- the streams' subscriptions ----------------------------------------------------------------

  predicate SubsInv(w: World) {
    forall k :: 0 <= k < |w.subs| ==> SubInv(w.log, w.subs[k])
  }

  lemma StepSubsInv(w: World, a: Action)
    requires SubsInv(w)
    ensures SubsInv(Step(w, a))
  {
    hide SubInv, TaskStep, Recv, Subscribe;
    match a
    case Spawn =>
    case Advance(id, i) =>
      if id in w.tasks {
        forall k | 0 <= k < |w.subs|
          ensures SubInv(Step(w, a).log, w.subs[k])
        {
          SendInv(w.log, TaskStep(id, w.tasks[id], i).1, w.subs[k]);
        }
      }
    case Attach => SubscribeInv(w.log);
    case Poll(k) =>
      if k < |w.subs| && w.subs[k].stretches != [] {
        RecvInv(w.log, DOWNLOAD_BROADCAST_CAP, w.subs[k]);
      }
  }

  lemma {:induction false} RunSubsInv(actions: seq<Action>)
    ensures SubsInv(Run(actions))
  {
    hide Step, SubInv;
    if actions != [] {
      var n := |actions| - 1;
      RunSubsInv(actions[..n]);
      StepSubsInv(Run(actions[..n]), actions[n]);
    }
  }

  /** A stream's poll is one receive of its subscription, of the last 32 events. */
  lemma PollIs(w: World, k: nat)
    requires SubsInv(w) && k < |w.subs|
    ensures Step(w, Poll(k)) == w.(subs := w.subs[k := Recv(w.log, 32, w.subs[k])])
  {
    hide Recv;
    assert SubInv(w.log, w.subs[k]);
  }

  // ---- sizes on the wire ---------------------------------------------------------------------------

  /** No read returns more than the buffer holds. */
  predicate ReadsFit(actions: seq<Action>) {
    forall i :: 0 <= i < |actions| && actions[i].Advance? && actions[i].input.Got? ==>
      |actions[i].input.bytes| <= Frame.MAX_PASTE_CHUNK_BYTES
  }

  /** An event that fits its frame. */
  predicate Sendable(e: Event) {
    match e
    case Begin(_, total, _) => total <= Frame.MAX_PASTE_TOTAL_BYTES
    case Chunk(_, bytes) => |bytes| <= Frame.MAX_PASTE_CHUNK_BYTES
    case End(_, status) => status == Frame.DOWNLOAD_STATUS_OK || status == Frame.DOWNLOAD_STATUS_CANCEL
  }

  lemma TaskStepSendable(id: U32, t: Task, i: Input)
    requires i.Got? ==> |i.bytes| <= Frame.MAX_PASTE_CHUNK_BYTES
    ensures forall e :: e in TaskStep(id, t, i).1 ==> Sendable(e)
  {
  }

  lemma {:induction false} LogSendable(actions: seq<Action>)
    requires ReadsFit(actions)
    ensures forall e :: e in Run(actions).log ==> Sendable(e)
  {
    hide TaskStep, Sendable;
    if actions != [] {
      var n := |actions| - 1;
      LogSendable(actions[..n]);
      var w := Run(actions[..n]);
      if actions[n].Advance? && actions[n].id in w.tasks {
        TaskStepSendable(actions[n].id, w.tasks[actions[n].id], actions[n].input);
      }
    }
  }
}
