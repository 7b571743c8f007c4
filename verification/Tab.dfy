/** The browser tab's download handlers, and the whole path from a file on the agent's disk
    to the file a tab saves. Whatever is lost on the way, a saved file is a whole file. */
module Tab {
  import opened Prelude
  import opened Broadcast
  import opened Download
  import Frame
  import Utf8

  const MAX_DOWNLOAD_TOTAL_BYTES := 256 * 1024 * 1024
  const MAX_INFLIGHT_DOWNLOADS := 16
  const DEFAULT_NAME: seq<Byte> := [0x64, 0x6F, 0x77, 0x6E, 0x6C, 0x6F, 0x61, 0x64] // "download"

  datatype Buffer = Buffer(name: seq<Byte>, total: U64, received: nat, chunks: seq<seq<Byte>>)
  datatype Saved = Saved(id: U32, name: seq<Byte>, bytes: seq<Byte>)

  /** `tab._downloads`, and the files handed to the user. */
  datatype TabState = TabState(downloads: map<U32, Buffer>, saved: seq<Saved>)

  /** `TextDecoder` on valid UTF-8: a leading byte-order mark is dropped. */
  function DecodeText(p: seq<Byte>): seq<Byte> {
    if |p| >= 3 && p[..3] == [0xEF, 0xBB, 0xBF] then p[3..] else p
  }

  function OrDefault(name: seq<Byte>): seq<Byte> {
    if name == [] then DEFAULT_NAME else name
  }

  function OnBegin(s: TabState, p: seq<Byte>): TabState {
    if |p| < 13 || |p| != 13 + p[12] as int then s
    else
      var id, total := U32At(p, 0), U64At(p, 4);
      if total > MAX_DOWNLOAD_TOTAL_BYTES || |s.downloads| >= MAX_INFLIGHT_DOWNLOADS || id in s.downloads then s
      else s.(downloads := s.downloads[id := Buffer(OrDefault(DecodeText(p[13..])), total, 0, [])])
  }

  function OnChunk(s: TabState, p: seq<Byte>): TabState {
    if |p| < 4 || U32At(p, 0) !in s.downloads then s
    else
      var id, chunk := U32At(p, 0), p[4..];
      var dl := s.downloads[id];
      if dl.received + |chunk| > dl.total then s.(downloads := s.downloads - {id})
      else s.(downloads := s.downloads[id := dl.(received := dl.received + |chunk|, chunks := dl.chunks + [chunk])])
  }

  function OnEnd(s: TabState, p: seq<Byte>): TabState {
    if |p| != 5 || U32At(p, 0) !in s.downloads then s
    else
      var id := U32At(p, 0);
      var dl := s.downloads[id];
      if p[4] == Frame.DOWNLOAD_STATUS_CANCEL || dl.received != dl.total
      then s.(downloads := s.downloads - {id})
      else TabState(s.downloads - {id}, s.saved + [Saved(id, dl.name, Flatten(dl.chunks))])
  }

  /** `parseFrame`, and the dispatch on what it finds, as far as downloads go. */
  function OnMessage(s: TabState, msg: seq<Byte>): TabState {
    if |msg| < Frame.HEADER_LEN || |msg| != Frame.HEADER_LEN + U32At(msg, 5) as int then s
    else if msg[4] == Frame.TypeByte(Frame.TDownloadBegin) then OnBegin(s, msg[9..])
    else if msg[4] == Frame.TypeByte(Frame.TDownloadChunk) then OnChunk(s, msg[9..])
    else if msg[4] == Frame.TypeByte(Frame.TDownloadEnd) then OnEnd(s, msg[9..])
    else s
  }

  class BrowserTab {
    var downloads: map<U32, Buffer>
    var saved: seq<Saved>

    ghost function Model(): TabState
      reads this
    {
      TabState(downloads, saved)
    }

    constructor ()
      ensures Model() == TabState(map[], [])
    {
      downloads := map[];
      saved := [];
    }

    method HandleDownloadBegin(payload: seq<Byte>)
      modifies this`downloads
      ensures Model() == OnBegin(old(Model()), payload)
    {
      if |payload| < 13 {
        return;
      }
      var downloadId := U32At(payload, 0);
      var totalSize := U64At(payload, 4);
      var nameLen := payload[12];
      if |payload| != 13 + nameLen as int {
        return;
      }
      var name := DecodeText(payload[13..]);
      if name == [] {
        name := DEFAULT_NAME;
      }
      if totalSize > MAX_DOWNLOAD_TOTAL_BYTES {
        return;
      }
      if |downloads| >= MAX_INFLIGHT_DOWNLOADS {
        return;
      }
      if downloadId in downloads {
        return;
      }
      downloads := downloads[downloadId := Buffer(name, totalSize, 0, [])];
    }

    method HandleDownloadChunk(payload: seq<Byte>)
      modifies this`downloads
      ensures Model() == OnChunk(old(Model()), payload)
    {
      if |payload| < 4 {
        return;
      }
      var downloadId := U32At(payload, 0);
      if downloadId !in downloads {
        return;
      }
      var dl := downloads[downloadId];
      var chunk := payload[4..];
      if dl.received + |chunk| > dl.total {
        downloads := downloads - {downloadId};
        return;
      }
      downloads := downloads[downloadId := dl.(received := dl.received + |chunk|, chunks := dl.chunks + [chunk])];
    }

    method HandleDownloadEnd(payload: seq<Byte>)
      modifies this
      ensures Model() == OnEnd(old(Model()), payload)
    {
      if |payload| != 5 {
        return;
      }
      var downloadId := U32At(payload, 0);
      var status := payload[4];
      if downloadId !in downloads {
        return;
      }
      var dl := downloads[downloadId];
      downloads := downloads - {downloadId};
      if status == Frame.DOWNLOAD_STATUS_CANCEL {
        return;
      }
      if dl.received != dl.total {
        return;
      }
      saved := saved + [Saved(downloadId, dl.name, Flatten(dl.chunks))];
    }

    method HandleMessage(msg: seq<Byte>)
      modifies this
      ensures Model() == OnMessage(old(Model()), msg)
    {
      hide OnBegin, OnChunk, OnEnd;
      if |msg| < Frame.HEADER_LEN {
        return;
      }
      var kind, len := msg[4], U32At(msg, 5);
      if |msg| != Frame.HEADER_LEN + len as int {
        return;
      }
      var payload := msg[Frame.HEADER_LEN..];
      if kind == Frame.TypeByte(Frame.TDownloadBegin) {
        HandleDownloadBegin(payload);
      } else if kind == Frame.TypeByte(Frame.TDownloadChunk) {
        HandleDownloadChunk(payload);
      } else if kind == Frame.TypeByte(Frame.TDownloadEnd) {
        HandleDownloadEnd(payload);
      }
    }
  }

  // ---- the name a download is saved under --------------------------------------------------

  /** The name a download is saved under. */
  function SavedName(name: Utf8.Str): seq<Byte> {
    OrDefault(DecodeText(Frame.KeptName(name)))
  }

  /** What a tab calls a file by this name: at most its first 255 bytes, cut between
      characters, without a leading byte-order mark, and "download" if that leaves nothing. */
  predicate Shows(shown: seq<Byte>, name: Utf8.Str) {
    var kept := Utf8.Truncate(name, 255);
    if kept == [] || kept == [0xEF, 0xBB, 0xBF] then shown == [0x64, 0x6F, 0x77, 0x6E, 0x6C, 0x6F, 0x61, 0x64]
    else if |kept| > 3 && kept[0] == 0xEF && kept[1] == 0xBB && kept[2] == 0xBF
    then [0xEF, 0xBB, 0xBF] + shown == kept
    else shown == kept
  }

  lemma SavedNameShows(name: Utf8.Str, shown: seq<Byte>)
    ensures Shows(shown, name) <==> shown == SavedName(name)
  {
    hide Utf8.Truncate;
    var kept := Utf8.Truncate(name, 255);
    if |kept| >= 3 && kept[..3] == [0xEF, 0xBB, 0xBF] {
      assert kept == [0xEF, 0xBB, 0xBF] + kept[3..];
      assert kept[0] == kept[..3][0] && kept[1] == kept[..3][1] && kept[2] == kept[..3][2];
    }
  }

  // ---- the handlers on messages as bytes ------------------------------------------------------

  /** A message with a download's type byte and a fitting length. */
  function Message(sid: U32, kind: Byte, p: seq<Byte>): seq<Byte>
    requires |p| < 0x1_0000_0000
  {
    Be32(sid) + [kind] + Be32(|p|) + p
  }

  lemma Dispatched(s: TabState, sid: U32, kind: Byte, p: seq<Byte>)
    requires |p| < 0x1_0000_0000
    ensures OnMessage(s, Message(sid, kind, p)) ==
            if kind == 11 then OnBegin(s, p) else if kind == 12 then OnChunk(s, p)
            else if kind == 13 then OnEnd(s, p) else s
  {
    hide Be32, U32At, OnBegin, OnChunk, OnEnd;
    var msg := Message(sid, kind, p);
    assert msg[5..9] == Be32(|p|) && msg[4] == kind && msg[9..] == p;
    ReadBe32(msg, 5, |p|);
  }

  /** A begin opens a buffer for its download, unless it is too large, the tab is full, or the
      download is already open. */
  lemma BeginMessage(s: TabState, sid: U32, id: U32, total: U64, name: Utf8.Str)
    requires |name| <= 255
    ensures var t := OnMessage(s, Message(sid, 11, Be32(id) + Be64(total) + [|name|] + name));
            && t.saved == s.saved
            && (total > 268435456 || |s.downloads| >= 16 || id in s.downloads ==> t == s)
            && (total <= 268435456 && |s.downloads| < 16 && id !in s.downloads ==>
                  && t.downloads.Keys == s.downloads.Keys + {id}
                  && (forall k :: k in s.downloads ==> t.downloads[k] == s.downloads[k])
                  && t.downloads[id].(name := []) == Buffer([], total, 0, [])
                  && Shows(t.downloads[id].name, name))
  {
    hide Be32, Be64, U32At, U64At, Shows, DecodeText, OrDefault;
    var p := Be32(id) + Be64(total) + [|name|] + name;
    Dispatched(s, sid, 11, p);
    assert p[0..4] == Be32(id) && p[4..12] == Be64(total) && p[12] == |name| && p[13..] == name;
    ReadBe32(p, 0, id);
    ReadBe64(p, 4, total);
    SavedNameShows(name, SavedName(name));
    assert Frame.KeptName(name) == name;
  }

  /** A chunk is appended to its open download, or discards it when it overruns the size. */
  lemma ChunkMessage(s: TabState, sid: U32, id: U32, bytes: seq<Byte>)
    requires |bytes| < 0xFFFF_FFFC
    ensures var t := OnMessage(s, Message(sid, 12, Be32(id) + bytes));
            && t.saved == s.saved
            && (id !in s.downloads ==> t == s)
            && (id in s.downloads ==>
                  var was := s.downloads[id];
                  && (forall k :: k in s.downloads && k != id ==> k in t.downloads && t.downloads[k] == s.downloads[k])
                  && t.downloads.Keys == s.downloads.Keys - (if was.received + |bytes| > was.total then {id} else {})
                  && (id in t.downloads ==>
                        t.downloads[id] == Buffer(was.name, was.total, was.received + |bytes|, was.chunks + [bytes])))
  {
    hide Be32, U32At;
    var p := Be32(id) + bytes;
    Dispatched(s, sid, 12, p);
    assert p[0..4] == Be32(id) && p[4..] == bytes;
    ReadBe32(p, 0, id);
  }

  /** An end closes its open download, and saves it if it is complete and not cancelled. */
  lemma EndMessage(s: TabState, sid: U32, id: U32, status: Byte)
    ensures var t := OnMessage(s, Message(sid, 13, Be32(id) + [status]));
            && t.downloads == s.downloads - {id}
            && (id !in s.downloads ==> t == s)
            && (id in s.downloads ==>
                  var was := s.downloads[id];
                  t.saved == s.saved + if status == 1 || was.received != was.total then []
                                       else [Saved(id, was.name, Flatten(was.chunks))])
  {
    hide Be32, U32At, Flatten;
    var p := Be32(id) + [status];
    Dispatched(s, sid, 13, p);
    assert p[0..4] == Be32(id) && p[4] == status;
    ReadBe32(p, 0, id);
    assert id !in s.downloads ==> s.downloads - {id} == s.downloads;
    assert s.saved + [] == s.saved;
  }

  /** Nothing else changes a tab's downloads: not a short message, a message of another length
      than its header says, another type, nor a download payload of the wrong length. */
  lemma OtherMessage(s: TabState, msg: seq<Byte>)
    requires || |msg| < 9 || |msg| != 9 + U32At(msg, 5) as int || msg[4] < 11 || msg[4] > 13
             || (msg[4] == 11 && (|msg| < 22 || |msg| != 22 + msg[21] as int))
             || (msg[4] == 12 && |msg| < 13)
             || (msg[4] == 13 && |msg| != 14)
    ensures OnMessage(s, msg) == s
  {
    hide U32At;
  }

  // ---- from log to disk ---------------------------------------------------------------------------

  function BodyOf(e: Event): Frame.Body {
    match e
    case Begin(id, total, name) => Frame.DownloadBegin(id, total, name)
    case Chunk(id, bytes) => Frame.DownloadChunk(id, bytes)
    case End(id, status) => Frame.DownloadEnd(id, status)
  }

  /** The browser handling one forwarded event's payload. */
  function Deliver(s: TabState, e: Event): TabState {
    var p := Frame.Payload(BodyOf(e));
    match e
    case Begin(_, _, _) => OnBegin(s, p)
    case Chunk(_, _) => OnChunk(s, p)
    case End(_, _) => OnEnd(s, p)
  }

  function DeliverAll(s: TabState, es: seq<Event>): TabState
    decreases |es|
  {
    if es == [] then s else DeliverAll(Deliver(s, es[0]), es[1..])
  }

  /** The handlers read back the fields that were encoded. */
  lemma DeliverBegin(s: TabState, id: U32, total: U64, name: Utf8.Str)
    ensures Deliver(s, Begin(id, total, name)) ==
            if total > MAX_DOWNLOAD_TOTAL_BYTES || |s.downloads| >= MAX_INFLIGHT_DOWNLOADS || id in s.downloads then s
            else s.(downloads := s.downloads[id := Buffer(SavedName(name), total, 0, [])])
  {
    hide Be32, Be64, U32At, U64At, Frame.KeptName, DecodeText, OrDefault;
    var n := Frame.KeptName(name);
    var p := Be32(id) + Be64(total) + [|n|] + n;
    assert p[0..4] == Be32(id) && p[4..12] == Be64(total) && p[13..] == n && p[12] == |n|;
    ReadBe32(p, 0, id);
    ReadBe64(p, 4, total);
  }

  /** A download that is opened is called by its name. */
  lemma OpenedName(s: TabState, id: U32, total: U64, name: Utf8.Str)
    requires total <= 268435456 && |s.downloads| < 16 && id !in s.downloads
    ensures var t := Deliver(s, Begin(id, total, name));
            id in t.downloads && Shows(t.downloads[id].name, name)
  {
    hide Shows, SavedName;
    DeliverBegin(s, id, total, name);
    SavedNameShows(name, SavedName(name));
  }

  lemma DeliverChunk(s: TabState, id: U32, bytes: seq<Byte>)
    ensures Deliver(s, Chunk(id, bytes)) ==
            if id !in s.downloads then s
            else var dl := s.downloads[id];
                 if dl.received + |bytes| > dl.total then s.(downloads := s.downloads - {id})
                 else
                   var grown := dl.(received := dl.received + |bytes|, chunks := dl.chunks + [bytes]);
                   s.(downloads := s.downloads[id := grown])
  {
  }

  lemma DeliverEnd(s: TabState, id: U32, status: Byte)
    ensures Deliver(s, End(id, status)) ==
            if id !in s.downloads then s
            else var dl := s.downloads[id];
                 if status == Frame.DOWNLOAD_STATUS_CANCEL || dl.received != dl.total
                 then s.(downloads := s.downloads - {id})
                 else TabState(s.downloads - {id}, s.saved + [Saved(id, dl.name, Flatten(dl.chunks))])
  {
  }

  predicate NonEmpty(chunks: seq<seq<Byte>>) {
    forall i :: 0 <= i < |chunks| ==> chunks[i] != []
  }

  /** Some of the chunks of a download, adding up to as much as all of them, are all of them. */
  lemma {:induction false} SameSumIsAll(sub: seq<seq<Byte>>, full: seq<seq<Byte>>)
    requires IsSubsequence(sub, full) && NonEmpty(full)
    ensures Sum(sub) <= Sum(full)
    ensures Sum(sub) == Sum(full) ==> sub == full
    decreases |full|
  {
    if full == [] {
    } else {
      assert NonEmpty(full[1..]);
      if sub == [] {
        assert Sum(full) >= |full[0]| > 0;
      } else {
        if sub[0] == full[0] && IsSubsequence(sub[1..], full[1..]) {
          SameSumIsAll(sub[1..], full[1..]);
          assert sub == [sub[0]] + sub[1..] && full == [full[0]] + full[1..];
        } else {
          SameSumIsAll(sub, full[1..]);
        }
      }
    }
  }

  predicate BufferOk(dl: Buffer, e: Entry) {
    && dl.total == e.total && dl.name == SavedName(e.name) && dl.received == Sum(dl.chunks)
    && IsSubsequence(dl.chunks, e.chunks)
  }

  /** A saved file is a finished download, whole. */
  predicate SavedOk(l: Ledger, f: Saved) {
    && f.id in l && l[f.id].status == Some(Frame.DOWNLOAD_STATUS_OK)
    && f.bytes == Flatten(l[f.id].chunks) && |f.bytes| == l[f.id].total && f.name == SavedName(l[f.id].name)
  }

  predicate TabOk(l: Ledger, s: TabState) {
    && (forall id :: id in s.downloads ==> id in l && BufferOk(s.downloads[id], l[id]))
    && (forall k :: 0 <= k < |s.saved| ==> SavedOk(l, s.saved[k]))
    && (forall j, k :: 0 <= j < k < |s.saved| ==> s.saved[j].id != s.saved[k].id)
  }

  predicate LedgerOk(l: Ledger) {
    forall id :: id in l ==> NonEmpty(l[id].chunks)
  }

  lemma NoteOk(l: Ledger, e: Event)
    requires LedgerOk(l) && MayFollow(l, e)
    ensures LedgerOk(Note(l, e))
  {
  }

  lemma {:induction false} SubsequenceGrows<E>(sub: seq<E>, full: seq<E>, e: E)
    requires IsSubsequence(sub, full)
    ensures IsSubsequence(sub, full + [e]) && IsSubsequence(sub + [e], full + [e])
    decreases |full|
  {
    if full == [] {
      assert full + [e] == [e] && sub + [e] == [e] && [e][1..] == [];
    } else {
      assert (full + [e])[1..] == full[1..] + [e];
      if sub == [] {
        SubsequenceGrows(sub, full[1..], e);
      } else if sub[0] == full[0] && IsSubsequence(sub[1..], full[1..]) {
        SubsequenceGrows(sub[1..], full[1..], e);
        assert (sub + [e])[1..] == sub[1..] + [e];
      } else {
        SubsequenceGrows(sub, full[1..], e);
      }
    }
  }

  /** An event that never reaches the browser. */
  lemma LostEvent(l: Ledger, s: TabState, e: Event)
    requires TabOk(l, s) && MayFollow(l, e)
    ensures TabOk(Note(l, e), s)
  {
    hide IsSubsequence, Sum, SavedName;
    if e.Chunk? && e.id in s.downloads {
      SubsequenceGrows(s.downloads[e.id].chunks, l[e.id].chunks, e.bytes);
    }
  }

  lemma DeliveredChunk(l: Ledger, s: TabState, id: U32, bytes: seq<Byte>)
    requires TabOk(l, s) && MayFollow(l, Chunk(id, bytes))
    ensures TabOk(Note(l, Chunk(id, bytes)), Deliver(s, Chunk(id, bytes)))
  {
    hide IsSubsequence, SavedName, Deliver;
    DeliverChunk(s, id, bytes);
    LostEvent(l, s, Chunk(id, bytes));
    if id in s.downloads {
      SubsequenceGrows(s.downloads[id].chunks, l[id].chunks, bytes);
      FlattenSnoc(s.downloads[id].chunks, bytes);
    }
  }

  /** A buffer that is complete at an OK end holds all the chunks. */
  lemma CompleteIsWhole(dl: Buffer, e: Entry)
    requires BufferOk(dl, e) && NonEmpty(e.chunks) && Sum(e.chunks) == e.total && dl.received == dl.total
    ensures dl.chunks == e.chunks
  {
    hide IsSubsequence, SavedName, Sum;
    SameSumIsAll(dl.chunks, e.chunks);
  }

  lemma DeliveredEnd(l: Ledger, s: TabState, id: U32, status: Byte)
    requires TabOk(l, s) && LedgerOk(l) && MayFollow(l, End(id, status))
    ensures TabOk(Note(l, End(id, status)), Deliver(s, End(id, status)))
  {
    hide IsSubsequence, SavedName, Deliver, NonEmpty, TabOk, Note;
    var e := End(id, status);
    DeliverEnd(s, id, status);
    LostEvent(l, s, e);
    if id in s.downloads {
      DropBuffer(Note(l, e), s, id);
      if status == Frame.DOWNLOAD_STATUS_OK && s.downloads[id].received == s.downloads[id].total {
        SaveBuffer(l, s, id);
      }
    }
  }

  lemma DropBuffer(l: Ledger, s: TabState, id: U32)
    requires TabOk(l, s)
    ensures TabOk(l, s.(downloads := s.downloads - {id}))
  {
    hide BufferOk, SavedOk;
  }

  lemma SaveBuffer(l: Ledger, s: TabState, id: U32)
    requires TabOk(l, s) && LedgerOk(l) && MayFollow(l, End(id, Frame.DOWNLOAD_STATUS_OK))
    requires id in s.downloads && s.downloads[id].received == s.downloads[id].total
    ensures var dl := s.downloads[id];
            TabOk(Note(l, End(id, Frame.DOWNLOAD_STATUS_OK)),
                  TabState(s.downloads - {id}, s.saved + [Saved(id, dl.name, Flatten(dl.chunks))]))
  {
    hide IsSubsequence, SavedName, NonEmpty, Sum;
    var dl, e := s.downloads[id], End(id, Frame.DOWNLOAD_STATUS_OK);
    var f, now := Saved(id, dl.name, Flatten(dl.chunks)), Note(l, e);
    CompleteIsWhole(dl, l[id]);
    SumIs(dl.chunks);
    assert SavedOk(now, f);
    LostEvent(l, s, e);
    assert forall k :: 0 <= k < |s.saved| ==> s.saved[k].id != id by {
      assert forall k :: 0 <= k < |s.saved| ==> SavedOk(l, s.saved[k]);
    }
    hide BufferOk, SavedOk, Note;
  }

  lemma DeliveredEvent(l: Ledger, s: TabState, e: Event)
    requires TabOk(l, s) && LedgerOk(l) && MayFollow(l, e)
    ensures TabOk(Note(l, e), Deliver(s, e))
  {
    hide Deliver, SavedName;
    match e
    case Begin(id, total, name) =>
      DeliverBegin(s, id, total, name);
      LostEvent(l, s, e);
      assert Flatten<Byte>([]) == [];
    case Chunk(id, bytes) => DeliveredChunk(l, s, id, bytes);
    case End(id, status) => DeliveredEnd(l, s, id, status);
  }

  lemma {:induction false} AnySubsequenceOk(l: Ledger, s: TabState, log: seq<Event>, got: seq<Event>)
    requires TabOk(l, s) && LedgerOk(l) && Disciplined(l, log) && IsSubsequence(got, log)
    ensures TabOk(NoteAll(l, log), DeliverAll(s, got))
    decreases |log|
  {
    hide TabOk, LedgerOk, MayFollow, Note, Deliver;
    if log == [] {
    } else {
      var e := log[0];
      NoteOk(l, e);
      if IsSubsequence(got, log[1..]) {
        LostEvent(l, s, e);
        AnySubsequenceOk(Note(l, e), s, log[1..], got);
      } else {
        DeliveredEvent(l, s, e);
        AnySubsequenceOk(Note(l, e), Deliver(s, e), log[1..], got[1..]);
      }
    }
  }

  /** Whatever part of the broadcast events reaches the browser, in order, it saves only whole
      files. */
  lemma SavedFilesAreWhole(actions: seq<Action>, got: seq<Event>)
    requires Spawns(actions) < 0x1_0000_0000
    requires IsSubsequence(got, Run(actions).log)
    ensures TabOk(NoteAll(map[], Run(actions).log), DeliverAll(TabState(map[], []), got))
  {
    hide Run, WorldInv, IsSubsequence, DeliverAll;
    RunInv(actions);
    WorldIsDisciplined(Run(actions));
    AnySubsequenceOk(map[], TabState(map[], []), Run(actions).log, got);
  }

  lemma WorldIsDisciplined(w: World)
    requires WorldInv(w)
    ensures Disciplined(map[], w.log)
  {
  }

  /** A saved file is its download's file: every byte read from disk, in order, of the size and
      under the name found when it was opened. */
  predicate SavedIsRead(actions: seq<Action>, f: Saved) {
    var d := OnDisk(actions, f.id);
    d.Some? && f.bytes == d.value.bytes && |f.bytes| == d.value.size && Shows(f.name, d.value.name)
  }

  lemma SavedOkIsRead(actions: seq<Action>, f: Saved)
    requires Spawns(actions) < 0x1_0000_0000 && SavedOk(NoteAll(map[], Run(actions).log), f)
    ensures SavedIsRead(actions, f)
  {
    hide Run, NoteAll, OnDisk, SavedName, Shows, Disciplined, TaskInv;
    SavedNameShows(NoteAll(map[], Run(actions).log)[f.id].name, f.name);
    RunTrue(actions);
    RunInv(actions);
  }

  // ---- a tab over its connections ------------------------------------------------------------------

  /** One connection of a tab: its subscription, the step by which the tab had closed it, and
      what had reached the tab, some of the events received by then. */
  datatype Connection = Connection(sub: nat, until: nat, delivered: seq<Event>)

  predicate Possible(actions: seq<Action>, c: Connection) {
    && c.until <= |actions| && c.sub < |Run(actions[..c.until]).subs|
    && IsSubsequence(c.delivered, Received(Run(actions[..c.until]).subs[c.sub].stretches))
  }

  /** A tab opens a connection only after it has closed the one before. */
  predicate Successive(actions: seq<Action>, cs: seq<Connection>) {
    && (forall i :: 0 <= i < |cs| ==> Possible(actions, cs[i]))
    && (forall i :: 0 <= i < |cs| - 1 ==>
          cs[i].until <= cs[i + 1].until && |Run(actions[..cs[i].until]).subs| <= cs[i + 1].sub)
  }

  /** Everything a tab is handed, connection after connection; it never clears its buffers. */
  function TabEvents(actions: seq<Action>, cs: seq<Connection>): seq<Event>
    requires Successive(actions, cs)
  {
    if cs == [] then []
    else
      var n := |cs| - 1;
      TabEvents(actions, cs[..n]) + cs[n].delivered
  }

  /** Later on the log has only grown, and a new subscription starts where it then ended. */
  lemma {:induction false} LogGrows(actions: seq<Action>, u: nat, v: nat)
    requires u <= v <= |actions|
    ensures var early, late := Run(actions[..u]), Run(actions[..v]);
            && early.log <= late.log && |early.subs| <= |late.subs|
            && forall k :: |early.subs| <= k < |late.subs| ==> |early.log| <= late.subs[k].start
    decreases v
  {
    hide TaskStep;
    if u < v {
      LogGrows(actions, u, v - 1);
      assert actions[..v][..v - 1] == actions[..v - 1];
      var w := Run(actions[..v - 1]);
      if actions[v - 1].Poll? && actions[v - 1].k < |w.subs| && w.subs[actions[v - 1].k].stretches != [] {
        RecvKeepsStart(w.log, DOWNLOAD_BROADCAST_CAP, w.subs[actions[v - 1].k]);
      }
    }
  }

  /** What one connection delivers comes after everything logged before it was opened. */
  lemma DeliveredAfter(actions: seq<Action>, c: Connection, early: seq<Event>)
    requires Possible(actions, c)
    requires var w := Run(actions[..c.until]);
             early <= w.log && |early| <= w.subs[c.sub].start
    ensures var log := Run(actions[..c.until]).log;
            |early| <= |log| && IsSubsequence(c.delivered, log[|early|..])
  {
    hide Run, IsSubsequence, Received, SubInv;
    var w := Run(actions[..c.until]);
    var sub := w.subs[c.sub];
    RunSubsInv(actions[..c.until]);
    ReceivedIsSubsequence(w.log, sub);
    SubsequenceTwice(c.delivered, Received(sub.stretches), w.log[sub.start..]);
    SubsequenceSkip(c.delivered, w.log[|early|..sub.start], w.log[sub.start..]);
    assert w.log[|early|..sub.start] + w.log[sub.start..] == w.log[|early|..];
  }

  /** The whole of it is a part of the log, in order. */
  lemma {:induction false} TabEventsInLog(actions: seq<Action>, cs: seq<Connection>)
    requires Successive(actions, cs)
    ensures cs != [] ==> IsSubsequence(TabEvents(actions, cs), Run(actions[..cs[|cs| - 1].until]).log)
    decreases |cs|
  {
    hide Run, IsSubsequence, Received;
    if cs != [] {
      var n := |cs| - 1;
      var c, before := cs[n], cs[..n];
      var log := Run(actions[..c.until]).log;
      var early: seq<Event> := [];
      SuccessiveBefore(actions, cs);
      if n > 0 {
        early := Run(actions[..cs[n - 1].until]).log;
        Reopened(actions, cs, n - 1);
      }
      hide Possible, Successive;
      TabEventsInLog(actions, before);
      if n == 0 {
        EmptySubsequence<Event>([]);
      }
      DeliveredAfter(actions, c, early);
      SubsequenceAppend(TabEvents(actions, before), early, c.delivered, log[|early|..]);
      assert early + log[|early|..] == log;
    }
  }

  lemma SuccessiveBefore(actions: seq<Action>, cs: seq<Connection>)
    requires Successive(actions, cs) && cs != []
    ensures Successive(actions, cs[..|cs| - 1]) && Possible(actions, cs[|cs| - 1])
    ensures |cs| > 1 ==> cs[..|cs| - 1][|cs| - 2] == cs[|cs| - 2]
  {
    hide Possible, Run;
    var before := cs[..|cs| - 1];
    assert forall i :: 0 <= i < |before| ==> before[i] == cs[i];
  }

  lemma Reopened(actions: seq<Action>, cs: seq<Connection>, i: nat)
    requires Successive(actions, cs) && i < |cs| - 1
    ensures var early, late := Run(actions[..cs[i].until]), Run(actions[..cs[i + 1].until]);
            early.log <= late.log && |early.log| <= late.subs[cs[i + 1].sub].start
  {
    hide Run;
    LogGrows(actions, cs[i].until, cs[i + 1].until);
  }

  lemma TabEventsInWholeLog(actions: seq<Action>, cs: seq<Connection>)
    requires Successive(actions, cs)
    ensures IsSubsequence(TabEvents(actions, cs), Run(actions).log)
  {
    hide Run, IsSubsequence, Received;
    var log := Run(actions).log;
    if cs == [] {
      EmptySubsequence(log);
    } else {
      var u := cs[|cs| - 1].until;
      TabEventsInLog(actions, cs);
      LogGrows(actions, u, |actions|);
      assert actions[..|actions|] == actions;
      var early := Run(actions[..u]).log;
      EmptySubsequence(log[|early|..]);
      SubsequenceAppend(TabEvents(actions, cs), early, [], log[|early|..]);
      assert TabEvents(actions, cs) + [] == TabEvents(actions, cs) && early + log[|early|..] == log;
    }
  }

  /** For a tab that attaches at any moment, lags in any pattern, and reconnects any number of
      times: for one session with fewer than 2^32 downloads and every interleaving of their
      tasks, attaches and receives, each file the tab saves is exactly the concatenation of
      every chunk read for that download, of the size and name it was opened with, and no
      download is saved twice. */
  lemma LaggingTabSavesWholeFiles(actions: seq<Action>, cs: seq<Connection>)
    requires Spawns(actions) < 0x1_0000_0000 && Successive(actions, cs)
    ensures var files := DeliverAll(TabState(map[], []), TabEvents(actions, cs)).saved;
            && (forall i :: 0 <= i < |files| ==> SavedIsRead(actions, files[i]))
            && (forall i, j :: 0 <= i < j < |files| ==> files[i].id != files[j].id)
  {
    hide Run, IsSubsequence, DeliverAll, NoteAll, SavedOk, SavedIsRead, BufferOk, TabEvents, Successive;
    TabEventsInWholeLog(actions, cs);
    SavedFilesAreWhole(actions, TabEvents(actions, cs));
    var files := DeliverAll(TabState(map[], []), TabEvents(actions, cs)).saved;
    forall i | 0 <= i < |files|
      ensures SavedIsRead(actions, files[i])
    {
      SavedOkIsRead(actions, files[i]);
    }
  }

  // ---- a lost chunk ----------------------------------------------------------------------------------

  /** The chunks of one download among some events. */
  function ChunksOf(es: seq<Event>, id: U32): seq<seq<Byte>> {
    if es == [] then []
    else (if es[0].Chunk? && es[0].id == id then [es[0].bytes] else []) + ChunksOf(es[1..], id)
  }

  lemma {:induction false} ChunksOfAppend(a: seq<Event>, b: seq<Event>, id: U32)
    ensures ChunksOf(a + b, id) == ChunksOf(a, id) + ChunksOf(b, id)
  {
    if a == [] {
      assert a + b == b;
    } else {
      assert (a + b)[1..] == a[1..] + b;
      ChunksOfAppend(a[1..], b, id);
    }
  }

  lemma {:induction false} ChunksOfSubsequence(got: seq<Event>, log: seq<Event>, id: U32)
    requires IsSubsequence(got, log)
    ensures IsSubsequence(ChunksOf(got, id), ChunksOf(log, id))
    decreases |log|
  {
    if got != [] {
      var head := if log[0].Chunk? && log[0].id == id then [log[0].bytes] else [];
      if IsSubsequence(got, log[1..]) {
        ChunksOfSubsequence(got, log[1..], id);
        SubsequenceSkip(ChunksOf(got, id), head, ChunksOf(log[1..], id));
      } else {
        ChunksOfSubsequence(got[1..], log[1..], id);
        SubsequenceKeep(head, ChunksOf(got[1..], id), ChunksOf(log[1..], id));
      }
    }
  }

  function NotedChunks(l: Ledger, id: U32): seq<seq<Byte>> {
    if id in l then l[id].chunks else []
  }

  lemma NoteChunks(l: Ledger, e: Event, id: U32)
    requires MayFollow(l, e)
    ensures NotedChunks(Note(l, e), id) == NotedChunks(l, id) + if e.Chunk? && e.id == id then [e.bytes] else []
  {
    assert NotedChunks(l, id) + [] == NotedChunks(l, id);
  }

  /** The ledger's chunks are the log's. */
  lemma {:induction false} LedgerChunks(l: Ledger, log: seq<Event>, id: U32)
    requires Disciplined(l, log)
    ensures NotedChunks(NoteAll(l, log), id) == NotedChunks(l, id) + ChunksOf(log, id)
    decreases |log|
  {
    hide MayFollow, Note, NotedChunks;
    if log == [] {
      assert NotedChunks(l, id) + [] == NotedChunks(l, id);
    } else {
      var e := log[0];
      var mine := if e.Chunk? && e.id == id then [e.bytes] else [];
      NoteChunks(l, e, id);
      LedgerChunks(Note(l, e), log[1..], id);
      AppendAssoc(NotedChunks(l, id), mine, ChunksOf(log[1..], id));
    }
  }

  lemma {:induction false} LedgerStaysOk(l: Ledger, log: seq<Event>)
    requires LedgerOk(l) && Disciplined(l, log)
    ensures LedgerOk(NoteAll(l, log))
    decreases |log|
  {
    hide LedgerOk, MayFollow, Note;
    if log != [] {
      NoteOk(l, log[0]);
      LedgerStaysOk(Note(l, log[0]), log[1..]);
    }
  }

  lemma {:induction false} DeliverAllSnoc(s: TabState, es: seq<Event>, e: Event)
    ensures DeliverAll(s, es + [e]) == Deliver(DeliverAll(s, es), e)
    decreases |es|
  {
    hide Deliver;
    if es == [] {
      assert es + [e] == [e] && [e][1..] == [];
    } else {
      assert (es + [e])[1..] == es[1..] + [e];
      DeliverAllSnoc(Deliver(s, es[0]), es[1..], e);
    }
  }

  /** A tab holds and saves no more than it was handed. */
  ghost predicate Within(s: TabState, got: seq<Event>) {
    && (forall id :: id in s.downloads ==>
          s.downloads[id].received == Sum(s.downloads[id].chunks) <= Sum(ChunksOf(got, id)))
    && (forall k :: 0 <= k < |s.saved| ==> |s.saved[k].bytes| <= Sum(ChunksOf(got, s.saved[k].id)))
  }

  lemma DeliverWithin(s: TabState, got: seq<Event>, e: Event)
    requires Within(s, got)
    ensures Within(Deliver(s, e), got + [e])
  {
    hide Deliver, ChunksOf, SavedName, Sum;
    forall id: U32
      ensures Sum(ChunksOf(got + [e], id)) >= Sum(ChunksOf(got, id))
    {
      ChunksGain(got, e, id);
    }
    match e
    case Begin(id, total, name) =>
      DeliverBegin(s, id, total, name);
      NoSum();
    case Chunk(id, bytes) =>
      DeliverChunk(s, id, bytes);
      ChunksGain(got, e, id);
      if id in s.downloads {
        SumSnoc(s.downloads[id].chunks, bytes);
      }
    case End(id, status) =>
      DeliverEnd(s, id, status);
      if id in s.downloads {
        SumIs(s.downloads[id].chunks);
      }
  }

  lemma NoSum()
    ensures Sum([]) == 0
  {
  }

  lemma SumIs(chunks: seq<seq<Byte>>)
    ensures Sum(chunks) == |Flatten(chunks)|
  {
  }

  lemma SumSnoc(chunks: seq<seq<Byte>>, bytes: seq<Byte>)
    ensures Sum(chunks + [bytes]) == Sum(chunks) + |bytes|
  {
    FlattenSnoc(chunks, bytes);
  }

  lemma ChunksGain(got: seq<Event>, e: Event, id: U32)
    ensures Sum(ChunksOf(got + [e], id)) ==
            Sum(ChunksOf(got, id)) + if e.Chunk? && e.id == id then |e.bytes| else 0
  {
    ChunksOfAppend(got, [e], id);
    assert [e][1..] == [];
    FlattenAppend(ChunksOf(got, id), ChunksOf([e], id));
    if e.Chunk? && e.id == id {
      assert ChunksOf([e], id) == [e.bytes];
      FlattenSnoc([], e.bytes);
      assert [] + [e.bytes] == [e.bytes];
    }
  }

  lemma {:induction false} AllWithin(got: seq<Event>)
    ensures Within(DeliverAll(TabState(map[], []), got), got)
    decreases |got|
  {
    hide Within, Deliver;
    if got == [] {
      NothingWithin();
    } else {
      var n := |got| - 1;
      AllWithin(got[..n]);
      DeliverWithin(DeliverAll(TabState(map[], []), got[..n]), got[..n], got[n]);
      DeliverAllSnoc(TabState(map[], []), got[..n], got[n]);
      assert got[..n] + [got[n]] == got;
    }
  }

  lemma NothingWithin()
    ensures Within(TabState(map[], []), [])
  {
  }

  /** A tab that was not handed every chunk of a download does not save it. */
  lemma LostChunkDiscards(actions: seq<Action>, got: seq<Event>, id: U32)
    requires Spawns(actions) < 0x1_0000_0000
    requires IsSubsequence(got, Run(actions).log)
    requires ChunksOf(got, id) != ChunksOf(Run(actions).log, id)
    ensures id !in SavedIds(DeliverAll(TabState(map[], []), got))
  {
    hide Run, WorldInv, IsSubsequence, DeliverAll, NoteAll, ChunksOf, BufferOk, Disciplined, NonEmpty, SavedName;
    var log, s := Run(actions).log, DeliverAll(TabState(map[], []), got);
    SavedFilesAreWhole(actions, got);
    AllWithin(got);
    RunInv(actions);
    WorldIsDisciplined(Run(actions));
    LedgerChunks(map[], log, id);
    LedgerStaysOk(map[], log);
    ChunksOfSubsequence(got, log, id);
    if id in SavedIds(s) {
      var k :| 0 <= k < |s.saved| && s.saved[k].id == id;
      SavedIsAll(NoteAll(map[], log), s.saved[k], ChunksOf(got, id), ChunksOf(log, id));
    }
  }

  lemma SavedIsAll(l: Ledger, f: Saved, part: seq<seq<Byte>>, all: seq<seq<Byte>>)
    requires SavedOk(l, f) && LedgerOk(l) && NotedChunks(l, f.id) == [] + all
    requires IsSubsequence(part, all) && |f.bytes| <= Sum(part)
    ensures part == all
  {
    hide IsSubsequence, SavedName;
    assert [] + all == all;
    SameSumIsAll(part, all);
  }

  // ---- and nothing is discarded without cause ------------------------------------------------------

  function OpenIds(l: Ledger): set<U32> {
    set id | id in l && l[id].status == None
  }

  /** No more downloads in flight than a tab will hold. */
  predicate Roomy(l: Ledger, log: seq<Event>)
    decreases |log|
  {
    log == [] ||
    ((log[0].Begin? ==> |OpenIds(l)| < MAX_INFLIGHT_DOWNLOADS) && Roomy(Note(l, log[0]), log[1..]))
  }

  function SavedIds(s: TabState): set<U32> {
    set k | 0 <= k < |s.saved| :: s.saved[k].id
  }

  predicate Mirrors(l: Ledger, s: TabState, id: U32)
    requires id in s.downloads
  {
    id in l && l[id].status == None && s.downloads[id].total == l[id].total
    && s.downloads[id].chunks == l[id].chunks && s.downloads[id].received == Sum(l[id].chunks)
  }

  predicate Committed(e: Entry) {
    e.status == Some(Frame.DOWNLOAD_STATUS_OK)
  }

  predicate UpToDate(l: Ledger, s: TabState) {
    && (forall id :: id in s.downloads ==> Mirrors(l, s, id))
    && (forall id :: id in l && l[id].total <= MAX_DOWNLOAD_TOTAL_BYTES && l[id].status == None ==> id in s.downloads)
    && (forall id :: id in l && l[id].total <= MAX_DOWNLOAD_TOTAL_BYTES && Committed(l[id]) ==> id in SavedIds(s))
  }

  lemma SubsetSize(a: set<U32>, b: set<U32>)
    requires a <= b
    ensures |a| <= |b|
  {
    assert b == a + (b - a);
  }

  lemma SavedIdsSnoc(s: TabState, f: Saved)
    ensures SavedIds(s.(saved := s.saved + [f])) == SavedIds(s) + {f.id}
  {
    var t := s.(saved := s.saved + [f]);
    forall k | 0 <= k < |s.saved|
      ensures s.saved[k].id in SavedIds(t)
    {
      assert t.saved[k] == s.saved[k];
    }
    assert t.saved[|s.saved|] == f;
  }

  lemma KeepsUpBegin(l: Ledger, s: TabState, e: Event)
    requires e.Begin? && UpToDate(l, s) && MayFollow(l, e) && |OpenIds(l)| < MAX_INFLIGHT_DOWNLOADS
    ensures UpToDate(Note(l, e), Deliver(s, e))
  {
    hide Deliver, SavedName, SavedIds;
    DeliverBegin(s, e.id, e.total, e.name);
    assert s.downloads.Keys <= OpenIds(l);
    SubsetSize(s.downloads.Keys, OpenIds(l));
    assert |s.downloads| == |s.downloads.Keys|;
    assert Flatten<Byte>([]) == [];
    SameSaved(s, Deliver(s, e));
  }

  lemma SameSaved(s: TabState, t: TabState)
    requires s.saved == t.saved
    ensures SavedIds(s) == SavedIds(t)
  {
  }

  lemma KeepsUpChunk(l: Ledger, s: TabState, e: Event)
    requires e.Chunk? && UpToDate(l, s) && MayFollow(l, e)
    ensures UpToDate(Note(l, e), Deliver(s, e))
  {
    hide Deliver, SavedIds;
    DeliverChunk(s, e.id, e.bytes);
    FlattenSnoc(l[e.id].chunks, e.bytes);
    SameSaved(s, Deliver(s, e));
  }

  lemma KeepsUpSaved(l: Ledger, s: TabState, id: U32)
    requires UpToDate(l, s) && MayFollow(l, End(id, Frame.DOWNLOAD_STATUS_OK)) && id in s.downloads
    ensures var e := End(id, Frame.DOWNLOAD_STATUS_OK); UpToDate(Note(l, e), Deliver(s, e))
  {
    hide Deliver, SavedIds;
    DeliverEnd(s, id, Frame.DOWNLOAD_STATUS_OK);
    var f := Saved(id, s.downloads[id].name, Flatten(s.downloads[id].chunks));
    assert Mirrors(l, s, id);
    SavedIdsSnoc(s, f);
    SameSaved(s.(saved := s.saved + [f]), Deliver(s, End(id, Frame.DOWNLOAD_STATUS_OK)));
  }

  /** A download that has ended without being saved, or was too large to open. */
  lemma DroppedUpToDate(l: Ledger, s: TabState, m: Ledger, t: TabState, id: U32)
    requires UpToDate(l, s) && t.saved == s.saved && t.downloads == s.downloads - {id}
    requires m.Keys == l.Keys + {id} && forall k :: k in l && k != id ==> m[k] == l[k]
    requires m[id].status != None && (m[id].total <= MAX_DOWNLOAD_TOTAL_BYTES ==> !Committed(m[id]))
    ensures UpToDate(m, t)
  {
    hide SavedIds, Mirrors, Committed;
    SameSaved(s, t);
    forall k | k in t.downloads
      ensures Mirrors(m, t, k)
    {
      MirrorsIn(l, s, k);
      MirrorsStay(l, s, m, t, k);
    }
  }

  lemma MirrorsIn(l: Ledger, s: TabState, id: U32)
    requires id in s.downloads && Mirrors(l, s, id)
    ensures id in l
  {
  }

  lemma KeepsUpDropped(l: Ledger, s: TabState, e: Event)
    requires e.End? && UpToDate(l, s) && MayFollow(l, e)
    requires e.id in s.downloads ==> e.status == Frame.DOWNLOAD_STATUS_CANCEL
    ensures UpToDate(Note(l, e), s.(downloads := s.downloads - {e.id}))
  {
    hide SavedIds, Sum, Mirrors;
    assert e.id in l && l[e.id].total <= MAX_DOWNLOAD_TOTAL_BYTES ==> e.id in s.downloads;
    hide UpToDate;
    DroppedUpToDate(l, s, Note(l, e), s.(downloads := s.downloads - {e.id}), e.id);
  }

  lemma MirrorsStay(l: Ledger, s: TabState, m: Ledger, t: TabState, id: U32)
    requires id in s.downloads && id in t.downloads && t.downloads[id] == s.downloads[id]
    requires Mirrors(l, s, id) && (id in l ==> id in m && m[id] == l[id])
    ensures Mirrors(m, t, id)
  {
  }

  lemma KeepsUpEnd(l: Ledger, s: TabState, e: Event)
    requires e.End? && UpToDate(l, s) && MayFollow(l, e)
    ensures UpToDate(Note(l, e), Deliver(s, e))
  {
    if e.id in s.downloads && e.status == Frame.DOWNLOAD_STATUS_OK {
      KeepsUpSaved(l, s, e.id);
    } else {
      KeepsUpDropped(l, s, e);
      hide UpToDate, Note, Deliver, Flatten;
      DeliverEnd(s, e.id, e.status);
      assert e.id !in s.downloads ==> s.downloads - {e.id} == s.downloads;
    }
  }

  lemma {:induction false} KeepsUp(l: Ledger, s: TabState, log: seq<Event>)
    requires UpToDate(l, s) && Disciplined(l, log) && Roomy(l, log)
    ensures UpToDate(NoteAll(l, log), DeliverAll(s, log))
    decreases |log|
  {
    hide UpToDate, MayFollow, Note, Deliver;
    if log != [] {
      var e := log[0];
      match e {
        case Begin(_, _, _) => KeepsUpBegin(l, s, e);
        case Chunk(_, _) => KeepsUpChunk(l, s, e);
        case End(_, _) => KeepsUpEnd(l, s, e);
      }
      KeepsUp(Note(l, e), Deliver(s, e), log[1..]);
    }
  }

  /** A tab that receives every event saves every committed download within its own size cap,
      as long as no more than it can hold are ever in flight. */
  lemma NothingLostAllSaved(actions: seq<Action>, id: U32)
    requires Spawns(actions) < 0x1_0000_0000
    requires var log := Run(actions).log; Roomy(map[], log) && End(id, Frame.DOWNLOAD_STATUS_OK) in log
    requires id in NoteAll(map[], Run(actions).log)
    requires NoteAll(map[], Run(actions).log)[id].total <= MAX_DOWNLOAD_TOTAL_BYTES
    ensures id in SavedIds(DeliverAll(TabState(map[], []), Run(actions).log))
  {
    hide Run, WorldInv, DeliverAll, Roomy, NoteAll, Disciplined;
    RunInv(actions);
    WorldIsDisciplined(Run(actions));
    KeepsUp(map[], TabState(map[], []), Run(actions).log);
    StaysCommitted(map[], Run(actions).log, id);
  }

  lemma {:induction false} StaysCommitted(l: Ledger, log: seq<Event>, id: U32)
    requires Disciplined(l, log)
    requires End(id, Frame.DOWNLOAD_STATUS_OK) in log || (id in l && l[id].status == Some(Frame.DOWNLOAD_STATUS_OK))
    ensures id in NoteAll(l, log) && NoteAll(l, log)[id].status == Some(Frame.DOWNLOAD_STATUS_OK)
    decreases |log|
  {
    if log != [] {
      StaysCommitted(Note(l, log[0]), log[1..], id);
    }
  }
}
