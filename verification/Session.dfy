/** The shared session object: its lock sections, as the agent's tasks run them. */
module Session {
  import opened Prelude
  import opened FanOut
  import L = Lease
  import B = Broadcast

  /** Bounded byte FIFO, drained on overflow. */
  class ByteRing {
    var buf: seq<Byte>
    const cap: nat

    constructor (cap: nat)
      ensures buf == [] && this.cap == cap
    {
      buf := [];
      this.cap := cap;
    }

    method Extend(bytes: seq<Byte>)
      modifies this
      ensures buf == LastBytes(old(buf) + bytes, cap)
    {
      buf := buf + bytes;
      if |buf| > cap {
        var excess := |buf| - cap;
        buf := buf[excess..];
      }
    }

    method Snapshot() returns (out: seq<Byte>)
      ensures out == buf
    {
      out := buf;
    }
  }

  datatype AttachResult = AttachResult(
    eventRx: B.Sub<Event>, scrollback: seq<Byte>, becameController: bool, currentController: Option<U32>)

  class Session {
    var controller: Option<U32>
    var lastSize: L.Size
    var attached: map<U32, L.Size>
    const scrollback: ByteRing
    var log: seq<Event>
    var ptyInput: seq<seq<Byte>>
    // every byte forwarded so far, every attachment made, the writes between their check and
    // their enqueue, where each queued input came from, and the number of steps taken
    ghost var history: seq<Byte>
    ghost var streams: seq<Stream>
    ghost var granted: seq<L.Grant>
    ghost var queued: seq<L.Input>
    ghost var steps: nat

    ghost function LeaseModel(): L.Lease
      reads this
    {
      L.Lease(controller, lastSize, attached)
    }

    ghost function InputModel(): L.World
      reads this
    {
      L.World(LeaseModel(), granted, queued, steps)
    }

    /** The PTY's queue is the queued inputs' bytes. */
    ghost predicate Valid()
      reads this
    {
      ptyInput == L.BytesOf(queued)
    }

    ghost function FanModel(): Fan
      reads this, scrollback
    {
      Fan(scrollback.cap, scrollback.buf, history, log, streams)
    }

    constructor (size: L.Size, cap: nat)
      ensures fresh(scrollback)
      ensures Valid() && InputModel() == L.Start(size) && FanModel() == FanOut.Init(cap)
    {
      controller := None;
      lastSize := size;
      attached := map[];
      scrollback := new ByteRing(cap);
      log := [];
      ptyInput := [];
      streams, history := [], [];
      granted, queued, steps := [], [], 0;
    }

    /** The reader's lock section for one scanned chunk. */
    method ReadChunk(fwd: seq<Byte>)
      modifies this`log, this`history, scrollback
      ensures FanModel() == FanOut.Step(old(FanModel()), Output(fwd))
    {
      if fwd != [] {
        scrollback.Extend(fwd);
        log := log + [Data(fwd)];
        history := history + fwd;
      }
    }

    /** The broadcasts that follow a lock section, once the lock is released. */
    method AnnounceController(sid: U32)
      modifies this`log
      ensures FanModel() == FanOut.Step(old(FanModel()), Announce(sid))
    {
      log := log + [ControllerChanged(sid)];
    }

    /** The lock section of `attach`. */
    method AttachStream(sid: U32, size: L.Size) returns (r: AttachResult)
      modifies this`controller, this`lastSize, this`attached, this`streams, this`steps
      ensures FanModel() == FanOut.Step(old(FanModel()), FanOut.Attach)
      ensures InputModel() == L.Step(old(InputModel()), L.Locked(L.Attach(sid, size)))
      ensures var s := streams[|streams| - 1];
              r == AttachResult(s.sub, s.snapshot, old(controller) == None, controller)
    {
      steps := steps + 1;
      var sub := B.Subscribe(log);
      var snapshot := scrollback.Snapshot();
      streams := streams + [Stream(snapshot, |history|, sub)];
      attached := attached[sid := size];
      var became := controller == None;
      if became {
        controller := Some(sid);
        lastSize := size;
      }
      r := AttachResult(sub, snapshot, became, controller);
    }

    method DetachStream(sid: U32) returns (wasController: bool)
      modifies this`controller, this`attached, this`steps
      ensures InputModel() == L.Step(old(InputModel()), L.Locked(L.Detach(sid)))
      ensures wasController <==> old(controller) == Some(sid)
    {
      steps := steps + 1;
      attached := attached - {sid};
      wasController := controller == Some(sid);
      if wasController {
        controller := None;
      }
    }

    method AcquireControl(sid: U32) returns (ok: bool)
      modifies this`controller, this`lastSize, this`steps
      ensures InputModel() == L.Step(old(InputModel()), L.Locked(L.Acquire(sid)))
      ensures ok <==> sid in attached && old(controller) == None
    {
      steps := steps + 1;
      if sid !in attached || controller != None {
        return false;
      }
      controller := Some(sid);
      lastSize := attached[sid];
      return true;
    }

    method ReleaseControl(sid: U32) returns (ok: bool)
      modifies this`controller, this`steps
      ensures InputModel() == L.Step(old(InputModel()), L.Locked(L.Release(sid)))
      ensures ok <==> old(controller) == Some(sid)
    {
      steps := steps + 1;
      if controller != Some(sid) {
        return false;
      }
      controller := None;
      return true;
    }

    method TakeControl(sid: U32) returns (ok: bool)
      modifies this`controller, this`lastSize, this`steps
      ensures InputModel() == L.Step(old(InputModel()), L.Locked(L.Take(sid)))
      ensures ok <==> sid in attached
    {
      steps := steps + 1;
      if sid !in attached {
        return false;
      }
      controller := Some(sid);
      lastSize := attached[sid];
      return true;
    }

    /** The lock section of `resize_for`; true when the PTY is to be resized. */
    method ResizeFor(sid: U32, size: L.Size) returns (doResize: bool)
      modifies this`attached, this`lastSize, this`steps
      ensures InputModel() == L.Step(old(InputModel()), L.Locked(L.Resize(sid, size)))
      ensures doResize <==> controller == Some(sid)
    {
      steps := steps + 1;
      attached := attached[sid := size];
      doResize := controller == Some(sid);
      if doResize {
        lastSize := size;
      }
    }

    /** `write_input_from`'s lock section: the gate on a stream's input. */
    method CheckInput(sid: U32, bytes: seq<Byte>) returns (ok: bool)
      modifies this`granted, this`steps
      ensures InputModel() == L.Step(old(InputModel()), L.Check(sid, bytes))
      ensures ok <==> controller == Some(sid)
      ensures granted == if ok then old(granted) + [L.Grant(sid, bytes, old(steps))] else old(granted)
    {
      ok := controller == Some(sid);
      if ok {
        granted := granted + [L.Grant(sid, bytes, steps)];
      }
      steps := steps + 1;
    }

    /** Its `try_send`, once the lock is released: the input is dropped when there is no room. */
    method EnqueueInput(ghost n: nat, bytes: seq<Byte>, room: bool)
      requires Valid() && n < |granted| && granted[n].bytes == bytes
      modifies this`granted, this`queued, this`steps, this`ptyInput
      ensures Valid() && InputModel() == L.Step(old(InputModel()), L.Enqueue(n, room))
      ensures granted == old(granted)[..n] + old(granted)[n + 1..]
      ensures ptyInput == old(ptyInput) + if room then [bytes] else []
    {
      hide L.BytesOf;
      if room {
        L.BytesOfSnoc(queued, L.Typed(granted[n]));
        queued := queued + [L.Typed(granted[n])];
        ptyInput := ptyInput + [bytes];
      }
      granted := granted[..n] + granted[n + 1..];
      steps := steps + 1;
    }

    /** `write_input_from`, with no other step between its check and its enqueue: the input
        reaches the PTY exactly for the holder of the lease and if there is room. */
    method WriteInputFrom(sid: U32, bytes: seq<Byte>, room: bool)
      requires Valid()
      modifies this`granted, this`queued, this`steps, this`ptyInput
      ensures Valid() && granted == old(granted)
      ensures InputModel() ==
              var w := L.Step(old(InputModel()), L.Check(sid, bytes));
              if old(controller) == Some(sid) then L.Step(w, L.Enqueue(|old(granted)|, room)) else w
      ensures ptyInput == old(ptyInput) + if controller == Some(sid) && room then [bytes] else []
    {
      hide L.Step, L.BytesOf;
      var ok := CheckInput(sid, bytes);
      if ok {
        assert granted[..|old(granted)|] + granted[|old(granted)| + 1..] == old(granted);
        EnqueueInput(|granted| - 1, bytes, room);
      }
    }

    /** `write_internal`: bytes of the agent's own, past the gate. */
    method WriteInternal(bytes: seq<Byte>, alive: bool) returns (ok: bool)
      requires Valid()
      modifies this`queued, this`steps, this`ptyInput
      ensures Valid() && InputModel() == L.Step(old(InputModel()), L.WriteInternal(bytes, alive))
      ensures ok <==> alive
      ensures ptyInput == old(ptyInput) + if alive then [bytes] else []
    {
      hide L.BytesOf;
      if alive {
        L.BytesOfSnoc(queued, L.Internal(bytes, steps));
        queued := queued + [L.Internal(bytes, steps)];
        ptyInput := ptyInput + [bytes];
      }
      steps := steps + 1;
      return alive;
    }
  }
}
