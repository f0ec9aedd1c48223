/**
  The `event_action` object itself: its deques, bits and loops, each method proved against the
  functions of `EventActions` on the object's value.
 */
module EventActionObject {
  import opened EventActions

  class EventAction {
    var wantsRead: bool
    var wantsWrite: bool
    var isReadable: bool
    var isWritable: bool
    var pendingRead: seq<Task>
    var nonSubmitRead: seq<Task>
    var pendingWrite: seq<Task>
    var nonSubmitWrite: seq<Task>

    // The ledger of each direction, which no method reads.
    ghost var readAccepted: seq<Task>
    ghost var readDone: seq<Completion>
    ghost var readDropped: seq<Task>
    ghost var writeAccepted: seq<Task>
    ghost var writeDone: seq<Completion>
    ghost var writeDropped: seq<Task>

    ghost function Value(): Action
      reads this
    {
      Action(Lane(wantsRead, isReadable, pendingRead, nonSubmitRead, readAccepted, readDone, readDropped),
             Lane(wantsWrite, isWritable, pendingWrite, nonSubmitWrite, writeAccepted, writeDone, writeDropped))
    }

    constructor ()
      ensures Value() == NewAction
    {
      wantsRead, wantsWrite, isReadable, isWritable := false, false, false, false;
      pendingRead, nonSubmitRead, pendingWrite, nonSubmitWrite := [], [], [], [];
      readAccepted, readDone, readDropped := [], [], [];
      writeAccepted, writeDone, writeDropped := [], [], [];
    }

    method SetReadCallback()
      modifies this
      ensures Value() == SetCallback(old(Value()), Read)
    {
      wantsRead := true;
    }

    method SetWriteCallback()
      modifies this
      ensures Value() == SetCallback(old(Value()), Write)
    {
      wantsWrite := true;
    }

    method AddReadTask(t: Task)
      modifies this
      ensures Value() == AddTask(old(Value()), Read, t, true)
    {
      pendingRead := pendingRead + [t];
      readAccepted := readAccepted + [t];
    }

    method AddNonSubmitReadTask(t: Task)
      modifies this
      ensures Value() == AddTask(old(Value()), Read, t, false)
    {
      nonSubmitRead := nonSubmitRead + [t];
      readAccepted := readAccepted + [t];
    }

    method AddWriteTask(t: Task)
      modifies this
      ensures Value() == AddTask(old(Value()), Write, t, true)
    {
      pendingWrite := pendingWrite + [t];
      writeAccepted := writeAccepted + [t];
    }

    method AddNonSubmitWriteTask(t: Task)
      modifies this
      ensures Value() == AddTask(old(Value()), Write, t, false)
    {
      nonSubmitWrite := nonSubmitWrite + [t];
      writeAccepted := writeAccepted + [t];
    }

    /** Moves the deferred reads behind the pending ones, one at a time. */
    method SubmitReads()
      modifies this
      ensures Value() == old(Value()).(read := SubmitLane(old(Value().read)))
    {
      var size := |nonSubmitRead|;
      for i := 0 to size
        invariant |nonSubmitRead| == size - i
        invariant pendingRead + nonSubmitRead == old(pendingRead + nonSubmitRead)
        invariant Value() ==
                  old(Value()).(read := old(Value().read).(pending := pendingRead, deferred := nonSubmitRead))
      {
        pendingRead, nonSubmitRead := pendingRead + [nonSubmitRead[0]], nonSubmitRead[1..];
      }
    }

    method SubmitWrites()
      modifies this
      ensures Value() == old(Value()).(write := SubmitLane(old(Value().write)))
    {
      var size := |nonSubmitWrite|;
      for i := 0 to size
        invariant |nonSubmitWrite| == size - i
        invariant pendingWrite + nonSubmitWrite == old(pendingWrite + nonSubmitWrite)
        invariant Value() ==
                  old(Value()).(write := old(Value().write).(pending := pendingWrite, deferred := nonSubmitWrite))
      {
        pendingWrite, nonSubmitWrite := pendingWrite + [nonSubmitWrite[0]], nonSubmitWrite[1..];
      }
    }

    /** `event_action::submit`, for both directions. */
    method Submit()
      modifies this
      ensures Value() == SubmitDeferred(old(Value()))
    {
      SubmitReads();
      SubmitWrites();
    }

    method DisableRead()
      modifies this
      ensures Value() == Disable(old(Value()), Read)
    {
      wantsRead := false;
      readDropped := readDropped + pendingRead + nonSubmitRead;
      pendingRead, nonSubmitRead := [], [];
    }

    method DisableWrite()
      modifies this
      ensures Value() == Disable(old(Value()), Write)
    {
      wantsWrite := false;
      writeDropped := writeDropped + pendingWrite + nonSubmitWrite;
      pendingWrite, nonSubmitWrite := [], [];
    }

    /** The submissions a completion callback makes on this descriptor. */
    method Callback(r: Reply)
      modifies this
      ensures Value() == Action(AddPending(old(Value().read), r.newReads), AddPending(old(Value().write), r.newWrites))
    {
      pendingRead, readAccepted := pendingRead + r.newReads, readAccepted + r.newReads;
      pendingWrite, writeAccepted := pendingWrite + r.newWrites, writeAccepted + r.newWrites;
    }

    /** One read attempt; `again` stands for the return value INT32_MAX. */
    method DoReadTask(t: Task, triggered: bool, r: Reply) returns (again: bool)
      modifies this
      ensures again <==> t.iovCnt != 0 && r.outcome == Blocked(0) && !triggered
      ensures isReadable <==> old(isReadable) && !(t.iovCnt != 0 && r.outcome.Blocked?)
      ensures var ret := if t.iovCnt == 0 then 0 else if r.outcome.Ended? then r.outcome.code else r.outcome.bytes;
              var l := old(Value().read).(ready := isReadable);
              Value() == if again then old(Value()).(read := l)
                         else Action(AddPending(l.(done := l.done + [Completion(t, ret)]), r.newReads),
                                     AddPending(old(Value().write), r.newWrites))
    {
      if t.iovCnt == 0 {
        readDone := readDone + [Completion(t, 0)];
        Callback(r);
        return false;
      }
      if r.outcome.Blocked? {
        isReadable := false;
        if !triggered && r.outcome.bytes == 0 {
          return true;
        }
      }
      readDone := readDone + [Completion(t, Result(t, r.outcome))];
      Callback(r);
      return false;
    }

    /** One write attempt; the caller lowers the writable bit when the kernel refused. */
    method DoWriteTask(t: Task, r: Reply) returns (again: bool)
      modifies this
      ensures again <==> t.iovCnt != 0 && r.outcome == Blocked(0)
      ensures var ret := if t.iovCnt == 0 then 0 else if r.outcome.Ended? then r.outcome.code else r.outcome.bytes;
              var l := old(Value().write);
              var l1 := l.(done := l.done + [Completion(t, ret)]);
              Value() == if again then old(Value())
                         else Action(AddPending(old(Value().read), r.newReads), AddPending(l1, r.newWrites))
    {
      if t.iovCnt == 0 {
        writeDone := writeDone + [Completion(t, 0)];
        Callback(r);
        return false;
      }
      if r.outcome.Blocked? && r.outcome.bytes == 0 {
        return true;
      }
      writeDone := writeDone + [Completion(t, Result(t, r.outcome))];
      Callback(r);
      return false;
    }

    /** The body of the read loop: the front task leaves the queue after its callback ran. */
    method ReadIteration(triggered: bool, r: Reply)
      requires pendingRead != []
      modifies this
      ensures Value() == Attempt(old(Value()), Read, triggered, r)
    {
      var t := pendingRead[0];
      var again := DoReadTask(t, triggered, r);
      if again {
        pendingRead := pendingRead + [t];
      }
      pendingRead := pendingRead[1..];
      FrontAttempt(old(Value()), Value(), Read, triggered, r);
    }

    method WriteIteration(triggered: bool, r: Reply)
      requires pendingWrite != []
      modifies this
      ensures Value() == Attempt(old(Value()), Write, triggered, r)
    {
      var t := pendingWrite[0];
      var again := DoWriteTask(t, r);
      if again {
        isWritable := false;
        pendingWrite := pendingWrite + [t];
      }
      pendingWrite := pendingWrite[1..];
      FrontAttempt(old(Value()), Value(), Write, triggered, r);
    }

    /** Each loop runs as often as its queue was long when it started, so tasks that callbacks append
        during the pass wait for the next one. */
    method DrainReads(triggered: bool, env: nat -> Reply)
      modifies this
      ensures Value() == DrainAll(old(Value()), Read, triggered, env)
    {
      if isReadable {
        var size := |pendingRead|;
        for i := 0 to size
          invariant size - i <= |Value().Get(Read).pending|
          invariant Drain(Value(), Read, triggered, env, i, size) == Drain(old(Value()), Read, triggered, env, 0, size)
        {
          ReadIteration(triggered, env(i));
        }
      }
    }

    method DrainWrites(triggered: bool, env: nat -> Reply)
      modifies this
      ensures Value() == DrainAll(old(Value()), Write, triggered, env)
    {
      if isWritable {
        var size := |pendingWrite|;
        for i := 0 to size
          invariant size - i <= |Value().Get(Write).pending|
          invariant Drain(Value(), Write, triggered, env, i, size) ==
                    Drain(old(Value()), Write, triggered, env, 0, size)
        {
          WriteIteration(triggered, env(i));
        }
      }
    }

    /** The pass over both queues: reads first, then writes, among them those the reads submitted. */
    method HandleEvents(triggered: bool, readEnv: nat -> Reply, writeEnv: nat -> Reply)
      modifies this
      ensures Value() == HandlePass(old(Value()), triggered, readEnv, writeEnv)
    {
      DrainReads(triggered, readEnv);
      DrainWrites(triggered, writeEnv);
    }

    /** Raises the reported bits and makes an event-triggered pass. */
    method SetReadyEvents(r: bool, w: bool, readEnv: nat -> Reply, writeEnv: nat -> Reply)
      modifies this
      ensures Value() == HandlePass(Raise(old(Value()), r, w), true, readEnv, writeEnv)
    {
      if !isReadable && r {
        isReadable := true;
      }
      if !isWritable && w {
        isWritable := true;
      }
      HandleEvents(true, readEnv, writeEnv);
    }
  }

  /** Removing the front task after its callback ran gives what removing it before would give. */
  lemma FrontAttempt(a: Action, b: Action, d: Dir, triggered: bool, r: Reply)
    requires a.Get(d).pending != []
    requires var l := a.Get(d);
             var t := l.pending[0];
             var q := if Refuses(d, triggered, t, r.outcome) then l.pending + [t] else l.pending + r.Appended(d);
             b.Get(d).pending == q[1..]
    requires b.Put(d, b.Get(d).(pending := [])) ==
             Attempt(a, d, triggered, r).Put(d, Attempt(a, d, triggered, r).Get(d).(pending := []))
    ensures b == Attempt(a, d, triggered, r)
  {
    var l := a.Get(d);
    var t := l.pending[0];
    assert (l.pending + [t])[1..] == l.pending[1..] + [t];
    assert (l.pending + r.Appended(d))[1..] == l.pending[1..] + r.Appended(d);
    assert b.Get(d).pending == Attempt(a, d, triggered, r).Get(d).pending;
  }
}
