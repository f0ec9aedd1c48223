/**
  The `epoll` object: its table, lists and loops. Every method leaves the object in a state that a
  run of the machine in `Reactor` reaches, so the theorems of `ReactorRuns` hold of the object. The
  kernel and the completion callbacks act through `Interfere`, which makes any steps it likes.
 */
module Epoll {
  import opened EventActions
  import opened Reactor
  import opened Common
  import opened ReactorRuns

  /** Everything from position `from` on is a change or a step of the kernel. */
  ghost predicate AppliesFrom(ls: seq<Label>, from: nat) {
    forall i :: from <= i < |ls| ==> ApplyingLabel(ls[i])
  }

  ghost predicate QuietFrom(ls: seq<Label>, from: nat) {
    forall i :: from <= i < |ls| ==> ls[i] == LApply
  }

  /** The steps in which the kernel answers a system call that waits or moves bytes. */
  predicate FromKernel(l: Label) {
    l.LTry? || l.LPoll? || l.LInterrupted?
  }

  /** The answers of the kernel in a run, in order. */
  function Heard(ls: seq<Label>): seq<Label>
    decreases |ls|
  {
    if ls == [] then [] else Heard(ls[..|ls| - 1]) + if FromKernel(ls[|ls| - 1]) then [ls[|ls| - 1]] else []
  }

  lemma HeardOne(ls: seq<Label>, l: Label)
    ensures Heard(ls + [l]) == Heard(ls) + if FromKernel(l) then [l] else []
  {
    assert (ls + [l])[..|ls|] == ls;
  }

  class EpollBackend {
    var table: map<Fd, Id>
    var infos: map<Id, Info>
    var nextId: nat
    var changes: seq<Id>
    var readyEvents: seq<Id>
    var nonSubmit: set<Id>
    var kernel: map<Fd, KFd>

    // The control point of `dispatch` and the run so far.
    ghost var phase: Phase
    ghost var pass: Option<Pass>
    ghost var trace: seq<Label>
    // What the kernel has answered; only `Ask` and `EpollWait` add to it.
    ghost var said: seq<Label>

    ghost function Value(): State
      reads this
    {
      State(table, infos, nextId, changes, readyEvents, nonSubmit, kernel, phase, pass)
    }

    /** The object is where the recorded run of the machine ends, and the run's answers are the kernel's. */
    ghost predicate Traced()
      reads this
    {
      Valid(trace) && After(trace) == Value() && Heard(trace) == said
    }

    constructor ()
      ensures Traced() && phase == Idle && trace == []
    {
      table, infos, nextId, changes, readyEvents, nonSubmit, kernel := map[], map[], 0, [], [], {}, map[];
      phase, pass, trace, said := Idle, None, [], [];
    }

    /** Records that the last assignments were one step of the machine. */
    ghost method Record(s: State, l: Label)
      requires Valid(trace) && After(trace) == s
      requires Enabled(s, l) && Value() == Step(s, l) && said == Heard(trace) + if FromKernel(l) then [l] else []
      modifies this`trace
      ensures Traced() && trace == old(trace) + [l]
    {
      Extend(trace, l);
      HeardOne(trace, l);
      trace := trace + [l];
    }

    method PushToChangeList(id: Id)
      requires id in infos
      modifies this`changes, this`infos
      ensures Value() == PushChange(old(Value()), id)
    {
      if infos[id].inChangeList {
        return;
      }
      changes := changes + [id];
      infos := infos[id := infos[id].(inChangeList := true)];
    }

    method FindOrInsert(fd: Fd) returns (id: Id)
      requires fd in table ==> table[fd] in infos
      modifies this`table, this`infos, this`nextId
      ensures Value() == Ensure(old(Value()), fd) && id == Lookup(old(Value()), fd) && id in infos
    {
      if fd in table {
        return table[fd];
      }
      id := nextId;
      nextId := nextId + 1;
      infos := infos[id := Info(fd, false, false, false, false, NewAction)];
      table := table[fd := id];
    }

    method RegisterDirection(id: Id, d: Dir, cb: bool)
      requires id in infos
      modifies this`infos, this`changes
      ensures Value() == Register(old(Value()), id, d, cb) && infos.Keys == old(infos.Keys)
    {
      var isNew := !infos[id].Ev(d);
      infos := infos[id := RegisteredInfo(infos[id], d, cb)];
      if isNew {
        PushToChangeList(id);
      }
    }

    method QueueTask(id: Id, d: Dir, t: Task, now: bool)
      requires id in infos
      modifies this`infos, this`readyEvents, this`nonSubmit
      ensures Value() == Enqueue(old(Value()), id, d, t, now)
    {
      var isReady := infos[id].action.Get(d).ready;
      infos := infos[id := infos[id].(action := AddTask(infos[id].action, d, t, now))];
      if now {
        if isReady {
          readyEvents := readyEvents + [id];
        }
      } else {
        nonSubmit := nonSubmit + {id};
      }
    }

    /** `submit_async_read` or `submit_async_write` without the bookkeeping of the run. */
    method Submission(d: Dir, fd: Fd, t: Task, cb: bool, now: bool)
      requires fd in table ==> table[fd] in infos
      modifies this`table, this`infos, this`nextId, this`changes, this`readyEvents, this`nonSubmit
      ensures Value() == Submit(old(Value()), d, fd, t, cb, now)
    {
      var id := FindOrInsert(fd);
      RegisterDirection(id, d, cb);
      QueueTask(id, d, t, now);
    }

    method SubmitAsync(d: Dir, fd: Fd, t: Task, cb: bool, now: bool)
      requires Traced() && Enabled(Value(), LSubmit(d, fd, t, cb, now))
      modifies this
      ensures Traced() && phase == old(phase) && pass == old(pass)
      ensures Value() == Step(old(Value()), LSubmit(d, fd, t, cb, now))
    {
      assert TableOk(Value(), fd);
      Submission(d, fd, t, cb, now);
      Record(old(Value()), LSubmit(d, fd, t, cb, now));
    }

    /** One action leaves the deferred set. */
    method SubmitAction(id: Id)
      requires id in infos
      modifies this`infos, this`readyEvents
      ensures Value() == FlushOne(old(Value()), id)
    {
      var a := SubmitDeferred(infos[id].action);
      infos := infos[id := infos[id].(action := a)];
      if a.read.ready || a.write.ready {
        readyEvents := readyEvents + [id];
      }
    }

    /** Flushes every deferred action, in whatever order the set is walked. */
    method FlushSet() returns (ghost order: seq<Id>)
      requires nonSubmit <= infos.Keys
      modifies this`infos, this`readyEvents, this`nonSubmit
      ensures Distinct(order) && forall id :: id in order <==> id in old(nonSubmit)
      ensures forall id :: id in order ==> id in old(infos)
      ensures Value() == Flush(old(Value()), order)
    {
      order := [];
      var rest := nonSubmit;
      while rest != {}
        invariant nonSubmit == old(nonSubmit) && rest <= nonSubmit && infos.Keys == old(infos.Keys)
        invariant forall id :: id in order <==> id in nonSubmit && id !in rest
        invariant Distinct(order) && (forall id :: id in order ==> id in old(infos))
        invariant Value() == FlushAll(old(Value()), order)
        decreases rest
      {
        var id :| id in rest;
        FlushSnoc(old(Value()), order, id);
        SubmitAction(id);
        order := order + [id];
        rest := rest - {id};
      }
      nonSubmit := {};
    }

    /** `epoll::submit` fails when nothing is deferred. */
    method SubmitAll() returns (ret: int, ghost order: seq<Id>)
      requires Traced() && phase != Applying
      modifies this
      ensures Traced() && phase == old(phase) && pass == old(pass)
      ensures ret == if old(nonSubmit) == {} then -1 else 0
      ensures ret == -1 ==> Value() == old(Value())
      ensures ret == 0 ==> trace == old(trace) + [LFlush(order)]
    {
      order := [];
      if nonSubmit == {} {
        ret := -1;
      } else {
        assert forall id :: id in nonSubmit ==> IdOk(Value(), id);
        order := FlushSet();
        Record(old(Value()), LFlush(order));
        ret := 0;
      }
    }

    /** The calls that reach the queues: positive known descriptors, for reads those that are reading. */
    predicate Cancellable(d: Dir, fd: Fd)
      reads this
    {
      fd > 0 && fd in table && table[fd] in infos && (d == Read ==> infos[table[fd]].action.read.want)
    }

    /** `cancel_async_read` and `cancel_async_write`. A call without a callback reports a failure after it
        has done its work; only one that does not reach the queues changes nothing. */
    method Cancellation(d: Dir, fd: Fd, cb: bool) returns (ret: int)
      requires fd in table ==> table[fd] in infos
      modifies this`infos, this`changes
      ensures Value() == Cancel(old(Value()), d, fd)
      ensures ret == if old(Cancellable(d, fd)) && cb then 0 else -1
      ensures !old(Cancellable(d, fd)) ==> Value() == old(Value())
      ensures old(Cancellable(d, fd)) ==>
                table[fd] in infos && infos[table[fd]].action.Get(d) == Disable(old(infos[table[fd]].action), d).Get(d)
    {
      ret := -1;
      if fd > 0 && fd in table {
        var id := table[fd];
        if d == Write || infos[id].action.read.want {
          infos := infos[id := infos[id].(action := Disable(infos[id].action, d))];
          if d == Read && infos[id].action.NoInterest() {
            PushToChangeList(id);
          }
          if cb {
            ret := 0;
          }
        }
      }
    }

    method CancelAsync(d: Dir, fd: Fd, cb: bool) returns (ret: int)
      requires Traced() && Enabled(Value(), LCancel(d, fd))
      modifies this
      ensures Traced() && phase == old(phase) && pass == old(pass)
      ensures Value() == Step(old(Value()), LCancel(d, fd))
      ensures ret == if old(Cancellable(d, fd)) && cb then 0 else -1
      ensures !old(Cancellable(d, fd)) ==> Value() == old(Value())
    {
      assert TableOk(Value(), fd);
      ret := Cancellation(d, fd, cb);
      Record(old(Value()), LCancel(d, fd));
    }

    function KernelOf(fd: Fd): KFd
      reads this
    {
      if fd in kernel then kernel[fd] else ClosedFd
    }

    method EpollCtl(op: Op, id: Id) returns (e: Errno)
      requires id in infos
      modifies this`kernel
      ensures var (k, err) := Ctl(old(KernelOf(infos[id].fd)), op, Wanted(id, infos[id].action));
              kernel == old(kernel)[infos[id].fd := k] && e == err
    {
      var (k, err) := Ctl(KernelOf(infos[id].fd), op, Wanted(id, infos[id].action));
      kernel := kernel[infos[id].fd := k];
      return err;
    }

    /** `apply_one_change` with its control flow: the chosen operation, then the retry that fits the error. */
    method ApplyOneChange(id: Id)
      requires id in infos
      modifies this`kernel, this`infos, this`table
      ensures var fd := old(infos[id].fd);
              var r := ApplyOne(old(KernelOf(fd)), id, old(infos[id]));
              && kernel == old(kernel)[fd := r.k]
              && infos == old(infos)[id := r.info]
              && table == if r.kept then old(table) else old(table) - {fd}
    {
      var i := infos[id];
      var op := Add;
      if !i.action.NoInterest() {
        if i.inEpoll {
          op := Mod;
        }
      } else {
        if i.inEpoll {
          op := Del;
        } else {
          kernel := kernel[i.fd := KernelOf(i.fd)];
          table := table - {i.fd};
          return;
        }
      }
      var e := EpollCtl(op, id);
      if e == Success {
        if op != Del {
          infos := infos[id := i.(inEpoll := true, inChangeList := false)];
        } else {
          table := table - {i.fd};
        }
        return;
      }
      var inEpoll := i.inEpoll;
      if op == Mod && e == NoEntry {
        e := EpollCtl(Add, id);
        inEpoll := inEpoll || e == Success;
      } else if op == Add && e == Exists {
        e := EpollCtl(Mod, id);
        inEpoll := inEpoll || e == Success;
      } else if op == Del {
        table := table - {i.fd};
        return;
      }
      infos := infos[id := i.(inEpoll := inEpoll, inChangeList := false)];
    }

    /** Any steps of the kernel and of completion callbacks. It makes none: callers know its contract
        only, which every sequence of such steps satisfies. */
    method Interfere()
      requires Traced() && phase != Applying
      modifies this
      ensures Traced() && phase == old(phase) && pass == old(pass)
      ensures old(trace) <= trace && infos.Keys >= old(infos.Keys)
    {
    }

    /** Any steps of the kernel, at any time. Again callers know the contract only. */
    method KernelActs()
      requires Traced()
      modifies this`kernel, this`trace
      ensures Traced() && old(trace) <= trace
      ensures forall i :: |old(trace)| <= i < |trace| ==> KernelLabel(trace[i])
    {
    }

    /** The kernel's answer to one attempt; callers know only that it is recorded. */
    method Ask() returns (o: Outcome, still: bool)
      modifies this`said
      ensures said == old(said) + [LTry(o, still)]
    {
      o, still := Ended(-1), true;
      said := said + [LTry(o, still)];
    }

    /** The kernel's answer to `epoll_wait`; callers know only what the kernel promises: reported
        descriptors leave its ready list, with every watched direction that is ready in the mask. */
    method EpollWait() returns (interrupted: bool, batch: seq<Report>)
      modifies this`kernel, this`said
      ensures interrupted ==> kernel == old(kernel)
      ensures !interrupted ==> PollAnswer(old(Value()), batch) && kernel == Poll(old(Value()), batch).kernel
      ensures said == old(said) + [if interrupted then LInterrupted else LPoll(batch)]
    {
      interrupted, batch := false, [];
      said := said + [LPoll(batch)];
    }

    /** One attempt on the front task of a lane: the descriptor's read or write loop, then the queue. */
    method AttemptTask(id: Id, d: Dir, triggered: bool) returns (o: Outcome, still: bool)
      requires id in infos && infos[id].action.Get(d).pending != []
      modifies this`kernel, this`infos, this`said
      ensures said == old(said) + [LTry(o, still)]
      ensures var i := old(infos[id]);
              var l, k := i.action.Get(d), old(KernelOf(i.fd));
              && kernel == old(kernel)[i.fd := if l.pending[0].iovCnt == 0 then k
                                               else k.SetCan(d, !o.Blocked? && still && k.Can(d))]
              && infos == old(infos)[id := i.(action := i.action.Put(d, AttemptLane(l, d, triggered, o)))]
    {
      o, still := Ask();
      var i := infos[id];
      var l := i.action.Get(d);
      var k := KernelOf(i.fd);
      if l.pending[0].iovCnt != 0 {
        k := k.SetCan(d, !o.Blocked? && still && k.Can(d));
      }
      kernel := kernel[i.fd := k];
      infos := infos[id := i.(action := i.action.Put(d, AttemptLane(l, d, triggered, o)))];
    }

    /** The same with the control point of the drain loop. */
    method TryTask(id: Id, d: Dir, ghost left: nat, triggered: bool) returns (o: Outcome, still: bool)
      requires pass == Some(Pass(id, d, left, triggered)) && left > 0
      requires id in infos && infos[id].action.Get(d).pending != []
      modifies this`kernel, this`infos, this`pass, this`said
      ensures Value() == Try(old(Value()), o, still) && said == old(said) + [LTry(o, still)]
    {
      o, still := AttemptTask(id, d, triggered);
      pass := Some(Pass(id, d, left - 1, triggered));
    }

    method Attempt(id: Id, d: Dir, ghost left: nat, triggered: bool)
      requires Traced() && pass == Some(Pass(id, d, left, triggered)) && left > 0
      modifies this
      ensures Traced() && pass == Some(Pass(id, d, left - 1, triggered)) && phase == old(phase)
      ensures old(trace) <= trace && infos.Keys >= old(infos.Keys)
    {
      var o, still := TryTask(id, d, left, triggered);
      Record(old(Value()), LTry(o, still));
    }

    /** One iteration of a drain loop, with the steps its callback makes. */
    method DrainOne(id: Id, d: Dir, ghost left: nat, triggered: bool)
      requires Traced() && pass == Some(Pass(id, d, left, triggered)) && left > 0
      modifies this
      ensures Traced() && pass == Some(Pass(id, d, left - 1, triggered)) && phase == old(phase)
      ensures old(trace) <= trace && infos.Keys >= old(infos.Keys)
    {
      Attempt(id, d, left, triggered);
      Interfere();
    }

    method TurnToWrites(id: Id, triggered: bool)
      requires Traced() && pass == Some(Pass(id, Read, 0, triggered)) && id in infos
      modifies this`pass, this`trace
      ensures Traced() && pass == Some(Pass(id, Write, Iterations(infos[id].action, Write), triggered))
      ensures old(trace) <= trace
    {
      pass := Some(Pass(id, Write, Iterations(infos[id].action, Write), triggered));
      Record(old(Value()), LNextLane);
    }

    /** A drain loop makes as many iterations as the queue had entries when it began. */
    method DrainLane(id: Id, d: Dir, size: nat, triggered: bool)
      requires Traced() && id in infos && pass == Some(Pass(id, d, size, triggered))
      modifies this
      ensures Traced() && id in infos && pass == Some(Pass(id, d, 0, triggered)) && phase == old(phase)
      ensures old(trace) <= trace
    {
      for i := 0 to size
        invariant Traced() && pass == Some(Pass(id, d, size - i, triggered)) && phase == old(phase)
        invariant old(trace) <= trace && id in infos
      {
        DrainOne(id, d, size - i, triggered);
      }
    }

    /** `handle_events`: the two loops, reads first. */
    method HandleEvents(id: Id, triggered: bool)
      requires Traced() && id in infos
      requires pass == Some(Pass(id, Read, Iterations(infos[id].action, Read), triggered))
      modifies this
      ensures Traced() && pass == Some(Pass(id, Write, 0, triggered)) && phase == old(phase)
      ensures old(trace) <= trace
    {
      if infos[id].action.read.ready {
        DrainLane(id, Read, |infos[id].action.read.pending|, triggered);
      }
      TurnToWrites(id, triggered);
      if infos[id].action.write.ready {
        DrainLane(id, Write, |infos[id].action.write.pending|, triggered);
      }
    }

    method ApplyNext()
      requires Traced() && phase == Applying && changes != []
      modifies this
      ensures Traced() && phase == Applying && changes == old(changes)[1..] && trace == old(trace) + [LApply]
      ensures pass == old(pass)
      ensures old(changes[0]) in old(infos) && Value() == ApplyHead(old(Value()))
    {
      assert IdOk(Value(), changes[0]);
      ApplyFront();
      Record(old(Value()), LApply);
    }

    method ApplyFront()
      requires changes != [] && changes[0] in infos
      modifies this`kernel, this`infos, this`table, this`changes
      ensures Value() == ApplyHead(old(Value()))
    {
      ApplyOneChange(changes[0]);
      changes := changes[1..];
    }

    /** `apply_changes` applies every listed change, in list order, whatever the kernel does meanwhile. The
        list is consumed as it is walked, which nothing observes. */
    method ApplyChanges()
      requires Traced() && phase == Applying
      modifies this
      ensures Traced() && phase == Applying && changes == [] && pass == old(pass)
      ensures old(trace) <= trace && AppliesFrom(trace, |old(trace)|)
      ensures QuietFrom(trace, |old(trace)|) ==> Value() == ApplyAll(old(Value()))
    {
      while changes != []
        invariant Traced() && phase == Applying && pass == old(pass)
        invariant old(trace) <= trace && AppliesFrom(trace, |old(trace)|)
        invariant QuietFrom(trace, |old(trace)|) ==> ApplyAll(Value()) == ApplyAll(old(Value()))
        decreases |changes|
      {
        ApplyAmid(|old(trace)|);
      }
    }

    /** One change, with what the kernel does before it. */
    method ApplyAmid(ghost from: nat)
      requires Traced() && phase == Applying && changes != [] && from <= |trace| && AppliesFrom(trace, from)
      modifies this
      ensures Traced() && phase == Applying && changes == old(changes)[1..] && pass == old(pass)
      ensures old(trace) <= trace && AppliesFrom(trace, from)
      ensures QuietFrom(trace, from) ==> old(QuietFrom(trace, from)) && ApplyAll(Value()) == ApplyAll(old(Value()))
    {
      KernelActs();
      ghost var mid := trace;
      assert trace == old(trace) ==> Value() == old(Value());
      ApplyNext();
      QuietMeansNone(old(trace), mid, from);
    }

    method SetBits(r: Report)
      requires r.id in infos
      modifies this`infos
      ensures infos == old(infos)[r.id := old(infos[r.id]).(action := Raise(old(infos[r.id].action), r.read, r.write))]
    {
      var i := infos[r.id];
      var rd, wr := i.action.read, i.action.write;
      if !rd.ready && r.read {
        rd := rd.(ready := true);
      }
      if !wr.ready && r.write {
        wr := wr.(ready := true);
      }
      var raised := Action(rd, wr);
      assert raised == Raise(i.action, r.read, r.write);
      infos := infos[r.id := i.(action := raised)];
    }

    method RaiseBits(r: Report)
      requires Traced() && phase.Events? && phase.batch != [] && phase.batch[0] == r && pass == None
      modifies this
      ensures Traced() && phase == Events(old(phase).batch[1..]) && r.id in infos
      ensures pass == Some(Pass(r.id, Read, Iterations(infos[r.id].action, Read), true))
      ensures old(trace) <= trace
    {
      RaiseFront(r);
      Record(old(Value()), LEvent);
    }

    /** The same without the bookkeeping of the run. */
    method RaiseFront(r: Report)
      requires phase.Events? && phase.batch != [] && phase.batch[0] == r && r.id in infos
      modifies this`infos, this`phase, this`pass
      ensures Value() == StartEvent(old(Value())) && r.id in infos && phase == Events(old(phase).batch[1..])
      ensures pass == Some(Pass(r.id, Read, Iterations(infos[r.id].action, Read), true))
    {
      SetBits(r);
      phase, pass := Events(phase.batch[1..]), Some(Pass(r.id, Read, Iterations(infos[r.id].action, Read), true));
    }

    ghost method EndEvent()
      requires Traced() && phase.Events? && pass.Some? && pass.value.dir == Write && pass.value.left == 0
      modifies this`pass, this`trace
      ensures Traced() && pass == None && old(trace) <= trace
    {
      pass := None;
      Record(old(Value()), LEndPass);
    }

    method SetReadyEvents(r: Report)
      requires Traced() && phase.Events? && phase.batch != [] && phase.batch[0] == r && pass == None
      modifies this
      ensures Traced() && phase == Events(old(phase).batch[1..]) && pass == None
      ensures old(trace) <= trace
    {
      RaiseBits(r);
      HandleEvents(r.id, true);
      EndEvent();
    }

    ghost method BeginReady(id: Id)
      requires Traced() && phase.ReadyPass? && phase.left > 0 && pass == None && readyEvents[0] == id
      modifies this`pass, this`trace
      ensures Traced() && id in infos
      ensures pass == Some(Pass(id, Read, Iterations(infos[id].action, Read), false))
      ensures old(trace) <= trace
    {
      assert IdOk(Value(), id);
      pass := Some(Pass(id, Read, Iterations(infos[id].action, Read), false));
      Record(old(Value()), LReady);
    }

    method PopFront()
      requires phase.ReadyPass? && phase.left > 0 && readyEvents != []
      modifies this`readyEvents, this`pass, this`phase
      ensures Value() == EndPass(old(Value()))
    {
      readyEvents := readyEvents[1..];
      pass, phase := None, ReadyPass(phase.left - 1);
    }

    method PopReady()
      requires Traced() && phase.ReadyPass? && pass.Some? && pass.value.dir == Write && pass.value.left == 0
      modifies this`readyEvents, this`pass, this`phase, this`trace
      ensures Traced() && pass == None && old(phase).left > 0 && phase == ReadyPass(old(phase).left - 1)
      ensures old(trace) <= trace
    {
      PopFront();
      Record(old(Value()), LEndPass);
    }

    /** `do_ready_tasks`: as many entries as were listed when it began. */
    method DoReadyTasks()
      requires Traced() && phase == ReadyPass(|readyEvents|) && pass == None
      modifies this
      ensures Traced() && phase == ReadyPass(0) && pass == None
      ensures old(trace) <= trace
    {
      var readyCnt := |readyEvents|;
      for i := 0 to readyCnt
        invariant Traced() && phase == ReadyPass(readyCnt - i) && pass == None && old(trace) <= trace
      {
        var id := readyEvents[0];
        BeginReady(id);
        HandleEvents(id, false);
        PopReady();
      }
    }

    /** A control step that touches nothing else. */
    ghost method Control(l: Label, next: Phase)
      requires Traced() && Enabled(Value(), l) && Step(Value(), l) == Value().(phase := next) && !FromKernel(l)
      modifies this`phase, this`trace
      ensures Traced() && phase == next && trace == old(trace) + [l]
    {
      phase := next;
      Record(old(Value()), l);
    }

    /** `epoll_wait`: the kernel acts before it answers; `before` is the run up to the answer. */
    method Wait() returns (interrupted: bool, batch: seq<Report>, ghost before: seq<Label>)
      requires Traced() && phase == Applying && changes == []
      modifies this
      ensures Traced() && pass == None && phase == (if interrupted then Idle else Events(batch))
      ensures trace == before + [if interrupted then LInterrupted else LPoll(batch)] && old(trace) <= before
      ensures forall i :: |old(trace)| <= i < |before| ==> KernelLabel(before[i])
      ensures Waiting(before)
    {
      KernelActs();
      before := trace;
      interrupted, batch := Answer();
    }

    /** The run has applied all changes and waits for the kernel's answer. */
    ghost predicate Waiting(ls: seq<Label>) {
      Valid(ls) && After(ls).changes == [] && After(ls).phase == Applying
    }

    method Answer() returns (interrupted: bool, batch: seq<Report>)
      requires Traced() && phase == Applying && changes == []
      modifies this
      ensures Traced() && pass == None && phase == (if interrupted then Idle else Events(batch))
      ensures trace == old(trace) + [if interrupted then LInterrupted else LPoll(batch)]
    {
      interrupted, batch := EpollWait();
      if interrupted {
        phase := Idle;
        Record(old(Value()), LInterrupted);
      } else {
        phase := Events(batch);
        Record(old(Value()), LPoll(batch));
      }
    }

    /** The loop of `dispatch` over the reported events. */
    method HandleBatch(batch: seq<Report>)
      requires Traced() && phase == Events(batch) && pass == None
      modifies this
      ensures Traced() && phase == Events([]) && pass == None
      ensures old(trace) <= trace
    {
      for i := 0 to |batch|
        invariant Traced() && phase == Events(batch[i..]) && pass == None && old(trace) <= trace
      {
        SetReadyEvents(batch[i]);
      }
    }

    /** From the wait to the end of the ready pass. */
    method ServeEvents(batch: seq<Report>)
      requires Traced() && phase == Events(batch) && pass == None
      modifies this
      ensures Traced() && phase == Idle
      ensures old(trace) < trace && Last(trace) == LReadyDone
    {
      HandleBatch(batch);
      Control(LEventsDone, ReadyPass(|readyEvents|));
      DoReadyTasks();
      Control(LReadyDone, Idle);
    }

    /** `apply_changes` and the wait, from state `s` at position `from` on; `before` is the run up to the
        kernel's answer. */
    method ApplyAndWait(ghost from: nat, ghost s: State)
      returns (interrupted: bool, batch: seq<Report>, ghost before: seq<Label>)
      requires Traced() && phase == Applying && from == |trace| && s == Value()
      modifies this
      ensures Traced() && pass == None && phase == (if interrupted then Idle else Events(batch))
      ensures trace == before + [if interrupted then LInterrupted else LPoll(batch)] && old(trace) <= before
      ensures Waiting(before) && AppliesFrom(before, from) && (QuietFrom(before, from) ==> After(before) == ApplyAll(s))
    {
      ApplyChanges();
      ghost var applied, s1 := trace, Value();
      interrupted, batch, before := Wait();
      StretchGrows(applied, before, from);
      assert before == applied ==> After(before) == s1;
    }

    /** The first part of `dispatch`, up to the kernel's answer. */
    method UpToAnswer(ghost from: nat, ghost s: State)
      returns (interrupted: bool, batch: seq<Report>, ghost before: seq<Label>)
      requires Traced() && phase == Idle && from == |trace| + 1 && s == Value().(phase := Applying)
      modifies this
      ensures Traced() && pass == None && phase == (if interrupted then Idle else Events(batch))
      ensures trace == before + [if interrupted then LInterrupted else LPoll(batch)] && old(trace) + [LBegin] <= before
      ensures Waiting(before) && AppliesFrom(before, from) && (QuietFrom(before, from) ==> After(before) == ApplyAll(s))
    {
      Control(LBegin, Applying);
      interrupted, batch, before := ApplyAndWait(from, s);
    }

    /** `before` continues the run with the start of a dispatch, with all listed changes and with steps of
        the kernel, and now waits for its answer. If the kernel did nothing, the changes have led to the
        state that `ApplyAll` describes. */
    ghost predicate Answered(ls: seq<Label>, s: State, before: seq<Label>) {
      && ls + [LBegin] <= before && Waiting(before) && AppliesFrom(before, |ls| + 1)
      && (QuietFrom(before, |ls| + 1) ==> After(before) == ApplyAll(s.(phase := Applying)))
    }

    /** `dispatch`: it applies every listed change first, and then, whatever the kernel does and reports and
        whatever the callbacks do, it terminates, interrupted in its wait or at the end of its ready pass.
        What it has done is a run of the machine; `before` is that run up to the kernel's answer. */
    method Dispatch() returns (ghost before: seq<Label>)
      requires Traced() && phase == Idle
      modifies this
      ensures Traced() && phase == Idle
      ensures before < trace && Answered(old(trace), old(Value()), before)
      ensures if trace[|before|].LPoll? then Last(trace) == LReadyDone else trace == before + [LInterrupted]
    {
      var interrupted, batch;
      interrupted, batch, before := UpToAnswer(|trace| + 1, Value().(phase := Applying));
      if !interrupted {
        ServeEvents(batch);
      }
    }
  }

  lemma QuietMeansNone(a: seq<Label>, b: seq<Label>, from: nat)
    requires a <= b && from <= |a| && forall i :: |a| <= i < |b| ==> KernelLabel(b[i])
    ensures QuietFrom(b + [LApply], from) ==> a == b
  {
    if |a| < |b| {
      assert KernelLabel((b + [LApply])[|a|]);
    }
  }

  lemma StretchGrows(a: seq<Label>, b: seq<Label>, from: nat)
    requires a <= b && from <= |a| && AppliesFrom(a, from) && forall i :: |a| <= i < |b| ==> KernelLabel(b[i])
    ensures AppliesFrom(b, from) && (QuietFrom(b, from) ==> a == b && QuietFrom(a, from))
  {
    assert forall i :: 0 <= i < |a| ==> a[i] == b[i];
    if |a| < |b| {
      assert KernelLabel(b[|a|]);
    }
  }

  lemma {:induction false} FlushSnoc(s: State, order: seq<Id>, id: Id)
    requires id in s.infos && forall j :: j in order ==> j in s.infos
    ensures id in FlushAll(s, order).infos
    ensures FlushAll(s, order + [id]) == FlushOne(FlushAll(s, order), id)
    decreases |order|
  {
    if order != [] {
      FlushSnoc(FlushOne(s, order[0]), order[1..], id);
      assert (order + [id])[1..] == order[1..] + [id];
    }
  }
}
