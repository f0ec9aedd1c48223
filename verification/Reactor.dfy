/**
  The epoll backend as a state machine: descriptor table, lazily applied change list, ready list and
  deferred set on one side; an edge-triggered kernel on the other. `dispatch` is cut into the steps
  between which callbacks and the kernel can act, so a run is any interleaving of submissions,
  cancellations, kernel events and dispatch steps.
 */
module Reactor {
  import opened EventActions
  import opened Common

  type Fd = nat
  /** Identity of an `event_info` and of the `event_action` it owns. */
  type Id = nat

  /** An `event_info`: `evRead` and `evWrite` are the EV_READ and EV_WRITE bits of its `events_`. */
  datatype Info = Info(fd: Fd, evRead: bool, evWrite: bool, inEpoll: bool, inChangeList: bool, action: Action) {
    predicate Ev(d: Dir) {
      if d == Read then evRead else evWrite
    }
    function SetEv(d: Dir): Info {
      if d == Read then this.(evRead := true) else this.(evWrite := true)
    }
  }

  // ----- The kernel's side -----

  /** What the epoll instance holds for a descriptor: the interest mask and the action it points to. */
  datatype Interest = Interest(owner: Id, read: bool, write: bool) {
    predicate Has(d: Dir) {
      if d == Read then read else write
    }
  }

  /** One descriptor in the kernel; `edge` says that it waits on the epoll ready list. */
  datatype KFd = KFd(open: bool, canRead: bool, canWrite: bool, interest: Option<Interest>, edge: bool) {
    predicate Can(d: Dir) {
      if d == Read then canRead else canWrite
    }
    function SetCan(d: Dir, b: bool): KFd {
      if d == Read then this.(canRead := b) else this.(canWrite := b)
    }
    predicate Watches(d: Dir) {
      interest.Some? && interest.value.Has(d)
    }
  }

  const ClosedFd := KFd(false, false, false, None, false)

  datatype Op = Add | Mod | Del
  datatype Errno = Success | Exists | NoEntry | BadFd

  /** `epoll_ctl`. Adding or modifying queues an edge when a watched direction is ready. */
  function Ctl(k: KFd, op: Op, i: Interest): (KFd, Errno) {
    var armed := k.(interest := Some(i), edge := k.edge || (k.canRead && i.read) || (k.canWrite && i.write));
    if !k.open then (k, BadFd)
    else match op
      case Add => if k.interest.Some? then (k, Exists) else (armed, Success)
      case Mod => if k.interest.None? then (k, NoEntry) else (armed, Success)
      case Del => if k.interest.None? then (k, NoEntry) else (k.(interest := None, edge := false), Success)
  }

  // ----- The backend's state -----

  /** One entry of the array that `epoll_wait` filled. */
  datatype Report = Report(id: Id, read: bool, write: bool) {
    predicate Has(d: Dir) {
      if d == Read then read else write
    }
  }

  /** Where `dispatch` stands: outside, applying the change list, walking the reported events, or
      making the ready pass with `left` entries to go. */
  datatype Phase = Idle | Applying | Events(batch: seq<Report>) | ReadyPass(left: nat)

  /** A `handle_events` call in progress: the lane it drains and the iterations left on it. */
  datatype Pass = Pass(id: Id, dir: Dir, left: nat, triggered: bool)

  datatype State = State(
    table: map<Fd, Id>,
    infos: map<Id, Info>,
    nextId: nat,
    changes: seq<Id>,
    ready: seq<Id>,
    nonSubmit: set<Id>,
    kernel: map<Fd, KFd>,
    phase: Phase,
    pass: Option<Pass>)
  {
    function K(fd: Fd): KFd {
      if fd in kernel then kernel[fd] else ClosedFd
    }
    function SetK(fd: Fd, k: KFd): State {
      this.(kernel := kernel[fd := k])
    }
    function SetInfo(id: Id, i: Info): State {
      this.(infos := infos[id := i])
    }
    function SetAction(id: Id, a: Action): State
      requires id in infos
    {
      SetInfo(id, infos[id].(action := a))
    }
    function LaneOf(id: Id, d: Dir): Lane
      requires id in infos
    {
      infos[id].action.Get(d)
    }
    /** The table still holds this `event_info`; otherwise only shared pointers keep its action. */
    predicate Live(id: Id) {
      id in infos && infos[id].fd in table && table[infos[id].fd] == id
    }
    /** The ready list without the entry whose pass is in progress. */
    function Waiting(): seq<Id> {
      if pass.Some? && phase.ReadyPass? && ready != [] then ready[1..] else ready
    }
  }

  const Start := State(map[], map[], 0, [], [], {}, map[], Idle, None)

  // ----- Steps of the caller -----

  function PushChange(s: State, id: Id): State
    requires id in s.infos
  {
    if s.infos[id].inChangeList then s
    else s.SetInfo(id, s.infos[id].(inChangeList := true)).(changes := s.changes + [id])
  }

  function Lookup(s: State, fd: Fd): Id {
    if fd in s.table then s.table[fd] else s.nextId
  }

  /** Finds the descriptor's `event_info` or inserts a fresh one. */
  function Ensure(s: State, fd: Fd): State {
    if fd in s.table then s
    else s.SetInfo(s.nextId, Info(fd, false, false, false, false, NewAction))
          .(table := s.table[fd := s.nextId], nextId := s.nextId + 1)
  }

  function RegisteredInfo(i: Info, d: Dir, cb: bool): Info {
    i.SetEv(d).(action := if cb then SetCallback(i.action, d) else i.action)
  }

  /** Sets the callback when there is one and queues the registration of a new direction. */
  function Register(s: State, id: Id, d: Dir, cb: bool): State
    requires id in s.infos
  {
    var i := s.infos[id];
    var s1 := s.SetInfo(id, RegisteredInfo(i, d, cb));
    if i.Ev(d) then s1 else PushChange(s1, id)
  }

  /** Queues the task, and the action on the ready list when its cached bit is already up. */
  function Enqueue(s: State, id: Id, d: Dir, t: Task, now: bool): State
    requires id in s.infos
  {
    var s1 := s.SetAction(id, AddTask(s.infos[id].action, d, t, now));
    if !now then s1.(nonSubmit := s.nonSubmit + {id})
    else if s.LaneOf(id, d).ready then s1.(ready := s.ready + [id])
    else s1
  }

  /** `submit_async_read` and `submit_async_write` on a stream descriptor. */
  function Submit(s: State, d: Dir, fd: Fd, t: Task, cb: bool, now: bool): State
    requires fd in s.table ==> s.table[fd] in s.infos
  {
    var id := Lookup(s, fd);
    Enqueue(Register(Ensure(s, fd), id, d, cb), id, d, t, now)
  }

  function FlushOne(s: State, id: Id): State
    requires id in s.infos
  {
    var a := SubmitDeferred(s.infos[id].action);
    var s1 := s.SetAction(id, a);
    if a.read.ready || a.write.ready then s1.(ready := s.ready + [id]) else s1
  }

  function FlushAll(s: State, order: seq<Id>): (r: State)
    requires forall id :: id in order ==> id in s.infos
    ensures r.infos.Keys == s.infos.Keys
    decreases |order|
  {
    if order == [] then s
    else FlushAll(FlushOne(s, order[0]), order[1..])
  }

  /** `epoll::submit`; `order` is the order in which the set of deferred actions is walked. */
  function Flush(s: State, order: seq<Id>): State
    requires forall id :: id in order ==> id in s.infos
  {
    FlushAll(s, order).(nonSubmit := {})
  }

  /** `cancel_async_read` queues the removal of a descriptor without interest, `cancel_async_write`
      does not. Neither takes the EV_READ or EV_WRITE bit of the `event_info` down. */
  function Cancel(s: State, d: Dir, fd: Fd): State
    requires fd in s.table ==> s.table[fd] in s.infos
  {
    if fd == 0 || fd !in s.table then s
    else
      var id := s.table[fd];
      if d == Read && !s.LaneOf(id, Read).want then s
      else
        var s1 := s.SetAction(id, Disable(s.infos[id].action, d));
        if d == Read && s1.infos[id].action.NoInterest() then PushChange(s1, id) else s1
  }

  // ----- Steps of the kernel -----

  /** Data or space arrives: an edge is due when the direction was not ready before. */
  function Arrive(s: State, fd: Fd, d: Dir, extra: bool): State {
    var k := s.K(fd);
    if !k.open then s
    else s.SetK(fd, k.SetCan(d, true).(edge := k.edge || (k.Watches(d) && (extra || !k.Can(d)))))
  }

  /** The direction stops being ready for a reason outside the backend. */
  function Subside(s: State, fd: Fd, d: Dir): State {
    s.SetK(fd, s.K(fd).SetCan(d, false))
  }

  function CloseFd(s: State, fd: Fd): State {
    s.SetK(fd, ClosedFd)
  }

  function OpenFd(s: State, fd: Fd): State {
    if s.K(fd).open then s else s.SetK(fd, ClosedFd.(open := true))
  }

  // ----- Steps of dispatch -----

  function Wanted(id: Id, a: Action): Interest {
    Interest(id, a.read.want, a.write.want)
  }

  /** The kernel record, the `event_info` and whether it stays in the table. */
  datatype Applied = Applied(k: KFd, info: Info, kept: bool)

  /** `apply_one_change`, with its retries after EEXIST and ENOENT. */
  function ApplyOne(k: KFd, id: Id, i: Info): Applied {
    var unlisted := i.(inChangeList := false);
    var want := Wanted(id, i.action);
    if i.action.NoInterest() then
      if !i.inEpoll then Applied(k, i, false) else Applied(Ctl(k, Del, want).0, i, false)
    else
      var op := if i.inEpoll then Mod else Add;
      var (k1, e1) := Ctl(k, op, want);
      match e1
      case Success => Applied(k1, unlisted.(inEpoll := true), true)
      case BadFd => Applied(k, unlisted, true)
      case _ =>
        var (k2, e2) := Ctl(k, if op == Mod then Add else Mod, want);
        Applied(k2, if e2 == Success then unlisted.(inEpoll := true) else unlisted, true)
  }

  function ApplyHead(s: State): State
    requires s.changes != [] && s.changes[0] in s.infos
  {
    var id := s.changes[0];
    var fd := s.infos[id].fd;
    var r := ApplyOne(s.K(fd), id, s.infos[id]);
    s.(kernel := s.kernel[fd := r.k],
       infos := s.infos[id := r.info],
       table := if r.kept then s.table else s.table - {fd},
       changes := s.changes[1..])
  }

  /** The kernel reports descriptors on its ready list, each with every watched direction that is ready and
      with none that is not watched. */
  ghost predicate PollAnswer(s: State, batch: seq<Report>) {
    forall r :: r in batch ==>
      && s.Live(r.id)
      && var k := s.K(s.infos[r.id].fd);
         k.edge && k.interest.Some? && k.interest.value.owner == r.id &&
         forall d :: (k.Watches(d) && k.Can(d) ==> r.Has(d)) && (r.Has(d) ==> k.Watches(d))
  }

  function Reported(s: State, batch: seq<Report>): set<Fd>
    requires forall r :: r in batch ==> r.id in s.infos
  {
    set r | r in batch :: s.infos[r.id].fd
  }

  /** `epoll_wait` takes the reported descriptors off the kernel's ready list. */
  function Poll(s: State, batch: seq<Report>): State
    requires forall r :: r in batch ==> r.id in s.infos
  {
    s.(kernel := map fd | fd in s.kernel ::
         if fd in Reported(s, batch) then s.kernel[fd].(edge := false) else s.kernel[fd],
       phase := Events(batch))
  }

  function Iterations(a: Action, d: Dir): nat {
    if a.Get(d).ready then |a.Get(d).pending| else 0
  }

  /** `set_ready_events` up to the first iteration of its read loop. */
  function StartEvent(s: State): State
    requires s.phase.Events? && s.phase.batch != [] && s.phase.batch[0].id in s.infos
  {
    var r := s.phase.batch[0];
    var a := Raise(s.infos[r.id].action, r.read, r.write);
    s.SetAction(r.id, a).(phase := Events(s.phase.batch[1..]),
                          pass := Some(Pass(r.id, Read, Iterations(a, Read), true)))
  }

  /** `do_ready_tasks` takes up the front entry, which stays listed until its pass is over. */
  function StartReady(s: State): State
    requires s.ready != [] && s.ready[0] in s.infos
  {
    var id := s.ready[0];
    s.(pass := Some(Pass(id, Read, Iterations(s.infos[id].action, Read), false)))
  }

  /** One attempt: EAGAIN means that the direction was not ready; any other outcome may have used
      the readiness up (`still` says whether it did not). The callback's calls are separate steps. */
  function Try(s: State, o: Outcome, still: bool): State
    requires s.pass.Some? && s.pass.value.id in s.infos
    requires s.LaneOf(s.pass.value.id, s.pass.value.dir).pending != []
    requires s.pass.value.left > 0
  {
    var p := s.pass.value;
    var i := s.infos[p.id];
    var l := i.action.Get(p.dir);
    var k := s.K(i.fd);
    var k' := if l.pending[0].iovCnt == 0 then k else k.SetCan(p.dir, !o.Blocked? && still && k.Can(p.dir));
    var a := i.action.Put(p.dir, AttemptLane(l, p.dir, p.triggered, o));
    s.(kernel := s.kernel[i.fd := k'],
       infos := s.infos[p.id := i.(action := a)],
       pass := Some(p.(left := p.left - 1)))
  }

  /** The read loop is over, the write loop begins. */
  function NextLane(s: State): State
    requires s.pass.Some? && s.pass.value.id in s.infos
  {
    var p := s.pass.value;
    s.(pass := Some(p.(dir := Write, left := Iterations(s.infos[p.id].action, Write))))
  }

  function EndPass(s: State): State
    requires s.phase.ReadyPass? ==> s.ready != [] && s.phase.left > 0
  {
    if s.phase.ReadyPass? then
      s.(pass := None, ready := s.ready[1..], phase := ReadyPass(s.phase.left - 1))
    else
      s.(pass := None)
  }

  // ----- Runs -----

  datatype Label =
    | LSubmit(d: Dir, fd: Fd, t: Task, cb: bool, now: bool)
    | LFlush(order: seq<Id>)
    | LCancel(d: Dir, fd: Fd)
    | LArrive(fd: Fd, d: Dir, extra: bool)
    | LSubside(fd: Fd, d: Dir)
    | LClose(fd: Fd)
    | LOpen(fd: Fd)
    | LBegin
    | LApply
    | LPoll(batch: seq<Report>)
    | LInterrupted
    | LEvent
    | LEventsDone
    | LReady
    | LTry(o: Outcome, still: bool)
    | LNextLane
    | LEndPass
    | LReadyDone

  /** The first submission of a direction, also after a cancel, carries a callback. A callback does
      not cancel its own descriptor while its queue is being drained. */
  ghost predicate Enabled(s: State, l: Label) {
    match l
    case LSubmit(d, fd, t, cb, now) =>
      s.phase != Applying && (cb || (s.Live(Lookup(s, fd)) && s.LaneOf(Lookup(s, fd), d).want))
    case LFlush(order) =>
      && s.phase != Applying
      && s.nonSubmit != {}
      && (forall id :: id in order <==> id in s.nonSubmit)
      && (forall i, j :: 0 <= i < j < |order| ==> order[i] != order[j])
    case LCancel(d, fd) =>
      s.phase != Applying && (s.pass.Some? && fd in s.table ==> s.pass.value.id != s.table[fd])
    case LArrive(fd, d, extra) => true
    case LSubside(fd, d) => s.K(fd).open
    case LClose(fd) => true
    case LOpen(fd) => true
    case LBegin => s.phase == Idle
    case LApply => s.phase == Applying && s.changes != []
    case LPoll(batch) => s.phase == Applying && s.changes == [] && PollAnswer(s, batch)
    case LInterrupted => s.phase == Applying && s.changes == []
    case LEvent => s.phase.Events? && s.pass.None? && s.phase.batch != []
    case LEventsDone => s.phase == Events([]) && s.pass.None?
    case LReady => s.phase.ReadyPass? && s.phase.left > 0 && s.pass.None?
    case LTry(o, still) => s.pass.Some? && s.pass.value.left > 0
    case LNextLane => s.pass.Some? && s.pass.value.dir == Read && s.pass.value.left == 0
    case LEndPass => s.pass.Some? && s.pass.value.dir == Write && s.pass.value.left == 0
    case LReadyDone => s.phase == ReadyPass(0) && s.pass.None?
  }

  // ----- What every state of every run satisfies -----

  ghost predicate TableOk(s: State, fd: Fd) {
    fd in s.table ==> s.table[fd] in s.infos && s.infos[s.table[fd]].fd == fd
  }

  /** The membership flag is exactly list membership, for entries that are still in the table. */
  ghost predicate IdOk(s: State, id: Id) {
    && (id in s.infos ==> id < s.nextId)
    && (id in s.changes ==> s.Live(id) && s.infos[id].inChangeList)
    && (s.Live(id) && s.infos[id].inChangeList ==> id in s.changes)
    && (id in s.ready ==> id in s.infos)
    && (id in s.nonSubmit ==> id in s.infos)
  }

  ghost predicate Control(s: State) {
    && (s.phase.Events? ==> forall r :: r in s.phase.batch ==> r.id in s.infos)
    && (s.phase.ReadyPass? ==> s.phase.left <= |s.ready|)
    && (s.pass.Some? ==>
          && (s.phase.Events? || s.phase.ReadyPass?)
          && s.pass.value.id in s.infos
          && s.pass.value.left <= |s.LaneOf(s.pass.value.id, s.pass.value.dir).pending|
          && (s.phase.ReadyPass? ==> s.phase.left > 0 && s.ready[0] == s.pass.value.id))
  }

  /** Tasks of the lane that the pass in progress is still going to look at. */
  function Scheduled(s: State, id: Id, d: Dir): nat
    requires id in s.infos
  {
    if s.pass.None? || s.pass.value.id != id then 0
    else if s.pass.value.dir == d then s.pass.value.left
    else if d == Write then |s.LaneOf(id, d).pending|
    else 0
  }

  ghost predicate LaneOk(s: State, id: Id, d: Dir) {
    id in s.infos ==>
      var l := s.LaneOf(id, d);
      && (l.want ==> s.Live(id) && s.infos[id].Ev(d))
      && (!l.want ==> l.pending == [] && l.deferred == [])
      && (l.deferred != [] ==> id in s.nonSubmit)
      // A set bit strands nothing: what the pass in progress will not look at waits on the ready list.
      && (l.ready && |l.pending| > Scheduled(s, id, d) ==> id in s.Waiting())
  }

  ghost predicate InBatch(s: State, id: Id, d: Dir) {
    s.phase.Events? && exists r :: r in s.phase.batch && r.id == id && r.Has(d)
  }

  /** A ready direction the kernel watches has an unreported edge, or its bit is or will be set. */
  ghost predicate Noticed(s: State, k: KFd, id: Id, d: Dir)
    requires id in s.infos
  {
    k.Watches(d) && k.Can(d) ==> k.edge || s.LaneOf(id, d).ready || InBatch(s, id, d)
  }

  ghost predicate FdOk(s: State, fd: Fd) {
    var k := s.K(fd);
    k.interest.Some? ==>
      var id := k.interest.value.owner;
      && k.open
      && fd in s.table && s.table[fd] == id && id in s.infos && s.infos[id].inEpoll
      && Noticed(s, k, id, Read) && Noticed(s, k, id, Write)
  }

  ghost predicate Inv(s: State) {
    && Distinct(s.changes)
    && Control(s)
    && (forall fd :: TableOk(s, fd))
    && (forall id :: IdOk(s, id))
    && (forall id, d :: LaneOk(s, id, d))
    && (forall fd :: FdOk(s, fd))
  }

  ghost function Step(s: State, l: Label): State
    requires Inv(s) && Enabled(s, l)
  {
    match l
    case LSubmit(d, fd, t, cb, now) => assert TableOk(s, fd); Submit(s, d, fd, t, cb, now)
    case LFlush(order) => assert forall id :: id in order ==> IdOk(s, id); Flush(s, order)
    case LCancel(d, fd) => assert TableOk(s, fd); Cancel(s, d, fd)
    case LArrive(fd, d, extra) => Arrive(s, fd, d, extra)
    case LSubside(fd, d) => Subside(s, fd, d)
    case LClose(fd) => CloseFd(s, fd)
    case LOpen(fd) => OpenFd(s, fd)
    case LBegin => s.(phase := Applying)
    case LApply => assert IdOk(s, s.changes[0]); ApplyHead(s)
    case LPoll(batch) => Poll(s, batch)
    case LInterrupted => s.(phase := Idle)
    case LEvent => StartEvent(s)
    case LEventsDone => s.(phase := ReadyPass(|s.ready|))
    case LReady => assert IdOk(s, s.ready[0]); StartReady(s)
    case LTry(o, still) => Try(s, o, still)
    case LNextLane => NextLane(s)
    case LEndPass => EndPass(s)
    case LReadyDone => s.(phase := Idle)
  }

  // ----- Each step keeps the invariant -----

  lemma EnsureKeeps(s: State, fd: Fd)
    requires Inv(s)
    ensures Inv(Ensure(s, fd)) && Ensure(s, fd).Live(Lookup(s, fd))
  {
    var s' := Ensure(s, fd);
    assert TableOk(s, fd) && IdOk(s, s.nextId);
    if fd !in s.table {
      forall f ensures TableOk(s', f) && FdOk(s', f) {
        assert TableOk(s, f) && FdOk(s, f);
        assert f in s.table ==> IdOk(s, s.table[f]);
      }
      forall id ensures IdOk(s', id) {
        assert IdOk(s, id);
      }
      forall id, d ensures LaneOk(s', id, d) {
        assert IdOk(s, id) && LaneOk(s, id, d);
      }
    }
  }

  lemma PushChangeKeeps(s: State, id: Id)
    requires Inv(s) && s.Live(id)
    ensures Inv(PushChange(s, id))
  {
    var s' := PushChange(s, id);
    assert IdOk(s, id);
    if !s.infos[id].inChangeList {
      forall f ensures TableOk(s', f) && FdOk(s', f) {
        assert TableOk(s, f) && FdOk(s, f);
      }
      forall i ensures IdOk(s', i) {
        assert IdOk(s, i);
      }
      forall i, d ensures LaneOk(s', i, d) {
        assert LaneOk(s, i, d);
      }
    }
  }

  lemma WaitingGrows(s: State, s': State, id: Id)
    requires Control(s) && s'.pass == s.pass && s'.phase == s.phase
    requires s'.ready == s.ready || s'.ready == s.ready + [id]
    ensures s'.Waiting() == if s'.ready == s.ready then s.Waiting() else s.Waiting() + [id]
  {
  }

  /** An `event_info` is replaced by one with the same identity, flags and readiness bits, its action
      possibly joining the ready list or the deferred set. */
  lemma ReplaceKeeps(s: State, id: Id, i: Info, ready: seq<Id>, nonSubmit: set<Id>)
    requires Inv(s) && id in s.infos
    requires i.fd == s.infos[id].fd && i.inEpoll == s.infos[id].inEpoll && i.inChangeList == s.infos[id].inChangeList
    requires forall d: Dir :: i.action.Get(d).ready == s.LaneOf(id, d).ready
    requires ready == s.ready || ready == s.ready + [id]
    requires nonSubmit == s.nonSubmit || nonSubmit == s.nonSubmit + {id}
    requires forall d :: LaneOk(s.SetInfo(id, i).(ready := ready, nonSubmit := nonSubmit), id, d)
    requires s.pass.Some? && s.pass.value.id == id ==> s.pass.value.left <= |i.action.Get(s.pass.value.dir).pending|
    ensures Inv(s.SetInfo(id, i).(ready := ready, nonSubmit := nonSubmit))
  {
    var s' := s.SetInfo(id, i).(ready := ready, nonSubmit := nonSubmit);
    forall f ensures TableOk(s', f) && FdOk(s', f) {
      assert TableOk(s, f) && FdOk(s, f);
    }
    forall j ensures IdOk(s', j) {
      assert IdOk(s, j);
    }
    WaitingGrows(s, s', id);
    forall j, d ensures LaneOk(s', j, d) {
      assert LaneOk(s, j, d);
    }
  }

  lemma SetInfoKeeps(s: State, id: Id, i: Info)
    requires Inv(s) && id in s.infos
    requires i.fd == s.infos[id].fd && i.inEpoll == s.infos[id].inEpoll && i.inChangeList == s.infos[id].inChangeList
    requires forall d: Dir :: i.action.Get(d).ready == s.LaneOf(id, d).ready
    requires forall d :: LaneOk(s.SetInfo(id, i), id, d)
    requires s.pass.Some? && s.pass.value.id == id ==> s.pass.value.left <= |i.action.Get(s.pass.value.dir).pending|
    ensures Inv(s.SetInfo(id, i))
  {
    var s' := s.SetInfo(id, i);
    assert s' == s'.(ready := s.ready, nonSubmit := s.nonSubmit);
    ReplaceKeeps(s, id, i, s.ready, s.nonSubmit);
  }

  lemma RegisterKeeps(s: State, id: Id, d: Dir, cb: bool)
    requires Inv(s) && s.Live(id)
    ensures Inv(Register(s, id, d, cb)) && Register(s, id, d, cb).Live(id)
    ensures Register(s, id, d, cb).LaneOf(id, d).want == (cb || s.LaneOf(id, d).want)
  {
    var i2 := RegisteredInfo(s.infos[id], d, cb);
    var s2 := s.SetInfo(id, i2);
    forall e ensures LaneOk(s2, id, e) {
      assert LaneOk(s, id, e);
    }
    SetInfoKeeps(s, id, i2);
    if !s.infos[id].Ev(d) {
      PushChangeKeeps(s2, id);
    }
  }

  lemma EnqueueKeeps(s: State, id: Id, d: Dir, t: Task, now: bool)
    requires Inv(s) && s.Live(id) && s.LaneOf(id, d).want
    ensures Inv(Enqueue(s, id, d, t, now))
  {
    var i := s.infos[id].(action := AddTask(s.infos[id].action, d, t, now));
    var s' := Enqueue(s, id, d, t, now);
    WaitingGrows(s, s', id);
    forall e ensures LaneOk(s', id, e) {
      assert LaneOk(s, id, e);
    }
    ReplaceKeeps(s, id, i, s'.ready, s'.nonSubmit);
    assert s' == s.SetInfo(id, i).(ready := s'.ready, nonSubmit := s'.nonSubmit);
  }

  lemma SubmitKeeps(s: State, d: Dir, fd: Fd, t: Task, cb: bool, now: bool)
    requires Inv(s) && TableOk(s, fd)
    requires cb || (s.Live(Lookup(s, fd)) && s.LaneOf(Lookup(s, fd), d).want)
    ensures Inv(Submit(s, d, fd, t, cb, now))
  {
    var id := Lookup(s, fd);
    assert IdOk(s, s.nextId);
    EnsureKeeps(s, fd);
    RegisterKeeps(Ensure(s, fd), id, d, cb);
    EnqueueKeeps(Register(Ensure(s, fd), id, d, cb), id, d, t, now);
  }

  lemma FlushOneKeeps(s: State, id: Id)
    requires Inv(s) && id in s.infos
    ensures Inv(FlushOne(s, id))
  {
    var s' := FlushOne(s, id);
    var i := s.infos[id].(action := SubmitDeferred(s.infos[id].action));
    WaitingGrows(s, s', id);
    forall e ensures LaneOk(s', id, e) {
      assert LaneOk(s, id, e);
    }
    ReplaceKeeps(s, id, i, s'.ready, s'.nonSubmit);
    assert s' == s.SetInfo(id, i).(ready := s'.ready, nonSubmit := s'.nonSubmit);
  }

  lemma {:induction false} FlushAllInv(s: State, order: seq<Id>)
    requires Inv(s) && forall id :: id in order ==> id in s.infos
    ensures Inv(FlushAll(s, order))
    decreases |order|
  {
    if order != [] {
      FlushOneKeeps(s, order[0]);
      FlushAllInv(FlushOne(s, order[0]), order[1..]);
    }
  }

  /** The action of `id` after the listed actions were flushed. */
  ghost predicate Flushed(s: State, s': State, order: seq<Id>, id: Id) {
    id in s.infos ==>
      && id in s'.infos
      && s'.infos[id].action == if id in order then SubmitDeferred(s.infos[id].action) else s.infos[id].action
  }

  /** Flushing makes pending equal to old pending followed by deferred, for every listed action. */
  lemma {:induction false} FlushAllLanes(s: State, order: seq<Id>, id: Id)
    requires (forall j :: j in order ==> j in s.infos) && Distinct(order)
    ensures Flushed(s, FlushAll(s, order), order, id)
    ensures FlushAll(s, order) == s.(infos := FlushAll(s, order).infos, ready := FlushAll(s, order).ready)
    decreases |order|
  {
    if order != [] {
      assert order == [order[0]] + order[1..] && order[0] !in order[1..];
      FlushAllLanes(FlushOne(s, order[0]), order[1..], id);
    }
  }

  lemma FlushKeeps(s: State, order: seq<Id>)
    requires Inv(s) && Distinct(order)
    requires forall id :: id in order <==> id in s.nonSubmit
    requires forall id :: id in order ==> id in s.infos
    ensures Inv(Flush(s, order))
  {
    FlushAllInv(s, order);
    FlushAllLanes(s, order, 0);
    var s1 := FlushAll(s, order);
    var s' := s1.(nonSubmit := {});
    forall f ensures TableOk(s', f) && FdOk(s', f) {
      assert TableOk(s1, f) && FdOk(s1, f);
    }
    forall j ensures IdOk(s', j) {
      assert IdOk(s1, j);
    }
    forall j, d ensures LaneOk(s', j, d) {
      assert LaneOk(s1, j, d) && LaneOk(s, j, d);
      FlushAllLanes(s, order, j);
    }
  }

  lemma CancelKeeps(s: State, d: Dir, fd: Fd)
    requires Inv(s) && TableOk(s, fd) && (s.pass.Some? && fd in s.table ==> s.pass.value.id != s.table[fd])
    ensures Inv(Cancel(s, d, fd))
  {
    assert TableOk(s, fd);
    if fd != 0 && fd in s.table && (d == Read ==> s.LaneOf(s.table[fd], Read).want) {
      var id := s.table[fd];
      var i := s.infos[id].(action := Disable(s.infos[id].action, d));
      var s1 := s.SetInfo(id, i);
      forall e ensures LaneOk(s1, id, e) {
        assert LaneOk(s, id, e);
      }
      SetInfoKeeps(s, id, i);
      if d == Read && i.action.NoInterest() {
        PushChangeKeeps(s1, id);
      }
    }
  }

  /** Only one descriptor's kernel record changes, and it still satisfies its clause. */
  lemma KernelKeeps(s: State, fd: Fd, k: KFd)
    requires Inv(s) && FdOk(s.SetK(fd, k), fd)
    ensures Inv(s.SetK(fd, k))
  {
    var s' := s.SetK(fd, k);
    forall f ensures TableOk(s', f) && FdOk(s', f) {
      assert TableOk(s, f) && FdOk(s, f);
    }
    forall j ensures IdOk(s', j) {
      assert IdOk(s, j);
    }
    forall j, d ensures LaneOk(s', j, d) {
      assert LaneOk(s, j, d);
    }
  }

  lemma EnvironmentKeeps(s: State, l: Label)
    requires Inv(s) && Enabled(s, l)
    requires l.LArrive? || l.LSubside? || l.LClose? || l.LOpen?
    ensures Inv(Step(s, l))
  {
    assert FdOk(s, l.fd);
    if Step(s, l) != s {
      KernelKeeps(s, l.fd, Step(s, l).K(l.fd));
      assert Step(s, l) == s.SetK(l.fd, Step(s, l).K(l.fd));
    }
  }

  lemma ControlKeeps(s: State, l: Label)
    requires Inv(s) && Enabled(s, l)
    requires l.LBegin? || l.LInterrupted? || l.LEventsDone? || l.LReadyDone?
    ensures Inv(Step(s, l))
  {
    var s' := Step(s, l);
    forall f ensures TableOk(s', f) && FdOk(s', f) {
      assert TableOk(s, f) && FdOk(s, f);
    }
    forall j ensures IdOk(s', j) {
      assert IdOk(s, j);
    }
    forall j, d ensures LaneOk(s', j, d) {
      assert LaneOk(s, j, d);
    }
  }

  /** `apply_one_change` seen from its descriptor, even when `is_in_epoll_` is stale: without interest
      the entry leaves table and kernel; otherwise an open descriptor is watched for exactly what its
      action wants, with an edge queued for every watched direction that is ready. */
  lemma ApplyOneEffect(k: KFd, id: Id, i: Info)
    requires k.interest.Some? ==> k.open && i.inEpoll
    ensures var r := ApplyOne(k, id, i);
            && r.kept == !i.action.NoInterest()
            && r.info.(inEpoll := i.inEpoll, inChangeList := i.inChangeList) == i
            && (!r.kept ==> r.info == i && r.k.interest == None)
            && (r.kept ==> !r.info.inChangeList)
            && (r.kept && !k.open ==> r.k == k)
            && (r.kept && k.open ==>
                  && r.info.inEpoll
                  && r.k == k.(interest := Some(Wanted(id, i.action)), edge := r.k.edge)
                  && (forall d :: r.k.Watches(d) && r.k.Can(d) ==> r.k.edge)
                  && (k.edge ==> r.k.edge))
  {
  }

  lemma ApplyTables(s: State)
    requires Inv(s) && s.changes != [] && IdOk(s, s.changes[0]) && s.phase == Applying
    ensures var s' := ApplyHead(s);
            && (forall f :: TableOk(s', f))
            && (forall f :: FdOk(s', f))
  {
    var s' := ApplyHead(s);
    var id := s.changes[0];
    assert IdOk(s, id);
    var fd := s.infos[id].fd;
    assert FdOk(s, fd);
    ApplyOneEffect(s.K(fd), id, s.infos[id]);
    var r := ApplyOne(s.K(fd), id, s.infos[id]);
    assert s'.K(fd) == r.k && s'.infos[id] == r.info;
    forall f ensures TableOk(s', f) && FdOk(s', f) {
      assert TableOk(s, f) && FdOk(s, f);
    }
  }

  lemma ApplyLists(s: State)
    requires Inv(s) && s.changes != [] && IdOk(s, s.changes[0]) && s.phase == Applying
    ensures var s' := ApplyHead(s);
            && (forall j :: IdOk(s', j))
            && (forall j, d :: LaneOk(s', j, d))
            && Distinct(s'.changes)
  {
    var s' := ApplyHead(s);
    var id := s.changes[0];
    assert IdOk(s, id);
    var fd := s.infos[id].fd;
    assert FdOk(s, fd);
    ApplyOneEffect(s.K(fd), id, s.infos[id]);
    forall j ensures IdOk(s', j) {
      assert IdOk(s, j);
      assert j in s.changes <==> j == id || j in s'.changes;
      assert id !in s'.changes;
    }
    forall j, d ensures LaneOk(s', j, d) {
      assert LaneOk(s, j, d);
    }
  }

  lemma ApplyKeeps(s: State)
    requires Inv(s) && s.changes != [] && IdOk(s, s.changes[0]) && s.phase == Applying
    ensures Inv(ApplyHead(s))
  {
    ApplyTables(s);
    ApplyLists(s);
  }

  lemma PollKeeps(s: State, batch: seq<Report>)
    requires Inv(s) && s.phase == Applying && PollAnswer(s, batch)
    ensures Inv(Poll(s, batch))
  {
    var s' := Poll(s, batch);
    forall f ensures TableOk(s', f) && FdOk(s', f) {
      assert TableOk(s, f) && FdOk(s, f);
      if f in Reported(s, batch) {
        var r :| r in batch && s.infos[r.id].fd == f;
        assert r.Has(Read) ==> InBatch(s', r.id, Read);
        assert r.Has(Write) ==> InBatch(s', r.id, Write);
      }
    }
    forall j ensures IdOk(s', j) {
      assert IdOk(s, j);
    }
    forall j, d ensures LaneOk(s', j, d) {
      assert LaneOk(s, j, d);
    }
  }

  lemma StartEventKeeps(s: State)
    requires Inv(s) && s.phase.Events? && s.pass.None? && s.phase.batch != []
    ensures Inv(StartEvent(s))
    ensures var s', r := StartEvent(s), s.phase.batch[0];
            && (forall d :: s'.LaneOf(r.id, d) == s.LaneOf(r.id, d).(ready := s.LaneOf(r.id, d).ready || r.Has(d)))
            && (forall j :: j in s.infos && j != r.id ==> j in s'.infos && s'.infos[j] == s.infos[j])
  {
    var s' := StartEvent(s);
    var r := s.phase.batch[0];
    forall j, d | j in s.infos && InBatch(s, j, d) ensures InBatch(s', j, d) || s'.LaneOf(j, d).ready {
      var q :| q in s.phase.batch && q.id == j && q.Has(d);
      assert q == r || q in s'.phase.batch;
    }
    forall f ensures TableOk(s', f) && FdOk(s', f) {
      assert TableOk(s, f) && FdOk(s, f);
    }
    forall j ensures IdOk(s', j) {
      assert IdOk(s, j);
    }
    forall j, d ensures LaneOk(s', j, d) {
      assert LaneOk(s, j, d);
    }
  }

  lemma StartReadyKeeps(s: State)
    requires Inv(s) && s.phase.ReadyPass? && s.phase.left > 0 && s.pass.None? && IdOk(s, s.ready[0])
    ensures Inv(StartReady(s))
  {
    var s' := StartReady(s);
    assert IdOk(s, s.ready[0]);
    forall f ensures TableOk(s', f) && FdOk(s', f) {
      assert TableOk(s, f) && FdOk(s, f);
    }
    forall j ensures IdOk(s', j) {
      assert IdOk(s, j);
    }
    forall j, d ensures LaneOk(s', j, d) {
      assert LaneOk(s, j, d);
      assert j in s.ready ==> j == s.ready[0] || j in s'.Waiting();
    }
  }

  lemma AttemptLaneFacts(l: Lane, d: Dir, triggered: bool, o: Outcome)
    requires l.pending != []
    ensures var l' := AttemptLane(l, d, triggered, o);
            && l'.want == l.want && l'.deferred == l.deferred
            && |l.pending| - 1 <= |l'.pending|
            && (l'.ready ==> l.ready && |l'.pending| == |l.pending| - 1)
            && (l.ready && !l'.ready ==> o.Blocked? && l.pending[0].iovCnt != 0)
  {
  }

  lemma TryTables(s: State, o: Outcome, still: bool)
    requires Inv(s) && s.pass.Some? && s.pass.value.left > 0
    ensures var s' := Try(s, o, still);
            && (forall f :: TableOk(s', f))
            && (forall f :: FdOk(s', f))
  {
    var s' := Try(s, o, still);
    var p := s.pass.value;
    AttemptLaneFacts(s.LaneOf(p.id, p.dir), p.dir, p.triggered, o);
    assert LaneOk(s, p.id, p.dir);
    assert s.Live(p.id);
    forall f ensures TableOk(s', f) && FdOk(s', f) {
      assert TableOk(s, f) && FdOk(s, f);
    }
  }

  lemma TryIds(s: State, o: Outcome, still: bool)
    requires Inv(s) && s.pass.Some? && s.pass.value.left > 0
    ensures (forall j :: IdOk(Try(s, o, still), j)) && Control(Try(s, o, still))
  {
    var p := s.pass.value;
    AttemptLaneFacts(s.LaneOf(p.id, p.dir), p.dir, p.triggered, o);
    forall j ensures IdOk(Try(s, o, still), j) {
      assert IdOk(s, j);
    }
  }

  lemma TryLanes(s: State, o: Outcome, still: bool)
    requires Inv(s) && s.pass.Some? && s.pass.value.left > 0
    ensures forall j, d :: LaneOk(Try(s, o, still), j, d)
  {
    var p := s.pass.value;
    AttemptLaneFacts(s.LaneOf(p.id, p.dir), p.dir, p.triggered, o);
    forall j, d ensures LaneOk(Try(s, o, still), j, d) {
      assert LaneOk(s, j, d);
    }
  }

  lemma TryKeeps(s: State, o: Outcome, still: bool)
    requires Inv(s) && s.pass.Some? && s.pass.value.left > 0
    ensures Inv(Try(s, o, still))
  {
    TryTables(s, o, still);
    TryIds(s, o, still);
    TryLanes(s, o, still);
  }

  lemma NextLaneKeeps(s: State)
    requires Inv(s) && s.pass.Some? && s.pass.value.dir == Read && s.pass.value.left == 0
    ensures Inv(NextLane(s))
  {
    var s' := NextLane(s);
    forall f ensures TableOk(s', f) && FdOk(s', f) {
      assert TableOk(s, f) && FdOk(s, f);
    }
    forall j ensures IdOk(s', j) {
      assert IdOk(s, j);
    }
    forall j, d ensures LaneOk(s', j, d) {
      assert LaneOk(s, j, d);
    }
  }

  lemma EndPassKeeps(s: State)
    requires Inv(s) && s.pass.Some? && s.pass.value.dir == Write && s.pass.value.left == 0
    ensures Inv(EndPass(s))
  {
    var s' := EndPass(s);
    assert s'.Waiting() == s.Waiting();
    forall f ensures TableOk(s', f) && FdOk(s', f) {
      assert TableOk(s, f) && FdOk(s, f);
    }
    forall j ensures IdOk(s', j) {
      assert IdOk(s, j);
    }
    forall j, d ensures LaneOk(s', j, d) {
      assert LaneOk(s, j, d);
    }
  }

  lemma StepKeeps(s: State, l: Label)
    requires Inv(s) && Enabled(s, l)
    ensures Inv(Step(s, l))
  {
    match l
    case LSubmit(d, fd, t, cb, now) =>
      assert TableOk(s, fd);
      SubmitKeeps(s, d, fd, t, cb, now);
    case LFlush(order) =>
      assert forall id :: id in order ==> IdOk(s, id);
      FlushKeeps(s, order);
    case LCancel(d, fd) =>
      assert TableOk(s, fd);
      CancelKeeps(s, d, fd);
    case LApply =>
      assert IdOk(s, s.changes[0]);
      ApplyKeeps(s);
    case LPoll(batch) => PollKeeps(s, batch);
    case LEvent => StartEventKeeps(s);
    case LReady =>
      assert IdOk(s, s.ready[0]);
      StartReadyKeeps(s);
    case LTry(o, still) => TryKeeps(s, o, still);
    case LNextLane => NextLaneKeeps(s);
    case LEndPass => EndPassKeeps(s);
    case LArrive(_, _, _) => EnvironmentKeeps(s, l);
    case LSubside(_, _) => EnvironmentKeeps(s, l);
    case LClose(_) => EnvironmentKeeps(s, l);
    case LOpen(_) => EnvironmentKeeps(s, l);
    case _ => ControlKeeps(s, l);
  }
}
