/**
  What the epoll back end loses: the wakeup of a direction that was cancelled alone, and the difference
  between a descriptor without data and one at its end. Each loss is shown on runs of the machine in
  `Reactor`.
 */
module ReactorLosses {
  import opened EventActions
  import opened Reactor
  import opened Common
  import opened ReactorRuns

  // ----- What an unsound change costs -----

  /** A direction whose EV bit is up although the kernel does not watch it is dead: a new submission
      is queued, but when the kernel becomes ready for it nothing is left to wake it. */
  lemma UnwiredIsLost(s: State, id: Id, d: Dir, t: Task)
    requires Inv(s) && s.phase == Idle && s.Live(id) && s.infos[id].Ev(d) && !Wired(s, id, d)
    requires s.K(s.infos[id].fd).open && !s.LaneOf(id, d).ready && TableOk(s, s.infos[id].fd)
    ensures var fd := s.infos[id].fd;
            var s' := Arrive(Submit(s, d, fd, t, true, true), fd, d, false);
            && Inv(s') && s'.phase == Idle && s'.Live(id)
            && s'.LaneOf(id, d).pending != [] && s'.K(fd).Can(d) && !Awake(s', id, d)
  {
    var fd := s.infos[id].fd;
    SubmitKeeps(s, d, fd, t, true, true);
    var s1 := Submit(s, d, fd, t, true, true);
    assert IdOk(s, id);
    assert s1.changes == s.changes && s1.K(fd) == s.K(fd) && s1.ready == s.ready;
    EnvironmentKeeps(s1, LArrive(fd, d, false));
    assert FdOk(s, fd);
  }

  // ----- Asleep for good -----

  /** Nothing can wake this direction but a cancellation: it counts as registered, as does the other one,
      so no submission registers it again; the kernel does not watch it; its bit is down, and neither a
      report nor a pass in progress is going to change that. */
  ghost predicate Dead(s: State, id: Id, d: Dir) {
    && s.Live(id) && s.infos[id].evRead && s.infos[id].evWrite && !s.infos[id].inChangeList
    && !s.K(s.infos[id].fd).Watches(d) && !s.LaneOf(id, d).ready && !InBatch(s, id, d)
    && (s.pass.Some? && s.pass.value.id == id && s.pass.value.dir == d ==> s.pass.value.left == 0)
  }

  /** The tasks queued in `s` are still queued in `s'`, and none was completed. */
  ghost predicate Untouched(s: State, s': State, id: Id, d: Dir) {
    && id in s.infos && id in s'.infos && s'.infos[id].fd == s.infos[id].fd
    && s.LaneOf(id, d).pending <= s'.LaneOf(id, d).pending && s'.LaneOf(id, d).done == s.LaneOf(id, d).done
  }

  lemma UntouchedTrans(s: State, s1: State, s2: State, id: Id, d: Dir)
    requires Untouched(s, s1, id, d) && Untouched(s1, s2, id, d)
    ensures Untouched(s, s2, id, d)
  {
  }

  lemma DeadEnsure(s: State, fd: Fd, id: Id, d: Dir)
    requires IdOk(s, id) && IdOk(s, s.nextId) && Dead(s, id, d)
    ensures Dead(Ensure(s, fd), id, d) && Untouched(s, Ensure(s, fd), id, d)
  {
  }

  lemma DeadRegister(s: State, n: Id, e: Dir, cb: bool, id: Id, d: Dir)
    requires n in s.infos && Dead(s, id, d)
    ensures Dead(Register(s, n, e, cb), id, d) && Untouched(s, Register(s, n, e, cb), id, d)
  {
  }

  lemma DeadEnqueue(s: State, n: Id, e: Dir, t: Task, now: bool, id: Id, d: Dir)
    requires n in s.infos && Dead(s, id, d)
    ensures Dead(Enqueue(s, n, e, t, now), id, d) && Untouched(s, Enqueue(s, n, e, t, now), id, d)
  {
  }

  lemma DeadSubmit(s: State, e: Dir, fd: Fd, t: Task, cb: bool, now: bool, id: Id, d: Dir)
    requires IdOk(s, id) && IdOk(s, s.nextId) && TableOk(s, fd) && Dead(s, id, d)
    ensures Dead(Submit(s, e, fd, t, cb, now), id, d) && Untouched(s, Submit(s, e, fd, t, cb, now), id, d)
  {
    var n, s1 := Lookup(s, fd), Ensure(s, fd);
    var s2 := Register(s1, n, e, cb);
    DeadEnsure(s, fd, id, d);
    DeadRegister(s1, n, e, cb, id, d);
    DeadEnqueue(s2, n, e, t, now, id, d);
    UntouchedTrans(s, s1, s2, id, d);
    UntouchedTrans(s, s2, Enqueue(s2, n, e, t, now), id, d);
  }

  lemma DeadCancel(s: State, e: Dir, fd: Fd, id: Id, d: Dir)
    requires TableOk(s, fd) && Dead(s, id, d) && fd != s.infos[id].fd
    ensures Dead(Cancel(s, e, fd), id, d) && Untouched(s, Cancel(s, e, fd), id, d)
  {
  }

  lemma {:induction false} DeadFlush(s: State, order: seq<Id>, id: Id, d: Dir)
    requires (forall j :: j in order ==> j in s.infos) && Dead(s, id, d)
    ensures Dead(FlushAll(s, order), id, d) && Untouched(s, FlushAll(s, order), id, d)
    decreases |order|
  {
    if order != [] {
      DeadFlush(FlushOne(s, order[0]), order[1..], id, d);
    }
  }

  lemma DeadSubmitted(s: State, id: Id, d: Dir)
    requires Dead(s, id, d)
    ensures Dead(s.(nonSubmit := {}), id, d) && Untouched(s, s.(nonSubmit := {}), id, d)
  {
  }

  lemma DeadApply(s: State, id: Id, d: Dir)
    requires Inv(s) && s.changes != [] && IdOk(s, s.changes[0]) && Dead(s, id, d)
    ensures Dead(ApplyHead(s), id, d) && Untouched(s, ApplyHead(s), id, d)
  {
    var n := s.changes[0];
    assert IdOk(s, id) && FdOk(s, s.infos[n].fd);
    ApplyOneEffect(s.K(s.infos[n].fd), n, s.infos[n]);
  }

  lemma DeadTry(s: State, o: Outcome, still: bool, id: Id, d: Dir)
    requires Control(s) && s.pass.Some? && s.pass.value.left > 0 && Dead(s, id, d)
    ensures Dead(Try(s, o, still), id, d) && Untouched(s, Try(s, o, still), id, d)
  {
    TryEffect(s, o, still);
  }

  lemma DeadPoll(s: State, batch: seq<Report>, id: Id, d: Dir)
    requires Dead(s, id, d) && PollAnswer(s, batch) && (forall r :: r in batch ==> r.id in s.infos)
    ensures Dead(Poll(s, batch), id, d) && Untouched(s, Poll(s, batch), id, d)
  {
    var s' := Poll(s, batch);
    forall r | r in batch && r.id == id ensures !r.Has(d) {
      assert s.Live(r.id);
    }
  }

  lemma DeadEvent(s: State, id: Id, d: Dir)
    requires s.phase.Events? && s.phase.batch != [] && s.phase.batch[0].id in s.infos && Dead(s, id, d)
    ensures Dead(StartEvent(s), id, d) && Untouched(s, StartEvent(s), id, d)
  {
    var r := s.phase.batch[0];
    assert r in s.phase.batch && s.phase.batch == [r] + s.phase.batch[1..];
  }

  lemma DeadOther(s: State, l: Label, id: Id, d: Dir)
    requires Inv(s) && Enabled(s, l) && Dead(s, id, d)
    requires !(l.LSubmit? || l.LFlush? || l.LCancel? || l.LApply? || l.LTry? || l.LPoll? || l.LEvent?)
    ensures Dead(Step(s, l), id, d) && Untouched(s, Step(s, l), id, d)
  {
  }

  lemma DeadStep(s: State, l: Label, id: Id, d: Dir)
    requires Inv(s) && Enabled(s, l) && Dead(s, id, d) && !(l.LCancel? && l.fd == s.infos[id].fd)
    ensures Dead(Step(s, l), id, d) && Untouched(s, Step(s, l), id, d)
  {
    if l.LSubmit? {
      assert TableOk(s, l.fd) && IdOk(s, id) && IdOk(s, s.nextId);
      DeadSubmit(s, l.d, l.fd, l.t, l.cb, l.now, id, d);
    } else if l.LFlush? {
      assert forall j :: j in l.order ==> IdOk(s, j);
      DeadFlush(s, l.order, id, d);
      DeadSubmitted(FlushAll(s, l.order), id, d);
    } else if l.LCancel? {
      assert TableOk(s, l.fd);
      DeadCancel(s, l.d, l.fd, id, d);
    } else if l.LApply? {
      assert IdOk(s, s.changes[0]);
      DeadApply(s, id, d);
    } else if l.LTry? {
      DeadTry(s, l.o, l.still, id, d);
    } else if l.LPoll? {
      DeadPoll(s, l.batch, id, d);
    } else if l.LEvent? {
      DeadEvent(s, id, d);
    } else {
      DeadOther(s, l, id, d);
    }
  }

  ghost predicate NoCancelOf(ls: seq<Label>, fd: Fd) {
    forall i :: 0 <= i < |ls| ==> !(ls[i].LCancel? && ls[i].fd == fd)
  }

  lemma DeadLast(ls: seq<Label>, more: seq<Label>, id: Id, d: Dir)
    requires Valid(ls + more) && more != [] && Valid(ls + Init(more)) && Dead(After(ls + Init(more)), id, d)
    requires !(Last(more).LCancel? && Last(more).fd == After(ls + Init(more)).infos[id].fd)
    ensures Dead(After(ls + more), id, d) && Untouched(After(ls + Init(more)), After(ls + more), id, d)
  {
    LastOfMore(ls, more);
    DeadStep(After(ls + Init(more)), Last(more), id, d);
  }

  /** In every continuation without a cancellation of the descriptor, closes and new submissions included,
      the queued tasks of a dead direction are never attempted. */
  lemma {:induction false} DeadForGood(ls: seq<Label>, more: seq<Label>, id: Id, d: Dir)
    requires Valid(ls) && Dead(After(ls), id, d) && Valid(ls + more) && NoCancelOf(more, After(ls).infos[id].fd)
    ensures Dead(After(ls + more), id, d) && Untouched(After(ls), After(ls + more), id, d)
    decreases |more|
  {
    if more == [] {
      assert ls + more == ls;
    } else {
      ValidBefore(ls, more);
      DeadForGood(ls, Init(more), id, d);
      DeadLast(ls, more, id, d);
      UntouchedTrans(After(ls), After(ls + Init(more)), After(ls + more), id, d);
    }
  }

  /** This direction was cancelled, the other one was not, and applying the change will make the kernel
      forget it although it still counts as registered. */
  ghost predicate Unsound(s: State, id: Id, d: Dir) {
    id in s.infos &&
    var i := s.infos[id];
    !i.action.NoInterest() && s.K(i.fd).open && i.Ev(d) && !i.action.Get(d).want && !i.action.Get(d).ready
  }

  /** An unsound change is listed, or it has been applied. */
  ghost predicate Doomed(s: State, id: Id, d: Dir) {
    (id in s.changes && Unsound(s, id, d)) || (Dead(s, id, d) && !s.LaneOf(id, d).want && s.K(s.infos[id].fd).open)
  }

  /** Its application leaves the cancelled direction dead. */
  lemma UnsoundKills(s: State, d: Dir)
    requires Inv(s) && s.phase == Applying && s.changes != [] && IdOk(s, s.changes[0]) && Unsound(s, s.changes[0], d)
    ensures var id, s1 := s.changes[0], ApplyHead(s);
            && id in s1.infos && s1.infos[id].fd == s.infos[id].fd && s1.K(s.infos[id].fd).open
            && Dead(s1, id, d) && s1.infos[id].action == s.infos[id].action
  {
    var id := s.changes[0];
    assert FdOk(s, s.infos[id].fd) && LaneOk(s, id, Read) && LaneOk(s, id, Write);
    ApplyOneEffect(s.K(s.infos[id].fd), id, s.infos[id]);
  }

  /** Applying any change keeps a direction doomed. */
  lemma DoomedApply(s: State, id: Id, d: Dir)
    requires Inv(s) && s.phase == Applying && s.changes != [] && IdOk(s, s.changes[0])
    requires id in s.infos && Doomed(s, id, d)
    ensures var s1 := ApplyHead(s);
            && Inv(s1) && s1.phase == Applying && id in s1.infos && s1.infos[id].fd == s.infos[id].fd
            && s1.infos[id].action == s.infos[id].action && Doomed(s1, id, d)
  {
    assert IdOk(s, id);
    ApplyHeadReconciles(s, id);
    ApplyEffect(s, id);
    if Dead(s, id, d) {
      DeadApply(s, id, d);
    } else if id == s.changes[0] {
      UnsoundKills(s, d);
    }
  }

  /** The action is the same, and it is still doomed. */
  ghost predicate StillDoomed(s: State, s': State, id: Id, d: Dir) {
    && id in s.infos && id in s'.infos && s'.infos[id].fd == s.infos[id].fd
    && s'.infos[id].action == s.infos[id].action && Doomed(s', id, d)
  }

  lemma StillDoomedTrans(s: State, s1: State, s2: State, id: Id, d: Dir)
    requires StillDoomed(s, s1, id, d) && StillDoomed(s1, s2, id, d)
    ensures StillDoomed(s, s2, id, d)
  {
  }

  /** The run `ls` is applying changes, with `k` to go, and the action is still doomed since `s`. */
  ghost predicate Walking(ls: seq<Label>, k: nat, s: State, id: Id, d: Dir) {
    Valid(ls) && After(ls).phase == Applying && |After(ls).changes| == k && StillDoomed(s, After(ls), id, d)
  }

  lemma DoomedOne(ls: seq<Label>, k: nat, s: State, id: Id, d: Dir)
    requires Walking(ls, k + 1, s, id, d)
    ensures Walking(ls + [LApply], k, s, id, d)
  {
    var s1 := After(ls);
    assert IdOk(s1, s1.changes[0]);
    DoomedApply(s1, id, d);
    Extend(ls, LApply);
    StillDoomedTrans(s, s1, ApplyHead(s1), id, d);
  }

  lemma AppliesNext(ls: seq<Label>, n: nat)
    requires n > 0
    ensures ls + Applies(n) == ls + Applies(n - 1) + [LApply]
  {
  }

  /** `apply_changes` step by step, however long the list is and wherever the unsound change stands in it. */
  lemma {:induction false} DoomedAll(ls: seq<Label>, n: nat, k: nat, s: State, id: Id, d: Dir)
    requires Walking(ls, n + k, s, id, d)
    ensures Walking(ls + Applies(n), k, s, id, d)
    decreases n
  {
    if n == 0 {
      assert ls + Applies(0) == ls;
    } else {
      DoomedAll(ls, n - 1, k + 1, s, id, d);
      AppliesNext(ls, n);
      DoomedTo(ls + Applies(n - 1), ls + Applies(n), k, s, id, d);
    }
  }

  lemma DoomedTo(ls: seq<Label>, ls': seq<Label>, k: nat, s: State, id: Id, d: Dir)
    requires Walking(ls, k + 1, s, id, d) && ls' == ls + [LApply]
    ensures Walking(ls', k, s, id, d)
  {
    DoomedOne(ls, k, s, id, d);
  }

  /** After that the dispatch may be interrupted. */
  lemma DoomedIdle(ls: seq<Label>, id: Id, d: Dir)
    requires Valid(ls) && After(ls).phase == Applying && id in After(ls).infos && Doomed(After(ls), id, d)
    requires After(ls).changes == []
    ensures Valid(ls + [LInterrupted]) && After(ls + [LInterrupted]).phase == Idle
    ensures After(ls + [LInterrupted]).changes == [] && StillDoomed(After(ls), After(ls + [LInterrupted]), id, d)
  {
    Extend(ls, LInterrupted);
    var s := After(ls);
    assert s.(phase := Idle).Live(id) && !InBatch(s.(phase := Idle), id, d);
  }

  /** Where a submission of a dead direction and new readiness of the kernel lead. */
  lemma DeadStaysAsleep(s: State, id: Id, d: Dir, t: Task)
    requires Inv(s) && s.phase == Idle && Dead(s, id, d) && !Wired(s, id, d) && s.K(s.infos[id].fd).open
    requires TableOk(s, s.infos[id].fd) && s.LaneOf(id, d).pending == []
    ensures var fd := s.infos[id].fd;
            var s' := Arrive(Submit(s, d, fd, t, true, true), fd, d, false);
            && Inv(s') && s'.phase == Idle && s'.Live(id) && s'.infos[id].fd == fd
            && s'.LaneOf(id, d).pending == [t] && s'.K(fd).Can(d) && !Awake(s', id, d) && Dead(s', id, d)
  {
    var fd := s.infos[id].fd;
    assert IdOk(s, id) && IdOk(s, s.nextId);
    UnwiredIsLost(s, id, d, t);
    DeadSubmit(s, d, fd, t, true, true, id, d);
    SubmitEffect(s, d, fd, t, true, true);
    DeadArrive(Submit(s, d, fd, t, true, true), fd, id, d);
  }

  lemma DeadArrive(s: State, fd: Fd, id: Id, d: Dir)
    requires Dead(s, id, d)
    ensures Dead(Arrive(s, fd, d, false), id, d) && Arrive(s, fd, d, false).infos == s.infos
  {
  }

  /** After any run that is applying its changes with an unsound one anywhere in the list, finishing the
      list, the dispatch, a submission of the cancelled direction and new readiness of the kernel lead to
      a task that the kernel could serve and that is never attempted, whatever follows, as long as the
      descriptor is not cancelled again. */
  lemma UnsoundChangeLosesWakeup(ls: seq<Label>, id: Id, d: Dir, t: Task) returns (lost: seq<Label>)
    requires Valid(ls) && After(ls).phase == Applying && id in After(ls).changes && Unsound(After(ls), id, d)
    ensures var fd := After(ls).infos[id].fd;
            lost == ls + Applies(|After(ls).changes|) + [LInterrupted]
                       + [LSubmit(d, fd, t, true, true)] + [LArrive(fd, d, false)]
    ensures Valid(lost) && Lost(After(lost), id, d, t) && After(lost).infos[id].fd == After(ls).infos[id].fd
    ensures forall more :: Valid(lost + more) && NoCancelOf(more, After(ls).infos[id].fd) ==>
              Untouched(After(lost), After(lost + more), id, d)
  {
    var fd, all := After(ls).infos[id].fd, ls + Applies(|After(ls).changes|);
    DoomedAll(ls, |After(ls).changes|, 0, After(ls), id, d);
    DoomedIdle(all, id, d);
    DoomedLeadsToLost(all + [LInterrupted], id, d, t);
    lost := all + [LInterrupted] + [LSubmit(d, fd, t, true, true)] + [LArrive(fd, d, false)];
    LostForGood(lost, id, d, t);
  }

  /** A task that the kernel could serve, on a direction that nothing will wake. */
  ghost predicate Lost(s: State, id: Id, d: Dir, t: Task) {
    && s.phase == Idle && s.Live(id) && s.LaneOf(id, d).pending == [t] && s.K(s.infos[id].fd).Can(d)
    && !Awake(s, id, d) && Dead(s, id, d)
  }

  lemma LostForGood(lost: seq<Label>, id: Id, d: Dir, t: Task)
    requires Valid(lost) && Lost(After(lost), id, d, t)
    ensures forall more :: Valid(lost + more) && NoCancelOf(more, After(lost).infos[id].fd) ==>
              Untouched(After(lost), After(lost + more), id, d)
  {
    forall more | Valid(lost + more) && NoCancelOf(more, After(lost).infos[id].fd)
      ensures Untouched(After(lost), After(lost + more), id, d)
    {
      DeadForGood(lost, more, id, d);
    }
  }

  lemma DoomedLeadsToLost(ls: seq<Label>, id: Id, d: Dir, t: Task)
    requires Valid(ls) && After(ls).phase == Idle && After(ls).changes == [] && id in After(ls).infos
    requires Doomed(After(ls), id, d)
    ensures var fd := After(ls).infos[id].fd;
            var lost := ls + [LSubmit(d, fd, t, true, true)] + [LArrive(fd, d, false)];
            Valid(lost) && Lost(After(lost), id, d, t) && After(lost).infos[id].fd == fd
  {
    var fd := After(ls).infos[id].fd;
    DoomedIsLost(ls, id, d, t);
    Extend(ls, LSubmit(d, fd, t, true, true));
    Extend(ls + [LSubmit(d, fd, t, true, true)], LArrive(fd, d, false));
  }

  lemma DoomedIsLost(ls: seq<Label>, id: Id, d: Dir, t: Task)
    requires Valid(ls) && After(ls).phase == Idle && After(ls).changes == [] && id in After(ls).infos
    requires Doomed(After(ls), id, d)
    ensures var s := After(ls);
            var fd := s.infos[id].fd;
            && Enabled(s, LSubmit(d, fd, t, true, true))
            && var s' := Arrive(Submit(s, d, fd, t, true, true), fd, d, false);
               && Inv(s') && s'.phase == Idle && s'.Live(id) && s'.infos[id].fd == fd
               && s'.LaneOf(id, d).pending == [t] && s'.K(fd).Can(d) && !Awake(s', id, d) && Dead(s', id, d)
  {
    var s := After(ls);
    assert LaneOk(s, id, d) && TableOk(s, s.infos[id].fd);
    DeadStaysAsleep(s, id, d, t);
  }

  // ----- An unsound change is reachable -----

  // The states of a short run on descriptor 5: its read queued, registered, and joined by a write.
  const OpenKernel := map[5 := ClosedFd.(open := true)]
  const WatchedKernel := map[5 := ClosedFd.(open := true, interest := Some(Interest(0, true, false)))]

  function ReadLane(t: Task): Lane {
    AddPending(NewLane.(want := true), [t])
  }

  function Queued(t: Task): State {
    State(map[5 := 0], map[0 := Info(5, true, false, false, true, Action(ReadLane(t), NewLane))], 1,
          [0], [], {}, OpenKernel, Idle, None)
  }

  function Registered(t: Task): State {
    State(map[5 := 0], map[0 := Info(5, true, false, true, false, Action(ReadLane(t), NewLane))], 1,
          [], [], {}, WatchedKernel, Idle, None)
  }

  function Joined(t: Task): State {
    State(map[5 := 0], map[0 := Info(5, true, true, true, true, Action(ReadLane(t), ReadLane(t)))], 1,
          [0], [], {}, WatchedKernel, Idle, None)
  }

  lemma QueuedReached(t: Task)
    ensures Submit(Start.(kernel := OpenKernel), Read, 5, t, true, true) == Queued(t)
  {
  }

  lemma RegisteredReached(t: Task)
    ensures ApplyHead(Queued(t).(phase := Applying)) == Registered(t).(phase := Applying)
  {
  }

  lemma JoinedReached(t: Task)
    ensures Submit(Registered(t), Write, 5, t, true, true) == Joined(t)
  {
  }

  /** About to apply a change of descriptor 5 whose read was registered and then cancelled. */
  ghost predicate Unsound5(s: State) {
    && s.phase == Applying && s.changes == [0] && 0 in s.infos
    && var i := s.infos[0];
       && i.fd == 5 && s.K(5).open && !i.action.NoInterest()
       && i.Ev(Read) && !i.action.read.want && !i.action.read.ready
  }

  lemma ReachQueued(t: Task) returns (ls: seq<Label>)
    ensures Valid(ls) && After(ls) == Queued(t)
  {
    ls := [];
    Extend(ls, LOpen(5));
    ls := ls + [LOpen(5)];
    assert After(ls) == Start.(kernel := OpenKernel);
    QueuedReached(t);
    Extend(ls, LSubmit(Read, 5, t, true, true));
    ls := ls + [LSubmit(Read, 5, t, true, true)];
  }

  lemma ReachRegistered(t: Task) returns (ls: seq<Label>)
    ensures Valid(ls) && After(ls) == Registered(t)
  {
    ls := ReachQueued(t);
    Extend(ls, LBegin);
    ls := ls + [LBegin];
    RegisteredReached(t);
    Extend(ls, LApply);
    ls := ls + [LApply];
    assert After(ls) == Registered(t).(phase := Applying);
    Extend(ls, LInterrupted);
    ls := ls + [LInterrupted];
  }

  lemma ReachJoined(t: Task) returns (ls: seq<Label>)
    ensures Valid(ls) && After(ls) == Joined(t)
  {
    ls := ReachRegistered(t);
    JoinedReached(t);
    Extend(ls, LSubmit(Write, 5, t, true, true));
    ls := ls + [LSubmit(Write, 5, t, true, true)];
  }

  lemma CancelledUnsound(t: Task)
    ensures Unsound5(Cancel(Joined(t), Read, 5).(phase := Applying)) && Cancel(Joined(t), Read, 5).phase == Idle
  {
  }

  /** Read, dispatch, write, cancel the read, dispatch: an ordinary use of the library reaches the
      unsound change of `UnsoundChangeLosesWakeup`. */
  lemma CancelReachesUnsoundChange(t: Task) returns (ls: seq<Label>)
    ensures Valid(ls) && Unsound5(After(ls))
  {
    ls := ReachJoined(t);
    CancelledUnsound(t);
    Extend(ls, LCancel(Read, 5));
    ls := ls + [LCancel(Read, 5)];
    Extend(ls, LBegin);
    ls := ls + [LBegin];
  }

  /** So an ordinary use of the library ends with a read that data is waiting for and that is never
      attempted, whatever follows, unless the descriptor is cancelled again. */
  lemma CancelLosesLaterRead(t: Task) returns (ls: seq<Label>)
    ensures Valid(ls) && 0 in After(ls).infos
    ensures After(ls).infos[0].action.read.pending == [t] && After(ls).K(5).Can(Read)
    ensures forall more :: Valid(ls + more) && NoCancelOf(more, 5) ==> Untouched(After(ls), After(ls + more), 0, Read)
  {
    var before := CancelReachesUnsoundChange(t);
    ls := UnsoundChangeLosesWakeup(before, 0, Read, t);
  }

  // ----- A close behind the back end's back -----

  /** A registered read, its descriptor closed and the same number opened again: the next read is queued,
      but not registered, and asleep when data arrives. */
  lemma CloseLosesLaterRead(t: Task) returns (ls: seq<Label>)
    ensures Valid(ls) && After(ls).phase == Idle && 0 in After(ls).infos && After(ls).infos[0].fd == 5
    ensures After(ls).infos[0].action.read.pending != [] && After(ls).K(5).Can(Read) && !Awake(After(ls), 0, Read)
  {
    ls := ReachReopened(t);
    var s := After(ls);
    assert TableOk(s, 5) && !Wired(s, 0, Read);
    UnwiredIsLost(s, 0, Read, t);
    Extend(ls, LSubmit(Read, 5, t, true, true));
    ls := ls + [LSubmit(Read, 5, t, true, true)];
    Extend(ls, LArrive(5, Read, false));
    ls := ls + [LArrive(5, Read, false)];
  }

  const ClosedKernel := map[5 := ClosedFd]

  lemma ReopenedReached(t: Task)
    ensures CloseFd(Registered(t), 5) == Registered(t).(kernel := ClosedKernel)
    ensures OpenFd(Registered(t).(kernel := ClosedKernel), 5) == Registered(t).(kernel := OpenKernel)
  {
  }

  lemma ReachClosed(t: Task) returns (ls: seq<Label>)
    ensures Valid(ls) && After(ls) == Registered(t).(kernel := ClosedKernel)
  {
    ls := ReachRegistered(t);
    ReopenedReached(t);
    Extend(ls, LClose(5));
    ls := ls + [LClose(5)];
  }

  lemma ReachReopened(t: Task) returns (ls: seq<Label>)
    ensures Valid(ls) && After(ls) == Registered(t).(kernel := OpenKernel)
  {
    ls := ReachClosed(t);
    ReopenedReached(t);
    Extend(ls, LOpen(5));
    ls := ls + [LOpen(5)];
  }

  // ----- A cancelled write that stays registered -----

  const WriteKernel := map[5 := ClosedFd.(open := true, interest := Some(Interest(0, false, true)))]

  function WriteQueued(t: Task): State {
    State(map[5 := 0], map[0 := Info(5, false, true, false, true, Action(NewLane, ReadLane(t)))], 1,
          [0], [], {}, OpenKernel, Idle, None)
  }

  function WriteRegistered(t: Task): State {
    State(map[5 := 0], map[0 := Info(5, false, true, true, false, Action(NewLane, ReadLane(t)))], 1,
          [], [], {}, WriteKernel, Idle, None)
  }

  lemma WriteQueuedReached(t: Task)
    ensures Submit(Start.(kernel := OpenKernel), Write, 5, t, true, true) == WriteQueued(t)
  {
  }

  lemma WriteRegisteredReached(t: Task)
    ensures ApplyHead(WriteQueued(t).(phase := Applying)) == WriteRegistered(t).(phase := Applying)
  {
  }

  lemma ReachWriteQueued(t: Task) returns (ls: seq<Label>)
    ensures Valid(ls) && After(ls) == WriteQueued(t)
  {
    ls := [];
    Extend(ls, LOpen(5));
    ls := ls + [LOpen(5)];
    assert After(ls) == Start.(kernel := OpenKernel);
    WriteQueuedReached(t);
    Extend(ls, LSubmit(Write, 5, t, true, true));
    ls := ls + [LSubmit(Write, 5, t, true, true)];
  }

  lemma ReachWriteRegistered(t: Task) returns (ls: seq<Label>)
    ensures Valid(ls) && After(ls) == WriteRegistered(t)
  {
    ls := ReachWriteQueued(t);
    Extend(ls, LBegin);
    ls := ls + [LBegin];
    WriteRegisteredReached(t);
    Extend(ls, LApply);
    ls := ls + [LApply];
    assert After(ls) == WriteRegistered(t).(phase := Applying);
    Extend(ls, LInterrupted);
    ls := ls + [LInterrupted];
  }

  /** A write, a dispatch and the cancellation of the write: nothing wants the descriptor any more, but it is
      still in the table and the kernel still watches it, also after the next `apply_changes`. */
  lemma WriteCancelKeepsInterest(t: Task) returns (ls: seq<Label>)
    ensures Valid(ls) && After(ls).phase == Idle && 0 in After(ls).infos && After(ls).infos[0].action.NoInterest()
    ensures var s := ApplyAll(After(ls).(phase := Applying)); 5 in s.table && s.K(5) == WriteKernel[5]
  {
    ls := ReachWriteRegistered(t);
    var s := After(ls);
    CancelRemovesIff(s, Write, 5);
    CancelEffect(s, Write, 5);
    Extend(ls, LCancel(Write, 5));
    ls := ls + [LCancel(Write, 5)];
  }

  // ----- An end of the stream that is none -----

  const TwoWaiting := [Report(0, true, false)]

  function TwoReads(t: Task, u: Task): Lane {
    AddPending(AddPending(NewLane.(want := true), [t]), [u])
  }

  function Watched(inList: bool, l: Lane): map<Id, Info> {
    map[0 := Info(5, true, false, !inList, inList, Action(l, NewLane))]
  }

  /** Both reads are queued and the descriptor waits to be registered. */
  function BothQueued(t: Task, u: Task): State {
    State(map[5 := 0], Watched(true, TwoReads(t, u)), 1, [0], [], {}, OpenKernel, Idle, None)
  }

  /** It is registered, and some bytes have arrived. */
  function BothWaiting(t: Task, u: Task): State {
    State(map[5 := 0], Watched(false, TwoReads(t, u)), 1, [], [], {},
          map[5 := KFd(true, true, false, Some(Interest(0, true, false)), true)], Applying, None)
  }

  /** The event was reported; both reads are about to be attempted. */
  function BothDue(t: Task, u: Task): State {
    State(map[5 := 0], Watched(false, TwoReads(t, u).(ready := true)), 1, [], [], {},
          map[5 := KFd(true, true, false, Some(Interest(0, true, false)), false)], Events([]),
          Some(Pass(0, Read, 2, true)))
  }

  lemma BothQueuedReached(t: Task, u: Task)
    ensures Submit(Queued(t), Read, 5, u, true, true) == BothQueued(t, u)
  {
  }

  lemma BothWaitingReached(t: Task, u: Task)
    ensures Arrive(ApplyHead(BothQueued(t, u).(phase := Applying)), 5, Read, false) == BothWaiting(t, u)
  {
  }

  lemma BothDueReached(t: Task, u: Task)
    ensures PollAnswer(BothWaiting(t, u), TwoWaiting) && 0 in BothWaiting(t, u).infos
    ensures StartEvent(Poll(BothWaiting(t, u), TwoWaiting)) == BothDue(t, u)
  {
    var s := BothWaiting(t, u);
    assert TwoWaiting[0] in TwoWaiting;
    assert 5 in Reported(s, TwoWaiting) && TwoWaiting[1..] == [];
    assert Poll(s, TwoWaiting).kernel == map[5 := s.K(5).(edge := false)];
  }

  lemma ReachBothQueued(t: Task, u: Task) returns (ls: seq<Label>)
    ensures Valid(ls) && After(ls) == BothQueued(t, u)
  {
    ls := ReachQueued(t);
    BothQueuedReached(t, u);
    Extend(ls, LSubmit(Read, 5, u, true, true));
    ls := ls + [LSubmit(Read, 5, u, true, true)];
  }

  lemma ReachBothWaiting(t: Task, u: Task) returns (ls: seq<Label>)
    ensures Valid(ls) && After(ls) == BothWaiting(t, u)
  {
    ls := ReachBothQueued(t, u);
    Extend(ls, LBegin);
    ls := ls + [LBegin];
    BothWaitingReached(t, u);
    Extend(ls, LApply);
    ls := ls + [LApply];
    Extend(ls, LArrive(5, Read, false));
    ls := ls + [LArrive(5, Read, false)];
  }

  lemma ReachBothDue(t: Task, u: Task) returns (ls: seq<Label>)
    ensures Valid(ls) && After(ls) == BothDue(t, u)
  {
    ls := ReachBothWaiting(t, u);
    BothDueReached(t, u);
    Extend(ls, LPoll(TwoWaiting));
    ls := ls + [LPoll(TwoWaiting)];
    Extend(ls, LEvent);
    ls := ls + [LEvent];
  }

  lemma BothDone(t: Task, u: Task, n: nat)
    requires t.iovCnt != 0 && u.iovCnt != 0
    ensures var s1 := Try(BothDue(t, u), Filled(n), false);
            && s1.pass == Some(Pass(0, Read, 1, true)) && 0 in s1.infos && s1.LaneOf(0, Read).pending == [u]
            && var s2 := Try(s1, Blocked(0), true);
               && s2.infos[0].action.read.done == [Completion(t, n), Completion(u, 0)]
               && s2.K(5).open && s2.K(5).Watches(Read)
  {
    assert [t, u][1..] == [u] && [u][1..] == [];
  }

  /** Two queued reads and bytes for one of them, on a descriptor that stays open: the event-triggered
      pass completes the second read with 0, the result that reports the end of the stream. */
  lemma SpuriousEndReached(t: Task, u: Task, n: nat) returns (ls: seq<Label>)
    requires t.iovCnt != 0 && u.iovCnt != 0
    ensures Valid(ls) && 0 in After(ls).infos && After(ls).K(5).open
    ensures After(ls).infos[0].action.read.done == [Completion(t, n), Completion(u, 0)]
  {
    ls := ReachBothDue(t, u);
    BothDone(t, u, n);
    Extend(ls, LTry(Filled(n), false));
    ls := ls + [LTry(Filled(n), false)];
    Extend(ls, LTry(Blocked(0), true));
    ls := ls + [LTry(Blocked(0), true)];
  }
}
