/**
  What being awake is worth: a dispatch that is not interrupted attempts the tasks of every direction that
  was awake when it began. Callbacks may submit and cancel elsewhere meanwhile, and the kernel may do what
  it likes once it has answered.
 */
module ReactorService {
  import opened EventActions
  import opened Reactor
  import opened Common
  import opened ReactorRuns

  ghost predicate Listed(ids: seq<Id>, from: nat, to: nat, id: Id) {
    exists j :: from <= j < to && j < |ids| && ids[j] == id
  }

  /** The dispatch in progress is still going to attempt a task of this lane. */
  ghost predicate Due(s: State, id: Id, d: Dir) {
    && s.Live(id) && s.LaneOf(id, d).pending != []
    && match s.phase
       case Idle => false
       case Applying => s.K(s.infos[id].fd).open && s.K(s.infos[id].fd).Can(d) && Awake(s, id, d)
       case Events(_) => InBatch(s, id, d) || s.LaneOf(id, d).ready
       case ReadyPass(left) =>
         s.LaneOf(id, d).ready && (Scheduled(s, id, d) > 0 || Listed(s.ready, if s.pass.Some? then 1 else 0, left, id))
  }

  /** The step attempts a task of this lane. */
  predicate Serves(s: State, l: Label, id: Id, d: Dir) {
    l.LTry? && s.pass.Some? && s.pass.value.id == id && s.pass.value.dir == d
  }

  /** Nothing takes the descriptor away: it is not cancelled; until the kernel has answered it stays open
      and ready; and the answer comes, with a report for every queued edge of it. */
  ghost predicate Steady(s: State, l: Label, id: Id, d: Dir)
    requires id in s.infos
  {
    var fd := s.infos[id].fd;
    && !(l.LCancel? && l.fd == fd) && !l.LInterrupted?
    && (s.phase == Applying ==> !(l.LClose? && l.fd == fd) && !(l.LSubside? && l.fd == fd && l.d == d))
    && (l.LPoll? && s.K(fd).edge ==> exists r :: r in l.batch && r.id == id)
  }

  // ----- Steps that leave the control point alone -----

  ghost predicate Carries(s: State, s': State, id: Id, d: Dir) {
    && s.Live(id) && s'.Live(id) && s'.phase == s.phase && s'.pass == s.pass && s.ready <= s'.ready
    && s.LaneOf(id, d).pending <= s'.LaneOf(id, d).pending && (s.LaneOf(id, d).ready ==> s'.LaneOf(id, d).ready)
  }

  lemma CarriedDue(s: State, s': State, id: Id, d: Dir)
    requires Carries(s, s', id, d) && Due(s, id, d) && s.phase != Applying
    ensures Due(s', id, d)
  {
    if s.phase.ReadyPass? && Scheduled(s, id, d) == 0 {
      var j :| (if s.pass.Some? then 1 else 0) <= j < s.phase.left && j < |s.ready| && s.ready[j] == id;
      assert s'.ready[j] == id;
    }
  }

  lemma CarryTrans(s: State, s1: State, s2: State, id: Id, d: Dir)
    requires Carries(s, s1, id, d) && Carries(s1, s2, id, d)
    ensures Carries(s, s2, id, d)
  {
  }

  lemma CarryEnsure(s: State, fd: Fd, id: Id, d: Dir)
    requires IdOk(s, id) && s.Live(id)
    ensures Carries(s, Ensure(s, fd), id, d)
  {
  }

  lemma CarryRegister(s: State, n: Id, e: Dir, cb: bool, id: Id, d: Dir)
    requires n in s.infos && s.Live(id)
    ensures Carries(s, Register(s, n, e, cb), id, d)
  {
  }

  lemma CarryEnqueue(s: State, n: Id, e: Dir, t: Task, now: bool, id: Id, d: Dir)
    requires n in s.infos && s.Live(id)
    ensures Carries(s, Enqueue(s, n, e, t, now), id, d)
  {
  }

  lemma CarrySubmit(s: State, e: Dir, fd: Fd, t: Task, cb: bool, now: bool, id: Id, d: Dir)
    requires IdOk(s, id) && TableOk(s, fd) && s.Live(id)
    ensures Carries(s, Submit(s, e, fd, t, cb, now), id, d)
  {
    var n, s1 := Lookup(s, fd), Ensure(s, fd);
    var s2 := Register(s1, n, e, cb);
    CarryEnsure(s, fd, id, d);
    CarryRegister(s1, n, e, cb, id, d);
    CarryEnqueue(s2, n, e, t, now, id, d);
    CarryTrans(s, s1, s2, id, d);
    CarryTrans(s, s2, Enqueue(s2, n, e, t, now), id, d);
  }

  lemma {:induction false} CarryFlush(s: State, order: seq<Id>, id: Id, d: Dir)
    requires (forall j :: j in order ==> j in s.infos) && s.Live(id)
    ensures Carries(s, FlushAll(s, order), id, d)
    decreases |order|
  {
    if order != [] {
      var s1 := FlushOne(s, order[0]);
      CarryFlush(s1, order[1..], id, d);
      CarryTrans(s, s1, FlushAll(s1, order[1..]), id, d);
    }
  }

  lemma CarryFlushed(s: State, id: Id, d: Dir)
    requires s.Live(id)
    ensures Carries(s, s.(nonSubmit := {}), id, d)
  {
  }

  lemma CarryCancel(s: State, e: Dir, fd: Fd, id: Id, d: Dir)
    requires TableOk(s, fd) && s.Live(id) && fd != s.infos[id].fd
    ensures Carries(s, Cancel(s, e, fd), id, d)
  {
  }

  lemma CarryKernel(s: State, l: Label, id: Id, d: Dir)
    requires Inv(s) && Enabled(s, l) && s.Live(id) && (l.LArrive? || l.LSubside? || l.LClose? || l.LOpen?)
    ensures Carries(s, Step(s, l), id, d)
  {
  }

  // ----- Steps of the dispatch -----

  lemma DueApply(s: State, id: Id, d: Dir)
    requires Inv(s) && s.phase == Applying && s.changes != [] && IdOk(s, s.changes[0]) && Due(s, id, d)
    ensures Due(ApplyHead(s), id, d)
  {
    var n := s.changes[0];
    assert IdOk(s, id) && LaneOk(s, id, d) && FdOk(s, s.infos[n].fd);
    ApplyOneEffect(s.K(s.infos[n].fd), n, s.infos[n]);
    assert s.changes == [n] + s.changes[1..];
  }

  /** Before the kernel's answer only its own steps and the changes happen. */
  lemma DueApplying(s: State, l: Label, id: Id, d: Dir)
    requires Inv(s) && Enabled(s, l) && Due(s, id, d) && Steady(s, l, id, d) && s.phase == Applying
    requires l.LArrive? || l.LSubside? || l.LClose? || l.LOpen?
    ensures Due(Step(s, l), id, d)
  {
  }

  lemma DuePoll(s: State, batch: seq<Report>, id: Id, d: Dir)
    requires s.phase == Applying && s.changes == [] && Due(s, id, d) && PollAnswer(s, batch)
    requires (forall r :: r in batch ==> r.id in s.infos) && Steady(s, LPoll(batch), id, d)
    ensures Due(Poll(s, batch), id, d)
  {
    if !s.LaneOf(id, d).ready {
      var r :| r in batch && r.id == id;
      assert r.Has(d);
    }
  }

  lemma RaisedLane(a: Action, r: Report, d: Dir)
    ensures var l := Raise(a, r.read, r.write).Get(d);
            l.pending == a.Get(d).pending && (l.ready <==> a.Get(d).ready || r.Has(d))
  {
  }

  lemma EventLane(s: State, id: Id, d: Dir)
    requires s.phase.Events? && s.phase.batch != [] && s.phase.batch[0].id in s.infos && s.Live(id)
    ensures var s', r := StartEvent(s), s.phase.batch[0];
            && s'.Live(id) && s'.phase == Events(s.phase.batch[1..])
            && s'.LaneOf(id, d).pending == s.LaneOf(id, d).pending
            && (s'.LaneOf(id, d).ready <==> s.LaneOf(id, d).ready || (r.id == id && r.Has(d)))
  {
    RaisedLane(s.infos[s.phase.batch[0].id].action, s.phase.batch[0], d);
  }

  lemma DueEvent(s: State, id: Id, d: Dir)
    requires s.phase.Events? && s.phase.batch != [] && s.phase.batch[0].id in s.infos && Due(s, id, d)
    ensures Due(StartEvent(s), id, d)
  {
    EventLane(s, id, d);
    var batch := s.phase.batch;
    if !s.LaneOf(id, d).ready {
      var q :| q in batch && q.id == id && q.Has(d);
      assert batch == [batch[0]] + batch[1..];
      assert q == batch[0] || q in batch[1..];
    }
  }

  lemma DueTry(s: State, o: Outcome, still: bool, id: Id, d: Dir)
    requires Control(s) && s.pass.Some? && s.pass.value.left > 0 && Due(s, id, d)
    requires !(s.pass.value.id == id && s.pass.value.dir == d)
    ensures Due(Try(s, o, still), id, d)
  {
    TryEffect(s, o, still);
  }

  lemma DueEventsDone(s: State, id: Id, d: Dir)
    requires LaneOk(s, id, d) && s.phase == Events([]) && s.pass.None? && Due(s, id, d)
    ensures Due(s.(phase := ReadyPass(|s.ready|)), id, d)
  {
    assert id in s.ready;
    var j :| 0 <= j < |s.ready| && s.ready[j] == id;
  }

  lemma DueReady(s: State, id: Id, d: Dir)
    requires s.phase.ReadyPass? && s.pass.None? && s.ready != [] && s.ready[0] in s.infos && Due(s, id, d)
    ensures Due(StartReady(s), id, d)
  {
    var j :| 0 <= j < s.phase.left && j < |s.ready| && s.ready[j] == id;
    if j > 0 {
      assert Listed(s.ready, 1, s.phase.left, id);
    }
  }

  lemma DueNextLane(s: State, id: Id, d: Dir)
    requires s.pass.Some? && s.pass.value.id in s.infos && s.pass.value.dir == Read && s.pass.value.left == 0
    requires Due(s, id, d) && s.phase != Applying
    ensures Due(NextLane(s), id, d)
  {
  }

  lemma DueEndPass(s: State, id: Id, d: Dir)
    requires Control(s) && s.pass.Some? && s.pass.value.dir == Write && s.pass.value.left == 0 && Due(s, id, d)
    ensures Due(EndPass(s), id, d)
  {
    if s.phase.ReadyPass? {
      var j :| 1 <= j < s.phase.left && j < |s.ready| && s.ready[j] == id;
      assert s.ready[1..][j - 1] == id;
    }
  }

  lemma DueElsewhere(s: State, l: Label, id: Id, d: Dir)
    requires Inv(s) && Enabled(s, l) && Due(s, id, d) && Steady(s, l, id, d) && s.phase != Applying
    requires l.LSubmit? || l.LFlush? || l.LCancel? || l.LArrive? || l.LSubside? || l.LClose? || l.LOpen?
    ensures Due(Step(s, l), id, d)
  {
    if l.LSubmit? {
      assert TableOk(s, l.fd) && IdOk(s, id);
      CarrySubmit(s, l.d, l.fd, l.t, l.cb, l.now, id, d);
    } else if l.LFlush? {
      assert forall j :: j in l.order ==> IdOk(s, j);
      CarryFlush(s, l.order, id, d);
      CarryFlushed(FlushAll(s, l.order), id, d);
      CarryTrans(s, FlushAll(s, l.order), Flush(s, l.order), id, d);
    } else if l.LCancel? {
      assert TableOk(s, l.fd);
      CarryCancel(s, l.d, l.fd, id, d);
    } else {
      CarryKernel(s, l, id, d);
    }
    CarriedDue(s, Step(s, l), id, d);
  }

  lemma DueInDispatch(s: State, l: Label, id: Id, d: Dir)
    requires Inv(s) && Enabled(s, l) && Due(s, id, d) && Steady(s, l, id, d) && !Serves(s, l, id, d)
    requires !(l.LSubmit? || l.LFlush? || l.LCancel? || l.LArrive? || l.LSubside? || l.LClose? || l.LOpen?)
    ensures Due(Step(s, l), id, d)
  {
    if l.LApply? {
      assert IdOk(s, s.changes[0]);
      DueApply(s, id, d);
    } else if l.LPoll? {
      DuePoll(s, l.batch, id, d);
    } else if l.LEvent? {
      DueEvent(s, id, d);
    } else if l.LTry? {
      DueTry(s, l.o, l.still, id, d);
    } else if l.LEventsDone? {
      assert LaneOk(s, id, d);
      DueEventsDone(s, id, d);
    } else if l.LReady? {
      assert IdOk(s, s.ready[0]);
      DueReady(s, id, d);
    } else if l.LNextLane? {
      DueNextLane(s, id, d);
    } else if l.LEndPass? {
      DueEndPass(s, id, d);
    }
  }

  lemma DueStep(s: State, l: Label, id: Id, d: Dir)
    requires Inv(s) && Enabled(s, l) && Due(s, id, d) && Steady(s, l, id, d) && !Serves(s, l, id, d)
    ensures Due(Step(s, l), id, d)
  {
    if l.LSubmit? || l.LFlush? || l.LCancel? || l.LArrive? || l.LSubside? || l.LClose? || l.LOpen? {
      if s.phase == Applying {
        DueApplying(s, l, id, d);
      } else {
        DueElsewhere(s, l, id, d);
      }
    } else {
      DueInDispatch(s, l, id, d);
    }
  }

  // ----- Whole dispatches -----

  /** Every step of `more` after the run `ls` is steady. */
  ghost predicate SteadyRun(ls: seq<Label>, more: seq<Label>, id: Id, d: Dir)
    requires Valid(ls + more)
    decreases |more|
  {
    more == [] ||
    (ValidBefore(ls, more);
     && SteadyRun(ls, Init(more), id, d)
     && id in After(ls + Init(more)).infos && Steady(After(ls + Init(more)), Last(more), id, d))
  }

  /** Some step of `more` after the run `ls` attempts a task of the lane. */
  ghost predicate ServedIn(ls: seq<Label>, more: seq<Label>, id: Id, d: Dir)
    requires Valid(ls + more)
    decreases |more|
  {
    more != [] &&
    (ValidBefore(ls, more);
     ServedIn(ls, Init(more), id, d) || Serves(After(ls + Init(more)), Last(more), id, d))
  }

  lemma DueLast(ls: seq<Label>, more: seq<Label>, id: Id, d: Dir)
    requires Valid(ls + more) && more != [] && Valid(ls + Init(more)) && Due(After(ls + Init(more)), id, d)
    requires Steady(After(ls + Init(more)), Last(more), id, d) && !Serves(After(ls + Init(more)), Last(more), id, d)
    ensures Due(After(ls + more), id, d)
  {
    LastOfMore(ls, more);
    DueStep(After(ls + Init(more)), Last(more), id, d);
  }

  lemma {:induction false} DueUntilServed(ls: seq<Label>, more: seq<Label>, id: Id, d: Dir)
    requires Valid(ls) && Due(After(ls), id, d) && Valid(ls + more) && SteadyRun(ls, more, id, d)
    ensures ServedIn(ls, more, id, d) || Due(After(ls + more), id, d)
    decreases |more|
  {
    if more == [] {
      assert ls + more == ls;
    } else {
      ValidBefore(ls, more);
      DueUntilServed(ls, Init(more), id, d);
      if !ServedIn(ls, more, id, d) {
        DueLast(ls, more, id, d);
      }
    }
  }

  /** From any run that ends idle with an awake direction, whose tasks the kernel could serve: whatever
      dispatch follows, if it is not interrupted, the kernel reports the edges of this descriptor, and
      the descriptor is neither cancelled nor taken away before that, the dispatch does not end without
      an attempt on these tasks. */
  lemma AwakeIsServed(ls: seq<Label>, more: seq<Label>, id: Id, d: Dir)
    requires Valid(ls) && After(ls).phase == Idle && After(ls).Live(id) && After(ls).LaneOf(id, d).pending != []
    requires Awake(After(ls), id, d)
    requires After(ls).K(After(ls).infos[id].fd).open && After(ls).K(After(ls).infos[id].fd).Can(d)
    requires Valid(ls + [LBegin] + more) && After(ls + [LBegin] + more).phase == Idle
    requires SteadyRun(ls + [LBegin], more, id, d)
    ensures ServedIn(ls + [LBegin], more, id, d)
  {
    Extend(ls, LBegin);
    DueUntilServed(ls + [LBegin], more, id, d);
  }

  /** With `NoLostWakeup`: after every careful run, cancellations and closes included, the next such
      dispatch attempts every submitted task that the kernel could serve when it began. */
  lemma NextDispatchServes(ls: seq<Label>, more: seq<Label>, id: Id, d: Dir)
    requires Valid(ls) && CarefulRun(ls)
    requires After(ls).phase == Idle && After(ls).Live(id) && After(ls).LaneOf(id, d).pending != []
    requires After(ls).K(After(ls).infos[id].fd).open && After(ls).K(After(ls).infos[id].fd).Can(d)
    requires Valid(ls + [LBegin] + more) && After(ls + [LBegin] + more).phase == Idle
    requires SteadyRun(ls + [LBegin], more, id, d)
    ensures ServedIn(ls + [LBegin], more, id, d)
  {
    NoLostWakeup(ls, id, d);
    AwakeIsServed(ls, more, id, d);
  }
}
