/**
  The tasks of the epoll back end over whole runs: what was submitted to an action is exactly what it has
  accepted, every one of those tasks is in exactly one place, and a deferred one waits for `submit`.
 */
module ReactorTasks {
  import opened EventActions
  import opened Reactor
  import opened Common
  import opened ReactorRuns

  // ----- The ledger -----

  ghost predicate Ledger(s: State, id: Id) {
    id in s.infos ==> ConservedAction(s.infos[id].action)
  }

  lemma LedgerReplace(s: State, s': State, n: Id)
    requires s'.infos.Keys == s.infos.Keys + {n} && ConservedAction(s'.infos[n].action)
    requires forall id :: id in s.infos && id != n ==> s'.infos[id] == s.infos[id]
    requires forall id :: Ledger(s, id)
    ensures forall id :: Ledger(s', id)
  {
    forall id ensures Ledger(s', id) {
      assert Ledger(s, id);
    }
  }

  lemma SetCallbackConserves(a: Action, d: Dir)
    requires ConservedAction(a)
    ensures ConservedAction(SetCallback(a, d))
  {
  }

  lemma LedgerSubmit(s: State, d: Dir, fd: Fd, t: Task, cb: bool, now: bool)
    requires TableOk(s, fd) && forall id :: Ledger(s, id)
    ensures forall id :: Ledger(Submit(s, d, fd, t, cb, now), id)
  {
    var n, a := Lookup(s, fd), ActionFor(s, fd);
    SubmitEffect(s, d, fd, t, cb, now);
    assert ConservedAction(a) by {
      assert Ledger(s, n);
    }
    SetCallbackConserves(a, d);
    AddTaskConserves(if cb then SetCallback(a, d) else a, d, t, now);
    LedgerReplace(s, Submit(s, d, fd, t, cb, now), n);
  }

  lemma {:induction false} LedgerFlush(s: State, order: seq<Id>)
    requires (forall id :: id in order ==> id in s.infos) && forall id :: Ledger(s, id)
    ensures forall id :: Ledger(FlushAll(s, order), id)
    decreases |order|
  {
    if order != [] {
      var s1 := FlushOne(s, order[0]);
      assert Ledger(s, order[0]);
      SubmitConserves(s.infos[order[0]].action);
      forall id ensures Ledger(s1, id) {
        assert Ledger(s, id);
      }
      LedgerFlush(s1, order[1..]);
    }
  }

  lemma CancelledInfos(s: State, d: Dir, fd: Fd)
    requires TableOk(s, fd) && Cancel(s, d, fd) != s
    ensures fd in s.table
    ensures var n, s' := s.table[fd], Cancel(s, d, fd);
            && s'.infos.Keys == s.infos.Keys + {n} && s'.infos[n].action == Disable(s.infos[n].action, d)
            && forall id :: id in s.infos && id != n ==> s'.infos[id] == s.infos[id]
  {
  }

  lemma LedgerCancel(s: State, d: Dir, fd: Fd)
    requires TableOk(s, fd) && forall id :: Ledger(s, id)
    ensures forall id :: Ledger(Cancel(s, d, fd), id)
  {
    if Cancel(s, d, fd) != s {
      CancelledInfos(s, d, fd);
      var n := s.table[fd];
      assert Ledger(s, n);
      DisableConserves(s.infos[n].action, d);
      LedgerReplace(s, Cancel(s, d, fd), n);
    }
  }

  lemma AttemptedConserves(a: Action, d: Dir, triggered: bool, o: Outcome)
    requires ConservedAction(a) && a.Get(d).pending != []
    ensures ConservedAction(a.Put(d, AttemptLane(a.Get(d), d, triggered, o)))
  {
    AttemptConserves(a.Get(d), d, triggered, o);
  }

  lemma LedgerTry(s: State, o: Outcome, still: bool)
    requires Control(s) && s.pass.Some? && s.pass.value.left > 0 && forall id :: Ledger(s, id)
    ensures forall id :: Ledger(Try(s, o, still), id)
  {
    var p := s.pass.value;
    assert Ledger(s, p.id);
    AttemptedConserves(s.infos[p.id].action, p.dir, p.triggered, o);
    TryEffect(s, o, still);
    LedgerReplace(s, Try(s, o, still), p.id);
  }

  lemma LedgerOther(s: State, l: Label)
    requires Inv(s) && Enabled(s, l) && forall id :: Ledger(s, id)
    requires !(l.LSubmit? || l.LFlush? || l.LCancel? || l.LTry?)
    ensures forall id :: Ledger(Step(s, l), id)
  {
    if l.LApply? {
      var n := s.changes[0];
      assert IdOk(s, n) && FdOk(s, s.infos[n].fd);
      ApplyOneEffect(s.K(s.infos[n].fd), n, s.infos[n]);
    }
    forall id ensures Ledger(Step(s, l), id) {
      assert Ledger(s, id);
    }
  }

  lemma LedgerStep(s: State, l: Label)
    requires Inv(s) && Enabled(s, l) && forall id :: Ledger(s, id)
    ensures forall id :: Ledger(Step(s, l), id)
  {
    if l.LSubmit? {
      assert TableOk(s, l.fd);
      LedgerSubmit(s, l.d, l.fd, l.t, l.cb, l.now);
    } else if l.LFlush? {
      assert forall id :: id in l.order ==> IdOk(s, id);
      LedgerFlush(s, l.order);
      forall id ensures Ledger(FlushAll(s, l.order).(nonSubmit := {}), id) {
        assert Ledger(FlushAll(s, l.order), id);
      }
    } else if l.LCancel? {
      assert TableOk(s, l.fd);
      LedgerCancel(s, l.d, l.fd);
    } else if l.LTry? {
      LedgerTry(s, l.o, l.still);
    } else {
      LedgerOther(s, l);
    }
  }

  lemma {:induction false} LedgerRun(ls: seq<Label>)
    requires Valid(ls)
    ensures forall id :: Ledger(After(ls), id)
    decreases |ls|
  {
    if ls == [] {
      forall j ensures Ledger(Start, j) {}
    } else {
      LastStep(ls);
      LedgerRun(Init(ls));
      LedgerStep(After(Init(ls)), Last(ls));
    }
  }

  // ----- What was submitted is what was accepted -----

  /** The task that a step submits to this lane. */
  function TaskOf(s: State, l: Label, id: Id, d: Dir): seq<Task> {
    if l.LSubmit? && l.d == d && Lookup(s, l.fd) == id then [l.t] else []
  }

  /** All tasks that a run submits to this lane, in order. */
  ghost function SubmittedTo(ls: seq<Label>, id: Id, d: Dir): seq<Task>
    requires Valid(ls)
    decreases |ls|
  {
    if ls == [] then [] else SubmittedTo(Init(ls), id, d) + TaskOf(After(Init(ls)), Last(ls), id, d)
  }

  lemma AddedLane(a: Action, e: Dir, t: Task, cb: bool, now: bool, d: Dir)
    ensures var l := AddTask(if cb then SetCallback(a, e) else a, e, t, now).Get(d);
            && l.accepted == a.Get(d).accepted + (if d == e then [t] else [])
            && l.done == a.Get(d).done && a.Get(d).deferred <= l.deferred
  {
  }

  ghost function AcceptedOf(s: State, id: Id, d: Dir): seq<Task> {
    if id in s.infos then s.LaneOf(id, d).accepted else []
  }

  ghost function DoneOf(s: State, id: Id, d: Dir): seq<Completion> {
    if id in s.infos then s.LaneOf(id, d).done else []
  }

  /** From `s` to `s'` the lane has accepted exactly these tasks and has made exactly these completions. */
  ghost predicate AcceptedBy(s: State, s': State, id: Id, d: Dir, tasks: seq<Task>, done: seq<Completion>) {
    && (id in s.infos ==> id in s'.infos)
    && AcceptedOf(s', id, d) == AcceptedOf(s, id, d) + tasks && DoneOf(s', id, d) == DoneOf(s, id, d) + done
  }

  lemma AcceptedEntered(s: State, s': State, n: Id, fd: Fd, a: Action, added: seq<Task>, id: Id, d: Dir)
    requires Entered(s.infos, s'.infos, n, fd, a) && a.Get(d).done == DoneOf(s, n, d)
    requires a.Get(d).accepted == AcceptedOf(s, n, d) + added
    ensures AcceptedBy(s, s', id, d, if id == n then added else [], [])
  {
  }

  lemma AcceptedSubmit(s: State, e: Dir, fd: Fd, t: Task, cb: bool, now: bool, id: Id, d: Dir)
    requires TableOk(s, fd) && IdOk(s, s.nextId)
    ensures AcceptedBy(s, Submit(s, e, fd, t, cb, now), id, d, if d == e && id == Lookup(s, fd) then [t] else [], [])
  {
    var a, n, added := ActionFor(s, fd), Lookup(s, fd), if d == e then [t] else [];
    SubmitEffect(s, e, fd, t, cb, now);
    AddedLane(a, e, t, cb, now, d);
    assert a.Get(d).accepted == AcceptedOf(s, n, d) && a.Get(d).done == DoneOf(s, n, d);
    var a' := AddTask(if cb then SetCallback(a, e) else a, e, t, now);
    AcceptedEntered(s, Submit(s, e, fd, t, cb, now), n, fd, a', added, id, d);
  }

  lemma AcceptedFlush(s: State, order: seq<Id>, id: Id, d: Dir)
    requires (forall j :: j in order ==> j in s.infos) && Distinct(order)
    ensures AcceptedBy(s, Flush(s, order), id, d, [], [])
  {
    FlushAllLanes(s, order, id);
  }

  lemma AcceptedCancel(s: State, e: Dir, fd: Fd, id: Id, d: Dir)
    requires TableOk(s, fd)
    ensures AcceptedBy(s, Cancel(s, e, fd), id, d, [], [])
  {
  }

  lemma AcceptedApply(s: State, id: Id, d: Dir)
    requires Inv(s) && s.changes != [] && IdOk(s, s.changes[0])
    ensures AcceptedBy(s, ApplyHead(s), id, d, [], [])
  {
    if id in s.infos {
      ApplyEffect(s, id);
    }
  }

  /** A pass counts as triggered exactly while reported events are handled. */
  ghost predicate TriggeredOk(s: State) {
    s.pass.Some? ==> (s.pass.value.triggered <==> s.phase.Events?)
  }

  /** The steps of callers and kernel, and the changes, leave the control point alone. */
  predicate Outside(l: Label) {
    l.LSubmit? || l.LFlush? || l.LCancel? || l.LArrive? || l.LSubside? || l.LClose? || l.LOpen? || l.LApply?
  }

  lemma OutsideControl(s: State, l: Label)
    requires Inv(s) && Enabled(s, l) && Outside(l)
    ensures Step(s, l).pass == s.pass && Step(s, l).phase == s.phase
  {
    if l.LFlush? {
      assert forall j :: j in l.order ==> IdOk(s, j);
      FlushControl(s, l.order);
    } else if l.LSubmit? {
      assert TableOk(s, l.fd);
      SubmitControl(s, l.d, l.fd, l.t, l.cb, l.now);
    } else if l.LCancel? {
      assert TableOk(s, l.fd);
      CancelControl(s, l.d, l.fd);
    } else if l.LApply? {
      assert IdOk(s, s.changes[0]);
    }
  }

  lemma SubmitControl(s: State, d: Dir, fd: Fd, t: Task, cb: bool, now: bool)
    requires TableOk(s, fd)
    ensures Submit(s, d, fd, t, cb, now).pass == s.pass && Submit(s, d, fd, t, cb, now).phase == s.phase
  {
  }

  lemma CancelControl(s: State, d: Dir, fd: Fd)
    requires TableOk(s, fd)
    ensures Cancel(s, d, fd).pass == s.pass && Cancel(s, d, fd).phase == s.phase
  {
  }

  lemma InsideTriggered(s: State, l: Label)
    requires Inv(s) && Enabled(s, l) && TriggeredOk(s) && !Outside(l)
    ensures TriggeredOk(Step(s, l))
  {
  }

  lemma TriggeredStep(s: State, l: Label)
    requires Inv(s) && Enabled(s, l) && TriggeredOk(s)
    ensures TriggeredOk(Step(s, l))
  {
    if Outside(l) {
      OutsideControl(s, l);
    } else {
      InsideTriggered(s, l);
    }
  }

  lemma {:induction false} FlushControl(s: State, order: seq<Id>)
    requires forall id :: id in order ==> id in s.infos
    ensures FlushAll(s, order).pass == s.pass && FlushAll(s, order).phase == s.phase
    decreases |order|
  {
    if order != [] {
      FlushControl(FlushOne(s, order[0]), order[1..]);
    }
  }

  lemma {:induction false} TriggeredRun(ls: seq<Label>)
    requires Valid(ls)
    ensures TriggeredOk(After(ls))
    decreases |ls|
  {
    if ls != [] {
      LastStep(ls);
      TriggeredRun(Init(ls));
      TriggeredStep(After(Init(ls)), Last(ls));
    }
  }

  /** What an answer of the kernel to an attempt on a task is worth: the bytes moved or the code, unless the
      kernel had nothing to give or take. A read gets even that answer while events are handled. */
  function Answer(t: Task, d: Dir, events: bool, o: Outcome): seq<Completion> {
    if t.iovCnt == 0 then [Completion(t, 0)]
    else match o
      case Filled(n) => [Completion(t, n)]
      case Ended(c) => [Completion(t, c)]
      case Blocked(n) => if n > 0 || (d == Read && events) then [Completion(t, n)] else []
  }

  /** The task of this lane that a step attempts. */
  function Attempted(s: State, l: Label, id: Id, d: Dir): Option<Task> {
    if l.LTry? && s.pass.Some? && s.pass.value.id == id && s.pass.value.dir == d && id in s.infos &&
       s.LaneOf(id, d).pending != []
    then Some(s.LaneOf(id, d).pending[0]) else None
  }

  function AnswerOf(s: State, l: Label, id: Id, d: Dir): seq<Completion> {
    if Attempted(s, l, id, d).Some? then Answer(Attempted(s, l, id, d).value, d, s.phase.Events?, l.o) else []
  }

  lemma AcceptedTry(s: State, o: Outcome, still: bool, id: Id, d: Dir)
    requires Control(s) && s.pass.Some? && s.pass.value.left > 0 && TriggeredOk(s)
    ensures AcceptedBy(s, Try(s, o, still), id, d, [], AnswerOf(s, LTry(o, still), id, d))
  {
    TryEffect(s, o, still);
  }

  lemma AcceptedOther(s: State, l: Label, id: Id, d: Dir)
    requires Inv(s) && Enabled(s, l) && !(l.LSubmit? || l.LFlush? || l.LCancel? || l.LApply? || l.LTry?)
    ensures AcceptedBy(s, Step(s, l), id, d, [], [])
  {
  }

  /** A step changes what a lane has accepted by the task it submits to it, and what it has completed by the
      answer to its attempt, and by nothing else. */
  lemma AcceptedStep(s: State, l: Label, id: Id, d: Dir)
    requires Inv(s) && Enabled(s, l) && TriggeredOk(s)
    ensures AcceptedBy(s, Step(s, l), id, d, TaskOf(s, l, id, d), AnswerOf(s, l, id, d))
  {
    if l.LSubmit? {
      assert TableOk(s, l.fd) && IdOk(s, s.nextId);
      AcceptedSubmit(s, l.d, l.fd, l.t, l.cb, l.now, id, d);
    } else if l.LFlush? {
      assert forall j :: j in l.order ==> IdOk(s, j);
      AcceptedFlush(s, l.order, id, d);
    } else if l.LCancel? {
      assert TableOk(s, l.fd);
      AcceptedCancel(s, l.d, l.fd, id, d);
    } else if l.LApply? {
      assert IdOk(s, s.changes[0]);
      AcceptedApply(s, id, d);
    } else if l.LTry? {
      AcceptedTry(s, l.o, l.still, id, d);
    } else {
      AcceptedOther(s, l, id, d);
    }
  }

  lemma {:induction false} AcceptedIs(ls: seq<Label>, id: Id, d: Dir)
    requires Valid(ls)
    ensures SubmittedTo(ls, id, d) == AcceptedOf(After(ls), id, d)
    decreases |ls|
  {
    if ls != [] {
      LastStep(ls);
      AcceptedIs(Init(ls), id, d);
      TriggeredRun(Init(ls));
      AcceptedStep(After(Init(ls)), Last(ls), id, d);
    }
  }

  /** The answers of the kernel to the attempts of this lane, in order. */
  ghost function Answers(ls: seq<Label>, id: Id, d: Dir): seq<Completion>
    requires Valid(ls)
    decreases |ls|
  {
    if ls == [] then [] else Answers(Init(ls), id, d) + AnswerOf(After(Init(ls)), Last(ls), id, d)
  }

  /** In every run the callbacks of an action have received exactly the kernel's answers, in order: no read
      or write is reported with another result, and none that the kernel refused is reported at all. */
  lemma {:induction false} AnswersReported(ls: seq<Label>, id: Id, d: Dir)
    requires Valid(ls)
    ensures Answers(ls, id, d) == DoneOf(After(ls), id, d)
    decreases |ls|
  {
    if ls != [] {
      LastStep(ls);
      AnswersReported(Init(ls), id, d);
      TriggeredRun(Init(ls));
      AcceptedStep(After(Init(ls)), Last(ls), id, d);
    }
  }

  function Total(cs: seq<Completion>): int {
    if cs == [] then 0 else Total(cs[..|cs| - 1]) + cs[|cs| - 1].ret
  }

  lemma {:induction false} TotalConcat(x: seq<Completion>, y: seq<Completion>)
    ensures Total(x + y) == Total(x) + Total(y)
  {
    if y == [] {
      assert x + y == x;
    } else {
      var n := |y| - 1;
      TotalConcat(x, y[..n]);
      assert (x + y)[..|x + y| - 1] == x + y[..n];
    }
  }

  /** The bytes a step moves between this lane's descriptor and its tasks; an end counts as its code. */
  function Moves(s: State, l: Label, id: Id, d: Dir): int {
    if Attempted(s, l, id, d).None? || Attempted(s, l, id, d).value.iovCnt == 0 then 0
    else if l.o.Ended? then l.o.code
    else l.o.bytes
  }

  ghost function Moved(ls: seq<Label>, id: Id, d: Dir): int
    requires Valid(ls)
    decreases |ls|
  {
    if ls == [] then 0 else Moved(Init(ls), id, d) + Moves(After(Init(ls)), Last(ls), id, d)
  }

  lemma AnswerTotal(s: State, l: Label, id: Id, d: Dir)
    ensures Total(AnswerOf(s, l, id, d)) == Moves(s, l, id, d)
  {
    assert forall c: Completion :: Total([c]) == c.ret by {
      forall c: Completion ensures Total([c]) == c.ret {
        assert [c][..0] == [];
      }
    }
  }

  lemma {:induction false} AnswersTotal(ls: seq<Label>, id: Id, d: Dir)
    requires Valid(ls)
    ensures Total(Answers(ls, id, d)) == Moved(ls, id, d)
    decreases |ls|
  {
    if ls != [] {
      AnswersTotal(Init(ls), id, d);
      TotalConcat(Answers(Init(ls), id, d), AnswerOf(After(Init(ls)), Last(ls), id, d));
      AnswerTotal(After(Init(ls)), Last(ls), id, d);
    }
  }

  /** So in every run the bytes the kernel moved are the bytes the callbacks were told of. */
  lemma BytesConserved(ls: seq<Label>, id: Id, d: Dir)
    requires Valid(ls)
    ensures Total(DoneOf(After(ls), id, d)) == Moved(ls, id, d)
  {
    AnswersReported(ls, id, d);
    AnswersTotal(ls, id, d);
  }

  /** The tasks are exactly the pending, deferred, completed and cancelled ones. */
  ghost predicate Accounts(l: Lane, tasks: seq<Task>) {
    multiset(tasks) == multiset(l.pending) + multiset(l.deferred) + multiset(TasksOf(l.done)) + multiset(l.dropped)
  }

  /** In every run, every task that was submitted to an action is in exactly one place, and nothing else is
      there: pending, deferred, completed and cancelled tasks are a permutation of the submitted ones. */
  lemma TasksConserved(ls: seq<Label>, id: Id, d: Dir)
    requires Valid(ls) && id in After(ls).infos
    ensures Accounts(After(ls).LaneOf(id, d), SubmittedTo(ls, id, d))
  {
    LedgerRun(ls);
    AcceptedIs(ls, id, d);
    assert Ledger(After(ls), id);
  }

  // ----- Deferred submission -----

  /** `submit` strands no deferred task of any action, in either direction, and keeps their order. */
  lemma FlushStrandsNothing(s: State, order: seq<Id>, id: Id, d: Dir)
    requires Inv(s) && Enabled(s, LFlush(order)) && id in s.infos
    ensures var l, l' := s.LaneOf(id, d), Step(s, LFlush(order)).LaneOf(id, d);
            && l'.deferred == []
            && l'.pending == l.pending + l.deferred
            && (l'.ready && l'.pending != [] && s.pass.None? ==> id in Step(s, LFlush(order)).ready)
  {
    assert forall j :: j in order ==> IdOk(s, j);
    FlushAllLanes(s, order, id);
    FlushKeeps(s, order);
    assert LaneOk(s, id, d) && LaneOk(Flush(s, order), id, d);
  }

  ghost predicate DeferredKept(s: State, s': State, id: Id, d: Dir) {
    && id in s.infos && id in s'.infos && s'.infos[id].fd == s.infos[id].fd
    && s.LaneOf(id, d).deferred <= s'.LaneOf(id, d).deferred
  }

  lemma DeferredSubmit(s: State, e: Dir, fd: Fd, t: Task, cb: bool, now: bool, id: Id, d: Dir)
    requires TableOk(s, fd) && IdOk(s, s.nextId) && id in s.infos
    ensures DeferredKept(s, Submit(s, e, fd, t, cb, now), id, d)
  {
    SubmitEffect(s, e, fd, t, cb, now);
    AddedLane(ActionFor(s, fd), e, t, cb, now, d);
  }

  lemma DeferredTry(s: State, o: Outcome, still: bool, id: Id, d: Dir)
    requires Control(s) && s.pass.Some? && s.pass.value.left > 0 && id in s.infos
    ensures DeferredKept(s, Try(s, o, still), id, d)
  {
    TryEffect(s, o, still);
  }

  lemma DeferredCancel(s: State, e: Dir, fd: Fd, id: Id, d: Dir)
    requires TableOk(s, fd) && id in s.infos && fd != s.infos[id].fd
    ensures DeferredKept(s, Cancel(s, e, fd), id, d)
  {
  }

  lemma DeferredOther(s: State, l: Label, id: Id, d: Dir)
    requires Inv(s) && Enabled(s, l) && id in s.infos
    requires !(l.LSubmit? || l.LFlush? || l.LCancel? || l.LApply? || l.LTry?)
    ensures DeferredKept(s, Step(s, l), id, d)
  {
  }

  lemma DeferredStep(s: State, l: Label, id: Id, d: Dir)
    requires Inv(s) && Enabled(s, l) && id in s.infos && !l.LFlush? && !(l.LCancel? && l.fd == s.infos[id].fd)
    ensures DeferredKept(s, Step(s, l), id, d)
  {
    if l.LSubmit? {
      assert IdOk(s, s.nextId) && TableOk(s, l.fd);
      DeferredSubmit(s, l.d, l.fd, l.t, l.cb, l.now, id, d);
    } else if l.LCancel? {
      assert TableOk(s, l.fd);
      DeferredCancel(s, l.d, l.fd, id, d);
    } else if l.LApply? {
      assert IdOk(s, s.changes[0]);
      ApplyEffect(s, id);
    } else if l.LTry? {
      DeferredTry(s, l.o, l.still, id, d);
    } else {
      DeferredOther(s, l, id, d);
    }
  }

  ghost predicate NoSubmitOf(ls: seq<Label>, fd: Fd) {
    forall i :: 0 <= i < |ls| ==> !ls[i].LFlush? && !(ls[i].LCancel? && ls[i].fd == fd)
  }

  lemma DeferredLast(ls: seq<Label>, more: seq<Label>, id: Id, d: Dir)
    requires Valid(ls + more) && more != [] && Valid(ls + Init(more)) && id in After(ls + Init(more)).infos
    requires !Last(more).LFlush? && !(Last(more).LCancel? && Last(more).fd == After(ls + Init(more)).infos[id].fd)
    ensures DeferredKept(After(ls + Init(more)), After(ls + more), id, d)
  {
    LastOfMore(ls, more);
    DeferredStep(After(ls + Init(more)), Last(more), id, d);
  }

  /** In every continuation of every run without `submit` and without a cancellation of the descriptor, the
      deferred tasks stay deferred, in order, before any later ones. */
  lemma {:induction false} DeferredWaits(ls: seq<Label>, more: seq<Label>, id: Id, d: Dir)
    requires Valid(ls) && Valid(ls + more) && id in After(ls).infos && NoSubmitOf(more, After(ls).infos[id].fd)
    ensures DeferredKept(After(ls), After(ls + more), id, d)
    decreases |more|
  {
    if more == [] {
      assert ls + more == ls;
    } else {
      ValidBefore(ls, more);
      DeferredWaits(ls, Init(more), id, d);
      DeferredLast(ls, more, id, d);
    }
  }

  lemma DeferredUnrun(ls: seq<Label>, more: seq<Label>, id: Id, d: Dir, t: Task)
    requires Valid(ls) && Valid(ls + more) && id in After(ls).infos && NoSubmitOf(more, After(ls).infos[id].fd)
    requires t in After(ls).LaneOf(id, d).deferred && multiset(SubmittedTo(ls + more, id, d))[t] <= 1
    ensures id in After(ls + more).infos && t in After(ls + more).LaneOf(id, d).deferred
    ensures t !in TasksOf(After(ls + more).LaneOf(id, d).done) && t !in After(ls + more).LaneOf(id, d).pending
  {
    DeferredWaits(ls, more, id, d);
    TasksConserved(ls + more, id, d);
    OnePlace(After(ls + more).LaneOf(id, d), SubmittedTo(ls + more, id, d), t);
  }

  ghost function PendingOf(s: State, id: Id, d: Dir): seq<Task> {
    if id in s.infos then s.LaneOf(id, d).pending else []
  }

  ghost function DeferredOf(s: State, id: Id, d: Dir): seq<Task> {
    if id in s.infos then s.LaneOf(id, d).deferred else []
  }

  /** A submission puts its task at the end of the queue it is meant for, and of no other. */
  lemma SubmissionQueues(s: State, d: Dir, fd: Fd, t: Task, cb: bool, now: bool)
    requires Inv(s) && Enabled(s, LSubmit(d, fd, t, cb, now))
    ensures var id, s' := Lookup(s, fd), Step(s, LSubmit(d, fd, t, cb, now));
            && id in s'.infos && s'.infos[id].fd == fd
            && PendingOf(s', id, d) == PendingOf(s, id, d) + (if now then [t] else [])
            && DeferredOf(s', id, d) == DeferredOf(s, id, d) + (if now then [] else [t])
  {
    assert TableOk(s, fd) && IdOk(s, s.nextId);
    SubmitEffect(s, d, fd, t, cb, now);
    QueuedLane(ActionFor(s, fd), d, t, cb, now);
  }

  lemma QueuedLane(a: Action, d: Dir, t: Task, cb: bool, now: bool)
    ensures var l := AddTask(if cb then SetCallback(a, d) else a, d, t, now).Get(d);
            && l.pending == a.Get(d).pending + (if now then [t] else [])
            && l.deferred == a.Get(d).deferred + (if now then [] else [t])
  {
  }

  /** So in every run a task submitted with submit=false, and submitted once, is neither completed nor pending
      before `submit`, as long as its descriptor is not cancelled. */
  lemma DeferredNotRun(ls: seq<Label>, more: seq<Label>, id: Id)
    requires Valid(ls) && Valid(ls + more) && ls != [] && Last(ls).LSubmit? && !Last(ls).now
    requires id == Lookup(After(Init(ls)), Last(ls).fd) && NoSubmitOf(more, Last(ls).fd)
    requires multiset(SubmittedTo(ls + more, id, Last(ls).d))[Last(ls).t] <= 1
    ensures id in After(ls + more).infos
    ensures var l, t := After(ls + more).LaneOf(id, Last(ls).d), Last(ls).t;
            t in l.deferred && t !in TasksOf(l.done) && t !in l.pending
  {
    LastStep(ls);
    var s, l := After(Init(ls)), Last(ls);
    SubmissionQueues(s, l.d, l.fd, l.t, l.cb, l.now);
    DeferredUnrun(ls, more, id, l.d, l.t);
  }

  lemma OnePlace(l: Lane, tasks: seq<Task>, t: Task)
    requires Accounts(l, tasks) && multiset(tasks)[t] <= 1 && t in l.deferred
    ensures t !in TasksOf(l.done) && t !in l.pending
  {
    assert multiset(tasks)[t] ==
           multiset(l.pending)[t] + multiset(l.deferred)[t] + multiset(TasksOf(l.done))[t] + multiset(l.dropped)[t];
    assert multiset(l.deferred)[t] > 0;
  }

  // ----- A pass of the machine is `handle_events` -----

  /** The callbacks submit nothing. */
  ghost predicate Quiet(env: nat -> Reply) {
    forall i :: Silent(env(i))
  }

  predicate Silent(r: Reply) {
    r.newReads == [] && r.newWrites == []
  }

  /** A pass on this lane with `left` iterations to go; the action is `a`. */
  ghost predicate Draining(s: State, id: Id, d: Dir, left: nat, triggered: bool, a: Action) {
    && s.pass == Some(Pass(id, d, left, triggered)) && id in s.infos && s.infos[id].action == a
    && left <= |a.Get(d).pending|
  }

  lemma SilentAttempt(a: Action, d: Dir, triggered: bool, r: Reply)
    requires a.Get(d).pending != [] && Silent(r)
    ensures Attempt(a, d, triggered, r) == a.Put(d, AttemptLane(a.Get(d), d, triggered, r.outcome))
  {
    var b := a.Put(d, AttemptLane(a.Get(d), d, triggered, r.outcome));
    assert AddPending(b.read, []) == b.read && AddPending(b.write, []) == b.write by {
      assert b.read.pending + [] == b.read.pending && b.read.accepted + [] == b.read.accepted;
      assert b.write.pending + [] == b.write.pending && b.write.accepted + [] == b.write.accepted;
    }
  }

  lemma TryOne(s: State, id: Id, d: Dir, left: nat, triggered: bool, a: Action, r: Reply, still: bool)
    requires Draining(s, id, d, left + 1, triggered, a) && Silent(r)
    ensures Draining(Try(s, r.outcome, still), id, d, left, triggered, Attempt(a, d, triggered, r))
  {
    SilentAttempt(a, d, triggered, r);
    AttemptLaneFacts(a.Get(d), d, triggered, r.outcome);
    TryEffect(s, r.outcome, still);
  }

  /** The drain after `m` of its iterations. */
  ghost function Drained(a: Action, d: Dir, triggered: bool, env: nat -> Reply, m: nat): Action {
    if m == 0 then a
    else
      var b := Drained(a, d, triggered, env, m - 1);
      if b.Get(d).pending == [] then b else Attempt(b, d, triggered, env(m - 1))
  }

  lemma AttemptShrinks(a: Action, d: Dir, triggered: bool, r: Reply)
    requires a.Get(d).pending != []
    ensures |a.Get(d).pending| - 1 <= |Attempt(a, d, triggered, r).Get(d).pending|
  {
  }

  lemma {:induction false} DrainedIsDrain(a: Action, d: Dir, triggered: bool, env: nat -> Reply, m: nat, n: nat)
    requires m <= n <= |a.Get(d).pending|
    ensures n - m <= |Drained(a, d, triggered, env, m).Get(d).pending|
    ensures Drain(a, d, triggered, env, 0, n) == Drain(Drained(a, d, triggered, env, m), d, triggered, env, m, n)
  {
    if m > 0 {
      DrainedIsDrain(a, d, triggered, env, m - 1, n);
      AttemptShrinks(Drained(a, d, triggered, env, m - 1), d, triggered, env(m - 1));
    }
  }

  /** One attempt by the machine. */
  ghost predicate Tries(s: State, o: Outcome, still: bool, s': State) {
    Inv(s) && Enabled(s, LTry(o, still)) && s' == Step(s, LTry(o, still))
  }

  /** A stretch of attempts by the machine, without any other step in between. */
  ghost predicate Stretch(ss: seq<State>, env: nat -> Reply, still: nat -> bool) {
    |ss| > 0 && forall k :: 0 <= k < |ss| - 1 ==> Tries(ss[k], env(k).outcome, still(k), ss[k + 1])
  }

  /** What a stretch needs of one attempt: the whole next state. */
  ghost predicate Next(s: State, o: Outcome, still: bool, s': State) {
    && s.pass.Some? && s.pass.value.id in s.infos && s.pass.value.left > 0
    && s.LaneOf(s.pass.value.id, s.pass.value.dir).pending != []
    && s' == Try(s, o, still)
  }

  lemma TriesNext(s: State, o: Outcome, still: bool, s': State)
    requires Tries(s, o, still, s')
    ensures Next(s, o, still, s')
  {
  }

  lemma {:induction false} NextDrains(
    ss: seq<State>, id: Id, d: Dir, triggered: bool, a: Action, env: nat -> Reply, still: nat -> bool,
    m: nat, left: nat)
    requires m < |ss| && forall k :: 0 <= k < m ==> Next(ss[k], env(k).outcome, still(k), ss[k + 1])
    requires Draining(ss[0], id, d, m + left, triggered, a) && Quiet(env)
    ensures Draining(ss[m], id, d, left, triggered, Drained(a, d, triggered, env, m))
    decreases m
  {
    if m > 0 {
      NextDrains(ss, id, d, triggered, a, env, still, m - 1, left + 1);
      assert Next(ss[m - 1], env(m - 1).outcome, still(m - 1), ss[m]);
      TryOne(ss[m - 1], id, d, left, triggered, Drained(a, d, triggered, env, m - 1), env(m - 1), still(m - 1));
    }
  }

  /** A stretch that is as long as the loop computes the drain of `EventActions`. */
  lemma StretchIsDrain(
    ss: seq<State>, id: Id, d: Dir, triggered: bool, a: Action, env: nat -> Reply, still: nat -> bool)
    requires |ss| == Iterations(a, d) + 1 && Stretch(ss, env, still) && Quiet(env)
    requires Draining(ss[0], id, d, Iterations(a, d), triggered, a)
    ensures Draining(ss[|ss| - 1], id, d, 0, triggered, DrainAll(a, d, triggered, env))
  {
    var n := Iterations(a, d);
    forall k | 0 <= k < n ensures Next(ss[k], env(k).outcome, still(k), ss[k + 1]) {
      TriesNext(ss[k], env(k).outcome, still(k), ss[k + 1]);
    }
    NextDrains(ss, id, d, triggered, a, env, still, n, 0);
    DrainedIsDrain(a, d, triggered, env, n, n);
  }

  lemma TurnDrains(s: State, id: Id, triggered: bool, a: Action)
    requires Draining(s, id, Read, 0, triggered, a)
    ensures Draining(NextLane(s), id, Write, Iterations(a, Write), triggered, a)
  {
  }

  /** The two loops of a pass, as the machine makes them without other steps, compute `HandlePass`. */
  lemma PassIsHandlePass(
    rs: seq<State>, ws: seq<State>, id: Id, triggered: bool, a: Action,
    readEnv: nat -> Reply, writeEnv: nat -> Reply, still: nat -> bool)
    requires Stretch(rs, readEnv, still) && Stretch(ws, writeEnv, still) && Quiet(readEnv) && Quiet(writeEnv)
    requires |rs| == Iterations(a, Read) + 1 && Draining(rs[0], id, Read, |rs| - 1, triggered, a)
    requires |ws| == Iterations(DrainAll(a, Read, triggered, readEnv), Write) + 1
    requires rs[|rs| - 1].pass.Some? && rs[|rs| - 1].pass.value.id in rs[|rs| - 1].infos
    requires ws[0] == NextLane(rs[|rs| - 1])
    ensures Draining(ws[|ws| - 1], id, Write, 0, triggered, HandlePass(a, triggered, readEnv, writeEnv))
  {
    var m := DrainAll(a, Read, triggered, readEnv);
    StretchIsDrain(rs, id, Read, triggered, a, readEnv, still);
    TurnDrains(rs[|rs| - 1], id, triggered, m);
    StretchIsDrain(ws, id, Write, triggered, m, writeEnv, still);
  }
}
