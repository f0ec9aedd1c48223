/**
  Whole runs of the epoll backend: no wakeup is lost, no task is lost or run twice, deferred tasks wait
  for `submit`, and a pass over the change list brings the kernel in line with the table.
 */
module ReactorRuns {
  import opened EventActions
  import opened Reactor
  import opened Common

  // ----- Runs -----

  function Init(ls: seq<Label>): seq<Label>
    requires ls != []
  {
    ls[..|ls| - 1]
  }

  function Last(ls: seq<Label>): Label
    requires ls != []
  {
    ls[|ls| - 1]
  }

  lemma StartInv()
    ensures Inv(Start)
  {
    forall fd ensures TableOk(Start, fd) && FdOk(Start, fd) {}
    forall id ensures IdOk(Start, id) {}
    forall id, d ensures LaneOk(Start, id, d) {}
  }

  /** The labels are a run of the backend from its initial state: each step is enabled where the steps
      before it lead. */
  ghost predicate Valid(ls: seq<Label>)
    decreases |ls|, 2
  {
    ls == [] || (Valid(Init(ls)) && Allowed(ls))
  }

  ghost predicate Allowed(ls: seq<Label>)
    requires ls != [] && Valid(Init(ls))
    decreases |ls|, 1
  {
    Enabled(After(Init(ls)), Last(ls))
  }

  /** Where a run leads. */
  ghost function After(ls: seq<Label>): (r: State)
    requires Valid(ls)
    ensures Inv(r)
    decreases |ls|, 4
  {
    if ls == [] then StartInv(); Start else Stepped(ls)
  }

  ghost function Stepped(ls: seq<Label>): (r: State)
    requires ls != [] && Valid(ls)
    ensures Inv(r)
    decreases |ls|, 3
  {
    assert Allowed(ls);
    StepKeeps(After(Init(ls)), Last(ls));
    Step(After(Init(ls)), Last(ls))
  }

  lemma LastStep(ls: seq<Label>)
    requires Valid(ls) && ls != []
    ensures Valid(Init(ls)) && Enabled(After(Init(ls)), Last(ls)) && After(ls) == Step(After(Init(ls)), Last(ls))
  {
    assert Allowed(ls) && After(ls) == Stepped(ls);
  }

  lemma ValidBefore(ls: seq<Label>, more: seq<Label>)
    requires Valid(ls + more) && more != []
    ensures Valid(ls + Init(more))
  {
    assert Init(ls + more) == ls + Init(more);
  }

  lemma LastOfMore(ls: seq<Label>, more: seq<Label>)
    requires Valid(ls + more) && more != []
    ensures Valid(ls + Init(more)) && Enabled(After(ls + Init(more)), Last(more))
    ensures After(ls + more) == Step(After(ls + Init(more)), Last(more))
  {
    assert Init(ls + more) == ls + Init(more) && Last(ls + more) == Last(more);
    LastStep(ls + more);
  }

  lemma Extend(ls: seq<Label>, l: Label)
    requires Valid(ls) && Enabled(After(ls), l)
    ensures Valid(ls + [l]) && After(ls + [l]) == Step(After(ls), l)
  {
    assert Init(ls + [l]) == ls;
    assert Allowed(ls + [l]);
    LastStep(ls + [l]);
  }

  // ----- No lost wakeup -----

  /** The action's submitted tasks of this direction will be looked at: the kernel holds an unreported
      edge for it, or its registration is queued, or its bit is set and it is on the ready list. */
  ghost predicate Awake(s: State, id: Id, d: Dir)
    requires id in s.infos
  {
    var k := s.K(s.infos[id].fd);
    || (k.edge && k.Watches(d) && k.interest.value.owner == id)
    || (id in s.changes && s.LaneOf(id, d).want)
    || (s.LaneOf(id, d).ready && id in s.ready)
  }

  /** A direction that was ever registered is watched by the kernel or waits on the change list. */
  ghost predicate Wired(s: State, id: Id, d: Dir) {
    s.Live(id) && s.infos[id].Ev(d) ==>
      || s.infos[id].inChangeList
      || (s.K(s.infos[id].fd).Watches(d) && s.K(s.infos[id].fd).interest.value.owner == id)
  }

  ghost predicate AllWired(s: State) {
    forall id, d :: Wired(s, id, d)
  }

  /** Between two dispatches, in any run whatever: a wired direction with submitted tasks that the
      kernel could serve is awake. */
  lemma WiredIsAwake(s: State, id: Id, d: Dir)
    requires Inv(s) && s.phase == Idle
    requires s.Live(id) && Wired(s, id, d)
    requires s.LaneOf(id, d).pending != [] && s.K(s.infos[id].fd).Can(d)
    ensures Awake(s, id, d)
  {
    assert LaneOk(s, id, d) && IdOk(s, id) && FdOk(s, s.infos[id].fd);
  }

  /** Applying this change keeps every registered direction watched: its descriptor is open, and no
      direction was cancelled whose EV bit is still up, unless both were. */
  ghost predicate Sound(s: State, id: Id)
    requires id in s.infos
  {
    var i := s.infos[id];
    i.action.NoInterest() ||
    (s.K(i.fd).open && forall d: Dir :: i.Ev(d) ==> i.action.Get(d).want)
  }

  /** The guard is exact: among all steps of a dispatch, applying a change unwires a direction if and
      only if the change is not sound. */
  lemma ApplyKeepsWiredIff(s: State)
    requires Inv(s) && AllWired(s) && s.phase == Applying && s.changes != [] && IdOk(s, s.changes[0])
    ensures AllWired(ApplyHead(s)) <==> Sound(s, s.changes[0])
  {
    var id := s.changes[0];
    var fd := s.infos[id].fd;
    var s' := ApplyHead(s);
    assert FdOk(s, fd);
    ApplyOneEffect(s.K(fd), id, s.infos[id]);
    assert LaneOk(s, id, Read) && LaneOk(s, id, Write);
    forall j, d | j != id ensures Wired(s', j, d) {
      assert Wired(s, j, d) && IdOk(s, j);
    }
    forall d ensures Sound(s, id) ==> Wired(s', id, d) {}
    if !Sound(s, id) {
      var d := if s.K(fd).open then if s.infos[id].Ev(Read) && !s.LaneOf(id, Read).want then Read else Write
               else if s.LaneOf(id, Read).want then Read else Write;
      assert !Wired(s', id, d);
    }
  }

  /** Closing the descriptor takes nothing from the back end: the table does not know it, or it has no
      registered direction, or its registration is queued anyway. */
  ghost predicate MayClose(s: State, fd: Fd) {
    fd in s.table && s.table[fd] in s.infos ==>
      var i := s.infos[s.table[fd]];
      i.inChangeList || !(i.evRead || i.evWrite)
  }

  /** This guard is exact too: closing a descriptor unwires a direction if and only if it is not met. */
  lemma CloseKeepsWiredIff(s: State, fd: Fd)
    requires Inv(s) && AllWired(s)
    ensures AllWired(CloseFd(s, fd)) <==> MayClose(s, fd)
  {
    var s' := CloseFd(s, fd);
    assert TableOk(s, fd);
    forall id, d ensures MayClose(s, fd) ==> Wired(s', id, d) {
      assert Wired(s, id, d);
    }
    if !MayClose(s, fd) {
      var id := s.table[fd];
      var d := if s.infos[id].evRead then Read else Write;
      assert !Wired(s', id, d);
    }
  }

  /** Steps that leave wiring to the change list: everything but closing a descriptor behind the back
      end's back and applying an unsound change. */
  ghost predicate Careful(s: State, l: Label) {
    && (l.LClose? ==> MayClose(s, l.fd))
    && (l.LApply? && s.changes != [] && s.changes[0] in s.infos ==> Sound(s, s.changes[0]))
  }

  /** Nothing that wiring depends on is lost. */
  ghost predicate SameWiring(s: State, s': State, id: Id) {
    s'.Live(id) ==>
      && s.Live(id)
      && s'.infos[id].fd == s.infos[id].fd
      && s'.infos[id].evRead == s.infos[id].evRead && s'.infos[id].evWrite == s.infos[id].evWrite
      && (s.infos[id].inChangeList ==> s'.infos[id].inChangeList)
      && s'.K(s.infos[id].fd).interest == s.K(s.infos[id].fd).interest
  }

  lemma SameWiringKeeps(s: State, s': State)
    requires AllWired(s) && forall id :: SameWiring(s, s', id)
    ensures AllWired(s')
  {
    forall id, d ensures Wired(s', id, d) {
      assert SameWiring(s, s', id) && Wired(s, id, d);
    }
  }

  lemma EnsureKeepsWired(s: State, fd: Fd)
    requires Inv(s) && AllWired(s)
    ensures AllWired(Ensure(s, fd))
  {
    forall id, d ensures Wired(Ensure(s, fd), id, d) {
      assert Wired(s, id, d) && IdOk(s, id);
    }
  }

  lemma RegisterKeepsWired(s: State, id: Id, d: Dir, cb: bool)
    requires AllWired(s) && s.Live(id)
    ensures AllWired(Register(s, id, d, cb))
  {
    forall j, e ensures Wired(Register(s, id, d, cb), j, e) {
      assert Wired(s, j, e);
    }
  }

  lemma EnqueueKeepsWired(s: State, id: Id, d: Dir, t: Task, now: bool)
    requires AllWired(s) && id in s.infos
    ensures AllWired(Enqueue(s, id, d, t, now))
  {
    forall j ensures SameWiring(s, Enqueue(s, id, d, t, now), j) {}
    SameWiringKeeps(s, Enqueue(s, id, d, t, now));
  }

  lemma SubmitKeepsWired(s: State, d: Dir, fd: Fd, t: Task, cb: bool, now: bool)
    requires Inv(s) && TableOk(s, fd) && AllWired(s)
    ensures AllWired(Submit(s, d, fd, t, cb, now))
  {
    var id := Lookup(s, fd);
    EnsureKeeps(s, fd);
    EnsureKeepsWired(s, fd);
    RegisterKeepsWired(Ensure(s, fd), id, d, cb);
    EnqueueKeepsWired(Register(Ensure(s, fd), id, d, cb), id, d, t, now);
  }

  lemma {:induction false} FlushAllSameWiring(s: State, order: seq<Id>)
    requires (forall id :: id in order ==> id in s.infos) && AllWired(s)
    ensures AllWired(FlushAll(s, order))
    decreases |order|
  {
    if order != [] {
      forall j ensures SameWiring(s, FlushOne(s, order[0]), j) {}
      SameWiringKeeps(s, FlushOne(s, order[0]));
      FlushAllSameWiring(FlushOne(s, order[0]), order[1..]);
    }
  }

  lemma CancelKeepsWired(s: State, d: Dir, fd: Fd)
    requires TableOk(s, fd) && AllWired(s)
    ensures AllWired(Cancel(s, d, fd))
  {
    forall j ensures SameWiring(s, Cancel(s, d, fd), j) {}
    SameWiringKeeps(s, Cancel(s, d, fd));
  }

  lemma DispatchKeepsWired(s: State, l: Label)
    requires Inv(s) && Enabled(s, l) && AllWired(s)
    requires !(l.LSubmit? || l.LFlush? || l.LCancel? || l.LApply? || l.LClose?)
    ensures AllWired(Step(s, l))
  {
    if l.LOpen? {
      assert FdOk(s, l.fd);
    }
    forall j ensures SameWiring(s, Step(s, l), j) {}
    SameWiringKeeps(s, Step(s, l));
  }

  lemma CarefulKeepsWired(s: State, l: Label)
    requires Inv(s) && Enabled(s, l) && AllWired(s) && Careful(s, l)
    ensures AllWired(Step(s, l))
  {
    match l
    case LSubmit(d, fd, t, cb, now) =>
      assert TableOk(s, fd);
      SubmitKeepsWired(s, d, fd, t, cb, now);
    case LFlush(order) =>
      assert forall id :: id in order ==> IdOk(s, id);
      FlushAllSameWiring(s, order);
      var s1 := FlushAll(s, order);
      forall j ensures SameWiring(s1, s1.(nonSubmit := {}), j) {}
      SameWiringKeeps(s1, s1.(nonSubmit := {}));
    case LApply =>
      assert IdOk(s, s.changes[0]);
      ApplyKeepsWiredIff(s);
    case LCancel(d, fd) =>
      assert TableOk(s, fd);
      CancelKeepsWired(s, d, fd);
    case LClose(fd) =>
      CloseKeepsWiredIff(s, fd);
    case _ =>
      DispatchKeepsWired(s, l);
  }

  ghost predicate CarefulRun(ls: seq<Label>)
    requires Valid(ls)
    decreases |ls|
  {
    ls == [] || (CarefulRun(Init(ls)) && Careful(After(Init(ls)), Last(ls)))
  }

  lemma {:induction false} CarefulRunKeepsWired(ls: seq<Label>)
    requires Valid(ls) && CarefulRun(ls)
    ensures AllWired(After(ls))
    decreases |ls|
  {
    if ls == [] {
      forall j, e ensures Wired(Start, j, e) {}
    } else {
      LastStep(ls);
      CarefulRunKeepsWired(Init(ls));
      CarefulKeepsWired(After(Init(ls)), Last(ls));
    }
  }

  /** No lost wakeup, with cancellations and closes: in every run that never applies an unsound change and
      never closes a descriptor with a registered direction behind the back end's back, every serviceable
      submitted task is awake between dispatches. */
  lemma NoLostWakeup(ls: seq<Label>, id: Id, d: Dir)
    requires Valid(ls) && CarefulRun(ls)
    requires var s := After(ls);
             && s.phase == Idle && s.Live(id)
             && s.LaneOf(id, d).pending != [] && s.K(s.infos[id].fd).Can(d)
    ensures Awake(After(ls), id, d)
  {
    CarefulRunKeepsWired(ls);
    assert Wired(After(ls), id, d);
    WiredIsAwake(After(ls), id, d);
  }

  // ----- Runs without cancellation are careful -----

  /** No cancellation, no close, and submissions only on open descriptors. */
  ghost predicate Plain(s: State, l: Label) {
    !l.LCancel? && !l.LClose? && (l.LSubmit? ==> s.K(l.fd).open)
  }

  ghost predicate Honest(s: State, id: Id) {
    s.Live(id) ==>
      && s.K(s.infos[id].fd).open
      && (s.infos[id].evRead ==> s.LaneOf(id, Read).want)
      && (s.infos[id].evWrite ==> s.LaneOf(id, Write).want)
  }

  lemma HonestEnsure(s: State, fd: Fd)
    requires Inv(s) && s.K(fd).open && forall id :: Honest(s, id)
    ensures forall id :: Honest(Ensure(s, fd), id)
  {
    forall id ensures Honest(Ensure(s, fd), id) {
      assert Honest(s, id) && IdOk(s, id);
    }
  }

  lemma HonestEnqueue(s: State, n: Id, d: Dir, t: Task, now: bool)
    requires n in s.infos && forall id :: Honest(s, id)
    ensures forall id :: Honest(Enqueue(s, n, d, t, now), id)
  {
    forall id ensures Honest(Enqueue(s, n, d, t, now), id) {
      assert Honest(s, id);
    }
  }

  lemma HonestSubmit(s: State, d: Dir, fd: Fd, t: Task, cb: bool, now: bool)
    requires Inv(s) && TableOk(s, fd) && s.K(fd).open && forall id :: Honest(s, id)
    requires cb || (s.Live(Lookup(s, fd)) && s.LaneOf(Lookup(s, fd), d).want)
    ensures forall id :: Honest(Submit(s, d, fd, t, cb, now), id)
  {
    var n := Lookup(s, fd);
    assert IdOk(s, s.nextId);
    EnsureKeeps(s, fd);
    HonestEnsure(s, fd);
    HonestRegister(Ensure(s, fd), n, d, cb);
    HonestEnqueue(Register(Ensure(s, fd), n, d, cb), n, d, t, now);
  }

  lemma HonestRegister(s: State, n: Id, d: Dir, cb: bool)
    requires s.Live(n) && (forall id :: Honest(s, id)) && (cb || s.LaneOf(n, d).want)
    ensures forall id :: Honest(Register(s, n, d, cb), id)
  {
    forall id ensures Honest(Register(s, n, d, cb), id) {
      assert Honest(s, id);
    }
  }

  lemma {:induction false} HonestFlush(s: State, order: seq<Id>)
    requires (forall id :: id in order ==> id in s.infos) && forall id :: Honest(s, id)
    ensures forall id :: Honest(FlushAll(s, order), id)
    decreases |order|
  {
    if order != [] {
      var s1 := FlushOne(s, order[0]);
      forall id ensures Honest(s1, id) {
        assert Honest(s, id);
      }
      HonestFlush(s1, order[1..]);
    }
  }

  lemma HonestApply(s: State)
    requires Inv(s) && s.changes != [] && IdOk(s, s.changes[0]) && forall id :: Honest(s, id)
    ensures forall id :: Honest(ApplyHead(s), id)
  {
    var n := s.changes[0];
    assert FdOk(s, s.infos[n].fd);
    ApplyOneEffect(s.K(s.infos[n].fd), n, s.infos[n]);
    forall id ensures Honest(ApplyHead(s), id) {
      assert Honest(s, id);
    }
  }

  lemma HonestOther(s: State, l: Label)
    requires Inv(s) && Enabled(s, l) && forall id :: Honest(s, id)
    requires !(l.LSubmit? || l.LFlush? || l.LCancel? || l.LApply? || l.LClose?)
    ensures forall id :: Honest(Step(s, l), id)
  {
    forall id ensures Honest(Step(s, l), id) {
      assert Honest(s, id);
    }
  }

  lemma PlainStep(s: State, l: Label)
    requires Inv(s) && Enabled(s, l) && Plain(s, l) && forall id :: Honest(s, id)
    ensures Careful(s, l)
    ensures forall id :: Honest(Step(s, l), id)
  {
    if l.LSubmit? {
      assert TableOk(s, l.fd);
      HonestSubmit(s, l.d, l.fd, l.t, l.cb, l.now);
    } else if l.LFlush? {
      assert forall id :: id in l.order ==> IdOk(s, id);
      HonestFlush(s, l.order);
      var s1 := FlushAll(s, l.order);
      forall id ensures Honest(s1.(nonSubmit := {}), id) {
        assert Honest(s1, id);
      }
    } else if l.LApply? {
      assert IdOk(s, s.changes[0]) && Honest(s, s.changes[0]);
      HonestApply(s);
    } else {
      HonestOther(s, l);
    }
  }

  ghost predicate PlainRun(ls: seq<Label>)
    requires Valid(ls)
    decreases |ls|
  {
    ls == [] || (PlainRun(Init(ls)) && Plain(After(Init(ls)), Last(ls)))
  }

  /** A run without cancellations, over descriptors that stay open, never applies an unsound change:
      so every such run satisfies the premise of `NoLostWakeup`. */
  lemma {:induction false} PlainRunIsCareful(ls: seq<Label>)
    requires Valid(ls) && PlainRun(ls)
    ensures CarefulRun(ls) && forall id :: Honest(After(ls), id)
    decreases |ls|
  {
    if ls == [] {
      forall j ensures Honest(Start, j) {}
    } else {
      LastStep(ls);
      PlainRunIsCareful(Init(ls));
      PlainStep(After(Init(ls)), Last(ls));
    }
  }

  /** The same for the runs the library's users write: no cancellation, descriptors stay open. */
  lemma NoLostWakeupWithoutCancel(ls: seq<Label>, id: Id, d: Dir)
    requires Valid(ls) && PlainRun(ls)
    requires var s := After(ls);
             && s.phase == Idle && s.Live(id)
             && s.LaneOf(id, d).pending != [] && s.K(s.infos[id].fd).Can(d)
    ensures Awake(After(ls), id, d)
  {
    PlainRunIsCareful(ls);
    NoLostWakeup(ls, id, d);
  }

  // ----- What the steps do to the actions -----

  lemma RegisterEffect(s: State, id: Id, d: Dir, cb: bool)
    requires id in s.infos
    ensures var a, s' := s.infos[id].action, Register(s, id, d, cb);
            && s'.infos.Keys == s.infos.Keys && s'.infos[id].fd == s.infos[id].fd
            && s'.infos[id].action == (if cb then SetCallback(a, d) else a)
            && forall j :: j in s.infos && j != id ==> s'.infos[j] == s.infos[j]
  {
  }

  lemma EnqueueEffect(s: State, id: Id, d: Dir, t: Task, now: bool)
    requires id in s.infos
    ensures Enqueue(s, id, d, t, now).infos ==
            s.infos[id := s.infos[id].(action := AddTask(s.infos[id].action, d, t, now))]
  {
  }

  /** Entry `n` is there with this descriptor and action, and the other entries are as before. */
  ghost predicate Entered(infos: map<Id, Info>, infos': map<Id, Info>, n: Id, fd: Fd, a: Action) {
    && infos'.Keys == infos.Keys + {n} && infos'[n].fd == fd && infos'[n].action == a
    && forall id :: id in infos && id != n ==> infos'[id] == infos[id]
  }

  /** The action of a descriptor, a new one for a descriptor that is not in the table. */
  function ActionFor(s: State, fd: Fd): Action {
    if fd in s.table && s.table[fd] in s.infos then s.infos[s.table[fd]].action else NewAction
  }

  /** What a submission does to the actions: only its own descriptor's changes. */
  lemma SubmitEffect(s: State, d: Dir, fd: Fd, t: Task, cb: bool, now: bool)
    requires TableOk(s, fd)
    ensures var a := ActionFor(s, fd);
            Entered(s.infos, Submit(s, d, fd, t, cb, now).infos, Lookup(s, fd), fd,
                    AddTask(if cb then SetCallback(a, d) else a, d, t, now))
  {
    var n, s1 := Lookup(s, fd), Ensure(s, fd);
    RegisterEffect(s1, n, d, cb);
    EnqueueEffect(Register(s1, n, d, cb), n, d, t, now);
  }

  lemma ApplyEffect(s: State, id: Id)
    requires Inv(s) && s.changes != [] && IdOk(s, s.changes[0]) && id in s.infos
    ensures id in ApplyHead(s).infos && ApplyHead(s).infos[id].action == s.infos[id].action
  {
    var n := s.changes[0];
    assert FdOk(s, s.infos[n].fd);
    ApplyOneEffect(s.K(s.infos[n].fd), n, s.infos[n]);
  }

  lemma TryEffect(s: State, o: Outcome, still: bool)
    requires s.pass.Some? && s.pass.value.left > 0 && s.pass.value.id in s.infos
    requires s.LaneOf(s.pass.value.id, s.pass.value.dir).pending != []
    ensures var p := s.pass.value; var i := s.infos[p.id];
            Try(s, o, still).infos ==
            s.infos[p.id := i.(action := i.action.Put(p.dir, AttemptLane(i.action.Get(p.dir), p.dir, p.triggered, o)))]
  {
  }

  // ----- The change list -----

  /** `apply_changes`: the list is applied from its head on. */
  function ApplyAll(s: State): State
    decreases |s.changes|
  {
    if s.changes == [] || s.changes[0] !in s.infos then s else ApplyAll(ApplyHead(s))
  }

  /** What a pass over the change list leaves for one descriptor: the entry and the kernel's record. */
  ghost predicate Reconciled(s: State, s': State, id: Id)
    requires id in s.infos && id in s'.infos
  {
    var i := s.infos[id];
    var fd := i.fd;
    if id !in s.changes then
      s'.infos[id] == i && (s.Live(id) ==> s'.Live(id) && s'.K(fd) == s.K(fd))
    else if i.action.NoInterest() then
      fd !in s'.table && s'.K(fd).interest == None
    else
      && s'.Live(id) && !s'.infos[id].inChangeList && s'.infos[id].action == i.action
      && (s.K(fd).open ==> s'.infos[id].inEpoll && s'.K(fd).interest == Some(Wanted(id, i.action)))
      && (!s.K(fd).open ==> s'.K(fd) == s.K(fd))
  }

  lemma ApplyHeadReconciles(s: State, id: Id)
    requires Inv(s) && s.changes != [] && IdOk(s, s.changes[0]) && id in s.infos && s.phase == Applying
    ensures var s1 := ApplyHead(s);
            && Inv(s1) && s1.phase == Applying && id in s1.infos
            && (id == s.changes[0] ==> id !in s1.changes && Reconciled(s, s1, id) && s1.infos[id].fd == s.infos[id].fd)
            && (id != s.changes[0] ==>
                  && s1.infos[id] == s.infos[id] && (id in s1.changes <==> id in s.changes)
                  && (s.Live(id) ==> s1.Live(id) && s1.K(s.infos[id].fd) == s.K(s.infos[id].fd)))
  {
    var n := s.changes[0];
    assert FdOk(s, s.infos[n].fd) && IdOk(s, id);
    ApplyOneEffect(s.K(s.infos[n].fd), n, s.infos[n]);
    ApplyKeeps(s);
    assert s.changes == [n] + s.changes[1..];
  }

  lemma {:induction false} ApplyAllOffTable(s: State, fd: Fd)
    requires Inv(s) && s.phase == Applying && fd !in s.table
    ensures fd !in ApplyAll(s).table && ApplyAll(s).K(fd) == s.K(fd)
    decreases |s.changes|
  {
    if s.changes != [] {
      assert IdOk(s, s.changes[0]);
      ApplyKeeps(s);
      ApplyAllOffTable(ApplyHead(s), fd);
    }
  }

  /** Reconciliation composes: applying the head, then the rest. */
  lemma ReconciledThrough(s: State, s1: State, s': State, id: Id)
    requires id in s.infos && id in s1.infos && id in s'.infos && s.changes != []
    requires id == s.changes[0] ==> id !in s1.changes && Reconciled(s, s1, id) && s1.infos[id].fd == s.infos[id].fd
    requires id != s.changes[0] ==>
               && s1.infos[id] == s.infos[id] && (id in s1.changes <==> id in s.changes)
               && (s.Live(id) ==> s1.Live(id) && s1.K(s.infos[id].fd) == s.K(s.infos[id].fd))
    requires id in s.changes ==> s.Live(id)
    requires s.infos[id].fd !in s1.table ==> s.infos[id].fd !in s'.table && s'.K(s.infos[id].fd) == s1.K(s.infos[id].fd)
    requires Reconciled(s1, s', id)
    ensures Reconciled(s, s', id)
  {
  }

  /** After `apply_changes` every listed descriptor is reconciled with the kernel, even one whose
      `is_in_epoll_` flag was stale, and no other descriptor or kernel record has changed. */
  lemma {:induction false} ChangesReconciled(s: State, id: Id)
    requires Inv(s) && s.phase == Applying && id in s.infos
    ensures var s' := ApplyAll(s);
            Inv(s') && s'.changes == [] && id in s'.infos && Reconciled(s, s', id)
    decreases |s.changes|
  {
    if s.changes != [] {
      assert IdOk(s, s.changes[0]) && IdOk(s, id);
      ApplyHeadReconciles(s, id);
      var s1 := ApplyHead(s);
      ChangesReconciled(s1, id);
      if s.infos[id].fd !in s1.table {
        ApplyAllOffTable(s1, s.infos[id].fd);
      }
      ReconciledThrough(s, s1, ApplyAll(s1), id);
    }
  }

  lemma CancelEffect(s: State, d: Dir, fd: Fd)
    requires Inv(s) && fd > 0 && fd in s.table && TableOk(s, fd) && s.LaneOf(s.table[fd], d).want
    ensures var id, s' := s.table[fd], Cancel(s, d, fd);
            && id in s'.infos && s'.infos[id].fd == fd && s'.table == s.table && s'.phase == s.phase
            && !s'.LaneOf(id, d).want && s'.LaneOf(id, d).pending == [] == s'.LaneOf(id, d).deferred
            && s'.LaneOf(id, d).ready == s.LaneOf(id, d).ready && s'.LaneOf(id, d).done == s.LaneOf(id, d).done
            && s'.LaneOf(id, Opposite(d)) == s.LaneOf(id, Opposite(d))
            && (id in s'.changes <==> id in s.changes || (d == Read && !s.LaneOf(id, Write).want))
            && forall j :: j in s.infos && j != id ==> j in s'.infos && s'.infos[j] == s.infos[j]
  {
    assert IdOk(s, s.table[fd]);
  }

  /** A cancellation that leaves no interest makes the next `apply_changes` take the descriptor out of table
      and kernel if and only if it cancels reads or a change of the descriptor was queued already. One that
      cancels writes leaves the kernel's interest as it is. */
  lemma CancelRemovesIff(s: State, d: Dir, fd: Fd)
    requires Inv(s) && s.phase == Idle && Enabled(s, LCancel(d, fd)) && fd > 0 && fd in s.table && TableOk(s, fd)
    requires s.LaneOf(s.table[fd], d).want && !s.LaneOf(s.table[fd], Opposite(d)).want
    ensures var s1 := Step(s, LCancel(d, fd));
            && Inv(s1) && Enabled(s1, LBegin)
            && var s2 := ApplyAll(Step(s1, LBegin));
               if d == Read || s.table[fd] in s.changes then fd !in s2.table && s2.K(fd).interest == None
               else fd in s2.table && s2.K(fd) == s.K(fd)
  {
    var s1, id := Step(s, LCancel(d, fd)), s.table[fd];
    StepKeeps(s, LCancel(d, fd));
    CancelEffect(s, d, fd);
    StepKeeps(s1, LBegin);
    ChangesReconciled(Step(s1, LBegin), id);
  }

  // ----- The change list while the kernel acts -----

  predicate KernelLabel(l: Label) {
    l.LArrive? || l.LSubside? || l.LClose? || l.LOpen?
  }

  /** The steps that can happen while changes are applied: the changes and what the kernel does. */
  predicate ApplyingLabel(l: Label) {
    l.LApply? || KernelLabel(l)
  }

  /** What has become of an entry that was listed in `s0`: it is still listed and as it was; or it had no
      interest and is gone from table and kernel; or the kernel watches exactly what it wants. */
  ghost predicate Settling(s0: State, s: State, id: Id) {
    && id in s0.infos && id in s.infos && s.infos[id].fd == s0.infos[id].fd && s.K(s0.infos[id].fd).open
    && s.infos[id].action == s0.infos[id].action
    && var i := s.infos[id];
       if id in s.changes then s.Live(id)
       else if i.action.NoInterest() then i.fd !in s.table && s.K(i.fd).interest == None
       else s.Live(id) && !i.inChangeList && i.inEpoll && s.K(i.fd).interest == Some(Wanted(id, i.action))
  }

  lemma SettlingApply(s0: State, s: State, id: Id)
    requires Inv(s) && s.changes != [] && IdOk(s, s.changes[0]) && Settling(s0, s, id)
    ensures Settling(s0, ApplyHead(s), id)
  {
    var n := s.changes[0];
    assert IdOk(s, id) && FdOk(s, s.infos[n].fd);
    ApplyOneEffect(s.K(s.infos[n].fd), n, s.infos[n]);
    assert s.changes == [n] + s.changes[1..];
    assert id == n ==> id !in s.changes[1..];
  }

  lemma SettlingKernel(s0: State, s: State, l: Label, id: Id)
    requires Inv(s) && Enabled(s, l) && Settling(s0, s, id) && KernelLabel(l)
    requires !(l.LClose? && l.fd == s0.infos[id].fd)
    ensures Settling(s0, Step(s, l), id)
  {
  }

  ghost predicate OnlyApplying(more: seq<Label>, fd: Fd) {
    forall i :: 0 <= i < |more| ==> ApplyingLabel(more[i]) && !(more[i].LClose? && more[i].fd == fd)
  }

  lemma SettlingLast(s0: State, ls: seq<Label>, more: seq<Label>, id: Id)
    requires Valid(ls + more) && more != [] && Valid(ls + Init(more)) && Settling(s0, After(ls + Init(more)), id)
    requires ApplyingLabel(Last(more)) && !(Last(more).LClose? && Last(more).fd == s0.infos[id].fd)
    ensures Settling(s0, After(ls + more), id)
  {
    LastOfMore(ls, more);
    var s := After(ls + Init(more));
    if Last(more).LApply? {
      assert IdOk(s, s.changes[0]);
      SettlingApply(s0, s, id);
    } else {
      SettlingKernel(s0, s, Last(more), id);
    }
  }

  /** While the changes are applied the kernel may do what it likes, short of losing the descriptor itself:
      when the list is empty every listed entry is settled. */
  lemma {:induction false} ChangesSettle(ls: seq<Label>, more: seq<Label>, id: Id)
    requires Valid(ls) && Valid(ls + more) && id in After(ls).changes && id in After(ls).infos
    requires After(ls).K(After(ls).infos[id].fd).open && OnlyApplying(more, After(ls).infos[id].fd)
    ensures Settling(After(ls), After(ls + more), id)
    decreases |more|
  {
    if more == [] {
      assert ls + more == ls && IdOk(After(ls), id);
    } else {
      ValidBefore(ls, more);
      ChangesSettle(ls, Init(more), id);
      SettlingLast(After(ls), ls, more, id);
    }
  }

  ghost function Applies(n: nat): (ls: seq<Label>)
    ensures |ls| == n
  {
    if n == 0 then [] else Applies(n - 1) + [LApply]
  }
}
