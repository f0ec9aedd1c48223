/**
  Reads and cancellations of the coroutine layer: one state per file descriptor, the epoll back end
  with its synchronous cancel, and awaiters that are completed by the back end, by a cancellation or on
  the spot. Resumed coroutines may call into the layer again; the calls in progress form a stack.
 */
module CoroutineReads {
  import opened Common

  const EALREADY: int := 114
  const ECANCELED: int := 125

  datatype ReadState = Free | Pending | Cancelling

  datatype Info = Info(state: ReadState, awaiter: Option<nat>)

  /** The back end's side of a descriptor: the callback set last stands for the awaiter it completes. */
  datatype Backend = Backend(reading: bool, callback: Option<nat>, tasks: nat)

  /** An awaiter of a read: its descriptor and the results it was completed with. */
  datatype Awaiter = Awaiter(fd: int, results: seq<int>)

  /** A call that is waiting for a coroutine it resumed. */
  datatype Frame = InCancel(fd: int, ar: nat) | InCallback(fd: int)

  /** An awaiter of a cancellation: its descriptor, whether a read was pending then, and its results. */
  datatype Cancellation = Cancellation(fd: int, pending: bool, results: seq<int>)

  datatype State = State(
    infos: map<int, Info>,
    backend: map<int, Backend>,
    waits: seq<Awaiter>,
    cancels: seq<Cancellation>,
    stack: seq<Frame>)
  {
    function InfoOf(fd: int): Info {
      if fd in infos then infos[fd] else Info(Free, None)
    }
    function BackendOf(fd: int): Backend {
      if fd in backend then backend[fd] else Backend(false, None, 0)
    }
  }

  // ----- The operations -----

  function Completed(waits: seq<Awaiter>, a: nat, ret: int): seq<Awaiter> {
    if a < |waits| then waits[a := waits[a].(results := waits[a].results + [ret])] else waits
  }

  function Finished(cancels: seq<Cancellation>, a: nat, ret: int): seq<Cancellation> {
    if a < |cancels| then cancels[a := cancels[a].(results := cancels[a].results + [ret])] else cancels
  }

  /** `submit_async_read` accepts every descriptor that is not negative, unless an argument is bad. */
  predicate Accepts(fd: int, argsOk: bool) {
    argsOk && fd >= 0
  }

  function Submitted(b: Backend, a: nat): Backend {
    Backend(true, Some(a), b.tasks + 1)
  }

  function Read(s: State, fd: int, argsOk: bool): State {
    var a := |s.waits|;
    if s.InfoOf(fd).state != Free then
      s.(waits := s.waits + [Awaiter(fd, [-EALREADY])])
    else if Accepts(fd, argsOk) then
      s.(waits := s.waits + [Awaiter(fd, [])], infos := s.infos[fd := Info(Pending, Some(a))],
         backend := s.backend[fd := Submitted(s.BackendOf(fd), a)])
    else
      s.(waits := s.waits + [Awaiter(fd, [-1])], infos := s.infos[fd := Info(Free, None)])
  }

  /** `cancel_read` up to the point where the reader's coroutine has been resumed. */
  function BeginCancel(s: State, fd: int): State {
    var info := s.InfoOf(fd);
    if info.state != Pending then
      s.(cancels := s.cancels + [Cancellation(fd, false, [-EALREADY])])
    else
      s.(infos := s.infos[fd := info.(state := Cancelling)],
         waits := if info.awaiter.Some? then Completed(s.waits, info.awaiter.value, -ECANCELED) else s.waits,
         cancels := s.cancels + [Cancellation(fd, true, [])], stack := s.stack + [InCancel(fd, |s.cancels|)])
  }

  /** `epoll::cancel_async_read` drops the reads of a positive descriptor that is reading. */
  predicate CancelWorks(s: State, fd: int) {
    fd > 0 && s.BackendOf(fd).reading
  }

  function Disabled(b: Backend): Backend {
    Backend(false, None, 0)
  }

  /** The rest of `cancel_read`. On success the back end's callback completes the cancel awaiter, and
      then `cancel_read` does so again. */
  function EndCancel(s: State, fd: int, ar: nat): State {
    var s' := s.(infos := s.infos[fd := Info(Free, None)], stack := Popped(s.stack));
    if CancelWorks(s, fd) then
      s'.(backend := s.backend[fd := Disabled(s.BackendOf(fd))], cancels := Finished(Finished(s.cancels, ar, 0), ar, 0))
    else
      s'.(cancels := Finished(s.cancels, ar, -1))
  }

  function Popped(stack: seq<Frame>): seq<Frame> {
    if stack == [] then [] else stack[..|stack| - 1]
  }

  /** The back end finishes a read and calls the callback it holds. */
  function Deliver(s: State, fd: int, ret: int): State {
    var b := s.BackendOf(fd);
    s.(backend := s.backend[fd := b.(tasks := if b.tasks > 0 then b.tasks - 1 else 0)],
       infos := if fd in s.infos then s.infos[fd := Info(Free, None)] else s.infos,
       waits := if b.callback.Some? then Completed(s.waits, b.callback.value, ret) else s.waits,
       stack := s.stack + [InCallback(fd)])
  }

  function EndDeliver(s: State): State {
    s.(stack := Popped(s.stack))
  }

  // ----- The machine -----

  datatype Label =
    | LRead(fd: int, argsOk: bool)
    | LBeginCancel(fd: int)
    | LEndCancel
    | LDeliver(fd: int, ret: int)
    | LEndDeliver

  function Top(s: State): Option<Frame> {
    if s.stack == [] then None else Some(s.stack[|s.stack| - 1])
  }

  /** Deliveries come from the dispatch loop, below which nothing else is in progress. A callback does
      not cancel its own descriptor while that one's queue is being drained. */
  predicate Can(s: State, l: Label) {
    match l
    case LRead(_, _) => true
    case LBeginCancel(fd) => InCallback(fd) !in s.stack
    case LEndCancel => Top(s).Some? && Top(s).value.InCancel?
    case LDeliver(fd, _) => s.stack == [] && s.BackendOf(fd).tasks > 0
    case LEndDeliver => Top(s).Some? && Top(s).value.InCallback?
  }

  function Step(s: State, l: Label): State
    requires Can(s, l)
  {
    match l
    case LRead(fd, argsOk) => Read(s, fd, argsOk)
    case LBeginCancel(fd) => BeginCancel(s, fd)
    case LEndCancel => EndCancel(s, Top(s).value.fd, Top(s).value.ar)
    case LDeliver(fd, ret) => Deliver(s, fd, ret)
    case LEndDeliver => EndDeliver(s)
  }

  // ----- The invariant -----

  /** Which cancellations are in progress. */
  ghost predicate CancelRuns(stack: seq<Frame>, fd: int) {
    exists i :: 0 <= i < |stack| && stack[i].InCancel? && stack[i].fd == fd
  }

  ghost predicate StackOk(stack: seq<Frame>) {
    forall i, j :: 0 <= i < j < |stack| && stack[i].InCancel? && stack[j].InCancel? ==> stack[i].fd != stack[j].fd
  }

  /** A descriptor is cancelling while a cancellation of it is in progress, and its callback and its
      recorded awaiter belong to its own reads. */
  ghost predicate Own(s: State, fd: int) {
    && (s.InfoOf(fd).state.Cancelling? <==> CancelRuns(s.stack, fd))
    && (s.BackendOf(fd).callback.Some? ==>
          s.BackendOf(fd).callback.value < |s.waits| && s.waits[s.BackendOf(fd).callback.value].fd == fd)
    && (s.InfoOf(fd).awaiter.Some? ==>
          s.InfoOf(fd).awaiter.value < |s.waits| && s.waits[s.InfoOf(fd).awaiter.value].fd == fd)
  }

  /** The back end holds exactly one read, whose callback completes awaiter `a`. */
  ghost predicate OneRead(b: Backend, a: nat) {
    b == Backend(true, Some(a), 1)
  }

  /** What the state of a descriptor means. */
  ghost predicate FdOk(s: State, fd: int) {
    var info := s.InfoOf(fd);
    if info.state.Free? then s.BackendOf(fd).tasks == 0 && info.awaiter == None
    else fd > 0 && info.awaiter.Some? && OneRead(s.BackendOf(fd), info.awaiter.value)
  }

  /** An awaiter is completed exactly once, or it is the one its pending descriptor has recorded. */
  ghost predicate AwaiterOk(s: State, a: nat)
    requires a < |s.waits|
  {
    var fd, info := s.waits[a].fd, s.InfoOf(s.waits[a].fd);
    && (info.state.Pending? && info.awaiter == Some(a) ==> s.waits[a].results == [])
    && (!(info.state.Pending? && info.awaiter == Some(a)) ==> |s.waits[a].results| == 1)
  }

  ghost predicate Inv(s: State) {
    && StackOk(s.stack)
    && (forall fd :: Own(s, fd))
    && (forall fd :: fd != 0 ==> FdOk(s, fd))
    && (forall a :: 0 <= a < |s.waits| && s.waits[a].fd != 0 ==> AwaiterOk(s, a))
  }

  /** A read that is completed on the spot. */
  lemma RefusedReadKeeps(s: State, s': State, fd: int, code: int)
    requires Inv(s) && s' == s.(waits := s.waits + [Awaiter(fd, [code])], infos := s'.infos)
    requires s'.infos == s.infos || (s.InfoOf(fd).state == Free && s'.infos == s.infos[fd := Info(Free, None)])
    ensures Inv(s')
  {
    forall g ensures Own(s', g) {
      assert Own(s, g);
    }
    forall g | g != 0 ensures FdOk(s', g) {
      assert FdOk(s, g);
    }
    forall a | 0 <= a < |s'.waits| && s'.waits[a].fd != 0 ensures AwaiterOk(s', a) {
      assert Own(s, s'.waits[a].fd);
      if a < |s.waits| {
        assert AwaiterOk(s, a);
      }
    }
  }

  lemma SubmittedReadKeeps(s: State, fd: int)
    requires Inv(s) && s.InfoOf(fd).state == Free && fd >= 0
    ensures Inv(Read(s, fd, true))
  {
    var s' := Read(s, fd, true);
    forall g ensures Own(s', g) {
      assert Own(s, g);
    }
    forall g | g != 0 ensures FdOk(s', g) {
      assert FdOk(s, g);
    }
    forall a | 0 <= a < |s'.waits| && s'.waits[a].fd != 0 ensures AwaiterOk(s', a) {
      if a < |s.waits| {
        assert AwaiterOk(s, a);
      }
    }
  }

  lemma ReadKeeps(s: State, fd: int, argsOk: bool)
    requires Inv(s)
    ensures Inv(Read(s, fd, argsOk))
  {
    if s.InfoOf(fd).state != Free {
      RefusedReadKeeps(s, Read(s, fd, argsOk), fd, -EALREADY);
    } else if Accepts(fd, argsOk) {
      SubmittedReadKeeps(s, fd);
    } else {
      RefusedReadKeeps(s, Read(s, fd, argsOk), fd, -1);
    }
  }

  lemma PushFrame(stack: seq<Frame>, f: Frame)
    ensures forall fd :: CancelRuns(stack + [f], fd) <==> CancelRuns(stack, fd) || (f.InCancel? && f.fd == fd)
    ensures StackOk(stack) && (f.InCancel? ==> !CancelRuns(stack, f.fd)) ==> StackOk(stack + [f])
  {
    forall fd ensures CancelRuns(stack + [f], fd) <==> CancelRuns(stack, fd) || (f.InCancel? && f.fd == fd) {
      if CancelRuns(stack, fd) {
        var i :| 0 <= i < |stack| && stack[i].InCancel? && stack[i].fd == fd;
        assert (stack + [f])[i] == stack[i];
      }
      assert (stack + [f])[|stack|] == f;
    }
  }

  lemma PopFrame(stack: seq<Frame>)
    requires stack != [] && StackOk(stack)
    ensures var f := stack[|stack| - 1];
            && StackOk(Popped(stack))
            && (forall fd :: CancelRuns(Popped(stack), fd) <==> CancelRuns(stack, fd) && !(f.InCancel? && f.fd == fd))
            && (f.InCancel? ==> CancelRuns(stack, f.fd))
  {
    var n := |stack| - 1;
    var f := stack[n];
    assert stack == Popped(stack) + [f];
    PushFrame(Popped(stack), f);
    forall i | 0 <= i < n && f.InCancel? && stack[i].InCancel? ensures stack[i].fd != f.fd {
      assert stack[n] == f;
    }
  }

  lemma BeginCancelKeeps(s: State, fd: int)
    requires Inv(s)
    ensures Inv(BeginCancel(s, fd))
  {
    var s' := BeginCancel(s, fd);
    if s.InfoOf(fd).state == Pending {
      assert Own(s, fd);
      assert fd != 0 ==> FdOk(s, fd);
      PushFrame(s.stack, InCancel(fd, |s.cancels|));
      forall g ensures Own(s', g) {
        assert Own(s, g);
      }
      forall g | g != 0 ensures FdOk(s', g) {
        assert FdOk(s, g);
      }
      forall a | 0 <= a < |s'.waits| && s'.waits[a].fd != 0 ensures AwaiterOk(s', a) {
        assert AwaiterOk(s, a);
      }
    } else {
      SameTables(s, s');
    }
  }

  lemma SameTables(s: State, s': State)
    requires Inv(s) && s' == s.(cancels := s'.cancels)
    ensures Inv(s')
  {
    forall g ensures Own(s', g) {
      assert Own(s, g);
    }
    forall g | g != 0 ensures FdOk(s', g) {
      assert FdOk(s, g);
    }
    forall a | 0 <= a < |s'.waits| && s'.waits[a].fd != 0 ensures AwaiterOk(s', a) {
      assert AwaiterOk(s, a);
    }
  }

  lemma EndCancelKeeps(s: State, fd: int, ar: nat)
    requires Inv(s) && Top(s) == Some(InCancel(fd, ar))
    ensures Inv(EndCancel(s, fd, ar))
  {
    var s' := EndCancel(s, fd, ar);
    PopFrame(s.stack);
    assert Own(s, fd);
    assert fd != 0 ==> FdOk(s, fd);
    forall g ensures Own(s', g) {
      assert Own(s, g);
    }
    forall g | g != 0 ensures FdOk(s', g) {
      assert FdOk(s, g);
    }
    forall a | 0 <= a < |s'.waits| && s'.waits[a].fd != 0 ensures AwaiterOk(s', a) {
      assert AwaiterOk(s, a);
    }
  }

  lemma DeliverKeeps(s: State, fd: int, ret: int)
    requires Inv(s) && s.stack == [] && s.BackendOf(fd).tasks > 0
    ensures Inv(Deliver(s, fd, ret))
  {
    var s' := Deliver(s, fd, ret);
    PushFrame(s.stack, InCallback(fd));
    assert Own(s, fd);
    assert fd != 0 ==> FdOk(s, fd);
    forall g ensures Own(s', g) {
      assert Own(s, g);
    }
    forall g | g != 0 ensures FdOk(s', g) {
      assert FdOk(s, g);
    }
    forall a | 0 <= a < |s'.waits| && s'.waits[a].fd != 0 ensures AwaiterOk(s', a) {
      assert AwaiterOk(s, a);
    }
  }

  lemma EndDeliverKeeps(s: State)
    requires Inv(s) && Top(s).Some? && Top(s).value.InCallback?
    ensures Inv(EndDeliver(s))
  {
    var s' := EndDeliver(s);
    PopFrame(s.stack);
    forall g ensures Own(s', g) {
      assert Own(s, g);
    }
    forall g | g != 0 ensures FdOk(s', g) {
      assert FdOk(s, g);
    }
    forall a | 0 <= a < |s'.waits| && s'.waits[a].fd != 0 ensures AwaiterOk(s', a) {
      assert AwaiterOk(s, a);
    }
  }

  lemma StepKeeps(s: State, l: Label)
    requires Inv(s) && Can(s, l)
    ensures Inv(Step(s, l))
  {
    match l
    case LRead(fd, argsOk) => ReadKeeps(s, fd, argsOk);
    case LBeginCancel(fd) => BeginCancelKeeps(s, fd);
    case LEndCancel => EndCancelKeeps(s, Top(s).value.fd, Top(s).value.ar);
    case LDeliver(fd, ret) => DeliverKeeps(s, fd, ret);
    case LEndDeliver => EndDeliverKeeps(s);
  }

  // ----- Runs -----

  ghost predicate Steps(s: State, l: Label, s': State) {
    Can(s, l) && s' == Step(s, l)
  }

  const Start: State := State(map[], map[], [], [], [])

  ghost predicate Run(ss: seq<State>, ls: seq<Label>) {
    && |ss| == |ls| + 1 && ss[0] == Start
    && forall i :: 0 <= i < |ls| ==> Steps(ss[i], ls[i], ss[i + 1])
  }

  lemma {:induction false} RunKeeps(ss: seq<State>, ls: seq<Label>, n: nat)
    requires Run(ss, ls) && n <= |ls|
    ensures Inv(ss[n])
  {
    if n == 0 {
      forall g ensures Own(Start, g) && FdOk(Start, g) {
      }
    } else {
      RunKeeps(ss, ls, n - 1);
      assert Steps(ss[n - 1], ls[n - 1], ss[n]);
      StepKeeps(ss[n - 1], ls[n - 1]);
    }
  }

  /** In every run, at every step and for every descriptor other than 0: free means that the back end
      holds no read, pending means that it holds exactly one and that its awaiter is recorded; and every
      awaiter that is not the recorded one of a pending descriptor has been completed exactly once. */
  lemma CompletedExactlyOnce(ss: seq<State>, ls: seq<Label>, n: nat, fd: int, a: nat)
    requires Run(ss, ls) && n <= |ls| && fd != 0
    ensures var s := ss[n]; var info := s.InfoOf(fd);
            && (info.state == Free <==> s.BackendOf(fd).tasks == 0)
            && (info.state == Pending ==> info.awaiter.Some? && s.BackendOf(fd) == Backend(true, info.awaiter, 1))
            && (a < |s.waits| && s.waits[a].fd == fd ==>
                  |s.waits[a].results| == if info == Info(Pending, Some(a)) then 0 else 1)
  {
    RunKeeps(ss, ls, n);
    assert FdOk(ss[n], fd);
    if a < |ss[n].waits| && ss[n].waits[a].fd == fd {
      assert AwaiterOk(ss[n], a);
    }
  }

  // ----- Overlapping calls -----

  /** The steps that end the read of a descriptor or its cancellation. */
  predicate Releases(s: State, l: Label, fd: int) {
    || (l.LDeliver? && l.fd == fd)
    || (l.LBeginCancel? && l.fd == fd && s.InfoOf(fd).state == Pending)
    || (l.LEndCancel? && Top(s).Some? && Top(s).value.InCancel? && Top(s).value.fd == fd)
  }

  /** Descriptor, back-end read and awaiter are as before. */
  ghost predicate Undisturbed(s: State, s': State, fd: int, a: nat) {
    && s'.InfoOf(fd) == s.InfoOf(fd) && s'.BackendOf(fd) == s.BackendOf(fd)
    && a < |s.waits| <= |s'.waits| && s'.waits[a] == s.waits[a]
  }

  /** An overlapping read or cancellation of the descriptor has got -EALREADY, and only that. */
  ghost predicate Refused(s: State, l: Label, s': State, fd: int) {
    && (l.LRead? && l.fd == fd ==> s' == s.(waits := s.waits + [Awaiter(fd, [-EALREADY])]))
    && (l.LBeginCancel? && l.fd == fd ==> s' == s.(cancels := s.cancels + [Cancellation(fd, false, [-EALREADY])]))
  }

  lemma StepUndisturbed(s: State, l: Label, s': State, fd: int, a: nat)
    requires Inv(s) && Steps(s, l, s') && s.InfoOf(fd).state != Free && s.InfoOf(fd).awaiter == Some(a)
    requires !Releases(s, l, fd)
    ensures Undisturbed(s, s', fd, a) && Refused(s, l, s', fd)
  {
    assert Own(s, fd);
    match l
    case LRead(g, _) =>
    case LBeginCancel(g) => assert Own(s, g);
    case LEndCancel =>
    case LDeliver(g, _) => assert Own(s, g);
    case LEndDeliver =>
  }

  /** From any point of any run at which a read is pending or being cancelled, until a step that ends
      that: whatever else happens, overlapping reads and cancellations of the descriptor get -EALREADY,
      and descriptor, back-end read and awaiter stay as they are. */
  lemma {:induction false} OverlapUndisturbed(ss: seq<State>, ls: seq<Label>, i: nat, j: nat, fd: int, a: nat)
    requires Run(ss, ls) && i <= j <= |ls|
    requires ss[i].InfoOf(fd).state != Free && ss[i].InfoOf(fd).awaiter == Some(a)
    requires forall k :: i <= k < j ==> !Releases(ss[k], ls[k], fd)
    ensures Undisturbed(ss[i], ss[j], fd, a)
    ensures forall k :: i <= k < j ==> Refused(ss[k], ls[k], ss[k + 1], fd)
  {
    if i < j {
      OverlapUndisturbed(ss, ls, i, j - 1, fd, a);
      RunKeeps(ss, ls, j - 1);
      StepUndisturbed(ss[j - 1], ls[j - 1], ss[j], fd, a);
    } else {
      RunKeeps(ss, ls, i);
      assert Own(ss[i], fd);
    }
  }

  /** A step never takes a result away or changes one. */
  lemma ResultsGrow(s: State, l: Label, s': State, a: nat)
    requires Steps(s, l, s') && a < |s.waits|
    ensures a < |s'.waits| && s'.waits[a].fd == s.waits[a].fd && s.waits[a].results <= s'.waits[a].results
  {
  }

  /** The result of a read of a descriptor other than 0 is final. */
  lemma {:induction false} ResultIsFinal(ss: seq<State>, ls: seq<Label>, i: nat, j: nat, a: nat)
    requires Run(ss, ls) && i <= j <= |ls|
    requires a < |ss[i].waits| && ss[i].waits[a].fd != 0 && ss[i].waits[a].results != []
    ensures a < |ss[j].waits| && ss[j].waits[a] == ss[i].waits[a]
  {
    if i < j {
      ResultIsFinal(ss, ls, i, j - 1, a);
      ResultsGrow(ss[j - 1], ls[j - 1], ss[j], a);
      RunKeeps(ss, ls, j);
      assert AwaiterOk(ss[j], a);
    }
  }

  /** What a step that ends a pending read completes its awaiter with. */
  lemma ReleaseGives(s: State, l: Label, s': State, fd: int, a: nat)
    requires Inv(s) && Steps(s, l, s') && fd != 0 && s.InfoOf(fd) == Info(Pending, Some(a)) && Releases(s, l, fd)
    ensures a < |s'.waits|
    ensures s'.waits[a] == Awaiter(fd, [if l.LDeliver? then l.ret else -ECANCELED])
  {
    assert Own(s, fd) && FdOk(s, fd);
    assert AwaiterOk(s, a);
    if l.LEndCancel? {
      PopFrame(s.stack);
    }
  }

  /** The whole life of an accepted read: submitted at step i, ended at step k by the back end or by a
      cancellation. From then on its awaiter has exactly that one result, whatever was called between. */
  lemma ReadHasOneResult(ss: seq<State>, ls: seq<Label>, i: nat, k: nat, j: nat)
    requires Run(ss, ls) && i < k < j <= |ls| && ls[i].LRead? && ls[i].fd != 0
    requires ss[i].InfoOf(ls[i].fd).state == Free && Accepts(ls[i].fd, ls[i].argsOk)
    requires forall m :: i < m < k ==> !Releases(ss[m], ls[m], ls[i].fd)
    requires Releases(ss[k], ls[k], ls[i].fd)
    ensures var a := |ss[i].waits|;
            && a < |ss[j].waits|
            && ss[j].waits[a] == Awaiter(ls[i].fd, [if ls[k].LDeliver? then ls[k].ret else -ECANCELED])
  {
    var fd, a := ls[i].fd, |ss[i].waits|;
    assert Steps(ss[i], ls[i], ss[i + 1]) && Steps(ss[k], ls[k], ss[k + 1]);
    OverlapUndisturbed(ss, ls, i + 1, k, fd, a);
    RunKeeps(ss, ls, k);
    ReleaseGives(ss[k], ls[k], ss[k + 1], fd, a);
    ResultIsFinal(ss, ls, k + 1, j, a);
  }

  /** Neither the layer nor the back end knows this awaiter. */
  ghost predicate Unknown(s: State, a: nat) {
    forall fd :: UnknownAt(s, fd, a)
  }

  predicate UnknownAt(s: State, fd: int, a: nat) {
    s.InfoOf(fd).awaiter != Some(a) && s.BackendOf(fd).callback != Some(a)
  }

  lemma UnknownStays(s: State, l: Label, s': State, a: nat)
    requires Steps(s, l, s') && a < |s.waits| && Unknown(s, a)
    ensures Unknown(s', a) && a < |s'.waits| && s'.waits[a] == s.waits[a]
  {
    forall g ensures UnknownAt(s', g, a) {
      assert UnknownAt(s, g, a);
    }
    if l.LBeginCancel? || l.LDeliver? {
      assert UnknownAt(s, l.fd, a);
    }
  }

  lemma {:induction false} UnknownForGood(ss: seq<State>, ls: seq<Label>, i: nat, j: nat, a: nat)
    requires Run(ss, ls) && i <= j <= |ls| && a < |ss[i].waits| && Unknown(ss[i], a)
    ensures Unknown(ss[j], a) && a < |ss[j].waits| && ss[j].waits[a] == ss[i].waits[a]
  {
    if i < j {
      UnknownForGood(ss, ls, i, j - 1, a);
      UnknownStays(ss[j - 1], ls[j - 1], ss[j], a);
    }
  }

  lemma RefusedUnknown(s: State, fd: int, argsOk: bool)
    requires Inv(s) && !(s.InfoOf(fd).state == Free && argsOk && fd >= 0)
    ensures var s', a := Read(s, fd, argsOk), |s.waits|;
            && Unknown(s', a) && |s'.waits| == a + 1 && s'.waits[..a] == s.waits && s'.backend == s.backend
            && s'.waits[a] == Awaiter(fd, [if s.InfoOf(fd).state == Free then -1 else -EALREADY])
  {
    var s', a := Read(s, fd, argsOk), |s.waits|;
    forall g ensures UnknownAt(s', g, a) {
      assert Own(s, g);
    }
  }

  /** A read that is not accepted, in any run and on any descriptor, has one result at once and for the rest
      of the run: -1 for bad arguments on a free descriptor, -EALREADY on one that is not free. */
  lemma RefusedReadResult(ss: seq<State>, ls: seq<Label>, i: nat, j: nat)
    requires Run(ss, ls) && i < j <= |ls| && ls[i].LRead?
    requires !(ss[i].InfoOf(ls[i].fd).state == Free && ls[i].argsOk && ls[i].fd >= 0)
    ensures var a, fd := |ss[i].waits|, ls[i].fd;
            && a < |ss[j].waits|
            && ss[j].waits[a] == Awaiter(fd, [if ss[i].InfoOf(fd).state == Free then -1 else -EALREADY])
  {
    RunKeeps(ss, ls, i);
    assert Steps(ss[i], ls[i], ss[i + 1]);
    RefusedUnknown(ss[i], ls[i].fd, ls[i].argsOk);
    UnknownForGood(ss, ls, i + 1, j, |ss[i].waits|);
  }

  // ----- The awaiters of cancellations -----

  ghost predicate Running(stack: seq<Frame>, ar: nat) {
    exists i :: 0 <= i < |stack| && stack[i].InCancel? && stack[i].ar == ar
  }

  /** The results of a cancellation that is over. */
  function Outcome(c: Cancellation): seq<int> {
    if !c.pending then [-EALREADY] else if c.fd == 0 then [-1] else [0, 0]
  }

  ghost predicate FramesOk(stack: seq<Frame>, cancels: seq<Cancellation>) {
    forall i :: 0 <= i < |stack| && stack[i].InCancel? ==>
      stack[i].ar < |cancels| && cancels[stack[i].ar] == Cancellation(stack[i].fd, true, [])
  }

  ghost predicate CancelsOk(s: State) {
    && FramesOk(s.stack, s.cancels)
    && forall a :: 0 <= a < |s.cancels| && !Running(s.stack, a) ==> s.cancels[a].results == Outcome(s.cancels[a])
  }

  lemma PushRunning(stack: seq<Frame>, f: Frame, a: nat)
    ensures Running(stack + [f], a) <==> Running(stack, a) || (f.InCancel? && f.ar == a)
  {
    if Running(stack, a) {
      var i :| 0 <= i < |stack| && stack[i].InCancel? && stack[i].ar == a;
      assert (stack + [f])[i] == stack[i];
    }
    assert (stack + [f])[|stack|] == f;
  }

  lemma BeginCancels(s: State, fd: int)
    requires CancelsOk(s)
    ensures CancelsOk(BeginCancel(s, fd))
  {
    var s' := BeginCancel(s, fd);
    forall a | 0 <= a < |s'.cancels| && !Running(s'.stack, a) ensures s'.cancels[a].results == Outcome(s'.cancels[a]) {
      PushRunning(s.stack, InCancel(fd, |s.cancels|), a);
    }
  }

  lemma EndCancels(s: State, fd: int, ar: nat)
    requires Inv(s) && CancelsOk(s) && Top(s) == Some(InCancel(fd, ar))
    ensures CancelsOk(EndCancel(s, fd, ar))
  {
    var s', n := EndCancel(s, fd, ar), |s.stack| - 1;
    PopFrame(s.stack);
    assert Own(s, fd) && (fd != 0 ==> FdOk(s, fd));
    assert s.stack == s'.stack + [InCancel(fd, ar)] && s.stack[n] == InCancel(fd, ar);
    assert s'.cancels[ar] == Cancellation(fd, true, Outcome(s.cancels[ar])) by {
      assert [] + [0] + [0] == [0, 0] && [] + [-1] == [-1];
    }
    forall a | 0 <= a < |s'.cancels| && !Running(s'.stack, a) ensures s'.cancels[a].results == Outcome(s'.cancels[a]) {
      PushRunning(s'.stack, InCancel(fd, ar), a);
    }
    forall i | 0 <= i < n && s'.stack[i].InCancel?
      ensures s'.stack[i].ar < |s'.cancels| && s'.cancels[s'.stack[i].ar] == Cancellation(s'.stack[i].fd, true, [])
    {
      assert s'.stack[i] == s.stack[i] && s.stack[i].fd != s.stack[n].fd;
    }
  }

  lemma SameCancels(s: State, s': State)
    requires CancelsOk(s) && s'.cancels == s.cancels
    requires s'.stack == s.stack ||
             exists fd :: s'.stack == s.stack + [InCallback(fd)] || s.stack == s'.stack + [InCallback(fd)]
    ensures CancelsOk(s')
  {
    forall a ensures Running(s'.stack, a) <==> Running(s.stack, a) {
      if s'.stack != s.stack {
        var fd :| s'.stack == s.stack + [InCallback(fd)] || s.stack == s'.stack + [InCallback(fd)];
        PushRunning(s.stack, InCallback(fd), a);
        PushRunning(s'.stack, InCallback(fd), a);
      }
    }
    forall i | 0 <= i < |s'.stack| && s'.stack[i].InCancel?
      ensures s'.stack[i].ar < |s'.cancels| && s'.cancels[s'.stack[i].ar] == Cancellation(s'.stack[i].fd, true, [])
    {
      assert i < |s.stack| && s.stack[i] == s'.stack[i];
    }
  }

  lemma StepKeepsCancels(s: State, l: Label)
    requires Inv(s) && CancelsOk(s) && Can(s, l)
    ensures CancelsOk(Step(s, l))
  {
    match l
    case LRead(fd, argsOk) => SameCancels(s, Read(s, fd, argsOk));
    case LBeginCancel(fd) => BeginCancels(s, fd);
    case LEndCancel => EndCancels(s, Top(s).value.fd, Top(s).value.ar);
    case LDeliver(fd, ret) =>
      assert Deliver(s, fd, ret).stack == s.stack + [InCallback(fd)];
      SameCancels(s, Deliver(s, fd, ret));
    case LEndDeliver =>
      assert s.stack == EndDeliver(s).stack + [InCallback(Top(s).value.fd)];
      SameCancels(s, EndDeliver(s));
  }

  lemma {:induction false} RunKeepsCancels(ss: seq<State>, ls: seq<Label>, n: nat)
    requires Run(ss, ls) && n <= |ls|
    ensures CancelsOk(ss[n])
  {
    if n > 0 {
      RunKeepsCancels(ss, ls, n - 1);
      RunKeeps(ss, ls, n - 1);
      assert Steps(ss[n - 1], ls[n - 1], ss[n]);
      StepKeepsCancels(ss[n - 1], ls[n - 1]);
    }
  }

  lemma {:induction false} CancelRemembers(ss: seq<State>, ls: seq<Label>, k: nat, n: nat, a: nat)
    requires Run(ss, ls) && k <= n <= |ls| && a < |ss[k].cancels|
    ensures a < |ss[n].cancels| && ss[n].cancels[a].(results := ss[k].cancels[a].results) == ss[k].cancels[a]
  {
    if k < n {
      CancelRemembers(ss, ls, k, n - 1, a);
      assert Steps(ss[n - 1], ls[n - 1], ss[n]);
    }
  }

  /** In every run, once a call of `cancel_read` is over, its awaiter has been completed twice if and only
      if a read was pending on a descriptor other than 0 when it was called, and exactly once
      otherwise. */
  lemma CancelCompletedTwiceIff(ss: seq<State>, ls: seq<Label>, k: nat, n: nat)
    requires Run(ss, ls) && k < n <= |ls| && ls[k].LBeginCancel? && !Running(ss[n].stack, |ss[k].cancels|)
    ensures var a, fd, pending := |ss[k].cancels|, ls[k].fd, ss[k].InfoOf(ls[k].fd).state == Pending;
            && a < |ss[n].cancels|
            && ss[n].cancels[a].results == (if !pending then [-EALREADY] else if fd == 0 then [-1] else [0, 0])
            && (|ss[n].cancels[a].results| == 2 <==> pending && fd != 0)
  {
    assert Steps(ss[k], ls[k], ss[k + 1]);
    CancelRemembers(ss, ls, k + 1, n, |ss[k].cancels|);
    RunKeepsCancels(ss, ls, n);
  }

  /** A whole cancellation of a pending read in any run, from step k to the step n that ends it, with any
      calls in between: the reader is completed with -ECANCELED first; at the end the read is gone from
      layer and back end, and the cancel awaiter goes from no result to two. */
  lemma CancelEffect(ss: seq<State>, ls: seq<Label>, k: nat, n: nat)
    requires Run(ss, ls) && k < n < |ls| && ls[k].LBeginCancel? && ls[k].fd != 0
    requires ss[k].InfoOf(ls[k].fd).state == Pending && ls[n] == LEndCancel && ss[n].stack == ss[k + 1].stack
    ensures ss[k].InfoOf(ls[k].fd).awaiter.Some?
    ensures var fd, a, ar := ls[k].fd, ss[k].InfoOf(ls[k].fd).awaiter.value, |ss[k].cancels|;
            && a < |ss[k].waits| && ss[k + 1].waits == ss[k].waits[a := Awaiter(fd, [-ECANCELED])]
            && ar < |ss[n].cancels| && ss[n].cancels[ar].results == []
            && ss[n + 1].cancels == ss[n].cancels[ar := Cancellation(fd, true, [0, 0])]
            && ss[n + 1].InfoOf(fd) == Info(Free, None) && ss[n + 1].BackendOf(fd) == Backend(false, None, 0)
            && ss[n + 1].stack == ss[k].stack && ss[n + 1].waits == ss[n].waits
  {
    RunKeeps(ss, ls, k);
    RunKeeps(ss, ls, n);
    RunKeepsCancels(ss, ls, n);
    assert Steps(ss[k], ls[k], ss[k + 1]) && Steps(ss[n], ls[n], ss[n + 1]);
    BeginEffect(ss[k], ls[k].fd);
    EndEffect(ss[n], ls[k].fd, |ss[k].cancels|, ss[k].stack);
  }

  lemma BeginEffect(s: State, fd: int)
    requires Inv(s) && fd != 0 && s.InfoOf(fd).state == Pending
    ensures s.InfoOf(fd).awaiter.Some?
    ensures var a, s' := s.InfoOf(fd).awaiter.value, BeginCancel(s, fd);
            && a < |s.waits| && s'.waits == s.waits[a := Awaiter(fd, [-ECANCELED])]
            && s'.stack == s.stack + [InCancel(fd, |s.cancels|)]
  {
    assert FdOk(s, fd) && Own(s, fd);
    assert AwaiterOk(s, s.InfoOf(fd).awaiter.value);
    assert [] + [-ECANCELED] == [-ECANCELED];
  }

  lemma EndEffect(t: State, fd: int, ar: nat, stack: seq<Frame>)
    requires Inv(t) && CancelsOk(t) && fd != 0 && t.stack == stack + [InCancel(fd, ar)]
    ensures ar < |t.cancels| && t.cancels[ar].results == [] && Top(t) == Some(InCancel(fd, ar))
    ensures var t' := EndCancel(t, fd, ar);
            && t'.cancels == t.cancels[ar := Cancellation(fd, true, [0, 0])]
            && t'.InfoOf(fd) == Info(Free, None) && t'.BackendOf(fd) == Backend(false, None, 0)
            && t'.stack == stack && t'.waits == t.waits
  {
    assert t.stack[|stack|] == InCancel(fd, ar);
    PopFrame(t.stack);
    assert Own(t, fd) && FdOk(t, fd);
    assert [] + [0] + [0] == [0, 0] && t.stack[..|stack|] == stack;
  }

  // The states of a read and its cancellation on a fresh layer.
  function PendingOn(fd: int): State {
    State(map[fd := Info(Pending, Some(0))], map[fd := Backend(true, Some(0), 1)], [Awaiter(fd, [])], [], [])
  }

  function CancellingOn(fd: int): State {
    State(map[fd := Info(Cancelling, Some(0))], map[fd := Backend(true, Some(0), 1)],
          [Awaiter(fd, [-ECANCELED])], [Cancellation(fd, true, [])], [InCancel(fd, 0)])
  }

  function CancelledOn(fd: int, b: Backend, results: seq<int>): State {
    State(map[fd := Info(Free, None)], map[fd := b], [Awaiter(fd, [-ECANCELED])], [Cancellation(fd, true, results)], [])
  }

  lemma PendingReached(fd: int)
    requires fd >= 0
    ensures Read(Start, fd, true) == PendingOn(fd)
  {
  }

  lemma CancellingReached(fd: int)
    ensures BeginCancel(PendingOn(fd), fd) == CancellingOn(fd)
  {
    assert [] + [-ECANCELED] == [-ECANCELED];
  }

  lemma CancelledReached(fd: int)
    ensures fd > 0 ==> EndCancel(CancellingOn(fd), fd, 0) == CancelledOn(fd, Backend(false, None, 0), [0, 0])
    ensures fd == 0 ==> EndCancel(CancellingOn(fd), fd, 0) == CancelledOn(fd, Backend(true, Some(0), 1), [-1])
  {
    assert [] + [0] + [0] == [0, 0] && [] + [-1] == [-1];
  }

  /** A read and its cancellation on any descriptor. */
  lemma CancelRun(fd: int) returns (ss: seq<State>, ls: seq<Label>)
    requires fd >= 0
    ensures Run(ss, ls) && |ls| == 3
    ensures ss[3] == if fd == 0 then CancelledOn(fd, Backend(true, Some(0), 1), [-1])
                     else CancelledOn(fd, Backend(false, None, 0), [0, 0])
  {
    PendingReached(fd);
    CancellingReached(fd);
    CancelledReached(fd);
    ss, ls := [Start], [];
    RunExtends(ss, ls, LRead(fd, true));
    ss, ls := [Start, PendingOn(fd)], [LRead(fd, true)];
    RunExtends(ss, ls, LBeginCancel(fd));
    ss, ls := [Start, PendingOn(fd), CancellingOn(fd)], [LRead(fd, true), LBeginCancel(fd)];
    RunExtends(ss, ls, LEndCancel);
    var last := EndCancel(CancellingOn(fd), fd, 0);
    ss, ls := [Start, PendingOn(fd), CancellingOn(fd), last], [LRead(fd, true), LBeginCancel(fd), LEndCancel];
  }

  /** The shortest such run: a read, its cancellation, and two results for the latter. */
  lemma CancelCompletesTwice() returns (ss: seq<State>, ls: seq<Label>)
    ensures Run(ss, ls) && |ls| == 3 && ss[3].cancels == [Cancellation(5, true, [0, 0])]
    ensures ss[3].waits == [Awaiter(5, [-ECANCELED])] && ss[3].BackendOf(5).tasks == 0
  {
    ss, ls := CancelRun(5);
  }

  // ----- Descriptor 0 -----

  /** The back end refuses to cancel descriptor 0, but the layer frees it: the read stays with the back
      end and completes its awaiter a second time. */
  lemma DescriptorZeroCompletesTwice(ret: int) returns (ss: seq<State>, ls: seq<Label>)
    ensures Run(ss, ls) && |ls| == 4 && |ss[4].waits| == 1
    ensures ss[3].InfoOf(0).state == Free && ss[3].BackendOf(0).tasks == 1
    ensures ss[4].waits[0] == Awaiter(0, [-ECANCELED, ret])
  {
    ss, ls := CancelRun(0);
    var s3 := ss[3];
    assert [-ECANCELED] + [ret] == [-ECANCELED, ret];
    RunExtends(ss, ls, LDeliver(0, ret));
    ss, ls := ss + [Deliver(s3, 0, ret)], ls + [LDeliver(0, ret)];
  }

  /** Cancelling and ending a cancellation leaves the descriptor without a read in the back end exactly
      for the descriptors other than 0. */
  lemma CancelClearsIff(s: State, fd: int)
    requires Inv(s) && s.InfoOf(fd).state == Pending && s.BackendOf(fd).tasks > 0
    ensures EndCancel(BeginCancel(s, fd), fd, |s.cancels|).BackendOf(fd).tasks == 0 <==> fd != 0
  {
    if fd != 0 {
      assert FdOk(s, fd);
    }
  }

  // ----- The object -----

  lemma RunExtends(ss: seq<State>, ls: seq<Label>, l: Label)
    requires Run(ss, ls) && Can(ss[|ls|], l)
    ensures Run(ss + [Step(ss[|ls|], l)], ls + [l])
  {
    var ss', ls' := ss + [Step(ss[|ls|], l)], ls + [l];
    forall i | 0 <= i < |ls'| ensures Steps(ss'[i], ls'[i], ss'[i + 1]) {
      if i < |ls| {
        assert Steps(ss[i], ls[i], ss[i + 1]);
      }
    }
  }

  /** `coroutine_service` on the epoll back end. Its methods are runs of the machine. */
  class CoroutineService {
    var infos: map<int, Info>
    var backend: map<int, Backend>
    var waits: seq<Awaiter>
    var cancels: seq<Cancellation>
    ghost var stack: seq<Frame>
    ghost var past: seq<State>
    ghost var trace: seq<Label>

    ghost function Value(): State
      reads this
    {
      State(infos, backend, waits, cancels, stack)
    }

    /** The object is where some run of the machine has led. */
    ghost predicate Traced()
      reads this
    {
      Run(past, trace) && past[|trace|] == Value()
    }

    constructor ()
      ensures Traced() && Value() == Start
    {
      infos, backend, waits, cancels, stack := map[], map[], [], [], [];
      past, trace := [Start], [];
    }

    ghost method Record(l: Label)
      requires Run(past, trace) && Can(past[|trace|], l) && Value() == Step(past[|trace|], l)
      modifies this`past, this`trace
      ensures Traced() && trace == old(trace) + [l]
    {
      RunExtends(past, trace, l);
      past, trace := past + [Value()], trace + [l];
    }

    method ReadAsync(fd: int, argsOk: bool) returns (a: nat)
      requires Traced()
      modifies this
      ensures Traced() && trace == old(trace) + [LRead(fd, argsOk)] && Value() == Read(old(Value()), fd, argsOk)
      ensures a == |old(waits)| && a < |waits| && waits[a].fd == fd
    {
      a := |waits|;
      var info := if fd in infos then infos[fd] else Info(Free, None);
      if info.state != Free {
        waits := waits + [Awaiter(fd, [-EALREADY])];
      } else {
        infos := infos[fd := Info(Pending, Some(a))];
        var rc := SubmitRead(fd, argsOk, a);
        if rc != 0 {
          infos := infos[fd := Info(Free, None)];
          waits := waits + [Awaiter(fd, [rc])];
        } else {
          waits := waits + [Awaiter(fd, [])];
        }
      }
      Record(LRead(fd, argsOk));
    }

    /** `epoll::submit_async_read`, as far as the read's callback is concerned. */
    method SubmitRead(fd: int, argsOk: bool, a: nat) returns (rc: int)
      modifies this`backend
      ensures rc == if Accepts(fd, argsOk) then 0 else -1
      ensures backend == if rc == 0 then old(backend)[fd := Submitted(old(Value()).BackendOf(fd), a)] else old(backend)
    {
      if !argsOk || fd < 0 {
        return -1;
      }
      var b := if fd in backend then backend[fd] else Backend(false, None, 0);
      backend := backend[fd := Backend(true, Some(a), b.tasks + 1)];
      return 0;
    }

    /** Resumed coroutines make calls of their own and return; callers know the contract only. */
    method Resume()
      requires Traced()
      modifies this
      ensures Traced() && stack == old(stack) && old(trace) <= trace
    {
    }

    /** `cancel_read`: for every descriptor other than 0 the layer and the back end are free of the read
        when the call returns, whatever the resumed coroutine did. */
    method CancelRead(fd: int)
      requires Traced() && InCallback(fd) !in stack
      modifies this
      ensures Traced() && stack == old(stack) && old(trace) + [LBeginCancel(fd)] <= trace
      ensures old(Value()).InfoOf(fd).state == Pending ==> trace[|trace| - 1] == LEndCancel
      ensures old(Value()).InfoOf(fd).state != Pending ==>
                Value() == old(Value()).(cancels := old(cancels) + [Cancellation(fd, false, [-EALREADY])])
      ensures old(Value()).InfoOf(fd).state == Pending ==> Value().InfoOf(fd) == Info(Free, None)
      ensures old(Value()).InfoOf(fd).state == Pending && fd != 0 ==> Value().BackendOf(fd) == Backend(false, None, 0)
    {
      RunKeeps(past, trace, |trace|);
      var info := if fd in infos then infos[fd] else Info(Free, None);
      if info.state != Pending {
        cancels := cancels + [Cancellation(fd, false, [-EALREADY])];
        Record(LBeginCancel(fd));
        return;
      }
      var ar := |cancels|;
      cancels, stack := cancels + [Cancellation(fd, true, [])], stack + [InCancel(fd, ar)];
      infos := infos[fd := info.(state := Cancelling)];
      if info.awaiter.Some? {
        waits := Completed(waits, info.awaiter.value, -ECANCELED);
      }
      Record(LBeginCancel(fd));
      Resume();
      FinishCancel(fd, ar);
    }

    /** The second half of `cancel_read`, with the synchronous cancel of the back end. */
    method FinishCancel(fd: int, ar: nat)
      requires Traced() && Top(Value()) == Some(InCancel(fd, ar))
      modifies this
      ensures Traced() && Value() == EndCancel(old(Value()), fd, ar) && trace == old(trace) + [LEndCancel]
      ensures Value().InfoOf(fd) == Info(Free, None)
      ensures fd != 0 ==> Value().BackendOf(fd) == Backend(false, None, 0)
    {
      RunKeeps(past, trace, |trace|);
      PopFrame(stack);
      assert Own(Value(), fd) && (fd != 0 ==> FdOk(Value(), fd));
      var b := if fd in backend then backend[fd] else Backend(false, None, 0);
      if fd > 0 && b.reading {
        backend := backend[fd := Backend(false, None, 0)];
        infos := infos[fd := Info(Free, None)];
        cancels := Finished(cancels, ar, 0);
        cancels := Finished(cancels, ar, 0);
      } else {
        infos := infos[fd := Info(Free, None)];
        cancels := Finished(cancels, ar, -1);
      }
      stack := Popped(stack);
      Record(LEndCancel);
    }

    /** The back end's callback of a read. */
    method OnRead(fd: int, ret: int)
      requires Traced() && stack == [] && Value().BackendOf(fd).tasks > 0
      modifies this
      ensures Traced() && stack == [] && old(trace) + [LDeliver(fd, ret)] <= trace
      ensures trace[|trace| - 1] == LEndDeliver
    {
      var b := backend[fd];
      backend := backend[fd := b.(tasks := b.tasks - 1)];
      if fd in infos {
        infos := infos[fd := Info(Free, None)];
      }
      if b.callback.Some? {
        waits := Completed(waits, b.callback.value, ret);
      }
      stack := stack + [InCallback(fd)];
      Record(LDeliver(fd, ret));
      Resume();
      stack := Popped(stack);
      Record(LEndDeliver);
    }
  }
}
