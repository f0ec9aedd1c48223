/**
  One `event_action`: the task deques, the interest bits and the cached readiness bits that the
  epoll backend keeps for a stream descriptor, and the pass that `handle_events` makes over them.

  Each direction of an action is a `Lane`. The lane's deques and bits are the source's fields; its
  `accepted`, `done` and `dropped` components are a ledger that no operation reads.
 */
module EventActions {

  datatype Dir = Read | Write

  /** A submitted task; `iovCnt == 0` only asks whether the descriptor is ready. */
  datatype Task = Task(tag: int, iovCnt: nat)

  /** A task together with the value its callback received. */
  datatype Completion = Completion(task: Task, ret: int)

  /** How the descriptor's read or write loop ended: the buffers were used up, the kernel had nothing
      more to give or take (EAGAIN) after `bytes` bytes, or the stream ended or failed with `code`. */
  datatype Outcome = Filled(bytes: nat) | Blocked(bytes: nat) | Ended(code: int)

  datatype Lane = Lane(
    want: bool,
    ready: bool,
    pending: seq<Task>,
    deferred: seq<Task>,
    accepted: seq<Task>,
    done: seq<Completion>,
    dropped: seq<Task>)

  datatype Action = Action(read: Lane, write: Lane) {
    function Get(d: Dir): Lane {
      if d == Read then read else write
    }
    function Put(d: Dir, l: Lane): Action {
      if d == Read then this.(read := l) else this.(write := l)
    }
    predicate NoInterest() {
      !read.want && !write.want
    }
  }

  const NewLane := Lane(false, false, [], [], [], [], [])
  const NewAction := Action(NewLane, NewLane)

  /** What the kernel answers to one attempt, and the tasks the completion callback submits. */
  datatype Reply = Reply(outcome: Outcome, newReads: seq<Task>, newWrites: seq<Task>) {
    function Appended(d: Dir): seq<Task> {
      if d == Read then newReads else newWrites
    }
  }

  // ----- The operations on one action -----

  /** The interest bit goes up with the callback (`set_read_callback`, `set_write_callback`). */
  function SetCallback(a: Action, d: Dir): Action {
    a.Put(d, a.Get(d).(want := true))
  }

  function AddPending(l: Lane, ts: seq<Task>): Lane {
    l.(pending := l.pending + ts, accepted := l.accepted + ts)
  }

  function AddDeferred(l: Lane, t: Task): Lane {
    l.(deferred := l.deferred + [t], accepted := l.accepted + [t])
  }

  function AddTask(a: Action, d: Dir, t: Task, submit: bool): Action {
    a.Put(d, if submit then AddPending(a.Get(d), [t]) else AddDeferred(a.Get(d), t))
  }

  function SubmitLane(l: Lane): Lane {
    l.(pending := l.pending + l.deferred, deferred := [])
  }

  /** `event_action::submit`. */
  function SubmitDeferred(a: Action): Action {
    Action(SubmitLane(a.read), SubmitLane(a.write))
  }

  /** `disable_read` and `disable_write`: the readiness bit survives. */
  function Disable(a: Action, d: Dir): Action {
    var l := a.Get(d);
    a.Put(d, l.(want := false, pending := [], deferred := [],
                dropped := l.dropped + l.pending + l.deferred))
  }

  /** The two bits `set_ready_events` raises before it makes its pass. */
  function Raise(a: Action, r: bool, w: bool): Action {
    Action(a.read.(ready := a.read.ready || r), a.write.(ready := a.write.ready || w))
  }

  /** The value the callback receives; a task without buffers never touches the descriptor. */
  function Result(t: Task, o: Outcome): int {
    if t.iovCnt == 0 then 0
    else match o
      case Filled(n) => n
      case Blocked(n) => n
      case Ended(c) => c
  }

  /** `do_read_task` and `do_write_task` return INT32_MAX, so the task goes back to its queue. */
  predicate Refuses(d: Dir, triggered: bool, t: Task, o: Outcome) {
    t.iovCnt != 0 && o.Blocked? && o.bytes == 0 && (d == Write || !triggered)
  }

  /** The attempt takes the lane's readiness bit down. */
  predicate Clears(d: Dir, t: Task, o: Outcome) {
    t.iovCnt != 0 && o.Blocked? && (d == Read || o.bytes == 0)
  }

  /** One iteration of the drain loop on the lane it drains. */
  function AttemptLane(l: Lane, d: Dir, triggered: bool, o: Outcome): Lane
    requires l.pending != []
  {
    var t := l.pending[0];
    var rest := l.pending[1..];
    var l1 := l.(ready := l.ready && !Clears(d, t, o));
    if Refuses(d, triggered, t, o) then
      l1.(pending := rest + [t])
    else
      l1.(pending := rest, done := l.done + [Completion(t, Result(t, o))])
  }

  /** One iteration of the drain loop, with the tasks its callback submits to either direction. */
  function Attempt(a: Action, d: Dir, triggered: bool, r: Reply): Action
    requires a.Get(d).pending != []
  {
    var t := a.Get(d).pending[0];
    var a1 := a.Put(d, AttemptLane(a.Get(d), d, triggered, r.outcome));
    if Refuses(d, triggered, t, r.outcome) then a1
    else Action(AddPending(a1.read, r.newReads), AddPending(a1.write, r.newWrites))
  }

  /** The drain loop from iteration `i` up to the queue length `n` it read at its start. */
  function Drain(a: Action, d: Dir, triggered: bool, env: nat -> Reply, i: nat, n: nat): Action
    requires i <= n
    requires n - i <= |a.Get(d).pending|
    decreases n - i
  {
    if i == n then a else Drain(Attempt(a, d, triggered, env(i)), d, triggered, env, i + 1, n)
  }

  function DrainAll(a: Action, d: Dir, triggered: bool, env: nat -> Reply): Action {
    if a.Get(d).ready then Drain(a, d, triggered, env, 0, |a.Get(d).pending|) else a
  }

  /** `handle_events`. */
  function HandlePass(a: Action, triggered: bool, readEnv: nat -> Reply, writeEnv: nat -> Reply): Action {
    DrainAll(DrainAll(a, Read, triggered, readEnv), Write, triggered, writeEnv)
  }

  // ----- An independent description of a drain -----

  /** What the i-th attempt leaves behind: its task when refused, the callback's tasks otherwise. */
  function Residue(q: seq<Task>, d: Dir, triggered: bool, env: nat -> Reply, i: nat): seq<Task>
    requires i < |q|
  {
    if Refuses(d, triggered, q[i], env(i).outcome) then [q[i]] else env(i).Appended(d)
  }

  function Residues(q: seq<Task>, d: Dir, triggered: bool, env: nat -> Reply, i: nat): seq<Task>
    requires i <= |q|
  {
    if i == 0 then [] else Residues(q, d, triggered, env, i - 1) + Residue(q, d, triggered, env, i - 1)
  }

  /** The completions of the first `i` attempts of a drain over queue `q`. */
  function Finished(q: seq<Task>, d: Dir, triggered: bool, env: nat -> Reply, i: nat): seq<Completion>
    requires i <= |q|
  {
    if i == 0 then []
    else
      Finished(q, d, triggered, env, i - 1) +
      (if Refuses(d, triggered, q[i - 1], env(i - 1).outcome) then []
       else [Completion(q[i - 1], Result(q[i - 1], env(i - 1).outcome))])
  }

  /** The tasks the callbacks of the first `i` attempts submit to direction `to`. */
  function Submitted(q: seq<Task>, d: Dir, to: Dir, triggered: bool, env: nat -> Reply, i: nat): seq<Task>
    requires i <= |q|
  {
    if i == 0 then []
    else
      Submitted(q, d, to, triggered, env, i - 1) +
      (if Refuses(d, triggered, q[i - 1], env(i - 1).outcome) then [] else env(i - 1).Appended(to))
  }

  predicate AnyClears(q: seq<Task>, d: Dir, env: nat -> Reply, i: nat)
    requires i <= |q|
  {
    exists j :: 0 <= j < i && Clears(d, q[j], env(j).outcome)
  }

  function Opposite(d: Dir): Dir {
    if d == Read then Write else Read
  }

  /** The drained lane before attempt `i`, described without running the loop: attempt `i` is made on
      the i-th task of the queue the pass started with, whatever callbacks and refusals put behind. */
  ghost predicate LaneDrainedTo(l0: Lane, l: Lane, d: Dir, triggered: bool, env: nat -> Reply, i: nat)
    requires i <= |l0.pending|
  {
    var q := l0.pending;
    && l.pending == q[i..] + Residues(q, d, triggered, env, i)
    && l.done == l0.done + Finished(q, d, triggered, env, i)
    && l.ready == (l0.ready && !AnyClears(q, d, env, i))
    && l.want == l0.want && l.deferred == l0.deferred && l.dropped == l0.dropped
    && l.accepted == l0.accepted + Submitted(q, d, d, triggered, env, i)
  }

  /** The other lane meanwhile: it only gains the tasks that callbacks submit to it. */
  ghost predicate OtherDrainedTo(o0: Lane, o: Lane, added: seq<Task>) {
    && o.pending == o0.pending + added && o.accepted == o0.accepted + added
    && o.(pending := o0.pending, accepted := o0.accepted) == o0
  }

  ghost predicate DrainedTo(a0: Action, a: Action, d: Dir, triggered: bool, env: nat -> Reply, i: nat)
    requires i <= |a0.Get(d).pending|
  {
    && LaneDrainedTo(a0.Get(d), a.Get(d), d, triggered, env, i)
    && OtherDrainedTo(a0.Get(Opposite(d)), a.Get(Opposite(d)),
                      Submitted(a0.Get(d).pending, d, Opposite(d), triggered, env, i))
  }

  /** The effect of one attempt on the lane it drains and on the other one. */
  function AttemptOwn(l: Lane, d: Dir, triggered: bool, r: Reply): Lane
    requires l.pending != []
  {
    var l1 := AttemptLane(l, d, triggered, r.outcome);
    if Refuses(d, triggered, l.pending[0], r.outcome) then l1 else AddPending(l1, r.Appended(d))
  }

  lemma AttemptParts(a: Action, d: Dir, triggered: bool, r: Reply)
    requires a.Get(d).pending != []
    ensures var b := Attempt(a, d, triggered, r);
            && b.Get(d) == AttemptOwn(a.Get(d), d, triggered, r)
            && b.Get(Opposite(d)) == (if Refuses(d, triggered, a.Get(d).pending[0], r.outcome) then a.Get(Opposite(d))
                                      else AddPending(a.Get(Opposite(d)), r.Appended(Opposite(d))))
  {
  }

  lemma ShiftQueue(x: seq<Task>, i: nat, r: seq<Task>, more: seq<Task>)
    requires i < |x|
    ensures (x[i..] + r)[0] == x[i]
    ensures (x[i..] + r)[1..] + more == x[i + 1..] + (r + more)
  {
  }

  lemma DoneSnoc(l0: Lane, l: Lane, d: Dir, triggered: bool, env: nat -> Reply, i: nat)
    requires i < |l0.pending| && l.pending != [] && l.pending[0] == l0.pending[i]
    requires l.done == l0.done + Finished(l0.pending, d, triggered, env, i)
    ensures AttemptOwn(l, d, triggered, env(i)).done == l0.done + Finished(l0.pending, d, triggered, env, i + 1)
  {
  }

  lemma PendingSnoc(l0: Lane, l: Lane, d: Dir, triggered: bool, env: nat -> Reply, i: nat)
    requires i < |l0.pending| && l.pending == l0.pending[i..] + Residues(l0.pending, d, triggered, env, i)
    ensures l.pending != [] && l.pending[0] == l0.pending[i]
    ensures AttemptOwn(l, d, triggered, env(i)).pending ==
            l0.pending[i + 1..] + Residues(l0.pending, d, triggered, env, i + 1)
  {
    var q := l0.pending;
    ShiftQueue(q, i, Residues(q, d, triggered, env, i), Residue(q, d, triggered, env, i));
  }

  lemma ReadySnoc(l0: Lane, l: Lane, d: Dir, triggered: bool, env: nat -> Reply, i: nat)
    requires i < |l0.pending| && l.pending != [] && l.pending[0] == l0.pending[i]
    requires l.ready == (l0.ready && !AnyClears(l0.pending, d, env, i))
    ensures AttemptOwn(l, d, triggered, env(i)).ready == (l0.ready && !AnyClears(l0.pending, d, env, i + 1))
  {
    var q := l0.pending;
    assert AnyClears(q, d, env, i + 1) <==> AnyClears(q, d, env, i) || Clears(d, q[i], env(i).outcome);
  }

  lemma AcceptedSnoc(l0: Lane, l: Lane, d: Dir, triggered: bool, env: nat -> Reply, i: nat)
    requires i < |l0.pending| && l.pending != [] && l.pending[0] == l0.pending[i]
    requires l.accepted == l0.accepted + Submitted(l0.pending, d, d, triggered, env, i)
    ensures AttemptOwn(l, d, triggered, env(i)).accepted ==
            l0.accepted + Submitted(l0.pending, d, d, triggered, env, i + 1)
  {
  }

  lemma LaneDrainedToStep(l0: Lane, l: Lane, d: Dir, triggered: bool, env: nat -> Reply, i: nat)
    requires i < |l0.pending|
    requires LaneDrainedTo(l0, l, d, triggered, env, i)
    ensures l.pending != [] && l.pending[0] == l0.pending[i]
    ensures LaneDrainedTo(l0, AttemptOwn(l, d, triggered, env(i)), d, triggered, env, i + 1)
  {
    PendingSnoc(l0, l, d, triggered, env, i);
    DoneSnoc(l0, l, d, triggered, env, i);
    ReadySnoc(l0, l, d, triggered, env, i);
    AcceptedSnoc(l0, l, d, triggered, env, i);
  }

  lemma DrainedToStep(a0: Action, a: Action, d: Dir, triggered: bool, env: nat -> Reply, i: nat)
    requires i < |a0.Get(d).pending|
    requires DrainedTo(a0, a, d, triggered, env, i)
    ensures a.Get(d).pending != []
    ensures DrainedTo(a0, Attempt(a, d, triggered, env(i)), d, triggered, env, i + 1)
  {
    LaneDrainedToStep(a0.Get(d), a.Get(d), d, triggered, env, i);
    AttemptParts(a, d, triggered, env(i));
  }

  lemma {:induction false} DrainFrom(a0: Action, a: Action, d: Dir, triggered: bool, env: nat -> Reply, i: nat)
    requires i <= |a0.Get(d).pending|
    requires DrainedTo(a0, a, d, triggered, env, i)
    ensures |a0.Get(d).pending| - i <= |a.Get(d).pending|
    ensures DrainedTo(a0, Drain(a, d, triggered, env, i, |a0.Get(d).pending|), d, triggered, env, |a0.Get(d).pending|)
    decreases |a0.Get(d).pending| - i
  {
    if i < |a0.Get(d).pending| {
      DrainedToStep(a0, a, d, triggered, env, i);
      DrainFrom(a0, Attempt(a, d, triggered, env(i)), d, triggered, env, i + 1);
    }
  }

  /** A whole drain, whatever the kernel answers and whatever the callbacks submit: the queue that
      remains is, attempt by attempt, the refused task or the newly submitted ones; the completions
      are the others in queue order; and the readiness bit survives iff no attempt cleared it. */
  lemma DrainExact(a: Action, d: Dir, triggered: bool, env: nat -> Reply)
    ensures var n := |a.Get(d).pending|;
            DrainedTo(a, Drain(a, d, triggered, env, 0, n), d, triggered, env, n)
  {
    DrainFrom(a, a, d, triggered, env, 0);
  }

  // ----- Conservation -----

  function TasksOf(cs: seq<Completion>): seq<Task> {
    seq(|cs|, i requires 0 <= i < |cs| => cs[i].task)
  }

  /** Every accepted task is in exactly one place: a queue, the completions or the cancelled. */
  ghost predicate Conserved(l: Lane) {
    multiset(l.accepted) == multiset(l.pending) + multiset(l.deferred) + multiset(TasksOf(l.done)) + multiset(l.dropped)
  }

  ghost predicate ConservedAction(a: Action) {
    Conserved(a.read) && Conserved(a.write)
  }

  lemma AttemptConserves(l: Lane, d: Dir, triggered: bool, o: Outcome)
    requires l.pending != [] && Conserved(l)
    ensures Conserved(AttemptLane(l, d, triggered, o))
  {
    var t := l.pending[0];
    assert l.pending == [t] + l.pending[1..];
    var l' := AttemptLane(l, d, triggered, o);
    if !Refuses(d, triggered, t, o) {
      assert TasksOf(l'.done) == TasksOf(l.done) + [t];
    }
  }

  lemma AddPendingConserves(l: Lane, ts: seq<Task>)
    requires Conserved(l)
    ensures Conserved(AddPending(l, ts))
  {
    assert multiset(l.pending + ts) == multiset(l.pending) + multiset(ts);
    assert multiset(l.accepted + ts) == multiset(l.accepted) + multiset(ts);
  }

  lemma AddTaskConserves(a: Action, d: Dir, t: Task, submit: bool)
    requires ConservedAction(a)
    ensures ConservedAction(AddTask(a, d, t, submit))
  {
    AddPendingConserves(a.Get(d), [t]);
  }

  lemma SubmitConserves(a: Action)
    requires ConservedAction(a)
    ensures ConservedAction(SubmitDeferred(a))
  {
    assert multiset(a.read.pending + a.read.deferred) == multiset(a.read.pending) + multiset(a.read.deferred);
    assert multiset(a.write.pending + a.write.deferred) == multiset(a.write.pending) + multiset(a.write.deferred);
  }

  lemma DisableConserves(a: Action, d: Dir)
    requires ConservedAction(a)
    ensures ConservedAction(Disable(a, d))
  {
    var l := a.Get(d);
    assert multiset(l.dropped + l.pending + l.deferred) ==
           multiset(l.dropped) + multiset(l.pending) + multiset(l.deferred);
  }

  // ----- Old and new tasks are the completed and the remaining ones -----

  lemma RefusedCounts(r: multiset<Task>, f: multiset<Task>, q: multiset<Task>, s: multiset<Task>, t: Task)
    requires r + f == q + s
    ensures (r + multiset{t}) + f == (q + multiset{t}) + s
  {
    FinishedCounts(r, f, q, s, t, multiset{});
    assert (r + multiset{t}) + f == r + (f + multiset{t});
    assert r + multiset{} == r && s + multiset{} == s;
  }

  lemma FinishedCounts(
    r: multiset<Task>, f: multiset<Task>, q: multiset<Task>, s: multiset<Task>, t: Task, n: multiset<Task>)
    requires r + f == q + s
    ensures (r + n) + (f + multiset{t}) == (q + multiset{t}) + (s + n)
  {
    var x, y := (r + n) + (f + multiset{t}), (q + multiset{t}) + (s + n);
    forall u ensures x[u] == y[u] {
      assert (r + f)[u] == (q + s)[u];
    }
    assert x == y;
  }

  ghost predicate Balanced(residues: seq<Task>, finished: seq<Completion>, queue: seq<Task>, submitted: seq<Task>) {
    multiset(residues) + multiset(TasksOf(finished)) == multiset(queue) + multiset(submitted)
  }

  lemma RefusedBalance(r: seq<Task>, f: seq<Completion>, q: seq<Task>, s: seq<Task>, t: Task)
    requires Balanced(r, f, q, s)
    ensures Balanced(r + [t], f + [], q + [t], s + [])
  {
    assert f + [] == f && s + [] == s;
    assert multiset(r + [t]) == multiset(r) + multiset{t} && multiset(q + [t]) == multiset(q) + multiset{t};
    RefusedCounts(multiset(r), multiset(TasksOf(f)), multiset(q), multiset(s), t);
  }

  lemma FinishedBalance(r: seq<Task>, f: seq<Completion>, q: seq<Task>, s: seq<Task>, c: Completion, n: seq<Task>)
    requires Balanced(r, f, q, s)
    ensures Balanced(r + n, f + [c], q + [c.task], s + n)
  {
    assert TasksOf(f + [c]) == TasksOf(f) + [c.task];
    assert multiset(r + n) == multiset(r) + multiset(n) && multiset(s + n) == multiset(s) + multiset(n);
    assert multiset(q + [c.task]) == multiset(q) + multiset{c.task};
    assert multiset(TasksOf(f) + [c.task]) == multiset(TasksOf(f)) + multiset{c.task};
    FinishedCounts(multiset(r), multiset(TasksOf(f)), multiset(q), multiset(s), c.task, multiset(n));
  }

  /** Attempt by attempt: what stays behind and what completes is what was queued and what was added. */
  lemma {:induction false} ResiduesPermute(q: seq<Task>, d: Dir, triggered: bool, env: nat -> Reply, i: nat)
    requires i <= |q|
    ensures Balanced(Residues(q, d, triggered, env, i), Finished(q, d, triggered, env, i), q[0..i],
                     Submitted(q, d, d, triggered, env, i))
  {
    if i > 0 {
      ResiduesPermute(q, d, triggered, env, i - 1);
      SliceSnoc(q, 0, i);
      var r, f := Residues(q, d, triggered, env, i - 1), Finished(q, d, triggered, env, i - 1);
      var s, reply := Submitted(q, d, d, triggered, env, i - 1), env(i - 1);
      if Refuses(d, triggered, q[i - 1], reply.outcome) {
        RefusedBalance(r, f, q[0..i - 1], s, q[i - 1]);
      } else {
        var c := Completion(q[i - 1], Result(q[i - 1], reply.outcome));
        FinishedBalance(r, f, q[0..i - 1], s, c, reply.Appended(d));
      }
    }
  }

  /** The tasks that the callbacks of a drain of direction `d` submit to direction `to`. */
  function Added(a: Action, d: Dir, to: Dir, triggered: bool, env: nat -> Reply): seq<Task> {
    if a.Get(d).ready then Submitted(a.Get(d).pending, d, to, triggered, env, |a.Get(d).pending|) else []
  }

  /** From `l0` to `l` the tasks `added` were accepted: the new completions and what is pending are, as
      multisets, what was pending and what was added. */
  ghost predicate Permuted(l0: Lane, l: Lane, added: seq<Task>) {
    && l0.done <= l.done && l.accepted == l0.accepted + added
    && l.deferred == l0.deferred && l.dropped == l0.dropped && l.want == l0.want
    && multiset(l.pending) + multiset(TasksOf(l.done[|l0.done|..])) == multiset(l0.pending) + multiset(added)
  }

  lemma DrainPermutesOwn(a: Action, d: Dir, triggered: bool, env: nat -> Reply)
    ensures Permuted(a.Get(d), DrainAll(a, d, triggered, env).Get(d), Added(a, d, d, triggered, env))
  {
    var l0, l := a.Get(d), DrainAll(a, d, triggered, env).Get(d);
    if l0.ready {
      var q := l0.pending;
      DrainExact(a, d, triggered, env);
      ResiduesPermute(q, d, triggered, env, |q|);
      assert q[|q|..] == [] && q[0..|q|] == q;
      assert l.done[|l0.done|..] == Finished(q, d, triggered, env, |q|);
    } else {
      Unchanged(l0);
    }
  }

  lemma Unchanged(l: Lane)
    ensures Permuted(l, l, [])
  {
    assert l.done[|l.done|..] == [] && l.accepted + [] == l.accepted;
  }

  lemma DrainPermutesOther(a: Action, d: Dir, triggered: bool, env: nat -> Reply)
    ensures var e := Opposite(d);
            Permuted(a.Get(e), DrainAll(a, d, triggered, env).Get(e), Added(a, d, e, triggered, env))
  {
    var o0, o := a.Get(Opposite(d)), DrainAll(a, d, triggered, env).Get(Opposite(d));
    if a.Get(d).ready {
      DrainExact(a, d, triggered, env);
      assert o.done[|o0.done|..] == [];
    } else {
      Unchanged(o0);
    }
  }

  lemma PermutedTrans(l0: Lane, l1: Lane, l2: Lane, x: seq<Task>, y: seq<Task>)
    requires Permuted(l0, l1, x) && Permuted(l1, l2, y)
    ensures Permuted(l0, l2, x + y)
  {
    var d0, d1 := l1.done[|l0.done|..], l2.done[|l1.done|..];
    assert l2.done[|l0.done|..] == d0 + d1;
    TasksOfConcat(d0, d1);
    assert l0.accepted + x + y == l0.accepted + (x + y);
    assert multiset(x + y) == multiset(x) + multiset(y);
    assert multiset(TasksOf(d0) + TasksOf(d1)) == multiset(TasksOf(d0)) + multiset(TasksOf(d1));
    CountsChain(multiset(l0.pending), multiset(l1.pending), multiset(l2.pending),
                multiset(TasksOf(d0)), multiset(TasksOf(d1)), multiset(x), multiset(y));
  }

  lemma CountsChain(
    p0: multiset<Task>, p1: multiset<Task>, p2: multiset<Task>,
    d0: multiset<Task>, d1: multiset<Task>, x: multiset<Task>, y: multiset<Task>)
    requires p1 + d0 == p0 + x && p2 + d1 == p1 + y
    ensures p2 + (d0 + d1) == p0 + (x + y)
  {
    var a, b := p2 + (d0 + d1), p0 + (x + y);
    forall u ensures a[u] == b[u] {
      assert (p1 + d0)[u] == (p0 + x)[u] && (p2 + d1)[u] == (p1 + y)[u];
    }
    assert a == b;
  }

  /** The tasks that the callbacks of a whole pass submit to direction `d`. */
  function PassAdded(a: Action, d: Dir, triggered: bool, readEnv: nat -> Reply, writeEnv: nat -> Reply): seq<Task> {
    Added(a, Read, d, triggered, readEnv) + Added(DrainAll(a, Read, triggered, readEnv), Write, d, triggered, writeEnv)
  }

  /** One `handle_events` pass, whatever kernel and callbacks do: in both directions the tasks completed by
      it and the remaining ones are a permutation of the queued ones and those its callbacks submitted,
      and those are exactly what was newly accepted. */
  lemma PassPermutes(a: Action, d: Dir, triggered: bool, readEnv: nat -> Reply, writeEnv: nat -> Reply)
    ensures Permuted(a.Get(d), HandlePass(a, triggered, readEnv, writeEnv).Get(d),
                     PassAdded(a, d, triggered, readEnv, writeEnv))
  {
    var m, b := DrainAll(a, Read, triggered, readEnv), HandlePass(a, triggered, readEnv, writeEnv);
    DrainPermutesOwn(a, Read, triggered, readEnv);
    DrainPermutesOther(a, Read, triggered, readEnv);
    DrainPermutesOther(m, Write, triggered, writeEnv);
    DrainPermutesOwn(m, Write, triggered, writeEnv);
    PermutedTrans(a.Get(d), m.Get(d), b.Get(d), Added(a, Read, d, triggered, readEnv),
                  Added(m, Write, d, triggered, writeEnv));
  }

  lemma PermutedConserves(l0: Lane, l: Lane, added: seq<Task>)
    requires Permuted(l0, l, added) && Conserved(l0)
    ensures Conserved(l)
  {
    var fin := l.done[|l0.done|..];
    assert l.done == l0.done + fin;
    TasksOfConcat(l0.done, fin);
    assert multiset(TasksOf(l0.done) + TasksOf(fin)) == multiset(TasksOf(l0.done)) + multiset(TasksOf(fin));
    assert multiset(l0.accepted + added) == multiset(l0.accepted) + multiset(added);
    var x := multiset(l.accepted);
    var y := multiset(l.pending) + multiset(l.deferred) + multiset(TasksOf(l.done)) + multiset(l.dropped);
    forall u ensures x[u] == y[u] {
      assert (multiset(l.pending) + multiset(TasksOf(fin)))[u] == (multiset(l0.pending) + multiset(added))[u];
    }
    assert x == y;
  }

  /** So the pass keeps the ledger: every accepted task is in exactly one place. */
  lemma PassConserves(a: Action, triggered: bool, readEnv: nat -> Reply, writeEnv: nat -> Reply)
    requires ConservedAction(a)
    ensures ConservedAction(HandlePass(a, triggered, readEnv, writeEnv))
  {
    var b := HandlePass(a, triggered, readEnv, writeEnv);
    forall d ensures Conserved(b.Get(d)) {
      PassPermutes(a, d, triggered, readEnv, writeEnv);
      PermutedConserves(a.Get(d), b.Get(d), PassAdded(a, d, triggered, readEnv, writeEnv));
    }
    assert b.read == b.Get(Read) && b.write == b.Get(Write);
  }

  lemma {:induction false} CountBound(s: seq<Task>, i: nat, j: nat)
    requires i < j < |s| && s[i] == s[j]
    ensures multiset(s)[s[i]] >= 2
  {
    assert s == s[..j] + [s[j]] + s[j + 1..];
    assert s[i] in s[..j];
  }

  /** With pairwise distinct tasks, no task completes twice and no completed task is queued or
      cancelled. */
  lemma NoneTwice(l: Lane, i: nat)
    requires Conserved(l) && (forall t :: multiset(l.accepted)[t] <= 1) && i < |l.done|
    ensures forall j :: 0 <= j < |l.done| && j != i ==> l.done[j].task != l.done[i].task
    ensures l.done[i].task !in l.pending && l.done[i].task !in l.deferred && l.done[i].task !in l.dropped
  {
    var ts := TasksOf(l.done);
    var t := ts[i];
    assert multiset(l.accepted)[t] ==
           multiset(l.pending)[t] + multiset(l.deferred)[t] + multiset(ts)[t] + multiset(l.dropped)[t];
    forall j | 0 <= j < |l.done| && j != i ensures l.done[j].task != l.done[i].task {
      assert ts[j] == l.done[j].task;
      if ts[j] == t {
        CountBound(ts, if i < j then i else j, if i < j then j else i);
      }
    }
    assert t in ts;
    assert t in l.pending <==> multiset(l.pending)[t] > 0;
    assert t in l.deferred <==> multiset(l.deferred)[t] > 0;
    assert t in l.dropped <==> multiset(l.dropped)[t] > 0;
  }

  // ----- Order -----

  /** The kernel has nothing to give or take from attempt `k` on. */
  ghost predicate BlocksFrom(q: seq<Task>, env: nat -> Reply, k: nat) {
    forall j :: 0 <= j < |q| && q[j].iovCnt != 0 ==> (env(j).outcome == Blocked(0) <==> k <= j)
  }

  /** The callbacks add nothing to the drained lane. */
  ghost predicate NothingAdded(q: seq<Task>, d: Dir, env: nat -> Reply) {
    forall j :: 0 <= j < |q| ==> env(j).Appended(d) == []
  }

  /** The tasks that want bytes, and those that only ask for readiness. */
  function WithBuffers(q: seq<Task>): seq<Task> {
    if q == [] then [] else WithBuffers(q[..|q| - 1]) + (if q[|q| - 1].iovCnt != 0 then [q[|q| - 1]] else [])
  }

  function WithoutBuffers(q: seq<Task>): seq<Task> {
    if q == [] then [] else WithoutBuffers(q[..|q| - 1]) + (if q[|q| - 1].iovCnt == 0 then [q[|q| - 1]] else [])
  }

  lemma SliceSnoc(q: seq<Task>, k: nat, i: nat)
    requires k < i <= |q|
    ensures q[k..i] == q[k..i - 1] + [q[i - 1]]
  {
  }

  lemma FilterSnoc(q: seq<Task>, k: nat, i: nat)
    requires k < i <= |q|
    ensures WithBuffers(q[k..i]) == WithBuffers(q[k..i - 1]) + if q[i - 1].iovCnt != 0 then [q[i - 1]] else []
    ensures WithoutBuffers(q[k..i]) == WithoutBuffers(q[k..i - 1]) + if q[i - 1].iovCnt == 0 then [q[i - 1]] else []
  {
    SliceSnoc(q, k, i);
    var x := q[k..i];
    assert x[..|x| - 1] == q[k..i - 1] && x[|x| - 1] == q[i - 1];
  }

  /** The tasks left behind by the first `i` attempts when the kernel blocks from attempt `k` on. */
  function FifoRest(q: seq<Task>, k: nat, i: nat): seq<Task>
    requires i <= |q|
  {
    if i <= k then [] else WithBuffers(q[k..i])
  }

  lemma FifoRestSnoc(q: seq<Task>, k: nat, i: nat)
    requires 0 < i <= |q|
    ensures FifoRest(q, k, i) == FifoRest(q, k, i - 1) + if k < i && q[i - 1].iovCnt != 0 then [q[i - 1]] else []
  {
    if k < i {
      FilterSnoc(q, k, i);
      assert i - 1 == k ==> q[k..i - 1] == [];
    }
  }

  lemma {:induction false} FifoResidues(q: seq<Task>, d: Dir, triggered: bool, env: nat -> Reply, k: nat, i: nat)
    requires i <= |q| && (d == Write || !triggered) && BlocksFrom(q, env, k) && NothingAdded(q, d, env)
    ensures Residues(q, d, triggered, env, i) == FifoRest(q, k, i)
  {
    if i > 0 {
      FifoResidues(q, d, triggered, env, k, i - 1);
      FifoResidue(q, d, triggered, env, k, i - 1);
      FifoRestSnoc(q, k, i);
    }
  }

  lemma FifoResidue(q: seq<Task>, d: Dir, triggered: bool, env: nat -> Reply, k: nat, i: nat)
    requires i < |q| && (d == Write || !triggered) && BlocksFrom(q, env, k) && NothingAdded(q, d, env)
    ensures Residue(q, d, triggered, env, i) == if k <= i && q[i].iovCnt != 0 then [q[i]] else []
  {
  }

  /** The tasks completed by the first `i` attempts when the kernel blocks from attempt `k` on. */
  function FifoDone(q: seq<Task>, k: nat, i: nat): seq<Task>
    requires k <= |q| && i <= |q|
  {
    if i <= k then q[0..i] else q[0..k] + WithoutBuffers(q[k..i])
  }

  lemma FifoDoneSnoc(q: seq<Task>, k: nat, i: nat)
    requires k <= |q| && 0 < i <= |q|
    ensures FifoDone(q, k, i) == FifoDone(q, k, i - 1) + if i <= k || q[i - 1].iovCnt == 0 then [q[i - 1]] else []
  {
    if i <= k {
      SliceSnoc(q, 0, i);
    } else {
      FilterSnoc(q, k, i);
      assert i - 1 == k ==> q[k..i - 1] == [];
    }
  }

  lemma FinishedSnoc(q: seq<Task>, d: Dir, triggered: bool, env: nat -> Reply, i: nat)
    requires 0 < i <= |q|
    ensures TasksOf(Finished(q, d, triggered, env, i)) ==
            TasksOf(Finished(q, d, triggered, env, i - 1)) +
            if Refuses(d, triggered, q[i - 1], env(i - 1).outcome) then [] else [q[i - 1]]
  {
  }

  lemma {:induction false} FifoFinished(q: seq<Task>, d: Dir, triggered: bool, env: nat -> Reply, k: nat, i: nat)
    requires k <= |q| && i <= |q| && (d == Write || !triggered) && BlocksFrom(q, env, k)
    ensures TasksOf(Finished(q, d, triggered, env, i)) == FifoDone(q, k, i)
  {
    if i > 0 {
      FifoFinished(q, d, triggered, env, k, i - 1);
      FinishedSnoc(q, d, triggered, env, i);
      FifoDoneSnoc(q, k, i);
    }
  }

  lemma TasksOfConcat(x: seq<Completion>, y: seq<Completion>)
    ensures TasksOf(x + y) == TasksOf(x) + TasksOf(y)
  {
  }

  lemma WholeQueue(q: seq<Task>, k: nat)
    requires k <= |q|
    ensures q[k..|q|] == q[k..] && q[0..k] == q[..k] && q[|q|..] == [] && WithBuffers([]) == [] == WithoutBuffers([])
  {
  }

  lemma FifoWhole(q: seq<Task>, d: Dir, triggered: bool, env: nat -> Reply, k: nat)
    requires k <= |q| && (d == Write || !triggered) && BlocksFrom(q, env, k) && NothingAdded(q, d, env)
    ensures Residues(q, d, triggered, env, |q|) == WithBuffers(q[k..])
    ensures TasksOf(Finished(q, d, triggered, env, |q|)) == q[..k] + WithoutBuffers(q[k..])
  {
    FifoResidues(q, d, triggered, env, k, |q|);
    FifoFinished(q, d, triggered, env, k, |q|);
    WholeQueue(q, k);
    assert q[..k] + [] == q[..k];
  }

  /** What the drained lane looks like after the whole drain. */
  lemma DrainedLane(a: Action, d: Dir, triggered: bool, env: nat -> Reply)
    requires a.Get(d).ready
    ensures var q, b := a.Get(d).pending, DrainAll(a, d, triggered, env).Get(d);
            && b.pending == Residues(q, d, triggered, env, |q|)
            && b.done == a.Get(d).done + Finished(q, d, triggered, env, |q|)
  {
    var q := a.Get(d).pending;
    DrainExact(a, d, triggered, env);
    assert q[|q|..] + Residues(q, d, triggered, env, |q|) == Residues(q, d, triggered, env, |q|);
  }

  /** When the kernel has nothing to give or take from attempt `k` on and callbacks submit nothing, a pass
      over the writes, or one over the reads that no event triggered, completes the first `k` tasks and
      later only those without buffers; the rest keep their order. */
  lemma FifoPass(a: Action, d: Dir, triggered: bool, env: nat -> Reply, k: nat)
    requires a.Get(d).ready && k <= |a.Get(d).pending| && (d == Write || !triggered)
    requires BlocksFrom(a.Get(d).pending, env, k) && NothingAdded(a.Get(d).pending, d, env)
    ensures var q, b := a.Get(d).pending, DrainAll(a, d, triggered, env).Get(d);
            && b.pending == WithBuffers(q[k..])
            && TasksOf(b.done) == TasksOf(a.Get(d).done) + (q[..k] + WithoutBuffers(q[k..]))
  {
    var q := a.Get(d).pending;
    FifoWhole(q, d, triggered, env, k);
    DrainedLane(a, d, triggered, env);
    TasksOfConcat(a.Get(d).done, Finished(q, d, triggered, env, |q|));
  }

  // ----- What a pass leaves behind when the bit is still up -----

  lemma {:induction false} NoRefusalNoResidue(q: seq<Task>, d: Dir, triggered: bool, env: nat -> Reply, i: nat)
    requires i <= |q| && forall j :: 0 <= j < i ==> !Refuses(d, triggered, q[j], env(j).outcome)
    ensures Residues(q, d, triggered, env, i) == Submitted(q, d, d, triggered, env, i)
    ensures |Finished(q, d, triggered, env, i)| == i
    ensures TasksOf(Finished(q, d, triggered, env, i)) == q[..i]
  {
    if i != 0 {
      NoRefusalNoResidue(q, d, triggered, env, i - 1);
    }
  }

  /** A lane whose bit survives the pass has finished every task the pass started with: only tasks
      that callbacks submitted meanwhile are still queued. So nothing is stranded behind a set bit. */
  lemma ReadyLaneHoldsOnlyNewTasks(a: Action, d: Dir, triggered: bool, env: nat -> Reply)
    requires DrainAll(a, d, triggered, env).Get(d).ready
    ensures var q, b := a.Get(d).pending, DrainAll(a, d, triggered, env).Get(d);
            && b.pending == Submitted(q, d, d, triggered, env, |q|)
            && TasksOf(b.done) == TasksOf(a.Get(d).done) + q
  {
    var q := a.Get(d).pending;
    DrainExact(a, d, triggered, env);
    assert a.Get(d).ready;
    forall j | 0 <= j < |q| ensures !Refuses(d, triggered, q[j], env(j).outcome) {
      assert !Clears(d, q[j], env(j).outcome);
    }
    NoRefusalNoResidue(q, d, triggered, env, |q|);
    assert q[|q|..] == [] && q[..|q|] == q;
    TasksOfConcat(a.Get(d).done, Finished(q, d, triggered, env, |q|));
  }

  /** The readiness bit survives a drain if and only if it was up and no attempt found the kernel run out:
      for a read after any number of bytes, for a write before the first one. */
  lemma BitSurvivesIff(a: Action, d: Dir, triggered: bool, env: nat -> Reply)
    ensures var q, ranOut := a.Get(d).pending, (o: Outcome) => o.Blocked? && (d == Read || o.bytes == 0);
            DrainAll(a, d, triggered, env).Get(d).ready <==>
            a.Get(d).ready && forall j :: 0 <= j < |q| && q[j].iovCnt != 0 ==> !ranOut(env(j).outcome)
  {
    DrainExact(a, d, triggered, env);
  }

  /** The completions of a pass that refuses nothing. */
  function AllCompleted(q: seq<Task>, env: nat -> Reply): seq<Completion> {
    seq(|q|, i requires 0 <= i < |q| => Completion(q[i], Result(q[i], env(i).outcome)))
  }

  lemma {:induction false} FinishedAll(q: seq<Task>, d: Dir, triggered: bool, env: nat -> Reply, n: nat)
    requires n <= |q| && forall j :: 0 <= j < n ==> !Refuses(d, triggered, q[j], env(j).outcome)
    ensures Finished(q, d, triggered, env, n) == AllCompleted(q[..n], env)
  {
    if n != 0 {
      FinishedAll(q, d, triggered, env, n - 1);
      var c := Completion(q[n - 1], Result(q[n - 1], env(n - 1).outcome));
      assert AllCompleted(q[..n - 1], env) + [c] == AllCompleted(q[..n], env);
    }
  }

  /** An event-triggered read pass finishes every queued read: one that found the kernel empty is
      completed with 0, the value that otherwise reports the end of the stream. */
  lemma TriggeredReadsAllFinish(a: Action, env: nat -> Reply)
    requires a.read.ready
    ensures var q, b := a.read.pending, DrainAll(a, Read, true, env).read;
            && b.done == a.read.done + AllCompleted(q, env)
            && b.pending == Submitted(q, Read, Read, true, env, |q|)
            && forall i :: 0 <= i < |q| && q[i].iovCnt != 0 && env(i).outcome == Blocked(0) ==>
                 AllCompleted(q, env)[i] == Completion(q[i], 0)
  {
    var q := a.read.pending;
    DrainExact(a, Read, true, env);
    NoRefusalNoResidue(q, Read, true, env, |q|);
    FinishedAll(q, Read, true, env, |q|);
    assert q[..|q|] == q && q[|q|..] == [];
  }

  ghost predicate OnceIn(q: seq<Task>, i: nat) {
    i < |q| && forall j :: 0 <= j < |q| && j != i ==> q[j] != q[i]
  }

  /** What a task that is queued once is completed with during a drain. */
  lemma {:induction false} FinishedHas(q: seq<Task>, d: Dir, triggered: bool, env: nat -> Reply, i: nat, n: nat, r: int)
    requires OnceIn(q, i) && n <= |q|
    ensures Completion(q[i], r) in Finished(q, d, triggered, env, n) <==>
            i < n && !Refuses(d, triggered, q[i], env(i).outcome) && r == Result(q[i], env(i).outcome)
  {
    if n > 0 {
      FinishedHas(q, d, triggered, env, i, n - 1, r);
    }
  }

  /** A pass completes a task that is queued once exactly with what the kernel answered: the bytes it
      moved, also when it ran out afterwards, or the code it ended with. The only task that is not completed
      found a kernel with nothing to give or take, and it stays queued; a read that was triggered by an
      event is completed even then. */
  lemma CompletedIff(a: Action, d: Dir, triggered: bool, env: nat -> Reply, i: nat, r: int)
    requires a.Get(d).ready && OnceIn(a.Get(d).pending, i)
    ensures var l, b := a.Get(d), DrainAll(a, d, triggered, env).Get(d);
            var t, o := l.pending[i], env(i).outcome;
            var stays := t.iovCnt != 0 && o == Blocked(0) && (d == Write || !triggered);
            && l.done <= b.done
            && (Completion(t, r) in b.done[|l.done|..] <==>
                  !stays && r == if t.iovCnt == 0 then 0 else if o.Ended? then o.code else o.bytes)
            && (stays ==> t in b.pending)
  {
    var q, b := a.Get(d).pending, DrainAll(a, d, triggered, env).Get(d);
    DrainedLane(a, d, triggered, env);
    FinishedHas(q, d, triggered, env, i, |q|, r);
    assert b.done[|a.Get(d).done|..] == Finished(q, d, triggered, env, |q|);
    if Refuses(d, triggered, q[i], env(i).outcome) {
      ResidueStays(q, d, triggered, env, i, |q|);
    }
  }

  /** A write that meets a full descriptor stays queued and is not completed, whatever triggered the pass. */
  lemma BlockedWriteStays(a: Action, triggered: bool, env: nat -> Reply, i: nat)
    requires a.write.ready && OnceIn(a.write.pending, i)
    requires a.write.pending[i].iovCnt != 0 && env(i).outcome == Blocked(0)
    ensures var t, b := a.write.pending[i], DrainAll(a, Write, triggered, env).write;
            && t in b.pending && a.write.done <= b.done
            && forall r :: Completion(t, r) !in b.done[|a.write.done|..]
  {
    var t, b := a.write.pending[i], DrainAll(a, Write, triggered, env).write;
    CompletedIff(a, Write, triggered, env, i, 0);
    forall r ensures Completion(t, r) !in b.done[|a.write.done|..] {
      CompletedIff(a, Write, triggered, env, i, r);
    }
  }

  /** A read that finds the kernel empty is completed by the pass with 0, as if the stream had ended, if
      and only if an event triggered the pass; otherwise it stays queued. */
  lemma SpuriousEndIff(a: Action, triggered: bool, env: nat -> Reply, i: nat)
    requires a.read.ready && OnceIn(a.read.pending, i)
    requires a.read.pending[i].iovCnt != 0 && env(i).outcome == Blocked(0)
    ensures var q, b := a.read.pending, DrainAll(a, Read, triggered, env).read;
            && |a.read.done| <= |b.done|
            && (Completion(q[i], 0) in b.done[|a.read.done|..] <==> triggered)
            && (!triggered ==> q[i] in b.pending)
  {
    CompletedIff(a, Read, triggered, env, i, 0);
  }

  lemma {:induction false} ResidueStays(q: seq<Task>, d: Dir, triggered: bool, env: nat -> Reply, i: nat, n: nat)
    requires i < n <= |q| && Refuses(d, triggered, q[i], env(i).outcome)
    ensures q[i] in Residues(q, d, triggered, env, n)
  {
    if i < n - 1 {
      ResidueStays(q, d, triggered, env, i, n - 1);
    }
  }
}
