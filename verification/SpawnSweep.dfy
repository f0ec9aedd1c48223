/**
  Spawned coroutines: a list of running ones, the finished ones waiting to be erased, and the sweep job
  that is posted lazily, at most once until it runs, and that may be left over by a clear.
 */
module SpawnSweep {
  import opened Common

  type Id = nat

  /** `list` is `spawned_list_`, `finished` is `pending_cleanup_` and `posted` is `cleanup_posted_`; `jobs`
      counts the sweep jobs in the loop's queue. Ids below `next` were spawned; `left` are those that have
      left the list, in that order. */
  datatype State = State(list: seq<Id>, finished: seq<Id>, posted: bool, jobs: nat, next: Id, left: seq<Id>)

  // ----- Erasing -----

  function Erase(list: seq<Id>, id: Id): seq<Id> {
    if list == [] then []
    else if list[0] == id then list[1..]
    else [list[0]] + Erase(list[1..], id)
  }

  function EraseAll(list: seq<Id>, ids: seq<Id>): seq<Id>
    decreases |ids|
  {
    if ids == [] then list else EraseAll(Erase(list, ids[0]), ids[1..])
  }

  lemma {:induction false} EraseIs(list: seq<Id>, id: Id)
    requires Distinct(list) && id in list
    ensures Distinct(Erase(list, id)) && |Erase(list, id)| == |list| - 1
    ensures forall x :: x in Erase(list, id) <==> x in list && x != id
  {
    var rest := list[1..];
    assert list == [list[0]] + rest;
    assert list[0] !in rest;
    if list[0] != id {
      EraseIs(rest, id);
      PushDistinct(Erase(rest, id), list[0]);
    }
  }

  ghost predicate Members(ids: seq<Id>, list: seq<Id>) {
    forall i :: 0 <= i < |ids| ==> ids[i] in list
  }

  /** Erasing distinct members removes exactly them; each is still in the list when its turn comes. */
  lemma {:induction false} EraseAllIs(list: seq<Id>, ids: seq<Id>)
    requires Distinct(list) && Distinct(ids) && Members(ids, list)
    ensures Distinct(EraseAll(list, ids)) && |EraseAll(list, ids)| == |list| - |ids|
    ensures forall x :: x in EraseAll(list, ids) <==> x in list && x !in ids
    decreases |ids|
  {
    if ids != [] {
      EraseIs(list, ids[0]);
      assert ids == [ids[0]] + ids[1..];
      EraseAllIs(Erase(list, ids[0]), ids[1..]);
    }
  }

  // ----- The steps -----

  datatype Label = Spawn | Finish(id: Id) | RunSweep | Clear

  predicate Can(s: State, l: Label) {
    match l
    case Spawn => true
    case Finish(id) => id in s.list && id !in s.finished
    case RunSweep => s.jobs > 0
    case Clear => true
  }

  function Spawned(s: State): State {
    s.(list := [s.next] + s.list, next := s.next + 1)
  }

  /** The final suspension of a spawned coroutine. */
  function Finished(s: State, id: Id): State {
    s.(finished := s.finished + [id], posted := true, jobs := if s.posted then s.jobs else s.jobs + 1)
  }

  function Swept(s: State): State {
    s.(list := EraseAll(s.list, s.finished), left := s.left + s.finished, finished := [], posted := false,
       jobs := if s.jobs > 0 then s.jobs - 1 else 0)
  }

  /** `clear_spawned`; sweep jobs already queued stay there. */
  function Cleared(s: State): State {
    s.(list := [], left := s.left + s.list, finished := [], posted := false)
  }

  function Step(s: State, l: Label): State {
    match l
    case Spawn => Spawned(s)
    case Finish(id) => Finished(s, id)
    case RunSweep => Swept(s)
    case Clear => Cleared(s)
  }

  // ----- The invariant -----

  /** Every spawned task is in the list or has left it, once. */
  ghost predicate Accounted(list: seq<Id>, left: seq<Id>, next: Id) {
    && Distinct(list) && Distinct(left) && |list| + |left| == next
    && (forall x :: x in list ==> x < next && x !in left)
    && (forall x :: x in left ==> x < next)
  }

  ghost predicate Inv(s: State) {
    && Accounted(s.list, s.left, s.next)
    && Distinct(s.finished) && Members(s.finished, s.list)
    && (s.finished != [] ==> s.posted) && (s.posted ==> s.jobs > 0)
  }

  lemma SpawnKeeps(s: State)
    requires Inv(s)
    ensures Inv(Spawned(s))
  {
    PushDistinct(s.list, s.next);
  }

  lemma FinishKeeps(s: State, id: Id)
    requires Inv(s) && id in s.list && id !in s.finished
    ensures Inv(Finished(s, id))
  {
  }

  lemma SweepKeeps(s: State)
    requires Inv(s) && s.jobs > 0
    ensures Inv(Swept(s))
  {
    EraseAllIs(s.list, s.finished);
    ConcatDistinct(s.left, s.finished);
  }

  lemma ClearKeeps(s: State)
    requires Inv(s)
    ensures Inv(Cleared(s))
  {
    ConcatDistinct(s.left, s.list);
  }

  lemma StepKeeps(s: State, l: Label)
    requires Inv(s) && Can(s, l)
    ensures Inv(Step(s, l))
  {
    match l
    case Spawn => SpawnKeeps(s);
    case Finish(id) => FinishKeeps(s, id);
    case RunSweep => SweepKeeps(s);
    case Clear => ClearKeeps(s);
  }

  // ----- Runs -----

  const Start: State := State([], [], false, 0, 0, [])

  ghost predicate Steps(s: State, l: Label, s': State) {
    Can(s, l) && s' == Step(s, l)
  }

  ghost predicate Run(ss: seq<State>, ls: seq<Label>) {
    && |ss| == |ls| + 1 && ss[0] == Start
    && forall i :: 0 <= i < |ls| ==> Steps(ss[i], ls[i], ss[i + 1])
  }

  /** How many of the first `n` steps spawn a task, and how many clear the list. */
  function Spawns(ls: seq<Label>, n: nat): nat
    requires n <= |ls|
  {
    if n == 0 then 0 else Spawns(ls, n - 1) + if ls[n - 1].Spawn? then 1 else 0
  }

  function Clears(ls: seq<Label>, n: nat): nat
    requires n <= |ls|
  {
    if n == 0 then 0 else Clears(ls, n - 1) + if ls[n - 1].Clear? then 1 else 0
  }

  /** In every run, stale jobs included: what waits to be erased are distinct members of the list and a
      sweep job is queued for them; every spawned task is in the list or has left it, never both and never
      twice; and besides the posted job only clears leave jobs behind. */
  lemma {:induction false} SweepSafeInEveryRun(ss: seq<State>, ls: seq<Label>, n: nat)
    requires Run(ss, ls) && n <= |ls|
    ensures Inv(ss[n])
    ensures ss[n].finished != [] ==> ss[n].jobs > 0
    ensures |ss[n].list| + |ss[n].left| == ss[n].next == Spawns(ls, n)
    ensures ss[n].jobs <= Clears(ls, n) + if ss[n].posted then 1 else 0
  {
    if n > 0 {
      SweepSafeInEveryRun(ss, ls, n - 1);
      assert Steps(ss[n - 1], ls[n - 1], ss[n]);
      StepKeeps(ss[n - 1], ls[n - 1]);
    }
  }

  /** Running any queued sweep job, stale or not, removes exactly the finished tasks. */
  lemma SweepRemovesFinished(s: State)
    requires Inv(s) && s.jobs > 0
    ensures Swept(s).finished == [] && forall x :: x in Swept(s).list <==> x in s.list && x !in s.finished
  {
    EraseAllIs(s.list, s.finished);
  }

  /** A step neither forgets a finished task nor takes one away that is not finished. */
  lemma StepTracks(s: State, l: Label, id: Id)
    requires Inv(s) && Can(s, l) && id in s.list
    ensures id in Step(s, l).list <==> !(l.Clear? || (l.RunSweep? && id in s.finished))
    ensures id in Step(s, l).finished <==> !l.Clear? && !l.RunSweep? && (id in s.finished || l == Finish(id))
    ensures id !in Step(s, l).list ==> id in Step(s, l).left
  {
    EraseAllIs(s.list, s.finished);
    if l.Finish? {
      assert Finished(s, l.id).finished == s.finished + [l.id];
    }
  }

  lemma LeftStays(s: State, l: Label, id: Id)
    requires Inv(s) && Can(s, l) && id in s.left
    ensures id in Step(s, l).left && id !in Step(s, l).list
  {
    EraseAllIs(s.list, s.finished);
  }

  /** In every run, from the step after a task finished: it waits in the list until a sweep or a clear, and
      has left it for good afterwards. */
  lemma {:induction false} FinishedIsSwept(ss: seq<State>, ls: seq<Label>, i: nat, j: nat, id: Id)
    requires Run(ss, ls) && i < j <= |ls| && ls[i] == Finish(id)
    ensures var over := exists k :: i < k < j && (ls[k].RunSweep? || ls[k].Clear?);
            if over then id !in ss[j].list && id in ss[j].left else id in ss[j].list && id in ss[j].finished
  {
    SweepSafeInEveryRun(ss, ls, j - 1);
    assert Steps(ss[j - 1], ls[j - 1], ss[j]);
    if i + 1 < j {
      FinishedIsSwept(ss, ls, i, j - 1, id);
      assert ls[j - 1].RunSweep? || ls[j - 1].Clear? ==>
          exists k :: i < k < j && (ls[k].RunSweep? || ls[k].Clear?);
    }
    if id in ss[j - 1].list {
      StepTracks(ss[j - 1], ls[j - 1], id);
    } else {
      LeftStays(ss[j - 1], ls[j - 1], id);
    }
  }

  /** And a task that has not finished stays in the list until a clear. */
  lemma {:induction false} UnfinishedStays(ss: seq<State>, ls: seq<Label>, i: nat, j: nat, id: Id)
    requires Run(ss, ls) && i < j <= |ls| && ls[i].Spawn? && id == ss[i].next
    requires forall k :: i < k < j ==> ls[k] != Finish(id) && !ls[k].Clear?
    ensures id in ss[j].list && id !in ss[j].finished
  {
    SweepSafeInEveryRun(ss, ls, j - 1);
    assert Steps(ss[j - 1], ls[j - 1], ss[j]);
    if i + 1 < j {
      UnfinishedStays(ss, ls, i, j - 1, id);
      StepTracks(ss[j - 1], ls[j - 1], id);
    } else {
      assert ss[j].list[0] == id;
    }
  }

  // ----- The object -----

  /** The spawn part of `coroutine_service`. */
  class Spawner {
    var list: seq<Id>
    var finished: seq<Id>
    var posted: bool
    var jobs: nat
    ghost var next: Id
    ghost var left: seq<Id>

    ghost function Value(): State
      reads this
    {
      State(list, finished, posted, jobs, next, left)
    }

    ghost predicate Valid()
      reads this
    {
      Inv(Value())
    }

    constructor ()
      ensures Valid() && Value() == Start
    {
      list, finished, posted, jobs, next, left := [], [], false, 0, 0, [];
    }

    /** `spawn` of a task that is not done, up to its start; `id` is the identity it gets. */
    method SpawnTask(done: bool, id: Id)
      requires Valid() && id == next
      modifies this`list, this`next
      ensures Valid() && Value() == if done then old(Value()) else Spawned(old(Value()))
    {
      if done {
        return;
      }
      SpawnKeeps(Value());
      list := [id] + list;
      next := next + 1;
    }

    /** The callback of a task's final suspension. */
    method OnFinalResume(id: Id)
      requires Valid() && id in list && id !in finished
      modifies this`finished, this`posted, this`jobs
      ensures Valid() && Value() == Finished(old(Value()), id)
      ensures finished == old(finished) + [id] && posted && jobs == old(jobs) + if old(posted) then 0 else 1
    {
      FinishKeeps(Value(), id);
      finished := finished + [id];
      if !posted {
        posted := true;
        jobs := jobs + 1;
      }
    }

    /** `sweep_completed`: every erased entry is in the list at that moment. */
    method SweepCompleted()
      requires Distinct(list) && Distinct(finished) && Members(finished, list)
      modifies this`list, this`finished, this`left
      ensures list == EraseAll(old(list), old(finished)) && finished == [] && left == old(left) + old(finished)
    {
      ghost var all := EraseAll(list, finished);
      for i := 0 to |finished|
        invariant finished == old(finished) && left == old(left)
        invariant EraseAll(list, finished[i..]) == all
        invariant Distinct(list) && Members(finished[i..], list)
      {
        var id := finished[i];
        assert finished[i..][0] == id && finished[i..][1..] == finished[i + 1..];
        assert id in list;
        EraseIs(list, id);
        StillMembers(list, finished, i);
        list := Erase(list, id);
      }
      left := left + finished;
      finished := [];
    }

    /** The posted job. */
    method SweepJob()
      requires Valid() && jobs > 0
      modifies this
      ensures Valid() && Value() == Swept(old(Value()))
    {
      SweepKeeps(Value());
      jobs := jobs - 1;
      SweepCompleted();
      posted := false;
    }

    method ClearSpawned()
      requires Valid()
      modifies this
      ensures Valid() && Value() == Cleared(old(Value()))
      ensures list == [] == finished && !posted && jobs == old(jobs) && left == old(left) + old(list)
    {
      ClearKeeps(Value());
      left := left + list;
      list, finished, posted := [], [], false;
    }
  }

  lemma StillMembers(list: seq<Id>, finished: seq<Id>, i: nat)
    requires Distinct(list) && Distinct(finished) && i < |finished| && Members(finished[i..], list)
    ensures finished[i] in list && Members(finished[i + 1..], Erase(list, finished[i]))
  {
    assert finished[i..][0] == finished[i];
    EraseIs(list, finished[i]);
    var rest := finished[i + 1..];
    forall j | 0 <= j < |rest| ensures rest[j] in Erase(list, finished[i]) {
      assert rest[j] == finished[i..][j + 1] == finished[i + 1 + j];
    }
  }
}
