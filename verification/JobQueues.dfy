/**
  The job queues of the event loop. Other threads append to a vector under a lock; the loop swaps it
  with a cache and runs the cache. The loop's own thread appends to a deque; a pass runs what the deque
  held when the pass began.
 */
module JobQueues {

  type Job = nat

  function At(q: seq<Job>, i: nat): seq<Job> {
    if i < |q| then [q[i]] else []
  }

  // ----- Jobs from other threads -----

  /** `pending` and `cache` are the two vectors, `at` is the next job of the cache; `posted` and
      `executed` record what was ever posted and started. */
  datatype Cross = Cross(pending: seq<Job>, cache: seq<Job>, at: nat, busy: bool, posted: seq<Job>, executed: seq<Job>)

  /** Posting happens on any thread at any time; the other steps belong to the loop's thread. */
  datatype CrossLabel = Post(job: Job) | Swap | RunNext | Clear

  predicate CrossCan(s: Cross, l: CrossLabel) {
    match l
    case Post(_) => true
    case Swap => !s.busy
    case RunNext => s.busy && s.at < |s.cache|
    case Clear => s.busy && s.at == |s.cache|
  }

  function CrossStep(s: Cross, l: CrossLabel): Cross {
    match l
    case Post(job) => s.(pending := s.pending + [job], posted := s.posted + [job])
    case Swap => s.(pending := s.cache, cache := s.pending, at := 0, busy := true)
    case RunNext => s.(executed := s.executed + At(s.cache, s.at), at := s.at + 1)
    case Clear => s.(cache := [], at := 0, busy := false)
  }

  /** What was run, what the cache still holds and what is pending is, in this order, what was posted. */
  ghost predicate InPostingOrder(s: Cross) {
    && s.at <= |s.cache| && (!s.busy ==> s.cache == [])
    && s.executed + s.cache[s.at..] + s.pending == s.posted
  }

  const NoCross: Cross := Cross([], [], 0, false, [], [])

  lemma CrossStepKeeps(s: Cross, l: CrossLabel)
    requires InPostingOrder(s) && CrossCan(s, l)
    ensures InPostingOrder(CrossStep(s, l))
  {
    match l
    case Post(job) =>
      assert s.executed + s.cache[s.at..] + (s.pending + [job]) == s.posted + [job];
    case Swap =>
      assert s.pending[0..] == s.pending;
      assert s.executed + s.pending + [] == s.executed + [] + s.pending;
    case RunNext =>
      assert s.cache[s.at..] == [s.cache[s.at]] + s.cache[s.at + 1..];
      assert (s.executed + [s.cache[s.at]]) + s.cache[s.at + 1..] == s.executed + s.cache[s.at..];
    case Clear =>
  }

  ghost predicate CrossSteps(s: Cross, l: CrossLabel, s': Cross) {
    CrossCan(s, l) && s' == CrossStep(s, l)
  }

  ghost predicate CrossRun(ss: seq<Cross>, ls: seq<CrossLabel>) {
    && |ss| == |ls| + 1 && ss[0] == NoCross
    && forall i :: 0 <= i < |ls| ==> CrossSteps(ss[i], ls[i], ss[i + 1])
  }

  /** The jobs that the first `n` steps of a run post. */
  function Posts(ls: seq<CrossLabel>, n: nat): seq<Job>
    requires n <= |ls|
  {
    if n == 0 then [] else Posts(ls, n - 1) + if ls[n - 1].Post? then [ls[n - 1].job] else []
  }

  /** The number of jobs that the first `n` steps start. */
  function Starts(ls: seq<CrossLabel>, n: nat): nat
    requires n <= |ls|
  {
    if n == 0 then 0 else Starts(ls, n - 1) + if ls[n - 1].RunNext? then 1 else 0
  }

  /** In every interleaving of posting threads with the loop, jobs run in posting order: what has run is
      a prefix of what was posted, so no job runs twice, and all of it has run once both vectors are
      empty. */
  lemma {:induction false} CrossJobsInOrder(ss: seq<Cross>, ls: seq<CrossLabel>, n: nat)
    requires CrossRun(ss, ls) && n <= |ls|
    ensures InPostingOrder(ss[n]) && ss[n].posted == Posts(ls, n)
    ensures ss[n].executed <= Posts(ls, n) && |ss[n].executed| == Starts(ls, n)
    ensures !ss[n].busy && ss[n].pending == [] ==> ss[n].executed == Posts(ls, n)
  {
    if n > 0 {
      CrossJobsInOrder(ss, ls, n - 1);
      assert CrossSteps(ss[n - 1], ls[n - 1], ss[n]);
      CrossStepKeeps(ss[n - 1], ls[n - 1]);
    }
  }

  // ----- Jobs from the loop's own thread -----

  /** The deque, whether its front job is running, the current pass (the jobs it found, and how many of
      them it has taken off the deque), and what was posted and started. */
  datatype Own = Own(
    queue: seq<Job>, running: bool,
    passing: bool, found: seq<Job>, taken: nat, before: seq<Job>,
    posted: seq<Job>, executed: seq<Job>)

  datatype OwnLabel = OwnPost(job: Job) | BeginPass | BeginJob | EndJob | EndPass

  predicate OwnCan(s: Own, l: OwnLabel) {
    match l
    case OwnPost(_) => true
    case BeginPass => !s.passing
    case BeginJob => s.passing && !s.running && s.taken < |s.found|
    case EndJob => s.running
    case EndPass => s.passing && !s.running && s.taken == |s.found|
  }

  function OwnStep(s: Own, l: OwnLabel): Own {
    match l
    case OwnPost(job) => s.(queue := s.queue + [job], posted := s.posted + [job])
    case BeginPass => s.(passing := true, found := s.queue, taken := 0, before := s.executed)
    case BeginJob => s.(running := true, executed := s.executed + At(s.queue, 0))
    case EndJob => s.(running := false, queue := if s.queue == [] then [] else s.queue[1..], taken := s.taken + 1)
    case EndPass => s.(passing := false)
  }

  function Started(s: Own): nat {
    s.taken + if s.running then 1 else 0
  }

  /** A pass is at the front of the deque: what it found and has not taken off is still there, followed
      by what was posted since; what it has run is what it found first. */
  ghost predicate InPass(s: Own) {
    && s.taken <= Started(s) <= |s.found|
    && s.found[s.taken..] <= s.queue
    && s.executed == s.before + s.found[..Started(s)]
  }

  ghost predicate OwnInv(s: Own) {
    && (s.running ==> s.passing && s.queue != [])
    && (s.passing ==> InPass(s))
    && s.executed + (if s.running then s.queue[1..] else s.queue) == s.posted
  }

  const NoOwn: Own := Own([], false, false, [], 0, [], [], [])

  lemma OwnPostKeeps(s: Own, job: Job)
    requires OwnInv(s)
    ensures OwnInv(OwnStep(s, OwnPost(job)))
  {
    if s.running {
      assert (s.queue + [job])[1..] == s.queue[1..] + [job];
      assert s.executed + (s.queue[1..] + [job]) == s.posted + [job];
    } else {
      assert s.executed + (s.queue + [job]) == s.posted + [job];
    }
  }

  lemma BeginJobKeeps(s: Own)
    requires OwnInv(s) && OwnCan(s, BeginJob)
    ensures OwnInv(OwnStep(s, BeginJob))
  {
    var q, k := s.queue, s.taken;
    assert s.found[k..][0] == s.found[k] == q[0];
    assert s.found[..k + 1] == s.found[..k] + [s.found[k]];
    assert s.before + s.found[..k] + [q[0]] == s.before + s.found[..k + 1];
    assert q == [q[0]] + q[1..];
    assert s.executed + [q[0]] + q[1..] == s.executed + q;
  }

  lemma EndJobKeeps(s: Own)
    requires OwnInv(s) && s.running
    ensures OwnInv(OwnStep(s, EndJob))
  {
    assert s.found[s.taken..][1..] == s.found[s.taken + 1..];
    assert s.found[s.taken..][1..] <= s.queue[1..];
  }

  lemma OwnStepKeeps(s: Own, l: OwnLabel)
    requires OwnInv(s) && OwnCan(s, l)
    ensures OwnInv(OwnStep(s, l))
  {
    match l
    case OwnPost(job) => OwnPostKeeps(s, job);
    case BeginPass => assert s.queue[0..] == s.queue && s.executed + [] == s.executed;
    case BeginJob => BeginJobKeeps(s);
    case EndJob => EndJobKeeps(s);
    case EndPass =>
  }

  ghost predicate OwnSteps(s: Own, l: OwnLabel, s': Own) {
    OwnCan(s, l) && s' == OwnStep(s, l)
  }

  ghost predicate OwnRun(ss: seq<Own>, ls: seq<OwnLabel>) {
    && |ss| == |ls| + 1 && ss[0] == NoOwn
    && forall i :: 0 <= i < |ls| ==> OwnSteps(ss[i], ls[i], ss[i + 1])
  }

  /** The jobs that the first `n` steps of a run post to the deque. */
  function OwnPosts(ls: seq<OwnLabel>, n: nat): seq<Job>
    requires n <= |ls|
  {
    if n == 0 then [] else OwnPosts(ls, n - 1) + if ls[n - 1].OwnPost? then [ls[n - 1].job] else []
  }

  /** In every run the deque's jobs run in posting order, and a pass that is about to end has run exactly
      the jobs it found, however many those have posted. */
  lemma {:induction false} PassRunsWhatItFound(ss: seq<Own>, ls: seq<OwnLabel>, n: nat)
    requires OwnRun(ss, ls) && n <= |ls|
    ensures OwnInv(ss[n]) && ss[n].posted == OwnPosts(ls, n)
    ensures OwnCan(ss[n], EndPass) ==> ss[n].executed == ss[n].before + ss[n].found
    ensures !ss[n].running ==> ss[n].executed + ss[n].queue == OwnPosts(ls, n)
  {
    if n > 0 {
      PassRunsWhatItFound(ss, ls, n - 1);
      assert OwnSteps(ss[n - 1], ls[n - 1], ss[n]);
      OwnStepKeeps(ss[n - 1], ls[n - 1]);
    }
    if OwnCan(ss[n], EndPass) {
      assert ss[n].found[..|ss[n].found|] == ss[n].found;
    }
  }

  // ----- The object -----

  /** The queues of `event_loop`. */
  class EventLoop {
    var otherPending: seq<Job>
    var swapCache: seq<Job>
    var samePending: seq<Job>
    ghost var at: nat
    ghost var busy: bool
    ghost var posted: seq<Job>
    ghost var executed: seq<Job>
    ghost var samePosted: seq<Job>
    ghost var sameExecuted: seq<Job>
    // The jobs called, from either queue.
    ghost var called: seq<Job>

    ghost function Value(): Cross
      reads this
    {
      Cross(otherPending, swapCache, at, busy, posted, executed)
    }

    ghost predicate Valid()
      reads this
    {
      InPostingOrder(Value())
    }

    constructor ()
      ensures Valid() && Value() == NoCross && samePending == [] && samePosted == [] && sameExecuted == []
      ensures called == []
    {
      otherPending, swapCache, samePending := [], [], [];
      at, busy, posted, executed, samePosted, sameExecuted, called := 0, false, [], [], [], [], [];
    }

    /** `run_in_event_loop`; `-1` for a null job, modelled by `isNull`. */
    method RunInEventLoop(job: Job, isNull: bool, loopThread: bool) returns (ret: int)
      requires Valid()
      modifies this`otherPending, this`samePending, this`posted, this`samePosted
      ensures Valid() && ret == (if isNull then -1 else 0)
      ensures isNull || loopThread ==> Value() == old(Value())
      ensures !isNull && !loopThread ==> Value() == CrossStep(old(Value()), Post(job))
      ensures !isNull && !loopThread ==> otherPending == old(otherPending) + [job] && posted == old(posted) + [job]
      ensures !isNull && loopThread ==> samePending == old(samePending) + [job] && samePosted == old(samePosted) + [job]
      ensures isNull || !loopThread ==> samePending == old(samePending) && samePosted == old(samePosted)
    {
      if isNull {
        return -1;
      }
      if !loopThread {
        CrossStepKeeps(Value(), Post(job));
        otherPending := otherPending + [job];
        posted := posted + [job];
      } else {
        samePending := samePending + [job];
        samePosted := samePosted + [job];
      }
      return 0;
    }

    /** A job runs while other threads post; it may post to the loop itself. Callers know the contract
        only. */
    method Call(job: Job)
      requires Valid()
      modifies this`otherPending, this`posted, this`samePending, this`samePosted, this`called
      ensures Valid() && old(otherPending) <= otherPending && old(posted) <= posted
      ensures old(samePending) <= samePending && samePosted == old(samePosted) + samePending[|old(samePending)|..]
      ensures called == old(called) + [job]
    {
      called := called + [job];
    }

    /** `process_other_thread_job`: runs exactly what was pending at the swap, in posting order; what is
        posted meanwhile stays pending. */
    method ProcessOtherThreadJob()
      requires Valid() && !busy
      modifies this
      ensures Valid() && !busy && executed == old(posted)
      ensures called == old(called) + old(otherPending)
    {
      CrossStepKeeps(Value(), Swap);
      otherPending, swapCache := swapCache, otherPending;
      at, busy := 0, true;
      ghost var all := posted;
      assert all == executed + swapCache;
      ghost var start, jobs := executed, swapCache;
      for i := 0 to |swapCache|
        invariant Valid() && busy && at == i && swapCache == jobs
        invariant executed == start + jobs[..i] && called == old(called) + jobs[..i]
      {
        CrossStepKeeps(Value(), RunNext);
        var job := swapCache[i];
        executed, at := executed + [job], at + 1;
        assert jobs[..i + 1] == jobs[..i] + [job];
        Call(job);
      }
      CrossStepKeeps(Value(), Clear);
      swapCache := [];
      at, busy := 0, false;
    }

    /** The pass of `loop_once` over the deque: it runs exactly what the deque held at its start. */
    method RunSameThreadJobs()
      requires Valid() && samePosted == sameExecuted + samePending
      modifies this
      ensures Valid() && busy == old(busy)
      ensures sameExecuted == old(sameExecuted) + old(samePending) && called == old(called) + old(samePending)
      ensures samePosted == sameExecuted + samePending && old(samePosted) <= samePosted
    {
      ghost var found := samePending;
      var n := |samePending|;
      for i := 0 to n
        invariant Valid() && busy == old(busy)
        invariant found[i..] <= samePending && sameExecuted == old(sameExecuted) + found[..i]
        invariant called == old(called) + found[..i]
        invariant samePosted == sameExecuted + samePending && old(samePosted) <= samePosted
      {
        var job := samePending[0];
        ghost var q := samePending;
        Call(job);
        PopFront(q, samePending, found, i);
        assert sameExecuted + samePending == (sameExecuted + [job]) + samePending[1..];
        assert old(samePosted) <= samePosted;
        samePending := samePending[1..];
        sameExecuted := sameExecuted + [job];
      }
    }
  }

  lemma PopFront(q: seq<Job>, q': seq<Job>, found: seq<Job>, i: nat)
    requires i < |found| && found[i..] <= q && q <= q'
    ensures q'[0] == q[0] == found[i] && found[i + 1..] <= q'[1..]
    ensures found[..i + 1] == found[..i] + [q[0]] && q' == q + q'[|q|..]
  {
    assert found[i..][0] == found[i] && found[i..][1..] == found[i + 1..];
  }
}
