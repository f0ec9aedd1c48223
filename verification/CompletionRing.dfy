/**
  The io_uring completion ring and the dispatch loop over it. The kernel posts completions while the
  loop runs; the head is advanced once at the end by `cq_consume`, whose comparison of wrapped
  counters is exact as long as the tail does not pass a multiple of 2^32 behind the handled entries.
 */
module CompletionRing {
  import opened Bits
  import opened SubmissionRing

  datatype Cqe = Cqe(userData: nat, res: int)

  /** The ring in memory, the completions the loop has taken up, and the dispatch in progress: `i` of
      the `ready` completions it saw have been handled. */
  datatype CRing = CRing(
    k: nat, khead: nat, ktail: nat, cqes: seq<Cqe>, dispatched: seq<Cqe>, busy: bool, i: nat, ready: nat)
  {
    function At(c: nat): Cqe {
      var j := And(c, Pow2(k) - 1);
      if j < |cqes| then cqes[j] else Cqe(0, 0)
    }
  }

  /** Every completion ever posted, and how many of them the ring's owner has given back. */
  datatype CQueue = CQueue(capacity: nat, posted: seq<Cqe>, consumed: nat)

  // ----- The operations on the ring -----

  function PostCqe(r: CRing, c: Cqe): CRing {
    var j := And(r.ktail, Pow2(r.k) - 1);
    r.(cqes := if j < |r.cqes| then r.cqes[j := c] else r.cqes, ktail := Add32(r.ktail, 1))
  }

  /** `wait_cqe_timeout` counts the completions that are there; without any, dispatch returns. */
  function WaitCqe(r: CRing): CRing {
    var ready := Sub32(r.ktail, r.khead);
    if ready == 0 then r else r.(busy := true, i := 0, ready := ready)
  }

  /** `get_cqe(i)` and its callback. */
  function HandleCqe(r: CRing): CRing {
    r.(dispatched := r.dispatched + [r.At(Add32(r.khead, r.i))], i := r.i + 1)
  }

  /** The number of completions `cq_consume(count)` gives back. */
  function Clamped(khead: nat, ktail: nat, count: nat): nat {
    if Add32(khead, count) > ktail then Sub32(ktail, khead) else count
  }

  function FinishDispatch(r: CRing): CRing {
    r.(khead := Add32(r.khead, Clamped(r.khead, r.ktail, r.ready)), busy := false)
  }

  // ----- Refinement -----

  ghost predicate CRep(r: CRing, q: CQueue) {
    && r.k <= 30 && q.capacity == Pow2(r.k) == |r.cqes|
    && q.consumed <= |q.posted| <= q.consumed + q.capacity
    && r.khead == q.consumed % W && r.ktail == |q.posted| % W
    && (forall j :: q.consumed <= j < |q.posted| ==> r.cqes[j % Pow2(r.k)] == q.posted[j])
    && (r.busy ==> r.i <= r.ready <= |q.posted| - q.consumed)
  }

  /** What the loop has taken up is a prefix of what was posted: the part given back and the part of
      the current dispatch that is done. */
  ghost predicate InOrder(r: CRing, q: CQueue)
    requires CRep(r, q)
  {
    r.dispatched == q.posted[..q.consumed + if r.busy then r.i else 0]
  }

  lemma CapacityBound30(k: nat)
    requires k <= 30
    ensures Pow2(k) <= 0x4000_0000
  {
    Pow32();
    Pow2Monotone(k, 30);
  }

  lemma AtCounter(r: CRing, q: CQueue, j: nat)
    requires CRep(r, q) && q.consumed <= j < |q.posted|
    ensures r.At(j % W) == q.posted[j]
  {
    Pow32();
    MaskOfWrapped(j, r.k, 32);
  }

  /** Posting leaves the slots of the completions still in the ring alone. */
  lemma PostSlots(r: CRing, q: CQueue, c: Cqe)
    requires CRep(r, q) && |q.posted| < q.consumed + q.capacity
    ensures PostCqe(r, c).cqes == r.cqes[|q.posted| % Pow2(r.k) := c]
    ensures forall j :: q.consumed <= j < |q.posted| ==> PostCqe(r, c).cqes[j % Pow2(r.k)] == q.posted[j]
  {
    Pow32();
    MaskOfWrapped(|q.posted|, r.k, 32);
    forall j | q.consumed <= j < |q.posted| ensures j % Pow2(r.k) != |q.posted| % Pow2(r.k) {
      DistinctSlots(j, |q.posted|, Pow2(r.k));
    }
  }

  lemma PostRefines(r: CRing, q: CQueue, c: Cqe)
    requires CRep(r, q) && InOrder(r, q) && |q.posted| < q.consumed + q.capacity
    ensures var q' := q.(posted := q.posted + [c]);
            CRep(PostCqe(r, c), q') && InOrder(PostCqe(r, c), q')
  {
    PostSlots(r, q, c);
    WrappedSuccessor(|q.posted|);
    assert (q.posted + [c])[..|r.dispatched|] == q.posted[..|r.dispatched|];
  }

  /** The count of ready completions is exact and fits the signed result. */
  lemma WaitRefines(r: CRing, q: CQueue)
    requires CRep(r, q) && InOrder(r, q) && !r.busy
    ensures Sub32(r.ktail, r.khead) == |q.posted| - q.consumed < 0x8000_0000
    ensures CRep(WaitCqe(r), q) && InOrder(WaitCqe(r), q)
  {
    CapacityBound30(r.k);
    WrappedDifference(|q.posted|, q.consumed);
  }

  lemma HandleRefines(r: CRing, q: CQueue)
    requires CRep(r, q) && InOrder(r, q) && r.busy && r.i < r.ready
    ensures CRep(HandleCqe(r), q) && InOrder(HandleCqe(r), q)
  {
    HandledIs(r, q);
  }

  /** The clamp on true counters: `head`, and `tail` at least `count` further on. */
  lemma ClampExact(head: nat, tail: nat, count: nat)
    requires head + count <= tail <= head + 0x4000_0000
    ensures Clamped(head % W, tail % W, count) == if (head + count) / W == tail / W then count else tail - head
    ensures (head + count) / W != tail / W ==> head + count != tail
  {
    WrappedSum(head, count);
    WrappedDifference(tail, head);
  }

  lemma HandledIs(r: CRing, q: CQueue)
    requires CRep(r, q) && r.busy && r.i < r.ready
    ensures And(Add32(r.khead, r.i), Pow2(r.k) - 1) < |r.cqes|
    ensures HandleCqe(r) == r.(dispatched := r.dispatched + [q.posted[q.consumed + r.i]], i := r.i + 1)
  {
    WrappedSum(q.consumed, r.i);
    AtCounter(r, q, q.consumed + r.i);
    Pow32();
    MaskOfWrapped(q.consumed + r.i, r.k, 32);
  }

  /** `cq_consume` never moves the head past the tail, and it gives back exactly the handled
      completions if and only if the tail and the new head lie in the same 2^32 block. Otherwise it
      gives everything back: the completions posted since the wait are lost. */
  lemma ConsumeExact(r: CRing, q: CQueue)
    requires CRep(r, q) && r.busy
    ensures var back := Clamped(r.khead, r.ktail, r.ready);
            && r.ready <= back <= |q.posted| - q.consumed
            && CRep(FinishDispatch(r), q.(consumed := q.consumed + back))
            && (back == r.ready <==> (q.consumed + r.ready) / W == |q.posted| / W)
            && (back != r.ready ==> back == |q.posted| - q.consumed)
  {
    CapacityBound30(r.k);
    ClampExact(q.consumed, |q.posted|, r.ready);
    WrappedSum(q.consumed, Clamped(r.khead, r.ktail, r.ready));
  }

  /** So the whole dispatch keeps the posting order exactly when the tail does not wrap behind it. */
  lemma FinishRefines(r: CRing, q: CQueue)
    requires CRep(r, q) && InOrder(r, q) && r.busy && r.i == r.ready
    ensures var q' := q.(consumed := q.consumed + Clamped(r.khead, r.ktail, r.ready));
            && CRep(FinishDispatch(r), q')
            && (InOrder(FinishDispatch(r), q') <==> (q.consumed + r.ready) / W == |q.posted| / W)
  {
    ConsumeExact(r, q);
    var q' := q.(consumed := q.consumed + Clamped(r.khead, r.ktail, r.ready));
    if InOrder(FinishDispatch(r), q') {
      assert |r.dispatched| == q'.consumed;
    }
  }

  /** What the last step of a dispatch does to ring and queue. */
  lemma DispatchEnds(r: CRing, q: CQueue)
    requires CRep(r, q) && InOrder(r, q) && r.busy && r.i == r.ready
    ensures var q' := q.(consumed := q.consumed + Clamped(r.khead, r.ktail, r.ready));
            && CRep(FinishDispatch(r), q') && r.dispatched == q.posted[..q.consumed + r.ready]
            && q.consumed + r.ready <= q'.consumed
            && (q'.consumed == q.consumed + r.ready <==> (q.consumed + r.ready) / W == |q.posted| / W)
            && (InOrder(FinishDispatch(r), q') <==> (q.consumed + r.ready) / W == |q.posted| / W)
  {
    ConsumeExact(r, q);
    FinishRefines(r, q);
  }

  // ----- Runs -----

  datatype CEvent = EPost(c: Cqe) | EWait | EHandle | EFinish

  ghost predicate CCan(r: CRing, q: CQueue, e: CEvent) {
    match e
    case EPost(c) => |q.posted| < q.consumed + q.capacity
    case EWait => !r.busy
    case EHandle => r.busy && r.i < r.ready
    case EFinish => r.busy && r.i == r.ready
  }

  function CRingStep(r: CRing, e: CEvent): CRing {
    match e
    case EPost(c) => PostCqe(r, c)
    case EWait => WaitCqe(r)
    case EHandle => HandleCqe(r)
    case EFinish => FinishDispatch(r)
  }

  function CQueueStep(r: CRing, q: CQueue, e: CEvent): CQueue {
    match e
    case EPost(c) => q.(posted := q.posted + [c])
    case EFinish => q.(consumed := q.consumed + Clamped(r.khead, r.ktail, r.ready))
    case _ => q
  }

  /** The tail stays in the 2^32 block of the last completion this dispatch handled. */
  ghost predicate NoWrapBehind(r: CRing, q: CQueue, e: CEvent) {
    e.EFinish? ==> (q.consumed + r.ready) / W == |q.posted| / W
  }

  ghost predicate CRun(rs: seq<CRing>, qs: seq<CQueue>, es: seq<CEvent>) {
    && |rs| == |qs| == |es| + 1
    && rs[0].k <= 30 && |rs[0].cqes| == Pow2(rs[0].k)
    && rs[0] == CRing(rs[0].k, 0, 0, rs[0].cqes, [], false, 0, 0) && qs[0] == CQueue(Pow2(rs[0].k), [], 0)
    && forall j :: 0 <= j < |es| ==>
         && CCan(rs[j], qs[j], es[j])
         && rs[j + 1] == CRingStep(rs[j], es[j])
         && qs[j + 1] == CQueueStep(rs[j], qs[j], es[j])
  }

  lemma CStepRefines(r: CRing, q: CQueue, e: CEvent)
    requires CRep(r, q) && InOrder(r, q) && CCan(r, q, e) && NoWrapBehind(r, q, e)
    ensures CRep(CRingStep(r, e), CQueueStep(r, q, e)) && InOrder(CRingStep(r, e), CQueueStep(r, q, e))
  {
    match e
    case EPost(c) => PostRefines(r, q, c);
    case EWait => WaitRefines(r, q);
    case EHandle => HandleRefines(r, q);
    case EFinish => FinishRefines(r, q);
  }

  /** In every run of kernel and dispatch loop in which no tail wraps behind a dispatch, the loop takes up
      each posted completion exactly once and in posting order. */
  lemma {:induction false} CompletionsInOrder(rs: seq<CRing>, qs: seq<CQueue>, es: seq<CEvent>, n: nat)
    requires CRun(rs, qs, es) && n <= |es|
    requires forall j :: 0 <= j < |es| ==> NoWrapBehind(rs[j], qs[j], es[j])
    ensures CRep(rs[n], qs[n]) && InOrder(rs[n], qs[n])
  {
    if n > 0 {
      CompletionsInOrder(rs, qs, es, n - 1);
      CStepRefines(rs[n - 1], qs[n - 1], es[n - 1]);
    }
  }

  // ----- The wrap is reached -----

  lemma CExtend(rs: seq<CRing>, qs: seq<CQueue>, es: seq<CEvent>, e: CEvent)
    returns (rs': seq<CRing>, qs': seq<CQueue>, es': seq<CEvent>)
    requires CRun(rs, qs, es) && CCan(rs[|es|], qs[|es|], e)
    ensures CRun(rs', qs', es')
    ensures rs'[|es'|] == CRingStep(rs[|es|], e) && qs'[|es'|] == CQueueStep(rs[|es|], qs[|es|], e)
  {
    rs', qs', es' := rs + [CRingStep(rs[|es|], e)], qs + [CQueueStep(rs[|es|], qs[|es|], e)], es + [e];
  }

  /** A ring of two entries in which everything posted has been handled and given back. */
  ghost predicate Settled(r: CRing, q: CQueue, posted: seq<Cqe>) {
    r.k == 1 && !r.busy && q == CQueue(2, posted, |posted|) && CRep(r, q) && InOrder(r, q)
  }

  /** One completion is posted, waited for and handled. */
  lemma Handled(r: CRing, q: CQueue, posted: seq<Cqe>, c: Cqe)
    requires Settled(r, q, posted)
    ensures var r1, q1 := PostCqe(r, c), q.(posted := posted + [c]);
            && CCan(r, q, EPost(c)) && CCan(r1, q1, EWait) && CCan(WaitCqe(r1), q1, EHandle)
            && var r3 := HandleCqe(WaitCqe(r1));
               CRep(r3, q1) && InOrder(r3, q1) && r3.busy && r3.i == r3.ready == 1 && r3.k == 1
  {
    var r1, q1 := PostCqe(r, c), q.(posted := posted + [c]);
    PostRefines(r, q, c);
    WaitRefines(r1, q1);
    HandleRefines(WaitCqe(r1), q1);
  }

  lemma HandledRun(rs: seq<CRing>, qs: seq<CQueue>, es: seq<CEvent>, posted: seq<Cqe>, c: Cqe)
    returns (rs': seq<CRing>, qs': seq<CQueue>, es': seq<CEvent>)
    requires CRun(rs, qs, es) && Settled(rs[|es|], qs[|es|], posted)
    ensures CRun(rs', qs', es')
    ensures rs'[|es'|] == HandleCqe(WaitCqe(PostCqe(rs[|es|], c)))
    ensures qs'[|es'|] == qs[|es|].(posted := posted + [c])
  {
    Handled(rs[|es|], qs[|es|], posted, c);
    rs', qs', es' := CExtend(rs, qs, es, EPost(c));
    rs', qs', es' := CExtend(rs', qs', es', EWait);
    rs', qs', es' := CExtend(rs', qs', es', EHandle);
  }

  lemma FinishedSettles(r: CRing, q: CQueue)
    requires CRep(r, q) && InOrder(r, q) && r.busy && r.i == r.ready && r.k == 1
    requires q.capacity == 2 && q.consumed + r.ready == |q.posted|
    ensures Settled(FinishDispatch(r), q.(consumed := q.consumed + Clamped(r.khead, r.ktail, r.ready)), q.posted)
  {
    FinishRefines(r, q);
    ConsumeExact(r, q);
  }

  /** Any sequence of completions can be posted and handled one by one. */
  lemma {:induction false} ReachSettled(posted: seq<Cqe>) returns (rs: seq<CRing>, qs: seq<CQueue>, es: seq<CEvent>)
    ensures CRun(rs, qs, es) && Settled(rs[|es|], qs[|es|], posted)
  {
    if posted == [] {
      var cqes := [Cqe(0, 0), Cqe(0, 0)];
      assert Pow2(1) == 2;
      rs, qs, es := [CRing(1, 0, 0, cqes, [], false, 0, 0)], [CQueue(2, [], 0)], [];
    } else {
      var n := |posted| - 1;
      rs, qs, es := ReachSettled(posted[..n]);
      Handled(rs[|es|], qs[|es|], posted[..n], posted[n]);
      rs, qs, es := HandledRun(rs, qs, es, posted[..n], posted[n]);
      assert posted[..n] + [posted[n]] == posted;
      FinishedSettles(rs[|es|], qs[|es|]);
      rs, qs, es := CExtend(rs, qs, es, EFinish);
    }
  }

  /** A run that ends with completion number 2^32 - 2 handled while one more is posted: the tail wraps,
      the test sees a head beyond the tail, and the new completion is given back without having been
      taken up. */
  lemma WrapLosesCompletion(posted: seq<Cqe>) returns (rs: seq<CRing>, qs: seq<CQueue>, es: seq<CEvent>)
    requires |posted| == W
    ensures CRun(rs, qs, es) && qs[|es|] == CQueue(2, posted, W)
    ensures rs[|es|].khead == rs[|es|].ktail && !rs[|es|].busy && rs[|es|].dispatched == posted[..W - 1]
  {
    rs, qs, es := ReachWrap(posted);
    ConsumeExact(rs[|es|], qs[|es|]);
    rs, qs, es := CExtend(rs, qs, es, EFinish);
  }

  /** The same run up to the last step of its last dispatch. */
  lemma ReachWrap(posted: seq<Cqe>) returns (rs: seq<CRing>, qs: seq<CQueue>, es: seq<CEvent>)
    requires |posted| == W
    ensures CRun(rs, qs, es) && qs[|es|] == CQueue(2, posted, W - 2) && CRep(rs[|es|], qs[|es|])
    ensures rs[|es|].busy && rs[|es|].i == rs[|es|].ready == 1 && rs[|es|].dispatched == posted[..W - 1]
  {
    var n := W - 2;
    rs, qs, es := ReachHandled(posted, n);
    var r, q := rs[|es|], qs[|es|];
    PostRefines(r, q, posted[n + 1]);
    rs, qs, es := CExtend(rs, qs, es, EPost(posted[n + 1]));
    assert posted[..n + 1] + [posted[n + 1]] == posted;
  }

  /** The first `n` of the completions given back and the next one taken up. */
  lemma ReachHandled(posted: seq<Cqe>, n: nat) returns (rs: seq<CRing>, qs: seq<CQueue>, es: seq<CEvent>)
    requires n < |posted|
    ensures CRun(rs, qs, es) && qs[|es|] == CQueue(2, posted[..n + 1], n) && CRep(rs[|es|], qs[|es|])
    ensures rs[|es|].busy && rs[|es|].i == rs[|es|].ready == 1 && rs[|es|].dispatched == posted[..n + 1]
    ensures InOrder(rs[|es|], qs[|es|])
  {
    rs, qs, es := ReachSettled(posted[..n]);
    Handled(rs[|es|], qs[|es|], posted[..n], posted[n]);
    rs, qs, es := HandledRun(rs, qs, es, posted[..n], posted[n]);
    assert posted[..n] + [posted[n]] == posted[..n + 1];
    assert posted[..n + 1][..n + 1] == posted[..n + 1];
  }

  // ----- The object -----

  class CompletionQueue {
    var khead: nat
    var ktail: nat
    const k: nat
    const kringMask: nat
    const cqes: array<Cqe>
    ghost var dispatched: seq<Cqe>
    ghost var busy: bool
    ghost var i: nat
    ghost var ready: nat
    ghost var q: CQueue

    ghost function Value(): CRing
      reads this, cqes
    {
      CRing(k, khead, ktail, cqes[..], dispatched, busy, i, ready)
    }

    ghost predicate Valid()
      reads this, cqes
    {
      kringMask == Pow2(k) - 1 && CRep(Value(), q) && InOrder(Value(), q)
    }

    constructor (k: nat)
      requires k <= 30
      ensures Valid() && fresh(cqes) && !busy && q == CQueue(Pow2(k), [], 0)
    {
      this.k, kringMask := k, Pow2(k) - 1;
      khead, ktail := 0, 0;
      cqes := new Cqe[Pow2(k)](_ => Cqe(0, 0));
      dispatched, busy, i, ready, q := [], false, 0, 0, CQueue(Pow2(k), [], 0);
    }

    /** The kernel posts one completion. */
    method Post(c: Cqe)
      requires Valid() && |q.posted| < q.consumed + q.capacity
      modifies this`ktail, this`q, cqes
      ensures Valid() && q == old(q).(posted := old(q).posted + [c])
    {
      PostRefines(Value(), q, c);
      PostSlots(Value(), q, c);
      Pow32();
      MaskOfWrapped(|q.posted|, k, 32);
      ghost var next := PostCqe(Value(), c);
      cqes[And(ktail, kringMask)] := c;
      ktail := Add32(ktail, 1);
      assert Value() == next;
      q := q.(posted := q.posted + [c]);
    }

    /** Callbacks and kernel post what they like; callers know the contract only. */
    method Interfere()
      requires Valid()
      modifies this`ktail, this`q, cqes
      ensures Valid() && old(q).posted <= q.posted && q == old(q).(posted := q.posted)
    {
    }

    method WaitCqeTimeout() returns (n: nat)
      requires Valid() && !busy
      modifies this`busy, this`i, this`ready
      ensures Valid() && n == |q.posted| - q.consumed && busy == (n > 0)
      ensures busy ==> i == 0 && ready == n
      ensures Value() == WaitCqe(old(Value()))
    {
      WaitRefines(Value(), q);
      n := Sub32(ktail, khead);
      if n > 0 {
        busy, i, ready := true, 0, n;
      }
    }

    method Handle(idx: nat)
      requires Valid() && busy && idx == i < ready
      modifies this`dispatched, this`i
      ensures Valid() && i == idx + 1 && dispatched == old(dispatched) + [q.posted[q.consumed + idx]]
    {
      HandleRefines(Value(), q);
      HandledIs(Value(), q);
      var cqe := cqes[And(Add32(khead, idx), kringMask)];
      dispatched, i := dispatched + [cqe], i + 1;
      assert Value() == HandleCqe(old(Value()));
    }

    /** `dispatch` and `cq_consume`: unless the tail wrapped behind the handled completions, exactly
        those are given back. */
    method Dispatch() returns (ret: int)
      requires Valid() && !busy
      modifies this, cqes
      ensures kringMask == Pow2(k) - 1 && CRep(Value(), q) && !busy
      ensures old(q).posted <= q.posted
      ensures ret == if |old(q).posted| == old(q).consumed then -1 else 0
      ensures ret == -1 ==> Value() == old(Value()) && q == old(q)
      ensures ret == 0 ==> dispatched == q.posted[..|old(q).posted|] && |old(q).posted| <= q.consumed
      ensures ret == 0 ==> (q.consumed == |old(q).posted| <==> |old(q).posted| / W == |q.posted| / W)
      ensures |old(q).posted| / W == |q.posted| / W ==> Valid()
    {
      var n := WaitCqeTimeout();
      if n == 0 {
        return -1;
      }
      HandleAll(n);
      DispatchEnds(Value(), q);
      CqConsume(n);
      return 0;
    }

    /** The loop of `dispatch`; the kernel may post while callbacks are running. */
    method HandleAll(n: nat)
      requires Valid() && busy && i == 0 && ready == n
      modifies this`ktail, this`q, this`dispatched, this`i, cqes
      ensures Valid() && i == n && old(q).posted <= q.posted && q == old(q).(posted := q.posted)
    {
      for idx := 0 to n
        invariant Valid() && i == idx && q == old(q).(posted := q.posted)
        invariant old(q).posted <= q.posted
      {
        Handle(idx);
        Interfere();
      }
    }

    method CqConsume(count: nat)
      requires CRep(Value(), q) && busy && count == ready
      modifies this`khead, this`busy, this`q
      ensures Value() == FinishDispatch(old(Value())) && !busy
      ensures q == old(q).(consumed := old(q).consumed + Clamped(old(khead), ktail, count))
    {
      var tail := ktail;
      var head := khead;
      var n := count;
      if Add32(head, n) > tail {
        n := Sub32(tail, head);
      }
      khead := Add32(head, n);
      q, busy := q.(consumed := q.consumed + n), false;
    }
  }
}
