/**
  The io_uring submission ring: 32-bit wrapping counters, a power-of-two slot array and a kernel that
  consumes published entries whenever it likes. The ring is proved to be a bounded FIFO queue.
 */
module SubmissionRing {
  import opened Bits

  const W: nat := 0x1_0000_0000

  /** One submission queue entry: what `get_sqe` resets and what the caller fills in. */
  datatype Sqe = Sqe(flags: int, body: int)

  /** The ring as it lies in memory. `log` is what the kernel has taken out of it. */
  datatype Ring = Ring(k: nat, sqeTail: nat, ktail: nat, khead: nat, slots: seq<Sqe>, log: seq<Sqe>) {
    function Entries(): nat {
      Pow2(k)
    }
    function Mask(): nat {
      Pow2(k) - 1
    }
    function At(i: nat): Sqe {
      if i < |slots| then slots[i] else Sqe(0, 0)
    }
    function With(i: nat, s: Sqe): seq<Sqe> {
      if i < |slots| then slots[i := s] else slots
    }
  }

  /** The queue it implements: every entry ever prepared, how many of them the kernel may see, and how
      many it has consumed. */
  datatype Queue = Queue(capacity: nat, prepared: seq<Sqe>, published: nat, consumed: nat) {
    predicate Ok() {
      consumed <= published <= |prepared| <= consumed + capacity
    }
  }

  function Add32(a: nat, b: nat): nat {
    (a + b) % W
  }

  function Sub32(a: nat, b: nat): nat {
    (a - b) % W
  }

  // ----- The operations on the ring -----

  function InitSqe(s: Sqe): Sqe {
    s.(flags := 0)
  }

  /** `next - head <= entries`, in 32-bit arithmetic. */
  predicate HasRoom(r: Ring) {
    Sub32(Add32(r.sqeTail, 1), r.khead) <= r.Entries()
  }

  function SlotOf(r: Ring, counter: nat): nat {
    And(counter, r.Mask())
  }

  function TakeSqe(r: Ring): Ring {
    if HasRoom(r) then
      var i := SlotOf(r, r.sqeTail);
      r.(sqeTail := Add32(r.sqeTail, 1), slots := r.With(i, InitSqe(r.At(i))))
    else r
  }

  /** The caller fills the entry it was handed last. */
  function Fill(r: Ring, s: Sqe): Ring {
    r.(slots := r.With(SlotOf(r, Sub32(r.sqeTail, 1)), s))
  }

  /** The store to the kernel's tail in `submit`. */
  function Publish(r: Ring): Ring {
    r.(ktail := r.sqeTail)
  }

  /** The kernel takes the next entry, which it finds by masking its own head. */
  function ConsumeOne(r: Ring): Ring {
    r.(khead := Add32(r.khead, 1), log := r.log + [r.At(SlotOf(r, r.khead))])
  }

  // ----- The operations on the queue -----

  function QGet(q: Queue, blank: Sqe): Queue {
    if |q.prepared| - q.consumed < q.capacity then q.(prepared := q.prepared + [blank]) else q
  }

  function QFill(q: Queue, s: Sqe): Queue {
    if q.prepared == [] then q else q.(prepared := q.prepared[|q.prepared| - 1 := s])
  }

  function QPublish(q: Queue): Queue {
    q.(published := |q.prepared|)
  }

  function QConsume(q: Queue): Queue {
    q.(consumed := q.consumed + 1)
  }

  // ----- Refinement -----

  /** The ring represents the queue: its counters are the queue's modulo 2^32, and every unconsumed
      entry lies in the slot its position selects. */
  ghost predicate Rep(r: Ring, q: Queue) {
    && r.k <= 31 && q.capacity == Pow2(r.k) && |r.slots| == Pow2(r.k) && q.Ok()
    && r.sqeTail == |q.prepared| % W
    && r.ktail == q.published % W
    && r.khead == q.consumed % W
    && (forall i :: q.consumed <= i < |q.prepared| ==> r.slots[i % Pow2(r.k)] == q.prepared[i])
    && r.log == q.prepared[..q.consumed]
  }

  lemma Pow32()
    ensures Pow2(31) == 0x8000_0000 && Pow2(32) == W
  {
    assert Pow2(8) == 256;
    Pow2Splits(8, 8);
    Pow2Splits(16, 16);
  }

  lemma CapacityBound(k: nat)
    requires k <= 31
    ensures Pow2(k) <= 0x8000_0000
  {
    Pow32();
    Pow2Monotone(k, 31);
  }

  /** A slot index computed from a wrapped counter is the slot of the unwrapped one. */
  lemma SlotOfCounter(r: Ring, x: nat)
    requires r.k <= 31
    ensures SlotOf(r, x % W) == x % Pow2(r.k)
  {
    Pow32();
    MaskOfWrapped(x, r.k, 32);
  }

  lemma WrappedDifference(x: nat, y: nat)
    requires y <= x && x - y < W
    ensures Sub32(x % W, y % W) == x - y
  {
  }

  lemma WrappedSum(x: nat, y: nat)
    ensures Add32(x % W, y) == (x + y) % W
  {
  }

  lemma WrappedSuccessor(x: nat)
    ensures Add32(x % W, 1) == (x + 1) % W
    ensures x > 0 ==> Sub32(x % W, 1) == (x - 1) % W
  {
  }

  /** Two positions less than the ring size apart never share a slot. */
  lemma DistinctSlots(i: nat, j: nat, n: nat)
    requires n > 0 && i < j < i + n
    ensures i % n != j % n
  {
    if i % n == j % n {
      assert j == n * (j / n) + j % n && i == n * (i / n) + i % n;
      assert j - i == n * (j / n - i / n) && i - j == n * (i / n - j / n);
      if j / n > i / n {
        MulAtLeast(n, j / n - i / n);
      } else if i / n > j / n {
        MulAtLeast(n, i / n - j / n);
      }
    }
  }

  /** The modular test of `get_sqe` is the true occupancy test, across any number of wraps. */
  lemma RoomIsRoom(r: Ring, q: Queue)
    requires Rep(r, q)
    ensures HasRoom(r) <==> |q.prepared| - q.consumed < q.capacity
  {
    CapacityBound(r.k);
    WrappedSuccessor(|q.prepared|);
    WrappedDifference(|q.prepared| + 1, q.consumed);
  }

  /** `get_sqe` hands out a slot exactly when the queue has room, and never one that an unconsumed
      entry occupies. */
  lemma GetSqeRefines(r: Ring, q: Queue)
    requires Rep(r, q)
    ensures SlotOf(r, r.sqeTail) < |r.slots|
    ensures HasRoom(r) <==> |q.prepared| - q.consumed < q.capacity
    ensures Rep(TakeSqe(r), QGet(q, InitSqe(r.At(SlotOf(r, r.sqeTail)))))
    ensures HasRoom(r) ==> forall i :: q.consumed <= i < |q.prepared| ==> SlotOf(r, r.sqeTail) != SlotOf(r, i % W)
    ensures HasRoom(r) ==> TakeSqe(r).At(SlotOf(r, r.sqeTail)) == Sqe(0, r.At(SlotOf(r, r.sqeTail)).body)
  {
    var n := |q.prepared|;
    RoomIsRoom(r, q);
    SlotOfCounter(r, n);
    WrappedSuccessor(n);
    if HasRoom(r) {
      forall i | q.consumed <= i < n ensures n % Pow2(r.k) != i % Pow2(r.k) && SlotOf(r, i % W) == i % Pow2(r.k) {
        DistinctSlots(i, n, Pow2(r.k));
        SlotOfCounter(r, i);
      }
      var q' := QGet(q, InitSqe(r.At(SlotOf(r, r.sqeTail))));
      assert q'.prepared[..q.consumed] == q.prepared[..q.consumed];
    }
  }

  lemma FillRefines(r: Ring, q: Queue, s: Sqe)
    requires Rep(r, q) && q.published < |q.prepared|
    ensures SlotOf(r, Sub32(r.sqeTail, 1)) < |r.slots|
    ensures Rep(Fill(r, s), QFill(q, s))
  {
    var n := |q.prepared|;
    WrappedSuccessor(n);
    SlotOfCounter(r, n - 1);
    forall i | q.consumed <= i < n - 1 ensures i % Pow2(r.k) != (n - 1) % Pow2(r.k) {
      DistinctSlots(i, n - 1, Pow2(r.k));
    }
    assert QFill(q, s).prepared[..q.consumed] == q.prepared[..q.consumed];
  }

  /** The number `submit` passes to the kernel is the number of unpublished entries. */
  lemma PublishRefines(r: Ring, q: Queue)
    requires Rep(r, q)
    ensures Rep(Publish(r), QPublish(q))
    ensures Sub32(r.sqeTail, r.ktail) == |q.prepared| - q.published
  {
    CapacityBound(r.k);
    WrappedDifference(|q.prepared|, q.published);
  }

  lemma ConsumeRefines(r: Ring, q: Queue)
    requires Rep(r, q) && q.consumed < q.published
    ensures SlotOf(r, r.khead) < |r.slots|
    ensures Rep(ConsumeOne(r), QConsume(q))
    ensures ConsumeOne(r).log == r.log + [q.prepared[q.consumed]]
  {
    SlotOfCounter(r, q.consumed);
    WrappedSuccessor(q.consumed);
    assert q.prepared[..q.consumed + 1] == q.prepared[..q.consumed] + [q.prepared[q.consumed]];
  }

  // ----- Runs -----

  datatype Event = EGet | EFill(s: Sqe) | EPublish | EConsume

  ghost predicate Can(q: Queue, e: Event) {
    match e
    case EGet => true
    case EFill(s) => q.published < |q.prepared|
    case EPublish => true
    case EConsume => q.consumed < q.published
  }

  function RingStep(r: Ring, e: Event): Ring {
    match e
    case EGet => TakeSqe(r)
    case EFill(s) => Fill(r, s)
    case EPublish => Publish(r)
    case EConsume => ConsumeOne(r)
  }

  /** The queue's step; an entry handed out keeps what `get_sqe` does not reset (`blank`). */
  function QueueStep(q: Queue, e: Event, blank: Sqe): Queue {
    match e
    case EGet => QGet(q, blank)
    case EFill(s) => QFill(q, s)
    case EPublish => QPublish(q)
    case EConsume => QConsume(q)
  }

  lemma StepRefines(r: Ring, q: Queue, e: Event)
    requires Rep(r, q) && Can(q, e)
    ensures var q' := QueueStep(q, e, InitSqe(r.At(SlotOf(r, r.sqeTail))));
            && Rep(RingStep(r, e), q')
            && q'.prepared[..q.published] == q.prepared[..q.published]
  {
    match e
    case EGet => GetSqeRefines(r, q);
    case EFill(s) => FillRefines(r, q, s);
    case EPublish => PublishRefines(r, q);
    case EConsume => ConsumeRefines(r, q);
  }

  /** A run of ring and queue side by side from an empty ring. */
  ghost predicate Run(rs: seq<Ring>, qs: seq<Queue>, es: seq<Event>) {
    && |rs| == |qs| == |es| + 1
    && rs[0].k <= 31 && |rs[0].slots| == Pow2(rs[0].k)
    && rs[0] == Ring(rs[0].k, 0, 0, 0, rs[0].slots, []) && qs[0] == Queue(Pow2(rs[0].k), [], 0, 0)
    && forall i :: 0 <= i < |es| ==>
         && Can(qs[i], es[i])
         && rs[i + 1] == RingStep(rs[i], es[i])
         && qs[i + 1] == QueueStep(qs[i], es[i], InitSqe(rs[i].At(SlotOf(rs[i], rs[i].sqeTail))))
  }

  /** In every run, however the kernel interleaves its consumption and however often the counters wrap,
      the ring represents the queue; so what the kernel has received is exactly the consumed prefix of
      what was prepared, each entry once and in preparation order. */
  lemma {:induction false} RingIsQueue(rs: seq<Ring>, qs: seq<Queue>, es: seq<Event>, i: nat)
    requires Run(rs, qs, es) && i <= |es|
    ensures Rep(rs[i], qs[i])
    ensures rs[i].log == qs[i].prepared[..qs[i].consumed]
  {
    if i > 0 {
      RingIsQueue(rs, qs, es, i - 1);
      StepRefines(rs[i - 1], qs[i - 1], es[i - 1]);
    }
  }

  // ----- The object -----

  /** `submission_queue` with the methods of `io_uring_wrapper` on it. `q` is the queue it stands for. */
  class SubmissionQueue {
    var khead: nat
    var ktail: nat
    var sqeTail: nat
    const k: nat
    const kringEntries: nat
    const kringMask: nat
    const sqes: array<Sqe>
    ghost var log: seq<Sqe>
    ghost var q: Queue
    // The counts with which the kernel was entered, and whether it failed the last time.
    ghost var entered: seq<nat>
    ghost var failed: bool

    ghost function Value(): Ring
      reads this, sqes
    {
      Ring(k, sqeTail, ktail, khead, sqes[..], log)
    }

    ghost predicate Valid()
      reads this, sqes
    {
      kringEntries == Pow2(k) && kringMask == Pow2(k) - 1 && Rep(Value(), q)
    }

    constructor (k: nat)
      requires k <= 31
      ensures Valid() && q == Queue(Pow2(k), [], 0, 0) && fresh(sqes) && entered == []
    {
      this.k, kringEntries, kringMask := k, Pow2(k), Pow2(k) - 1;
      khead, ktail, sqeTail := 0, 0, 0;
      sqes := new Sqe[Pow2(k)](_ => Sqe(0, 0));
      log, q := [], Queue(Pow2(k), [], 0, 0);
      entered, failed := [], false;
    }

    /** Hands out the index of a slot, or -1 for the null pointer when the ring is full. */
    method GetSqe() returns (slot: int)
      requires Valid()
      modifies this`sqeTail, this`q, sqes
      ensures Valid()
      ensures slot == -1 <==> |old(q).prepared| == old(q).consumed + old(q).capacity
      ensures slot == -1 ==> q == old(q) && sqes[..] == old(sqes[..])
      ensures slot != -1 ==>
                && slot == SlotOf(old(Value()), old(sqeTail))
                && q == QGet(old(q), InitSqe(old(Value()).At(SlotOf(old(Value()), old(sqeTail)))))
                && 0 <= slot < sqes.Length && sqes[slot] == Sqe(0, old(sqes[slot]).body)
                && forall i :: 0 <= i < sqes.Length && i != slot ==> sqes[i] == old(sqes[i])
    {
      GetSqeRefines(Value(), q);
      var next := Add32(sqeTail, 1);
      var head := khead;
      slot := -1;
      if Sub32(next, head) <= kringEntries {
        slot := And(sqeTail, kringMask);
        sqeTail := next;
        ghost var blank := InitSqe(sqes[slot]);
        sqes[slot] := InitSqe(sqes[slot]);
        q := QGet(q, blank);
        assert Value() == TakeSqe(old(Value()));
      }
    }

    /** The caller fills in the entry it was handed last, before it submits. */
    method Prepare(s: Sqe)
      requires Valid() && q.published < |q.prepared|
      modifies this`q, sqes
      ensures Valid() && q == QFill(old(q), s)
    {
      FillRefines(Value(), q, s);
      sqes[And(Sub32(sqeTail, 1), kringMask)] := s;
      q := QFill(q, s);
    }

    /** `io_uring_enter`: the kernel takes published entries in order, at most as many as it is told to, or
        fails. Callers know the contract only. */
    method Enter(toSubmit: nat) returns (ret: int)
      requires Valid()
      modifies this`khead, this`log, this`q, this`entered, this`failed
      ensures Valid() && q == old(q).(consumed := q.consumed) && q.consumed >= old(q).consumed
      ensures ret >= 0 ==> ret == q.consumed - old(q).consumed && ret <= toSubmit
      ensures entered == old(entered) + [toSubmit] && failed == (ret < 0)
    {
      entered, failed := entered + [toSubmit], false;
      ret := 0;
      while ret < toSubmit && ktail != khead
        invariant Valid() && q == old(q).(consumed := q.consumed)
        invariant 0 <= ret == q.consumed - old(q).consumed <= toSubmit
        invariant entered == old(entered) + [toSubmit] && !failed
        decreases toSubmit - ret
      {
        TakeOne();
        ret := ret + 1;
      }
    }

    /** The kernel takes the entry that its own head selects. */
    method TakeOne()
      requires Valid() && ktail != khead
      modifies this`khead, this`log, this`q
      ensures Valid() && q == QConsume(old(q))
    {
      ConsumeRefines(Value(), q);
      log := log + [sqes[And(khead, kringMask)]];
      khead := Add32(khead, 1);
      q := QConsume(q);
    }

    /** `submit`: publishes what was prepared and enters the kernel, which may take only a part or fail. */
    method Submit() returns (ret: int)
      requires Valid()
      modifies this`ktail, this`khead, this`log, this`q, this`entered, this`failed
      ensures Valid()
      ensures q.prepared == old(q).prepared && q.consumed >= old(q).consumed
      ensures old(q).published == |old(q).prepared| ==> ret == 0 && q == old(q) && entered == old(entered)
      ensures old(q).published < |old(q).prepared| ==>
                && q.published == |q.prepared|
                && entered == old(entered) + [|old(q).prepared| - old(q).published]
                && (ret < 0 <==> failed)
                && (ret >= 0 ==> ret == q.consumed - old(q).consumed)
    {
      PublishRefines(Value(), q);
      var toSubmit := Sub32(sqeTail, ktail);
      if toSubmit == 0 {
        return 0;
      }
      ktail := sqeTail;
      q := QPublish(q);
      ret := Enter(toSubmit);
    }

    /** `get_io_uring_sqe` submits and retries on a full ring, but only when the submission reported
        zero entries. Since the kernel consumes entries only when it is entered, the retry never
        helps: the null pointer is returned for every full ring, also when the submission made room. */
    method GetIoUringSqe() returns (slot: int)
      requires Valid()
      modifies this`ktail, this`khead, this`log, this`q, this`sqeTail, this`entered, this`failed, sqes
      ensures Valid()
      ensures slot == -1 <==> |old(q).prepared| == old(q).consumed + old(q).capacity
      ensures slot == -1 ==> q.prepared == old(q).prepared && q.published == |q.prepared|
      ensures entered == old(entered) + if slot == -1 && old(q).published < |old(q).prepared|
                                        then [|old(q).prepared| - old(q).published] else []
      ensures slot != -1 ==> |q.prepared| == |old(q).prepared| + 1 && q.prepared[|old(q).prepared|].flags == 0
    {
      slot := GetSqe();
      if slot != -1 {
        return;
      }
      var ret := Submit();
      if ret != 0 {
        return -1;
      }
      slot := GetSqe();
    }
  }
}
