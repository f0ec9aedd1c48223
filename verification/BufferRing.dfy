/**
  A group of provided buffers: the ring of free blocks with its 16-bit tail, the kernel that takes
  blocks out of it, and the dispatch step that hands a filled block to its callback and puts it back.
  The group remembers how far into a block the last completion reached (`last_buffer_info`).
 */
module BufferRing {
  import opened Bits
  import opened SubmissionRing

  const W16: nat := 0x1_0000
  const Uint32Max: nat := 0xFFFF_FFFF

  datatype Buf = Buf(addr: nat, len: nat, bid: nat)

  /** One call of a completion's callback: the block and the place in it where data is looked for. */
  datatype Delivery = Delivery(bid: nat, data: nat)

  /** What registration fixes: 2^k blocks of `size` bytes, whose ids start at `start`. */
  datatype Shape = Shape(k: nat, start: nat, size: nat, addrs: seq<nat>) {
    /** What the ring says about block `j` of the group; ids are 16 bits wide. */
    function Block(j: nat): Buf {
      Buf(if j < |addrs| then addrs[j] else 0, size, (start + j) % W16)
    }
    ghost predicate Ok() {
      k <= 15 && size > 0 && |addrs| == Pow2(k) && start + Pow2(k) <= W16
    }
  }

  /** The group as the program and the kernel hold it. `outs` are the blocks the kernel has taken, in
      the order in which it posts their completions; `calls` are the callbacks made. */
  datatype Group = Group(
    s: Shape, tail: nat, bufs: seq<Buf>, lastIndex: nat, offset: nat,
    khead: nat, outs: seq<Buf>, calls: seq<Delivery>)
  {
    function At(i: nat): Buf {
      if i < |bufs| then bufs[i] else Buf(0, 0, 0)
    }
  }

  // ----- The operations -----

  function Add16(a: nat, b: nat): nat {
    (a + b) % W16
  }

  function AddBuf(g: Group, b: Buf, idx: nat): Group {
    g.(bufs := Stored(g.bufs, Slot(g.tail + idx, g.s.k), b))
  }

  function Stored(bufs: seq<Buf>, i: nat, b: Buf): seq<Buf> {
    if i < |bufs| then bufs[i := b] else bufs
  }

  function Advance(g: Group, count: nat): Group {
    g.(tail := Add16(g.tail, count))
  }

  function GetOffset(g: Group, index: nat): nat {
    if g.lastIndex == index then g.offset else 0
  }

  function Positive(res: int): nat {
    if res > 0 then res else 0
  }

  function Bumped(offset: nat, res: int): nat {
    if res > 0 then Add32(offset, res) else offset
  }

  function UpdateOffset(g: Group, index: nat, res: int): Group {
    if g.lastIndex == index then g.(offset := Bumped(g.offset, res))
    else g.(lastIndex := index, offset := Positive(res))
  }

  predicate HasFree(g: Group) {
    g.khead != g.tail
  }

  /** The kernel takes the next free block. */
  function Take(g: Group): Group {
    g.(khead := Add16(g.khead, 1), outs := g.outs + [g.At(Slot(g.khead, g.s.k))])
  }

  /** The dispatch of one completion: the callback, and the block put back at the tail. */
  function Recycle(g: Group, res: int): Group {
    if g.outs == [] then g else
    var bid := g.outs[0].bid;
    var b := g.s.Block(if bid >= g.s.start then bid - g.s.start else 0).(bid := bid);
    var off := GetOffset(g, bid);
    var g0 := g.(outs := g.outs[1..]);
    if off < g.s.size then
      Advance(AddBuf(UpdateOffset(g0.(calls := g.calls + [Delivery(bid, b.addr + off)]), bid, res), b, 0), 1)
    else g0
  }

  // ----- 16-bit counters -----

  lemma Pow16()
    ensures Pow2(15) == 0x8000 && Pow2(16) == W16
  {
    assert Pow2(8) == 256;
    Pow2Splits(8, 8);
  }

  lemma CountBound(k: nat)
    requires k <= 15
    ensures Pow2(k) <= 0x8000
  {
    Pow16();
    Pow2Monotone(k, 15);
  }

  lemma Slot16(x: nat, k: nat)
    requires k <= 15
    ensures Slot(x % W16, k) == Slot(x, k)
  {
    Pow16();
    MaskOfWrapped(x, k, 16);
    MaskIsSlot(x % W16, k);
    SlotIsMod(x, k);
  }

  lemma Wrapped16(x: nat, y: nat)
    requires x <= y < x + W16
    ensures x % W16 == y % W16 <==> x == y
    ensures Add16(x % W16, 1) == (x + 1) % W16
    ensures (y % W16 - x % W16) % W16 == y - x
  {
  }

  /** Block `b` is in exactly one place: one position among those of the outstanding and free blocks. */
  lemma {:induction false} EachBlockOnce(p: nat, k: nat, b: nat) returns (i: nat)
    requires b < Pow2(k)
    ensures p <= i < p + Pow2(k) && Slot(i, k) == b
    ensures forall j :: p <= j < p + Pow2(k) && j != i ==> Slot(j, k) != b
  {
    if p == 0 {
      i := b;
    } else {
      i := EachBlockOnce(p - 1, k, b);
      if i == p - 1 {
        i := i + Pow2(k);
        SlotPeriod(p - 1, k);
      } else {
        SlotPeriod(p - 1, k);
        assert Slot(p - 1, k) != b;
      }
    }
  }

  // ----- The cycle -----

  /** After `h` blocks taken and `p` completions dispatched the group is exactly this: the free blocks
      are those of positions h .. p + n in ring order, the outstanding ones those of p .. h, and
      callback number i was given block i mod n from its beginning. */
  ghost predicate Cycle(g: Group, p: nat, h: nat) {
    && g.s.Ok() && |g.bufs| == Pow2(g.s.k) && p <= h <= p + Pow2(g.s.k)
    && g.tail == TailAt(p, g.s.k) && g.khead == h % W16
    && Free(g.s, g.bufs, h, p + Pow2(g.s.k)) && Outstanding(g.s, g.outs, p, h) && Called(g.s, g.calls, p)
    && g.lastIndex == (if p == 0 then Uint32Max else g.s.start + Slot(p - 1, g.s.k))
  }

  /** The 16-bit tail when `p` completions have been dispatched. */
  function TailAt(p: nat, k: nat): nat {
    (p + Pow2(k)) % W16
  }

  ghost predicate Free(s: Shape, bufs: seq<Buf>, from: nat, to: nat)
    requires |bufs| == Pow2(s.k)
  {
    forall i :: from <= i < to ==> bufs[Slot(i, s.k)] == s.Block(Slot(i, s.k))
  }

  ghost predicate Outstanding(s: Shape, outs: seq<Buf>, p: nat, h: nat) {
    |outs| == h - p && forall i :: 0 <= i < h - p ==> outs[i] == s.Block(Slot(p + i, s.k))
  }

  function Call(s: Shape, i: nat): Delivery {
    Delivery(s.start + Slot(i, s.k), s.Block(Slot(i, s.k)).addr)
  }

  ghost predicate Called(s: Shape, calls: seq<Delivery>, p: nat) {
    |calls| == p && forall i :: 0 <= i < p ==> calls[i] == Call(s, i)
  }

  /** The kernel's test for a free block is exact across the 16-bit wrap, and free and outstanding
      blocks always make up the whole group. */
  lemma FreePlusOutstanding(g: Group, p: nat, h: nat)
    requires Cycle(g, p, h)
    ensures HasFree(g) <==> h < p + Pow2(g.s.k)
    ensures (g.tail - g.khead) % W16 + |g.outs| == Pow2(g.s.k)
  {
    CountBound(g.s.k);
    Wrapped16(h, p + Pow2(g.s.k));
  }

  /** What taking a block does, in terms of the unbounded position `h`. */
  lemma TakeIs(g: Group, h: nat)
    requires g.s.k <= 15 && |g.bufs| == Pow2(g.s.k) && g.khead == h % W16
    requires g.bufs[Slot(h, g.s.k)] == g.s.Block(Slot(h, g.s.k))
    ensures Take(g) == g.(khead := (h + 1) % W16, outs := g.outs + [g.s.Block(Slot(h, g.s.k))])
  {
    HeadSlot(g.khead, h, g.s.k);
  }

  lemma TakeCycles(g: Group, p: nat, h: nat)
    requires Cycle(g, p, h) && HasFree(g)
    ensures Cycle(Take(g), p, h + 1)
    ensures Take(g).outs == g.outs + [g.s.Block(Slot(h, g.s.k))]
  {
    FreePlusOutstanding(g, p, h);
    TakeIs(g, h);
    OutstandingGrows(g.s, g.outs, p, h);
  }

  lemma HeadSlot(head: nat, h: nat, k: nat)
    requires k <= 15 && head == h % W16
    ensures Slot(head, k) == Slot(h, k) && Add16(head, 1) == (h + 1) % W16
  {
    Slot16(h, k);
    Wrapped16(h, h);
  }

  lemma OutstandingGrows(s: Shape, outs: seq<Buf>, p: nat, h: nat)
    requires Outstanding(s, outs, p, h) && p <= h
    ensures Outstanding(s, outs + [s.Block(Slot(h, s.k))], p, h + 1)
  {
  }

  lemma BlockId(s: Shape, j: nat)
    requires s.Ok() && j < Pow2(s.k)
    ensures s.Block(j).bid == s.start + j < W16
  {
  }

  lemma RecycleUnfolds(g: Group, res: int, j: nat)
    requires g.s.Ok() && j < Pow2(g.s.k) == |g.bufs| && Slot(g.tail, g.s.k) == j
    requires g.outs != [] && g.outs[0] == g.s.Block(j) && g.lastIndex != g.s.start + j
    ensures Recycle(g, res) == g.(outs := g.outs[1..], calls := g.calls + [Delivery(g.s.start + j, g.s.Block(j).addr)],
                                  lastIndex := g.s.start + j, offset := Positive(res),
                                  bufs := g.bufs[j := g.s.Block(j)], tail := Add16(g.tail, 1))
  {
    BlockId(g.s, j);
  }

  lemma TailSlot(p: nat, k: nat)
    requires k <= 15
    ensures Slot(TailAt(p, k), k) == Slot(p, k) && Add16(TailAt(p, k), 1) == TailAt(p + 1, k)
  {
    var x := p + Pow2(k);
    Slot16(x, k);
    SlotPeriod(p, k);
    Wrapped16(x, x);
    assert TailAt(p + 1, k) == (x + 1) % W16;
  }

  /** The group after completion number `p`, when the remembered block is a different one. */
  function Recycled(g: Group, p: nat, res: int): Group
    requires |g.bufs| == Pow2(g.s.k)
  {
    var j := Slot(p, g.s.k);
    g.(outs := if g.outs == [] then [] else g.outs[1..], calls := g.calls + [Call(g.s, p)],
       lastIndex := g.s.start + j, offset := Positive(res),
       bufs := g.bufs[j := g.s.Block(j)], tail := TailAt(p + 1, g.s.k))
  }

  lemma RecycleIs(g: Group, p: nat, res: int)
    requires g.s.Ok() && |g.bufs| == Pow2(g.s.k) && g.tail == TailAt(p, g.s.k)
    requires g.outs != [] && g.outs[0] == g.s.Block(Slot(p, g.s.k)) && g.lastIndex != g.s.start + Slot(p, g.s.k)
    ensures Recycle(g, res) == Recycled(g, p, res)
  {
    TailSlot(p, g.s.k);
    RecycleUnfolds(g, res, Slot(p, g.s.k));
  }

  /** Putting back block p: position p + n becomes free, and no free block lies in that slot. */
  lemma FreeExtends(s: Shape, bufs: seq<Buf>, p: nat, h: nat)
    requires |bufs| == Pow2(s.k) && p < h && Free(s, bufs, h, p + Pow2(s.k))
    ensures forall i :: h <= i < p + Pow2(s.k) ==> Slot(i, s.k) != Slot(p, s.k)
    ensures Free(s, bufs[Slot(p, s.k) := s.Block(Slot(p, s.k))], h, p + 1 + Pow2(s.k))
  {
    forall i | h <= i < p + Pow2(s.k) ensures Slot(i, s.k) != Slot(p, s.k) {
      SlotsDiffer(p, i, s.k);
    }
    SlotPeriod(p, s.k);
  }

  lemma OutstandingShifts(s: Shape, outs: seq<Buf>, p: nat, h: nat)
    requires Outstanding(s, outs, p, h) && p < h
    ensures Outstanding(s, outs[1..], p + 1, h)
  {
    forall i | 0 <= i < h - (p + 1) ensures outs[1..][i] == s.Block(Slot(p + 1 + i, s.k)) {
      assert outs[i + 1] == s.Block(Slot(p + (i + 1), s.k));
    }
  }

  lemma RecycledCycles(g: Group, p: nat, h: nat, res: int)
    requires Cycle(g, p, h) && g.outs != []
    ensures Cycle(Recycled(g, p, res), p + 1, h)
    ensures forall i :: h <= i < p + Pow2(g.s.k) ==> Slot(i, g.s.k) != Slot(p, g.s.k)
  {
    FreeExtends(g.s, g.bufs, p, h);
    OutstandingShifts(g.s, g.outs, p, h);
  }

  /** For two blocks or more the completion's block is never the remembered one. */
  lemma NotRemembered(g: Group, p: nat, h: nat)
    requires Cycle(g, p, h) && g.outs != [] && g.s.k >= 1
    ensures g.outs[0] == g.s.Block(Slot(p, g.s.k)) && g.outs[0].bid == g.s.start + Slot(p, g.s.k) != g.lastIndex
  {
    if p > 0 {
      SlotsDiffer(p - 1, p, g.s.k);
    }
    assert g.outs[0] == g.s.Block(Slot(p + 0, g.s.k));
    BlockId(g.s, Slot(p, g.s.k));
  }

  /** So its offset is 0, and it returns to a slot that no free block occupies. */
  lemma RecycleCycles(g: Group, p: nat, h: nat, res: int)
    requires Cycle(g, p, h) && g.outs != [] && g.s.k >= 1
    ensures GetOffset(g, g.outs[0].bid) == 0 && Recycle(g, res).s == g.s
    ensures Cycle(Recycle(g, res), p + 1, h)
    ensures forall i :: h <= i < p + Pow2(g.s.k) ==> Slot(i, g.s.k) != Slot(p, g.s.k)
  {
    NotRemembered(g, p, h);
    RecycleIs(g, p, res);
    RecycledCycles(g, p, h, res);
  }

  // ----- Runs -----

  datatype GEvent = ETake | ERecycle(res: int)

  predicate GCan(g: Group, e: GEvent) {
    if e.ETake? then HasFree(g) else g.outs != []
  }

  function GStep(g: Group, e: GEvent): Group {
    if e.ETake? then Take(g) else Recycle(g, e.res)
  }

  function Takes(es: seq<GEvent>): nat {
    if es == [] then 0
    else if es[|es| - 1].ETake? then Takes(es[..|es| - 1]) + 1
    else Takes(es[..|es| - 1])
  }

  function Recycles(es: seq<GEvent>): nat {
    if es == [] then 0
    else if es[|es| - 1].ETake? then Recycles(es[..|es| - 1])
    else Recycles(es[..|es| - 1]) + 1
  }

  predicate Steps(g: Group, e: GEvent, g': Group) {
    GCan(g, e) && g' == GStep(g, e)
  }

  predicate GRun(gs: seq<Group>, es: seq<GEvent>) {
    && |gs| == |es| + 1
    && forall i :: 0 <= i < |es| ==> Steps(gs[i], es[i], gs[i + 1])
  }

  /** In every run of a registered group of two blocks or more, however kernel and dispatch interleave:
      the group stays in its cycle, every callback finds its data at the beginning of its block, and no
      block is ever lost. */
  lemma {:induction false} BufferCycle(gs: seq<Group>, es: seq<GEvent>, n: nat)
    requires GRun(gs, es) && n <= |es| && Cycle(gs[0], 0, 0) && gs[0].s.k >= 1
    ensures InCycle(gs[n], gs[0].s, es[..n])
  {
    if n > 0 {
      BufferCycle(gs, es, n - 1);
      var before := es[..n - 1];
      assert es[..n] == before + [es[n - 1]];
      CycleStep(gs[n - 1], es[n - 1], gs[n], gs[0].s, before);
    }
  }

  ghost predicate InCycle(g: Group, s: Shape, es: seq<GEvent>) {
    g.s == s && Cycle(g, Recycles(es), Takes(es))
  }

  lemma CountsStep(es: seq<GEvent>, e: GEvent)
    ensures e.ETake? ==> Takes(es + [e]) == Takes(es) + 1 && Recycles(es + [e]) == Recycles(es)
    ensures !e.ETake? ==> Takes(es + [e]) == Takes(es) && Recycles(es + [e]) == Recycles(es) + 1
  {
    assert (es + [e])[..|es|] == es;
  }

  lemma CycleStep(g: Group, e: GEvent, g': Group, s: Shape, es: seq<GEvent>)
    requires InCycle(g, s, es) && Steps(g, e, g') && s.k >= 1
    ensures InCycle(g', s, es + [e])
  {
    CountsStep(es, e);
    StepCycles(g, e, g', Recycles(es), Takes(es));
    if e.ETake? {
      CycleOf(g', s, es + [e], Recycles(es), Takes(es) + 1);
    } else {
      CycleOf(g', s, es + [e], Recycles(es) + 1, Takes(es));
    }
  }

  lemma CycleOf(g: Group, s: Shape, es: seq<GEvent>, p: nat, h: nat)
    requires g.s == s && Cycle(g, p, h) && Recycles(es) == p && Takes(es) == h
    ensures InCycle(g, s, es)
  {
  }

  lemma StepCycles(g: Group, e: GEvent, g': Group, p: nat, h: nat)
    requires Cycle(g, p, h) && Steps(g, e, g') && g.s.k >= 1
    ensures g'.s == g.s && (e.ETake? ==> Cycle(g', p, h + 1)) && (!e.ETake? ==> Cycle(g', p + 1, h))
  {
    if e.ETake? {
      TakeCycles(g, p, h);
    } else {
      RecycleCycles(g, p, h, e.res);
    }
  }

  // ----- A group of one block -----

  /** The group of one block while its offset is `sum`, the bytes of all earlier completions. */
  ghost predicate Solo(g: Group, p: nat, sum: nat, out: bool) {
    && g.s.k == 0 && g.s.Ok() && |g.bufs| == 1
    && g.tail == (p + 1) % W16 && g.khead == (if out then p + 1 else p) % W16
    && g.outs == (if out then [g.s.Block(0)] else []) && (!out ==> g.bufs == [g.s.Block(0)])
    && g.lastIndex == g.s.start && g.offset == sum % W
  }

  lemma SoloTake(g: Group, p: nat, sum: nat)
    requires Solo(g, p, sum, false)
    ensures HasFree(g) && Solo(Take(g), p, sum, true)
  {
    Slot16(p, 0);
    Wrapped16(p, p + 1);
  }

  /** With one block the remembered block is always the completion's own: data is looked for after all
      the bytes of the earlier completions, and once those fill the block it is lost for good. */
  lemma SoloRecycle(g: Group, p: nat, sum: nat, res: int)
    requires Solo(g, p, sum, true)
    ensures var g' := Recycle(g, res);
            if sum % W < g.s.size then
              && g'.calls == g.calls + [Delivery(g.s.start, g.s.Block(0).addr + sum % W)]
              && Solo(g', p + 1, sum + Positive(res), false)
            else
              g' == g.(outs := []) && !HasFree(g')
  {
    Slot16(p + 1, 0);
    Wrapped16(p + 1, p + 1);
    BlockId(g.s, 0);
    WrappedSum(sum, Positive(res));
  }

  lemma SoloFirst(g: Group, res: int)
    requires Cycle(g, 0, 0) && g.s.k == 0 && res < W
    ensures HasFree(g) && Solo(Recycle(Take(g), res), 1, Positive(res), false)
  {
    FreePlusOutstanding(g, 0, 0);
    TakeCycles(g, 0, 0);
    RecycleIs(Take(g), 0, res);
  }

  /** So a second completion after one with data is found at the beginning of its block exactly when
      the group has at least two blocks. */
  lemma OffsetZeroIffTwoBlocks(g: Group, res: int)
    requires Cycle(g, 0, 0) && 0 < res < W
    ensures HasFree(g) && HasFree(Recycle(Take(g), res))
    ensures var g2 := Take(Recycle(Take(g), res));
            g2.outs != [] && (g.s.k >= 1 <==> GetOffset(g2, g2.outs[0].bid) == 0)
  {
    FreePlusOutstanding(g, 0, 0);
    var g1 := Recycle(Take(g), res);
    if g.s.k >= 1 {
      TakeCycles(g, 0, 0);
      RecycleCycles(Take(g), 0, 1, res);
      Pow2Monotone(1, g.s.k);
      FreePlusOutstanding(g1, 1, 1);
      TakeCycles(g1, 1, 1);
      RecycleCycles(Take(g1), 1, 2, res);
    } else {
      SoloFirst(g, res);
      SoloTake(g1, 1, res);
      BlockId(g.s, 0);
    }
  }

  /** A registered group of one block, filled once and used again: the block is in neither ring nor hands
      of the kernel, and nothing can happen to the group any more. */
  lemma SoloLosesBlock(g: Group, res: int) returns (gs: seq<Group>, es: seq<GEvent>)
    requires Cycle(g, 0, 0) && g.s.k == 0 && g.s.size < W
    ensures GRun(gs, es) && gs[0] == g && es == [ETake, ERecycle(g.s.size), ETake, ERecycle(res)]
    ensures |gs[4].calls| == 1 && forall e :: !GCan(gs[4], e)
  {
    var g1 := Take(g);
    var g2 := Recycle(g1, g.s.size);
    var g3 := Take(g2);
    FreePlusOutstanding(g, 0, 0);
    TakeCycles(g, 0, 0);
    SoloFirst(g, g.s.size);
    SoloTake(g2, 1, g.s.size);
    SoloRecycle(g3, 1, g.s.size, res);
    SoloCalls(g, g.s.size);
    gs, es := [g, g1, g2, g3, Recycle(g3, res)], [ETake, ERecycle(g.s.size), ETake, ERecycle(res)];
    assert Steps(g, es[0], g1) && Steps(g1, es[1], g2) && Steps(g2, es[2], g3) && Steps(g3, es[3], gs[4]);
  }

  lemma SoloCalls(g: Group, res: int)
    requires Cycle(g, 0, 0) && g.s.k == 0 && res < W
    ensures |Take(Recycle(Take(g), res)).calls| == 1
  {
    FreePlusOutstanding(g, 0, 0);
    TakeCycles(g, 0, 0);
    RecycleIs(Take(g), 0, res);
  }

  // ----- Registration -----

  /** The slots written while the first `m` blocks are added. */
  ghost predicate Laid(s: Shape, bufs: seq<Buf>, m: nat)
    requires |bufs| == Pow2(s.k)
  {
    forall i :: 0 <= i < m && i < Pow2(s.k) ==> bufs[i] == s.Block(i)
  }

  lemma RegisteredIsCycle(g: Group)
    requires g.s.Ok() && |g.bufs| == Pow2(g.s.k) && Laid(g.s, g.bufs, Pow2(g.s.k))
    requires g == Group(g.s, Pow2(g.s.k) % W16, g.bufs, Uint32Max, 0, 0, [], [])
    ensures Cycle(g, 0, 0)
  {
  }

  // ----- The object -----

  /** A registered group: `io_uring_buf_ring` with its `last_buffer_info` and the group's entries of
      the buffer table. */
  class BufferGroup {
    const s: Shape
    const mask: nat
    const bufs: array<Buf>
    var tail: nat
    var lastIndex: nat
    var offset: nat
    ghost var khead: nat
    ghost var outs: seq<Buf>
    ghost var calls: seq<Delivery>

    ghost function Value(): Group
      reads this, bufs
    {
      Group(s, tail, bufs[..], lastIndex, offset, khead, outs, calls)
    }

    ghost predicate Valid()
      reads this, bufs
    {
      s.k <= 15 && mask == Pow2(s.k) - 1 && bufs.Length == Pow2(s.k)
    }

    /** The second half of `register_ring_buffer`: every block goes into the ring, then the tail moves
        once. */
    constructor (s: Shape)
      requires s.Ok()
      ensures Valid() && this.s == s && Cycle(Value(), 0, 0) && fresh(bufs)
    {
      this.s, mask := s, Pow2(s.k) - 1;
      bufs := new Buf[Pow2(s.k)](_ => Buf(0, 0, 0));
      tail, lastIndex, offset := 0, Uint32Max, 0;
      khead, outs, calls := 0, [], [];
      new;
      LayBlocks();
      BufRingAdvance(Pow2(s.k));
      RegisteredIsCycle(Value());
    }

    method LayBlocks()
      requires Valid() && s.Ok() && tail == 0
      modifies bufs
      ensures Laid(s, bufs[..], Pow2(s.k))
    {
      for i := 0 to |s.addrs|
        invariant Laid(s, bufs[..], i)
      {
        var bid := (s.start + i) % W16;
        assert Slot(i, s.k) == i;
        AddBufRing(s.addrs[i], s.size, bid, i);
      }
    }

    method AddBufRing(addr: nat, size: nat, bid: nat, idx: nat)
      requires Valid()
      modifies bufs
      ensures Value() == AddBuf(old(Value()), Buf(addr, size, bid), idx)
    {
      MaskIsSlot(tail + idx, s.k);
      bufs[And(tail + idx, mask)] := Buf(addr, size, bid);
    }

    method BufRingAdvance(count: nat)
      modifies this`tail
      ensures Value() == Advance(old(Value()), count)
    {
      tail := Add16(tail, count);
    }

    method UpdateLast(index: nat, res: int)
      modifies this`offset, this`lastIndex
      ensures Value() == UpdateOffset(old(Value()), index, res)
    {
      if lastIndex == index {
        if res > 0 {
          offset := Add32(offset, res);
        }
        return;
      }
      lastIndex := index;
      offset := if res > 0 then res else 0;
    }

    /** The kernel takes a block. */
    method KernelTakes()
      requires Valid() && HasFree(Value())
      modifies this`khead, this`outs
      ensures Valid() && Value() == Take(old(Value()))
    {
      MaskIsSlot(khead, s.k);
      outs := outs + [Value().At(And(khead, mask))];
      khead := Add16(khead, 1);
    }

    /** The dispatch of the completion of block `bid`. */
    method DispatchBuffer(bid: nat, res: int)
      requires Valid() && outs != [] && outs[0].bid == bid && s.start <= bid < s.start + |s.addrs|
      modifies this, bufs
      ensures Valid() && Value() == Recycle(old(Value()), res)
    {
      var off := if lastIndex == bid then offset else 0;
      outs := outs[1..];
      if off < s.size {
        calls := calls + [Delivery(bid, s.addrs[bid - s.start] + off)];
        UpdateLast(bid, res);
        AddBufRing(s.addrs[bid - s.start], s.size, bid, 0);
        BufRingAdvance(1);
      }
    }
  }
}
