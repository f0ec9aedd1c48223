/**
  The coroutine frame pool: fixed-size blocks whose free list is a chain of indices in an array, and
  the frame allocator that falls back to the heap.
 */
module FramePools {
  import opened Bits
  import opened Common

  const NoBlock: int := -1
  const MaxCapacity: nat := 4096

  /** The pool's memory: `capacity` blocks of `blockSize` bytes from address `mem` on. */
  datatype Area = Area(mem: nat, blockSize: nat, capacity: nat) {
    /** The address of block `idx`: mem + idx * blockSize. */
    function Addr(idx: nat): nat {
      if idx == 0 then mem else Addr(idx - 1) + blockSize
    }
    predicate Owns(ptr: nat) {
      mem <= ptr < Addr(capacity)
    }
    /** The block that byte `offset` belongs to: offset / blockSize. */
    function Index(offset: nat): nat {
      if blockSize == 0 || offset < blockSize then 0 else Index(offset - blockSize) + 1
    }
    function IndexOf(ptr: nat): nat {
      if ptr < mem then 0 else Index(ptr - mem)
    }
    ghost predicate Shaped() {
      0 < mem && 0 < blockSize && 1 <= capacity <= MaxCapacity
    }
  }

  /** `next` is `next_free_`, `head` is `free_head_`. */
  datatype Pool = Pool(area: Area, next: seq<int>, head: int)

  // ----- The chain -----

  function Nth(c: seq<int>, i: nat): int {
    if i < |c| then c[i] else NoBlock
  }

  /** Following `next` from `head` visits exactly the indices `c` and ends. */
  ghost predicate Linked(next: seq<int>, head: int, c: seq<int>) {
    && head == Nth(c, 0)
    && (forall i :: 0 <= i < |c| ==> 0 <= c[i] < |next| && next[c[i]] == Nth(c, i + 1))
  }

  ghost predicate Chain(p: Pool, c: seq<int>) {
    && p.area.Shaped() && |p.next| == MaxCapacity && Linked(p.next, p.head, c) && Distinct(c)
    && forall i :: 0 <= i < |c| ==> 0 <= c[i] < p.area.capacity
  }

  // ----- The operations -----

  /** `alloc`: the new pool and the block taken, if any. */
  function Alloc(p: Pool): (r: (Pool, int)) {
    if p.head == NoBlock then (p, NoBlock)
    else (p.(head := if 0 <= p.head < |p.next| then p.next[p.head] else NoBlock), p.head)
  }

  function Free(p: Pool, ptr: nat): Pool {
    if ptr == 0 || !p.area.Owns(ptr) then p
    else
      var idx := p.area.IndexOf(ptr);
      p.(next := if idx < |p.next| then p.next[idx := p.head] else p.next, head := idx)
  }

  // ----- Addresses -----

  lemma {:induction false} AddrIs(a: Area, idx: nat)
    ensures a.Addr(idx) == a.mem + idx * a.blockSize
  {
    if idx > 0 {
      AddrIs(a, idx - 1);
      assert idx * a.blockSize == (idx - 1) * a.blockSize + a.blockSize;
    }
  }

  lemma {:induction false} IndexIs(a: Area, offset: nat)
    requires a.blockSize > 0
    ensures a.Index(offset) == offset / a.blockSize
  {
    var b := a.blockSize;
    if offset < b {
      RemainderUnique(offset, b, 0, offset);
    } else {
      IndexIs(a, offset - b);
      var d, r := (offset - b) / b, (offset - b) % b;
      assert b * (d + 1) == b * d + b;
      RemainderUnique(offset, b, d + 1, r);
    }
  }

  /** Different blocks do not overlap. */
  lemma {:induction false} BlocksDisjoint(a: Area, i: nat, j: nat)
    requires i < j
    ensures a.mem <= a.Addr(i) && a.Addr(i) + a.blockSize <= a.Addr(j)
  {
    if i + 1 < j {
      BlocksDisjoint(a, i, j - 1);
    } else if i > 0 {
      BlocksDisjoint(a, i - 1, i);
    }
  }

  lemma {:induction false} IndexOfAddr(a: Area, idx: nat)
    requires a.blockSize > 0
    ensures a.mem <= a.Addr(idx) && a.IndexOf(a.Addr(idx)) == idx
  {
    if idx > 0 {
      IndexOfAddr(a, idx - 1);
    }
  }

  lemma AddrOfIndex(a: Area, idx: nat)
    requires a.blockSize > 0 && idx < a.capacity
    ensures a.Owns(a.Addr(idx)) && a.IndexOf(a.Addr(idx)) == idx
  {
    IndexOfAddr(a, idx);
    BlocksDisjoint(a, idx, a.capacity);
  }

  lemma {:induction false} IndexBelow(a: Area, offset: nat, n: nat)
    requires a.blockSize > 0 && a.mem + offset < a.Addr(n)
    ensures a.Index(offset) < n
    ensures a.Addr(a.Index(offset)) <= a.mem + offset < a.Addr(a.Index(offset)) + a.blockSize
  {
    if offset >= a.blockSize {
      IndexBelow(a, offset - a.blockSize, n - 1);
    }
  }

  // ----- Allocation and freeing -----

  /** `alloc` takes the first block of the chain and fails only when the chain is empty. */
  lemma AllocKeeps(p: Pool, c: seq<int>)
    requires Chain(p, c)
    ensures Alloc(p).1 == NoBlock <==> c == []
    ensures c != [] ==> Alloc(p).1 == c[0] && Chain(Alloc(p).0, c[1..])
    ensures c == [] ==> Alloc(p).0 == p
  {
    if c != [] {
      var d := c[1..];
      forall i | 0 <= i < |d| ensures 0 <= d[i] < |p.next| && p.next[d[i]] == Nth(d, i + 1) {
        assert d[i] == c[i + 1] && Nth(d, i + 1) == Nth(c, i + 2);
      }
    }
  }

  lemma FreeLinks(next: seq<int>, head: int, c: seq<int>, idx: nat)
    requires Linked(next, head, c) && idx < |next| && idx !in c
    ensures Linked(next[idx := head], idx, [idx] + c)
  {
    var n, d := next[idx := head], [idx] + c;
    forall i | 0 <= i < |d| ensures 0 <= d[i] < |n| && n[d[i]] == Nth(d, i + 1) {
      assert Nth(d, i + 1) == Nth(c, i);
      if i > 0 {
        assert d[i] == c[i - 1] && d[i] in c;
      }
    }
  }

  /** Freeing a block that is held puts it at the front of the chain. */
  lemma FreeKeeps(p: Pool, c: seq<int>, ptr: nat)
    requires Chain(p, c) && p.area.Owns(ptr) && p.area.IndexOf(ptr) !in c
    ensures Chain(Free(p, ptr), [p.area.IndexOf(ptr)] + c)
  {
    IndexBelow(p.area, ptr - p.area.mem, p.area.capacity);
    var idx := p.area.IndexOf(ptr);
    FreeLinks(p.next, p.head, c, idx);
    PushDistinct(c, idx);
  }

  /** A block that is free already would come twice in the new list. */
  lemma DoubleFreeCycles(p: Pool, c: seq<int>, ptr: nat, d: seq<int>)
    requires Chain(p, c) && p.area.Owns(ptr) && p.area.IndexOf(ptr) in c
    ensures !Chain(Free(p, ptr), d)
  {
    var idx := p.area.IndexOf(ptr);
    IndexBelow(p.area, ptr - p.area.mem, p.area.capacity);
    if Linked(p.next[idx := p.head], idx, d) {
      var k := FirstIndex(c, idx);
      Prefixed(p.next[idx := p.head], d, c, k, k);
      assert !Distinct(d) by {
        assert d[0] == d[k + 1];
      }
    }
  }

  /** `free` keeps the free list a chain if and only if the block was not free already. A block freed
      twice makes the list cyclic. */
  lemma FreeKeepsIff(p: Pool, c: seq<int>, ptr: nat)
    requires Chain(p, c) && p.area.Owns(ptr)
    ensures (exists d :: Chain(Free(p, ptr), d)) <==> p.area.IndexOf(ptr) !in c
  {
    if p.area.IndexOf(ptr) !in c {
      FreeKeeps(p, c, ptr);
    } else {
      forall d ensures !Chain(Free(p, ptr), d) {
        DoubleFreeCycles(p, c, ptr, d);
      }
    }
  }

  lemma FirstIndex(c: seq<int>, x: int) returns (k: nat)
    requires x in c && Distinct(c)
    ensures k < |c| && c[k] == x && forall i :: 0 <= i < k ==> c[i] != x
  {
    k :| 0 <= k < |c| && c[k] == x;
  }

  /** After a double free the list runs from the freed block along the old chain back to it. */
  lemma {:induction false} Prefixed(n: seq<int>, d: seq<int>, c: seq<int>, k: nat, j: nat)
    requires j <= k < |c| && Linked(n, c[k], d)
    requires forall i :: 0 <= i < |c| ==> 0 <= c[i] < |n|
    requires n[c[k]] == c[0] && forall i :: 0 <= i < k ==> n[c[i]] == c[i + 1]
    ensures j + 1 < |d| && d[j + 1] == c[j]
  {
    assert d[0] == c[k];
    if j > 0 {
      Prefixed(n, d, c, k, j - 1);
      assert n[c[j - 1]] == c[j];
    }
    assert n[d[j]] == Nth(d, j + 1);
  }

  // ----- Frames -----

  /** A live frame: the size it was asked for and whether it came from the pool. */
  datatype Frame = Frame(size: nat, pooled: bool)

  datatype Frames = Frames(pool: Pool, live: map<nat, Frame>)

  /** `alloc_frame`; `heap` is the address that `operator new` would return. */
  function AllocFrame(s: Frames, size: nat, heap: nat): Frames {
    if size <= s.pool.area.blockSize && Alloc(s.pool).1 >= 0 then
      Frames(Alloc(s.pool).0, s.live[s.pool.area.Addr(Alloc(s.pool).1) := Frame(size, true)])
    else
      s.(live := s.live[heap := Frame(size, false)])
  }

  /** The test in `free_frame`. */
  predicate ToPool(a: Area, ptr: nat, size: nat) {
    size <= a.blockSize && a.Owns(ptr)
  }

  function FreeFrame(s: Frames, ptr: nat, size: nat): Frames {
    Frames(if ToPool(s.pool.area, ptr, size) then Free(s.pool, ptr) else s.pool, s.live - {ptr})
  }

  ghost predicate FrameOk(a: Area, c: seq<int>, ptr: nat, f: Frame) {
    if f.pooled then f.size <= a.blockSize && a.Owns(ptr) && ptr == a.Addr(a.IndexOf(ptr)) && a.IndexOf(ptr) !in c
    else !a.Owns(ptr)
  }

  ghost predicate Placed(a: Area, live: map<nat, Frame>, c: seq<int>) {
    forall ptr :: ptr in live ==> FrameOk(a, c, ptr, live[ptr])
  }

  ghost predicate BlockHeld(a: Area, live: map<nat, Frame>, idx: nat) {
    a.Addr(idx) in live && live[a.Addr(idx)].pooled
  }

  ghost predicate OthersHeld(a: Area, live: map<nat, Frame>, c: seq<int>) {
    forall idx :: 0 <= idx < a.capacity && idx !in c ==> BlockHeld(a, live, idx)
  }

  ghost function Held(live: map<nat, Frame>): set<nat> {
    set ptr | ptr in live && live[ptr].pooled
  }

  /** The chain holds exactly the blocks that no live frame holds. */
  ghost predicate Inv(s: Frames, c: seq<int>) {
    && Chain(s.pool, c)
    && Placed(s.pool.area, s.live, c) && OthersHeld(s.pool.area, s.live, c)
    && |Held(s.live)| + |c| == s.pool.area.capacity
  }

  /** A frame goes back to the allocator it came from. */
  lemma ReturnsHome(s: Frames, c: seq<int>, ptr: nat)
    requires Inv(s, c) && ptr in s.live
    ensures ToPool(s.pool.area, ptr, s.live[ptr].size) <==> s.live[ptr].pooled
  {
    assert FrameOk(s.pool.area, c, ptr, s.live[ptr]);
  }

  lemma FreeNotHeld(a: Area, live: map<nat, Frame>, c: seq<int>, idx: nat)
    requires Placed(a, live, c) && a.blockSize > 0 && idx < a.capacity && idx in c
    ensures !BlockHeld(a, live, idx)
  {
    AddrOfIndex(a, idx);
    assert a.Addr(idx) in live ==> FrameOk(a, c, a.Addr(idx), live[a.Addr(idx)]);
  }

  /** A pool block is refused exactly when all of them are held. */
  lemma FailsIffAllHeld(s: Frames, c: seq<int>)
    requires Inv(s, c)
    ensures Alloc(s.pool).1 == NoBlock <==> |Held(s.live)| == s.pool.area.capacity
    ensures Alloc(s.pool).1 == NoBlock <==>
            forall idx :: 0 <= idx < s.pool.area.capacity ==> BlockHeld(s.pool.area, s.live, idx)
  {
    AllocKeeps(s.pool, c);
    if c != [] {
      FreeNotHeld(s.pool.area, s.live, c, c[0]);
    }
  }

  /** The heap serves a frame. */
  ghost predicate FromHeap(s: Frames, s': Frames, size: nat, heap: nat) {
    s' == s.(live := s.live[heap := Frame(size, false)])
  }

  /** A block of the pool that no live frame holds serves a frame. */
  ghost predicate FromPool(s: Frames, s': Frames, size: nat, idx: nat) {
    && idx < s.pool.area.capacity && s.pool.area.Addr(idx) !in s.live
    && s'.live == s.live[s.pool.area.Addr(idx) := Frame(size, true)]
  }

  /** A frame is served by a free block of the pool if it fits into a block and not all blocks are held,
      otherwise by the heap. */
  lemma AllocFrameIs(s: Frames, c: seq<int>, size: nat, heap: nat)
    requires Inv(s, c)
    ensures var s', fits := AllocFrame(s, size, heap), size <= s.pool.area.blockSize;
            if fits && |Held(s.live)| < s.pool.area.capacity then exists idx :: FromPool(s, s', size, idx)
            else FromHeap(s, s', size, heap)
  {
    AllocKeeps(s.pool, c);
    if size <= s.pool.area.blockSize && c != [] {
      PoolFramePlaced(s.pool.area, s.live, c, size);
      assert FromPool(s, AllocFrame(s, size, heap), size, c[0]);
    }
  }

  /** Freeing takes exactly this frame away, and a pool block freed last is the next one to be handed out. */
  lemma FreeFrameUndone(s: Frames, c: seq<int>, ptr: nat, size: nat, heap: nat)
    requires Inv(s, c) && ptr in s.live
    ensures var s' := FreeFrame(s, ptr, s.live[ptr].size);
            && s'.live == s.live - {ptr}
            && (s.live[ptr].pooled && size <= s.pool.area.blockSize ==>
                  AllocFrame(s', size, heap).live == s.live[ptr := Frame(size, true)])
            && (!s.live[ptr].pooled ==> s'.pool == s.pool)
  {
    ReturnsHome(s, c, ptr);
    assert FrameOk(s.pool.area, c, ptr, s.live[ptr]);
    if s.live[ptr].pooled {
      FreeKeeps(s.pool, c, ptr);
      AllocKeeps(Free(s.pool, ptr), [s.pool.area.IndexOf(ptr)] + c);
      assert (s.live - {ptr})[ptr := Frame(size, true)] == s.live[ptr := Frame(size, true)];
    }
  }

  /** A frame from the pool lies on a block boundary. */
  lemma FrameAligned(s: Frames, c: seq<int>, p: nat)
    requires Inv(s, c) && p in s.live && s.live[p].pooled
    ensures s.pool.area.mem <= p && (p - s.pool.area.mem) % s.pool.area.blockSize == 0
  {
    var a := s.pool.area;
    assert FrameOk(a, c, p, s.live[p]);
    AddrIs(a, a.IndexOf(p));
    RemainderUnique(p - a.mem, a.blockSize, a.IndexOf(p), 0);
  }

  /** Two frames from the pool never overlap, and both lie on block boundaries. */
  lemma FramesDisjoint(s: Frames, c: seq<int>, p: nat, q: nat)
    requires Inv(s, c) && p in s.live && q in s.live && s.live[p].pooled && s.live[q].pooled && p < q
    ensures p + s.live[p].size <= q && s.pool.area.mem <= p
    ensures (p - s.pool.area.mem) % s.pool.area.blockSize == 0 && (q - s.pool.area.mem) % s.pool.area.blockSize == 0
  {
    var a := s.pool.area;
    assert FrameOk(a, c, p, s.live[p]) && FrameOk(a, c, q, s.live[q]);
    var i, j := a.IndexOf(p), a.IndexOf(q);
    if i < j {
      BlocksDisjoint(a, i, j);
    } else if j < i {
      BlocksDisjoint(a, j, i);
    }
    FrameAligned(s, c, p);
    FrameAligned(s, c, q);
  }

  lemma PoolFramePlaced(a: Area, live: map<nat, Frame>, c: seq<int>, size: nat)
    requires Placed(a, live, c) && Distinct(c) && c != [] && 0 <= c[0] < a.capacity
    requires 0 < a.blockSize && size <= a.blockSize
    ensures a.Addr(c[0]) !in live && Placed(a, live[a.Addr(c[0]) := Frame(size, true)], c[1..])
  {
    var at := a.Addr(c[0]);
    var live' := live[at := Frame(size, true)];
    AddrOfIndex(a, c[0]);
    FreeNotHeld(a, live, c, c[0]);
    PopDistinct(c);
    assert at in live ==> FrameOk(a, c, at, live[at]);
    forall ptr | ptr in live' ensures FrameOk(a, c[1..], ptr, live'[ptr]) {
      assert ptr in live ==> FrameOk(a, c, ptr, live[ptr]);
    }
  }

  lemma PoolFrameHeld(a: Area, live: map<nat, Frame>, c: seq<int>, size: nat)
    requires OthersHeld(a, live, c) && c != [] && 0 <= c[0] && a.Addr(c[0]) !in live
    ensures var live' := live[a.Addr(c[0]) := Frame(size, true)];
            OthersHeld(a, live', c[1..]) && |Held(live')| == |Held(live)| + 1
  {
    var at := a.Addr(c[0]);
    var live' := live[at := Frame(size, true)];
    assert Held(live') == Held(live) + {at} && at !in Held(live);
    assert c == [c[0]] + c[1..];
    forall idx | 0 <= idx < a.capacity && idx !in c[1..] ensures BlockHeld(a, live', idx) {
      assert idx != c[0] ==> idx !in c;
      assert idx != c[0] ==> BlockHeld(a, live, idx);
    }
  }

  lemma PoolFrameKeeps(s: Frames, c: seq<int>, size: nat)
    requires Inv(s, c) && c != [] && size <= s.pool.area.blockSize
    ensures Inv(Frames(Alloc(s.pool).0, s.live[s.pool.area.Addr(c[0]) := Frame(size, true)]), c[1..])
  {
    AllocKeeps(s.pool, c);
    PoolFramePlaced(s.pool.area, s.live, c, size);
    PoolFrameHeld(s.pool.area, s.live, c, size);
  }

  lemma HeapFrameKeeps(s: Frames, c: seq<int>, size: nat, heap: nat)
    requires Inv(s, c) && heap !in s.live && !s.pool.area.Owns(heap)
    ensures Inv(s.(live := s.live[heap := Frame(size, false)]), c)
  {
    var a, live' := s.pool.area, s.live[heap := Frame(size, false)];
    assert Held(live') == Held(s.live);
    forall ptr | ptr in live' ensures FrameOk(a, c, ptr, live'[ptr]) {
      assert ptr in s.live ==> FrameOk(a, c, ptr, s.live[ptr]);
    }
    forall idx | 0 <= idx < a.capacity && idx !in c ensures BlockHeld(a, live', idx) {
      assert BlockHeld(a, s.live, idx);
    }
  }

  lemma FreedPlaced(a: Area, live: map<nat, Frame>, c: seq<int>, ptr: nat)
    requires Placed(a, live, c) && OthersHeld(a, live, c) && 0 < a.blockSize && ptr in live && live[ptr].pooled
    ensures var live', c' := live - {ptr}, [a.IndexOf(ptr)] + c;
            Placed(a, live', c') && OthersHeld(a, live', c') && |Held(live')| == |Held(live)| - 1
  {
    var live', c' := live - {ptr}, [a.IndexOf(ptr)] + c;
    assert FrameOk(a, c, ptr, live[ptr]);
    assert Held(live') == Held(live) - {ptr} && ptr in Held(live);
    forall p | p in live' ensures FrameOk(a, c', p, live'[p]) {
      assert FrameOk(a, c, p, live[p]);
    }
    forall idx | 0 <= idx < a.capacity && idx !in c' ensures BlockHeld(a, live', idx) {
      assert c'[0] == a.IndexOf(ptr) && c == c'[1..];
      assert BlockHeld(a, live, idx);
      AddrOfIndex(a, idx);
    }
  }

  lemma FreePooledKeeps(s: Frames, c: seq<int>, ptr: nat)
    requires Inv(s, c) && ptr in s.live && s.live[ptr].pooled
    ensures Inv(Frames(Free(s.pool, ptr), s.live - {ptr}), [s.pool.area.IndexOf(ptr)] + c)
  {
    assert FrameOk(s.pool.area, c, ptr, s.live[ptr]);
    FreeKeeps(s.pool, c, ptr);
    FreedPlaced(s.pool.area, s.live, c, ptr);
  }

  lemma FreeHeapKeeps(s: Frames, c: seq<int>, ptr: nat)
    requires Inv(s, c) && ptr in s.live && !s.live[ptr].pooled
    ensures Inv(s.(live := s.live - {ptr}), c)
  {
    var a, live' := s.pool.area, s.live - {ptr};
    assert Held(live') == Held(s.live);
    forall p | p in live' ensures FrameOk(a, c, p, live'[p]) {
      assert FrameOk(a, c, p, s.live[p]);
    }
    forall idx | 0 <= idx < a.capacity && idx !in c ensures BlockHeld(a, live', idx) {
      assert BlockHeld(a, s.live, idx);
    }
  }

  // ----- Runs -----

  datatype Label = LAlloc(size: nat, heap: nat) | LFree(ptr: nat)

  ghost predicate Can(s: Frames, l: Label) {
    match l
    case LAlloc(size, heap) => heap !in s.live && !s.pool.area.Owns(heap)
    case LFree(ptr) => ptr in s.live
  }

  ghost function Step(s: Frames, l: Label): Frames
    requires Can(s, l)
  {
    match l
    case LAlloc(size, heap) => AllocFrame(s, size, heap)
    case LFree(ptr) => FreeFrame(s, ptr, s.live[ptr].size)
  }

  ghost predicate Steps(s: Frames, l: Label, s': Frames) {
    Can(s, l) && s' == Step(s, l)
  }

  lemma AllocFrameKeeps(s: Frames, c: seq<int>, size: nat, heap: nat) returns (c': seq<int>)
    requires Inv(s, c) && heap !in s.live && !s.pool.area.Owns(heap)
    ensures Inv(AllocFrame(s, size, heap), c')
  {
    AllocKeeps(s.pool, c);
    if size <= s.pool.area.blockSize && c != [] {
      c' := c[1..];
      PoolFrameKeeps(s, c, size);
    } else {
      c' := c;
      HeapFrameKeeps(s, c, size, heap);
    }
  }

  lemma FreeFrameKeeps(s: Frames, c: seq<int>, ptr: nat) returns (c': seq<int>)
    requires Inv(s, c) && ptr in s.live
    ensures Inv(FreeFrame(s, ptr, s.live[ptr].size), c')
  {
    ReturnsHome(s, c, ptr);
    if s.live[ptr].pooled {
      c' := [s.pool.area.IndexOf(ptr)] + c;
      FreePooledKeeps(s, c, ptr);
    } else {
      c' := c;
      FreeHeapKeeps(s, c, ptr);
    }
  }

  ghost predicate Good(s: Frames) {
    exists c :: Inv(s, c)
  }

  lemma StepKeeps(s: Frames, l: Label, s': Frames)
    requires Good(s) && Steps(s, l, s')
    ensures Good(s')
  {
    var c :| Inv(s, c);
    var c';
    match l
    case LAlloc(size, heap) => c' := AllocFrameKeeps(s, c, size, heap);
    case LFree(ptr) => c' := FreeFrameKeeps(s, c, ptr);
  }

  /** Who serves an allocation, and what a deallocation takes away. */
  ghost predicate Served(s: Frames, l: Label, s': Frames) {
    match l
    case LAlloc(size, heap) =>
      if size <= s.pool.area.blockSize && |Held(s.live)| < s.pool.area.capacity
      then exists idx :: FromPool(s, s', size, idx)
      else FromHeap(s, s', size, heap)
    case LFree(ptr) => s'.live == s.live - {ptr}
  }

  lemma StepServes(s: Frames, l: Label, s': Frames)
    requires Good(s) && Steps(s, l, s')
    ensures Served(s, l, s')
  {
    var c :| Inv(s, c);
    if l.LAlloc? {
      AllocFrameIs(s, c, l.size, l.heap);
    }
  }

  /** In every run of frame allocations and deallocations from a new pool the free list is an acyclic
      chain of exactly the blocks that no live frame holds, and every frame that fits a block comes from
      the pool unless all blocks are held. */
  lemma {:induction false} PoolSafeInEveryRun(ss: seq<Frames>, ls: seq<Label>, n: nat)
    requires |ss| == |ls| + 1 && n <= |ls| && Good(ss[0])
    requires forall i :: 0 <= i < |ls| ==> Steps(ss[i], ls[i], ss[i + 1])
    ensures Good(ss[n]) && (n < |ls| ==> Served(ss[n], ls[n], ss[n + 1]))
  {
    if n > 0 {
      PoolSafeInEveryRun(ss, ls, n - 1);
      StepKeeps(ss[n - 1], ls[n - 1], ss[n]);
    }
    if n < |ls| {
      StepServes(ss[n], ls[n], ss[n + 1]);
    }
  }

  // ----- The object -----

  ghost function Counting(n: nat): (c: seq<int>)
    ensures |c| == n && forall i :: 0 <= i < n ==> c[i] == i
  {
    seq(n, i => i)
  }

  /** The chain a new pool spells out. */
  lemma NewPool(a: Area, next: seq<int>)
    requires a.Shaped() && |next| == MaxCapacity && next[a.capacity - 1] == NoBlock
    requires forall j :: 0 <= j < a.capacity - 1 ==> next[j] == j + 1
    ensures Inv(Frames(Pool(a, next, 0), map[]), Counting(a.capacity))
  {
    assert Held(map[]) == {};
    var c := Counting(a.capacity);
    assert OthersHeld(a, map[], c) by {
      forall idx | 0 <= idx < a.capacity ensures idx in c {
        assert c[idx] == idx;
      }
    }
  }

  /** `coroutine_frame_pool`; `chain` is the list its array spells out. */
  class FramePool {
    const area: Area
    const nextFree: array<int>
    var freeHead: int
    ghost var chain: seq<int>

    ghost function Value(): Pool
      reads this, nextFree
    {
      Pool(area, nextFree[..], freeHead)
    }

    ghost predicate Valid()
      reads this, nextFree
    {
      Chain(Value(), chain)
    }

    constructor (area: Area)
      requires area.Shaped()
      ensures Valid() && fresh(nextFree) && this.area == area
      ensures chain == Counting(area.capacity) && Inv(Frames(Value(), map[]), chain)
    {
      this.area := area;
      nextFree := new int[MaxCapacity](_ => 0);
      freeHead := 0;
      chain := Counting(area.capacity);
      new;
      for i := 0 to area.capacity
        invariant forall j :: 0 <= j < i ==> nextFree[j] == j + 1
        invariant freeHead == 0 && chain == Counting(area.capacity)
      {
        nextFree[i] := i + 1;
      }
      nextFree[area.capacity - 1] := NoBlock;
      NewPool(area, nextFree[..]);
    }

    predicate Owns(ptr: nat)
      ensures Owns(ptr) == area.Owns(ptr)
    {
      AddrIs(area, area.capacity);
      area.mem <= ptr < area.mem + area.blockSize * area.capacity
    }

    /** A block's address, or 0 for the null pointer, which is returned only when none is free. */
    method AllocBlock() returns (ptr: nat)
      requires Valid()
      modifies this`freeHead, this`chain
      ensures Valid() && Value() == Alloc(old(Value())).0
      ensures ptr == 0 <==> old(chain) == []
      ensures ptr != 0 ==> chain == old(chain)[1..] && ptr == area.mem + old(chain)[0] * area.blockSize
    {
      AllocKeeps(Value(), chain);
      if freeHead == NoBlock {
        return 0;
      }
      var idx := freeHead;
      freeHead := nextFree[idx];
      chain := chain[1..];
      AddrIs(area, idx);
      return area.mem + idx * area.blockSize;
    }

    function BlockOf(ptr: nat): (idx: nat)
      requires area.blockSize > 0 && area.mem <= ptr
      ensures idx == area.IndexOf(ptr)
    {
      IndexIs(area, ptr - area.mem);
      (ptr - area.mem) / area.blockSize
    }

    /** Gives back a block that is not free; other addresses are ignored. */
    method FreeBlock(ptr: nat)
      requires Valid() && (area.Owns(ptr) ==> area.IndexOf(ptr) !in chain)
      modifies this`freeHead, this`chain, nextFree
      ensures Valid() && Value() == Free(old(Value()), ptr)
      ensures chain == if area.Owns(ptr) then [area.IndexOf(ptr)] + old(chain) else old(chain)
    {
      if ptr == 0 || !Owns(ptr) {
        return;
      }
      FreeKeeps(Value(), chain, ptr);
      IndexBelow(area, ptr - area.mem, area.capacity);
      var idx := BlockOf(ptr);
      nextFree[idx] := freeHead;
      freeHead := idx;
      chain := [idx] + chain;
    }

    /** Walks the chain; it ends because the chain is acyclic. */
    method FreeCount() returns (n: nat)
      requires Valid()
      ensures n == |chain|
    {
      n := 0;
      var i := freeHead;
      while i != NoBlock
        invariant n <= |chain| && i == Nth(chain, n)
        decreases |chain| - n
      {
        n := n + 1;
        i := nextFree[i];
      }
    }
  }
}
