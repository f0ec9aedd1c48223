/**
  The lock-free ring buffer with one writer and one reader. Each side owns its index and a possibly
  stale snapshot of the other's; both work on contiguous grants of blocks. The machine below
  interleaves the steps of the two sides in any order. A load of the other side's index may return any
  value that index has had (`seen`), so late visibility of stores is covered.
 */
module SpscRing {
  import opened Bits

  /** A block's contents. */
  type Block = int

  /** One side: its index, its snapshot of the other index, the count it stored last, and how many
      blocks from its index on it may still touch. */
  datatype Side = Side(idx: nat, snap: nat, cnt: nat, grant: nat)

  /** A block that the reader has taken: its position in the written sequence and what was read. */
  datatype Seen = Seen(pos: nat, value: Block)

  /** The ring of 2^k blocks, everything the writer has published, and what the reader has taken. */
  datatype Ring = Ring(k: nat, w: Side, r: Side, data: seq<Block>, published: seq<Block>, got: seq<Seen>) {
    function Index(x: nat): nat {
      And(x, Pow2(k) - 1)
    }
    /** The queue the ring stands for. */
    function Unread(): seq<Block> {
      if r.idx <= |published| then published[r.idx..] else []
    }
  }

  // ----- Grants -----

  /** `internal_writer_get_buffer`; 0 stands for the null pointer. */
  function WriterCount(k: nat, w: nat, seen: nat): nat {
    if w - seen < Pow2(k) then
      var iw, ir := And(w, Pow2(k) - 1), And(seen, Pow2(k) - 1);
      var c := if iw >= ir then Pow2(k) - iw else ir - iw;
      if c > 0 then c else 0
    else 0
  }

  /** `internal_reader_get_buffer`. */
  function ReaderCount(k: nat, seen: nat, r: nat): nat {
    if seen > r then
      var iw, ir := And(seen, Pow2(k) - 1), And(r, Pow2(k) - 1);
      var c := if iw > ir then iw - ir else Pow2(k) - ir;
      if c > 0 then c else 0
    else 0
  }

  function Min(a: nat, b: nat): nat {
    if a <= b then a else b
  }

  /** The writer's grant is as large as a contiguous one can be: all blocks that are free according to
      the index seen, cut at the end of the ring. It is refused only when none is free. */
  lemma WriterCountIs(k: nat, w: nat, seen: nat)
    requires seen <= w
    ensures Slot(w, k) < Pow2(k)
    ensures WriterCount(k, w, seen) == if w < seen + Pow2(k) then Min(seen + Pow2(k) - w, Pow2(k) - Slot(w, k)) else 0
    ensures WriterCount(k, w, seen) == 0 <==> w >= seen + Pow2(k)
  {
    MaskIsSlot(w, k);
    MaskIsSlot(seen, k);
    if w < seen + Pow2(k) {
      SlotGap(seen, w, k);
    }
  }

  /** Likewise the reader's, for the blocks published according to the index seen. */
  lemma ReaderCountIs(k: nat, seen: nat, r: nat)
    requires seen <= r + Pow2(k)
    ensures Slot(r, k) < Pow2(k)
    ensures ReaderCount(k, seen, r) == if r < seen then Min(seen - r, Pow2(k) - Slot(r, k)) else 0
    ensures ReaderCount(k, seen, r) == 0 <==> seen <= r
  {
    MaskIsSlot(r, k);
    MaskIsSlot(seen, k);
    if r < seen < r + Pow2(k) {
      SlotGap(r, seen, k);
    } else if seen == r + Pow2(k) {
      SlotPeriod(r, k);
    }
  }

  /** The slots of two positions less than the ring size apart. */
  lemma {:induction false} SlotGap(i: nat, j: nat, k: nat)
    requires i <= j < i + Pow2(k)
    ensures var x := Slot(i, k) + (j - i); Slot(j, k) == if x < Pow2(k) then x else x - Pow2(k)
  {
    if i >= Pow2(k) {
      SlotGap(i - Pow2(k), j - Pow2(k), k);
    }
  }

  // ----- The steps -----

  datatype Label =
    | WGet(need: nat, seen: nat)  // writer_get_buffer(need_cnt)
    | WGetNow(seen: nat)          // writer_get_buffer()
    | WFill(i: nat, x: Block)     // the writer fills a granted block
    | WCommit(done: nat)          // writer_commit
    | RGet(need: nat, seen: nat)  // reader_get_buffer(need_cnt)
    | RGetNow(seen: nat)          // reader_get_buffer()
    | RPeek(at: nat, seen: nat)   // reader_get_buffer(buf_info_ptr, read_idx)
    | RCommit(done: nat)          // the reader has read `done` granted blocks: reader_commit
    | RUnread(seen: nat)          // reader_get_unread_cnt
    | RResetOut(seen: nat)        // reader_reset_out

  /** A side after a call of its get function that granted `c` blocks; a refused call stores nothing. */
  function Granted(side: Side, c: nat): Side {
    side.(cnt := if c > 0 then c else side.cnt, grant := c)
  }

  function WriterGetNow(s: Ring, seen: nat): Ring {
    s.(w := Granted(s.w, WriterCount(s.k, s.w.idx, seen)))
  }

  function WriterGet(s: Ring, need: nat, seen: nat): Ring {
    var s' := WriterGetNow(s, s.w.snap);
    if s'.w.grant > 0 && s'.w.cnt >= need then s' else WriterGetNow(s'.(w := s'.w.(snap := seen)), seen)
  }

  function FillBlock(s: Ring, i: nat, x: Block): Ring {
    var j := s.Index(s.w.idx) + i;
    s.(data := if j < |s.data| then s.data[j := x] else s.data)
  }

  /** The blocks at positions from .. from + n, where they lie in memory. */
  function Blocks(data: seq<Block>, from: nat, n: nat): seq<Block> {
    if from + n <= |data| then data[from..from + n] else []
  }

  function WriterCommit(s: Ring, done: nat): Ring {
    s.(w := s.w.(idx := s.w.idx + done, grant := s.w.grant - Min(done, s.w.grant)),
       published := s.published + Blocks(s.data, s.Index(s.w.idx), done))
  }

  /** The count computed for the reader is its grant, but it is not stored: whether the snapshot is
      refreshed depends on the count some earlier peek stored. */
  function ReaderGet(s: Ring, need: nat, seen: nat): Ring {
    var c := ReaderCount(s.k, s.r.snap, s.r.idx);
    if c > 0 && s.r.cnt >= need then s.(r := s.r.(grant := c))
    else s.(r := s.r.(snap := seen, grant := ReaderCount(s.k, seen, s.r.idx)))
  }

  function ReaderGetNow(s: Ring, seen: nat): Ring {
    s.(r := s.r.(grant := ReaderCount(s.k, seen, s.r.idx)))
  }

  /** The overload with a read index stores its count, but its caller never gets the blocks. */
  function ReaderPeek(s: Ring, at: nat, seen: nat): Ring {
    if at >= s.r.idx && at < seen && ReaderCount(s.k, seen, at) > 0
    then s.(r := s.r.(cnt := ReaderCount(s.k, seen, at)))
    else s
  }

  function Observed(blocks: seq<Block>, pos: nat): (g: seq<Seen>)
    ensures |g| == |blocks|
    ensures forall i :: 0 <= i < |g| ==> g[i] == Seen(pos + i, blocks[i])
  {
    if blocks == [] then [] else [Seen(pos, blocks[0])] + Observed(blocks[1..], pos + 1)
  }

  function ReaderCommit(s: Ring, done: nat): Ring {
    s.(r := s.r.(idx := s.r.idx + done, grant := s.r.grant - Min(done, s.r.grant)),
       got := s.got + Observed(Blocks(s.data, s.Index(s.r.idx), done), s.r.idx))
  }

  function ResetOut(s: Ring, seen: nat): Ring {
    s.(r := s.r.(idx := seen, snap := seen, grant := 0))
  }

  /** Each side keeps to its grants, and a load returns a value the other index has had. */
  predicate Can(s: Ring, l: Label) {
    match l
    case WGet(_, seen) => s.w.snap <= seen <= s.r.idx
    case WGetNow(seen) => s.w.snap <= seen <= s.r.idx
    case WFill(i, x) => i < s.w.grant
    case WCommit(done) => done <= s.w.grant
    case RGet(_, seen) => seen <= s.w.idx
    case RGetNow(seen) => seen <= s.w.idx
    case RPeek(_, seen) => seen <= s.w.idx
    case RCommit(done) => done <= s.r.grant
    case RUnread(seen) => s.r.idx <= seen <= s.w.idx
    case RResetOut(seen) => s.r.idx <= seen <= s.w.idx
  }

  function Step(s: Ring, l: Label): Ring {
    match l
    case WGet(need, seen) => WriterGet(s, need, seen)
    case WGetNow(seen) => WriterGetNow(s, seen)
    case WFill(i, x) => FillBlock(s, i, x)
    case WCommit(done) => WriterCommit(s, done)
    case RGet(need, seen) => ReaderGet(s, need, seen)
    case RGetNow(seen) => ReaderGetNow(s, seen)
    case RPeek(at, seen) => ReaderPeek(s, at, seen)
    case RCommit(done) => ReaderCommit(s, done)
    case RUnread(seen) => s.(r := s.r.(snap := seen))
    case RResetOut(seen) => ResetOut(s, seen)
  }

  // ----- The invariant -----

  /** Indices at most the ring size apart, snapshots that are behind, grants that are contiguous and
      stay within the free and the published blocks respectively. */
  ghost predicate Bounds(k: nat, w: Side, r: Side) {
    && r.idx <= w.idx <= r.idx + Pow2(k)
    && w.snap <= r.idx && r.snap <= w.idx
    && w.idx + w.grant <= r.idx + Pow2(k) && Slot(w.idx, k) + w.grant <= Pow2(k)
    && r.idx + r.grant <= w.idx && Slot(r.idx, k) + r.grant <= Pow2(k)
  }

  /** Every published, unread block lies unharmed in its slot. */
  ghost predicate Intact(k: nat, data: seq<Block>, published: seq<Block>, r: nat) {
    |data| == Pow2(k) && forall j :: r <= j < |published| ==> data[Slot(j, k)] == published[j]
  }

  /** The reader took blocks in increasing order and found in each what the writer had put there. */
  ghost predicate Faithful(got: seq<Seen>, published: seq<Block>, r: nat) {
    && (forall i :: 0 <= i < |got| ==>
          got[i].pos < r && got[i].pos < |published| && got[i].value == published[got[i].pos])
    && (forall i, j :: 0 <= i < j < |got| ==> got[i].pos < got[j].pos)
  }

  ghost predicate Inv(s: Ring) {
    && |s.published| == s.w.idx && Bounds(s.k, s.w, s.r)
    && Intact(s.k, s.data, s.published, s.r.idx)
    && Faithful(s.got, s.published, s.r.idx)
  }

  ghost predicate WriterMay(s: Ring, c: nat) {
    s.w.idx + c <= s.r.idx + Pow2(s.k) && Slot(s.w.idx, s.k) + c <= Pow2(s.k)
  }

  ghost predicate ReaderMay(s: Ring, c: nat) {
    s.r.idx + c <= s.w.idx && Slot(s.r.idx, s.k) + c <= Pow2(s.k)
  }

  /** A grant computed from any value the reader's index has had is safe. */
  lemma WriterGrants(s: Ring, seen: nat)
    requires Bounds(s.k, s.w, s.r) && seen <= s.r.idx
    ensures WriterMay(s, WriterCount(s.k, s.w.idx, seen))
  {
    WriterCountIs(s.k, s.w.idx, seen);
  }

  lemma ReaderGrants(s: Ring, seen: nat)
    requires Bounds(s.k, s.w, s.r) && seen <= s.w.idx
    ensures ReaderMay(s, ReaderCount(s.k, seen, s.r.idx))
  {
    ReaderCountIs(s.k, seen, s.r.idx);
  }

  lemma WriterGetKeeps(s: Ring, need: nat, seen: nat)
    requires Inv(s) && seen <= s.r.idx
    ensures Inv(WriterGet(s, need, seen)) && Inv(WriterGetNow(s, seen))
  {
    WriterGrants(s, seen);
    WriterGrants(s, s.w.snap);
  }

  lemma ReaderGetKeeps(s: Ring, need: nat, seen: nat)
    requires Inv(s) && seen <= s.w.idx
    ensures Inv(ReaderGet(s, need, seen)) && Inv(ReaderGetNow(s, seen))
  {
    ReaderGrants(s, seen);
    ReaderGrants(s, s.r.snap);
  }

  /** No block the writer may fill is one the reader has yet to read. */
  lemma GrantAvoidsUnread(s: Ring, i: nat)
    requires Inv(s) && i < s.w.grant
    ensures s.Index(s.w.idx) + i < |s.data|
    ensures forall j :: s.r.idx <= j < s.w.idx ==> Slot(j, s.k) != s.Index(s.w.idx) + i
  {
    MaskIsSlot(s.w.idx, s.k);
    SlotAdds(s.w.idx, i, s.k);
    forall j | s.r.idx <= j < s.w.idx ensures Slot(j, s.k) != Slot(s.w.idx + i, s.k) {
      SlotsDiffer(j, s.w.idx + i, s.k);
    }
  }

  /** A block the reader may read holds what the writer published there. */
  lemma GrantIsPublished(s: Ring, i: nat)
    requires Inv(s) && i < s.r.grant
    ensures s.Index(s.r.idx) + i < |s.data| && s.data[s.Index(s.r.idx) + i] == s.published[s.r.idx + i]
  {
    MaskIsSlot(s.r.idx, s.k);
    SlotAdds(s.r.idx, i, s.k);
  }

  /** The contiguous slots of a stretch of positions. */
  lemma StretchAdvances(x: nat, grant: nat, done: nat, k: nat)
    requires done <= grant && Slot(x, k) + grant <= Pow2(k)
    ensures Slot(x + done, k) + (grant - done) <= Pow2(k)
  {
    if Slot(x, k) + done < Pow2(k) {
      SlotAdds(x, done, k);
    }
  }

  lemma FillKeeps(s: Ring, i: nat, x: Block)
    requires Inv(s) && i < s.w.grant
    ensures Inv(FillBlock(s, i, x))
  {
    GrantAvoidsUnread(s, i);
  }

  lemma PublishedSlots(s: Ring, done: nat)
    requires Inv(s) && done <= s.w.grant
    ensures s.Index(s.w.idx) + done <= |s.data| && s.Index(s.w.idx) == Slot(s.w.idx, s.k)
    ensures Intact(s.k, s.data, s.published + Blocks(s.data, s.Index(s.w.idx), done), s.r.idx)
  {
    MaskIsSlot(s.w.idx, s.k);
    var w, p := s.w.idx, s.published + Blocks(s.data, s.Index(s.w.idx), done);
    forall j | w <= j < |p| ensures s.data[Slot(j, s.k)] == p[j] {
      SlotAdds(w, j - w, s.k);
    }
  }

  lemma WriterCommitKeeps(s: Ring, done: nat)
    requires Inv(s) && done <= s.w.grant
    ensures Inv(WriterCommit(s, done))
  {
    PublishedSlots(s, done);
    StretchAdvances(s.w.idx, s.w.grant, done, s.k);
  }

  lemma BlocksMatch(data: seq<Block>, published: seq<Block>, k: nat, x: nat, n: nat)
    requires Intact(k, data, published, x) && x + n <= |published| && Slot(x, k) + n <= Pow2(k)
    ensures Blocks(data, Slot(x, k), n) == published[x..x + n]
  {
    var a, b := Blocks(data, Slot(x, k), n), published[x..x + n];
    forall i | 0 <= i < n ensures a[i] == b[i] {
      SlotAdds(x, i, k);
      assert data[Slot(x + i, k)] == published[x + i];
    }
  }

  lemma ReadBlocks(s: Ring, done: nat)
    requires Inv(s) && done <= s.r.grant
    ensures Blocks(s.data, s.Index(s.r.idx), done) == s.published[s.r.idx..s.r.idx + done]
  {
    MaskIsSlot(s.r.idx, s.k);
    BlocksMatch(s.data, s.published, s.k, s.r.idx, done);
  }

  lemma FaithfulExtends(got: seq<Seen>, published: seq<Block>, r: nat, done: nat)
    requires Faithful(got, published, r) && r + done <= |published|
    ensures Faithful(got + Observed(published[r..r + done], r), published, r + done)
  {
  }

  /** What a commit of the reader does, without the ring's memory. */
  lemma ReaderCommitIs(s: Ring, done: nat)
    requires Inv(s) && done <= s.r.grant
    ensures ReaderCommit(s, done) ==
            s.(r := s.r.(idx := s.r.idx + done, grant := s.r.grant - done),
               got := s.got + Observed(s.published[s.r.idx..s.r.idx + done], s.r.idx))
  {
    ReadBlocks(s, done);
  }

  lemma ReaderCommitBounds(k: nat, w: Side, r: Side, done: nat)
    requires Bounds(k, w, r) && done <= r.grant
    ensures Bounds(k, w, r.(idx := r.idx + done, grant := r.grant - done))
  {
    StretchAdvances(r.idx, r.grant, done, k);
  }

  lemma ReaderCommitKeeps(s: Ring, done: nat)
    requires Inv(s) && done <= s.r.grant
    ensures Inv(ReaderCommit(s, done))
  {
    ReaderCommitIs(s, done);
    FaithfulExtends(s.got, s.published, s.r.idx, done);
    ReaderCommitBounds(s.k, s.w, s.r, done);
  }

  lemma ResetOutKeeps(s: Ring, seen: nat)
    requires Inv(s) && s.r.idx <= seen <= s.w.idx
    ensures Inv(ResetOut(s, seen))
  {
    assert Slot(seen, s.k) + 0 <= Pow2(s.k);
  }

  lemma StepKeeps(s: Ring, l: Label)
    requires Inv(s) && Can(s, l)
    ensures Inv(Step(s, l)) && Step(s, l).k == s.k
  {
    match l
    case WGet(need, seen) => WriterGetKeeps(s, need, seen);
    case WGetNow(seen) => WriterGetKeeps(s, 0, seen);
    case WFill(i, x) => FillKeeps(s, i, x);
    case WCommit(done) => WriterCommitKeeps(s, done);
    case RGet(need, seen) => ReaderGetKeeps(s, need, seen);
    case RGetNow(seen) => ReaderGetKeeps(s, 0, seen);
    case RPeek(at, seen) => assert Inv(ReaderPeek(s, at, seen));
    case RCommit(done) => ReaderCommitKeeps(s, done);
    case RUnread(seen) => assert Inv(s.(r := s.r.(snap := seen)));
    case RResetOut(seen) => ResetOutKeeps(s, seen);
  }

  // ----- Runs -----

  ghost predicate Steps(s: Ring, l: Label, s': Ring) {
    Can(s, l) && s' == Step(s, l)
  }

  function Start(k: nat, data: seq<Block>): Ring {
    Ring(k, Side(0, 0, 0, 0), Side(0, 0, 0, 0), data, [], [])
  }

  ghost predicate Run(ss: seq<Ring>, ls: seq<Label>) {
    && |ss| == |ls| + 1 && |ss[0].data| == Pow2(ss[0].k) && ss[0] == Start(ss[0].k, ss[0].data)
    && forall i :: 0 <= i < |ls| ==> Steps(ss[i], ls[i], ss[i + 1])
  }

  /** In every interleaving of writer and reader: 0 <= w - r <= N, grants are contiguous, in bounds and
      disjoint from what the other side owns, and the reader gets what the writer wrote, in order. */
  lemma {:induction false} SafeInEveryRun(ss: seq<Ring>, ls: seq<Label>, n: nat)
    requires Run(ss, ls) && n <= |ls|
    ensures Inv(ss[n])
  {
    if n > 0 {
      SafeInEveryRun(ss, ls, n - 1);
      assert Steps(ss[n - 1], ls[n - 1], ss[n]);
      StepKeeps(ss[n - 1], ls[n - 1]);
    }
  }

  /** What a step of the ring does to the queue it stands for. */
  function QueueStep(q: seq<Block>, s: Ring, l: Label): seq<Block> {
    match l
    case WCommit(done) => q + Blocks(s.data, s.Index(s.w.idx), done)
    case RCommit(done) => Dropped(q, done)
    case RResetOut(seen) => Dropped(q, if seen >= s.r.idx then seen - s.r.idx else 0)
    case _ => q
  }

  function Dropped(q: seq<Block>, n: nat): seq<Block> {
    if n <= |q| then q[n..] else []
  }

  lemma SameQueue(s: Ring, s': Ring)
    requires s.published == s'.published && s.r.idx == s'.r.idx
    ensures s'.Unread() == s.Unread()
  {
  }

  lemma WriterCommitQueue(s: Ring, done: nat)
    requires Inv(s) && done <= s.w.grant
    ensures |Blocks(s.data, s.Index(s.w.idx), done)| == done
    ensures WriterCommit(s, done).Unread() == s.Unread() + Blocks(s.data, s.Index(s.w.idx), done)
  {
    PublishedSlots(s, done);
    var b := Blocks(s.data, s.Index(s.w.idx), done);
    assert (s.published + b)[s.r.idx..] == s.published[s.r.idx..] + b;
  }

  lemma DropDrop(q: seq<Block>, i: nat, j: nat)
    requires i + j <= |q|
    ensures q[i..][j..] == q[i + j..]
  {
  }

  lemma ReaderCommitQueue(s: Ring, done: nat)
    requires s.r.idx + done <= |s.published|
    ensures done <= |s.Unread()| && ReaderCommit(s, done).Unread() == s.Unread()[done..]
  {
    DropDrop(s.published, s.r.idx, done);
  }

  lemma ResetOutQueue(s: Ring, seen: nat)
    requires s.r.idx <= seen <= |s.published|
    ensures seen - s.r.idx <= |s.Unread()| && ResetOut(s, seen).Unread() == s.Unread()[seen - s.r.idx..]
  {
    DropDrop(s.published, s.r.idx, seen - s.r.idx);
  }

  /** The ring is a queue: commits append what was filled in and remove what was read, everything else
      leaves the queue alone. */
  lemma StepIsQueueStep(s: Ring, l: Label)
    requires Inv(s) && Can(s, l)
    ensures Step(s, l).Unread() == QueueStep(s.Unread(), s, l)
    ensures l.WCommit? ==> |Step(s, l).Unread()| == |s.Unread()| + l.done
    ensures l.RCommit? ==> |Step(s, l).Unread()| == |s.Unread()| - l.done
  {
    match l
    case WCommit(done) => WriterCommitQueue(s, done);
    case RCommit(done) => ReaderCommitQueue(s, done);
    case RResetOut(seen) => ResetOutQueue(s, seen);
    case WGet(_, _) => SameQueue(s, Step(s, l));
    case WGetNow(_) => SameQueue(s, Step(s, l));
    case WFill(_, _) => SameQueue(s, Step(s, l));
    case RGet(_, _) => SameQueue(s, Step(s, l));
    case RGetNow(_) => SameQueue(s, Step(s, l));
    case RPeek(_, _) => SameQueue(s, Step(s, l));
    case RUnread(_) => SameQueue(s, Step(s, l));
  }

  ghost predicate NoResets(ls: seq<Label>, n: nat)
    requires n <= |ls|
  {
    forall i :: 0 <= i < n ==> !ls[i].RResetOut?
  }

  /** The reader has taken exactly the first `r` blocks of the written sequence. */
  ghost predicate TookAll(got: seq<Seen>, published: seq<Block>, r: nat) {
    |got| == r <= |published| && forall i :: 0 <= i < r ==> got[i] == Seen(i, published[i])
  }

  lemma StepTakesAll(s: Ring, l: Label)
    requires Inv(s) && Can(s, l) && TookAll(s.got, s.published, s.r.idx) && !l.RResetOut?
    ensures TookAll(Step(s, l).got, Step(s, l).published, Step(s, l).r.idx)
  {
    if l.RCommit? {
      ReaderCommitIs(s, l.done);
      TookMore(s.got, s.published, s.r.idx, l.done);
    } else if l.WCommit? {
      assert s.published <= WriterCommit(s, l.done).published;
    }
  }

  lemma TookMore(got: seq<Seen>, published: seq<Block>, r: nat, done: nat)
    requires TookAll(got, published, r) && r + done <= |published|
    ensures TookAll(got + Observed(published[r..r + done], r), published, r + done)
  {
  }

  /** Without reader_reset_out the reader takes the whole written sequence, block by block. */
  lemma {:induction false} ReaderSeesAll(ss: seq<Ring>, ls: seq<Label>, n: nat)
    requires Run(ss, ls) && n <= |ls| && NoResets(ls, n)
    ensures TookAll(ss[n].got, ss[n].published, ss[n].r.idx)
  {
    if n > 0 {
      ReaderSeesAll(ss, ls, n - 1);
      SafeInEveryRun(ss, ls, n - 1);
      assert Steps(ss[n - 1], ls[n - 1], ss[n]);
      StepTakesAll(ss[n - 1], ls[n - 1]);
    }
  }

  // ----- How much is granted -----

  /** The blocks that are contiguous and free, or published, according to the index seen. */
  function FreeRun(s: Ring, seen: nat): nat {
    if s.w.idx < seen + Pow2(s.k) then Min(seen + Pow2(s.k) - s.w.idx, Pow2(s.k) - Slot(s.w.idx, s.k)) else 0
  }

  function UnreadRun(s: Ring, seen: nat): nat {
    if s.r.idx < seen then Min(seen - s.r.idx, Pow2(s.k) - Slot(s.r.idx, s.k)) else 0
  }

  lemma FreeRunIs(s: Ring, seen: nat)
    requires seen <= s.w.idx
    ensures WriterCount(s.k, s.w.idx, seen) == FreeRun(s, seen)
  {
    WriterCountIs(s.k, s.w.idx, seen);
  }

  /** `writer_get_buffer(need_cnt)` grants `need` blocks if and only if so many are contiguous and free for
      the index seen; less is granted only when there is no more, and nothing only for a full ring. */
  lemma WriterNeedMet(s: Ring, need: nat, seen: nat)
    requires Inv(s) && s.w.snap <= seen <= s.r.idx
    ensures var g, most := WriterGet(s, need, seen).w.grant, FreeRun(s, seen);
            g <= most && (need <= g <==> need <= most) && (g < need ==> g == most) && (g == 0 <==> most == 0)
    ensures var w := WriterGet(s, need, seen).w; w.grant == FreeRun(s, w.snap) && (w.grant > 0 ==> w.cnt == w.grant)
  {
    FreeRunIs(s, s.w.snap);
    FreeRunIs(s, seen);
    assert FreeRun(s, s.w.snap) <= FreeRun(s, seen);
  }

  /** `reader_get_buffer(need_cnt)` likewise, except when a count that some peek stored hides that the
      snapshot is too old: then, and only then, less than `need` is granted although it is there. */
  lemma ReaderNeedMetIff(s: Ring, need: nat, seen: nat)
    requires Inv(s) && s.r.snap <= seen <= s.w.idx
    ensures var g, most := ReaderGet(s, need, seen).r.grant, UnreadRun(s, seen);
            var hidden := 0 < UnreadRun(s, s.r.snap) < need <= s.r.cnt;
            && g <= most && (g == 0 <==> most == 0)
            && (need <= most ==> (need <= g <==> !hidden))
            && (g < need && !hidden ==> g == most)
            && g == UnreadRun(s, ReaderGet(s, need, seen).r.snap)
  {
    ReaderCountIs(s.k, s.r.snap, s.r.idx);
    ReaderCountIs(s.k, seen, s.r.idx);
  }

  // ----- The count that is not stored -----

  /** A peek that finds its block stores a count. */
  predicate Stores(s: Ring, l: Label) {
    l.RPeek? && l.at >= s.r.idx && l.at < l.seen && ReaderCount(s.k, l.seen, l.at) > 0
  }

  ghost predicate NoneStored(ss: seq<Ring>, ls: seq<Label>, n: nat)
    requires n <= |ls| < |ss|
  {
    forall i :: 0 <= i < n ==> !Stores(ss[i], ls[i])
  }

  lemma StoredStep(s: Ring, l: Label, s': Ring)
    requires Steps(s, l, s')
    ensures s'.r.cnt == 0 <==> s.r.cnt == 0 && !Stores(s, l)
  {
  }

  /** In every run the reader's stored count is 0 if and only if no peek has found its block. */
  lemma {:induction false} ReaderCountStaysZero(ss: seq<Ring>, ls: seq<Label>, n: nat)
    requires Run(ss, ls) && n <= |ls|
    ensures ss[n].r.cnt == 0 <==> NoneStored(ss, ls, n)
  {
    if n > 0 {
      ReaderCountStaysZero(ss, ls, n - 1);
      StoredStep(ss[n - 1], ls[n - 1], ss[n]);
    }
  }

  /** Then a call that needs a block always refreshes its snapshot, and the count its caller finds in the
      buffer information is the number of blocks granted exactly when none is granted. */
  lemma ReaderCountWrong(ss: seq<Ring>, ls: seq<Label>, n: nat, need: nat, seen: nat)
    requires Run(ss, ls) && n <= |ls| && NoneStored(ss, ls, n) && need > 0
    ensures var r := ReaderGet(ss[n], need, seen).r; r.snap == seen && (r.cnt == r.grant <==> r.grant == 0)
  {
    ReaderCountStaysZero(ss, ls, n);
  }

  // ----- The count that hides blocks, on a run -----

  /** Two published blocks of a ring of two; the reader's snapshot, stored count and grant vary. */
  function TwoWritten(data: seq<Block>, snap: nat, cnt: nat, grant: nat): Ring {
    Ring(1, Side(2, 0, 2, 0), Side(0, snap, cnt, grant), data, data, [])
  }

  function OneWritten(data: seq<Block>, snap: nat): Ring
    requires |data| == 2
  {
    Ring(1, Side(1, 0, 2, 1), Side(0, snap, 0, 0), data, data[..1], [])
  }

  lemma TwoWrites(data: seq<Block>)
    requires |data| == 2
    ensures WriterCommit(WriterGetNow(Start(1, data), 0), 1) == OneWritten(data, 0)
    ensures WriterCommit(OneWritten(data, 1), 1) == TwoWritten(data, 1, 0, 0)
  {
    WriterCountIs(1, 0, 0);
    MaskIsSlot(0, 1);
    MaskIsSlot(1, 1);
    assert Blocks(data, 0, 1) == data[..1] && data[..1] + Blocks(data, 1, 1) == data;
  }

  lemma PeekThenGet(data: seq<Block>)
    requires |data| == 2
    ensures ReaderPeek(TwoWritten(data, 1, 0, 0), 0, 2) == TwoWritten(data, 1, 2, 0)
    ensures ReaderGet(TwoWritten(data, 1, 2, 0), 2, 2) == TwoWritten(data, 1, 2, 1)
    ensures UnreadRun(TwoWritten(data, 1, 2, 1), 2) == 2
  {
    ReaderCountIs(1, 2, 0);
    ReaderCountIs(1, 1, 0);
  }

  /** A block, a look at the number of unread blocks, a second block and a peek at the first one: a reader
      that then asks for two blocks gets one, although both lie side by side. */
  lemma PeekHidesBlock(data: seq<Block>) returns (ss: seq<Ring>, ls: seq<Label>)
    requires |data| == 2
    ensures Run(ss, ls) && |ls| == 6 && ls[5] == RGet(2, 2)
    ensures ss[5].w.idx == 2 && UnreadRun(ss[5], 2) == 2 && ss[6].r.grant == 1 && |ss[6].Unread()| == 2
  {
    TwoWrites(data);
    PeekThenGet(data);
    WriterCountIs(1, 0, 0);
    ls := [WGetNow(0), WCommit(1), RUnread(1), WCommit(1), RPeek(0, 2), RGet(2, 2)];
    ss := [Start(1, data), WriterGetNow(Start(1, data), 0), OneWritten(data, 0), OneWritten(data, 1),
           TwoWritten(data, 1, 0, 0), TwoWritten(data, 1, 2, 0), TwoWritten(data, 1, 2, 1)];
  }

  // ----- Initialisation -----

  const Two32: nat := 0x1_0000_0000

  lemma Pow2Of32()
    ensures Pow2(31) == 0x8000_0000 && Pow2(32) == Two32 && Pow2(63) == 0x8000_0000 * Two32 && Pow2(64) == Two32 * Two32
  {
    assert Pow2(8) == 256;
    Pow2Splits(8, 8);
    Pow2Splits(16, 16);
    Pow2Splits(31, 32);
    Pow2Splits(32, 32);
  }

  /** A power of two that does not fit 32 bits is truncated to 0. */
  lemma LargePowersTruncate(p: nat)
    requires IsPowerOf2(p)
    ensures p > 0x8000_0000 ==> p % Two32 == 0
    ensures p <= 0x8000_0000 ==> p % Two32 == p
  {
    Pow2Of32();
    if p > 0x8000_0000 {
      var k := PassingIsPow2(p);
      if k <= 31 {
        Pow2Monotone(k, 31);
      } else {
        Pow2Splits(32, k - 32);
        RemainderUnique(p, Two32, Pow2(k - 32), 0);
      }
    }
  }

  /** `val`, or the next power of two, stored into 32 bits. */
  method RoundedTo32(val: nat) returns (r: nat)
    requires val < Two32 * Two32
    ensures 1 <= val <= 0x8000_0000 ==> IsPowerOf2(r) && val <= r && forall p :: IsPowerOf2(p) && val <= p ==> r <= p
    ensures val == 0 || val > 0x8000_0000 ==> r == 0
  {
    Pow2Of32();
    if IsPowerOf2(val) {
      LargePowersTruncate(val);
      return val % Two32;
    }
    var up := RoundupPowerOfTwo(val, 63);
    if up > 0 {
      Pow2Passes(31);
      LargePowersTruncate(up);
    }
    r := up % Two32;
  }

  /** `init`: the number of blocks and the mask, when every allocation succeeds. The mask comes from the
      rounded count, the blocks from the count itself: indexing stays within the blocks exactly when
      the count is a power of two. */
  method Init(blockCnt: nat, alignSize: nat) returns (ret: int, blocks: nat, mask: nat)
    requires blockCnt < Two32 && alignSize < Two32 * Two32
    ensures ret == 0 <==> 1 <= blockCnt <= 0x8000_0000 && 1 <= alignSize <= 0x8000_0000
    ensures ret == 0 ==> blocks == blockCnt && IsPowerOf2(mask + 1) && blockCnt <= mask + 1
    ensures ret == 0 ==> ((forall x: nat :: And(x, mask) < blocks) <==> IsPowerOf2(blockCnt))
    ensures ret != 0 ==> ret == -1 && blocks == 0
  {
    var realAlign := RoundedTo32(alignSize);
    var realCnt := RoundedTo32(blockCnt);
    if realCnt == 0 || realAlign == 0 {
      return -1, 0, 0;
    }
    ret, blocks, mask := 0, 0, realCnt - 1;
    while blocks < blockCnt
      invariant blocks <= blockCnt
    {
      blocks := blocks + 1;
    }
    MaskFitsIff(blockCnt, realCnt, mask);
  }

  /** Masking by a rounded-up count stays below the count itself only if nothing was rounded. */
  lemma MaskFitsIff(count: nat, rounded: nat, mask: nat)
    requires mask == rounded - 1 && IsPowerOf2(rounded) && 1 <= count <= rounded
    requires forall p :: IsPowerOf2(p) && count <= p ==> rounded <= p
    ensures (forall x: nat :: And(x, mask) < count) <==> IsPowerOf2(count)
  {
    var k := PassingIsPow2(rounded);
    if IsPowerOf2(count) {
      forall x: nat ensures And(x, mask) < count {
        MaskIsMod(x, k);
      }
    } else {
      MaskIsMod(rounded - 1, k);
      RemainderUnique(rounded - 1, rounded, 0, rounded - 1);
      assert And(mask, mask) == rounded - 1 >= count;
    }
  }

  // ----- Single calls on the queue -----

  lemma OneBlock(s: Ring, x: Block)
    requires Inv(s) && s.w.grant > 0 && s.Index(s.w.idx) < |s.data| && s.data[s.Index(s.w.idx)] == x
    ensures WriterCommit(s, 1).Unread() == s.Unread() + [x]
  {
    WriterCommitQueue(s, 1);
    assert Blocks(s.data, s.Index(s.w.idx), 1) == [x];
  }

  /** `cnt` blocks from `at` on are the first unread ones; at -1 there are none. */
  ghost predicate Offers(s: Ring, at: int, cnt: nat) {
    if at == -1 then s.Unread() == [] && cnt == 0
    else 0 <= at && at + cnt <= |s.data| && 0 < cnt <= |s.Unread()| && s.data[at..at + cnt] == s.Unread()[..cnt]
  }

  /** What the reader is granted are the first unread blocks. */
  lemma GrantOffers(s: Ring)
    requires Inv(s) && (s.r.grant == 0 ==> s.Unread() == [])
    ensures Offers(s, if s.r.grant > 0 then Slot(s.r.idx, s.k) else -1, s.r.grant)
  {
    BlocksMatch(s.data, s.published, s.k, s.r.idx, s.r.grant);
    TakeDrop(s.published, s.r.idx, s.r.grant);
  }

  lemma ReaderGetOffers(s: Ring, need: nat)
    requires Inv(s)
    ensures var s' := ReaderGet(s, need, s.w.idx);
            && Inv(s') && s'.r.idx == s.r.idx && (s'.r.grant == 0 <==> s.Unread() == [])
            && Offers(s', if s'.r.grant > 0 then Slot(s.r.idx, s.k) else -1, s'.r.grant)
            && (s.r.cnt < need ==> s'.r.grant == UnreadRun(s', s.w.idx))
  {
    var s' := ReaderGet(s, need, s.w.idx);
    ReaderGetKeeps(s, need, s.w.idx);
    ReaderNeedMetIff(s, need, s.w.idx);
    SameQueue(s, s');
    GrantOffers(s');
    if s.r.cnt < need {
      ReaderCountIs(s.k, s.w.idx, s.r.idx);
    }
  }

  lemma ReaderGetNowOffers(s: Ring)
    requires Inv(s)
    ensures var s' := ReaderGetNow(s, s.w.idx);
            && Inv(s') && s'.r.grant == UnreadRun(s', s.w.idx)
            && Offers(s', if s'.r.grant > 0 then Slot(s.r.idx, s.k) else -1, s'.r.grant)
  {
    ReaderGetKeeps(s, 0, s.w.idx);
    ReaderCountIs(s.k, s.w.idx, s.r.idx);
    GrantOffers(ReaderGetNow(s, s.w.idx));
  }

  /** What the writer is granted for the reader's current index. */
  lemma WriterGetGrants(s: Ring, need: nat)
    requires Inv(s)
    ensures var s' := WriterGet(s, need, s.r.idx);
            && Inv(s') && s'.w.grant == FreeRun(s', s'.w.snap)
            && (s'.w.grant == 0 <==> |s'.Unread()| == Pow2(s.k))
            && (need <= s'.w.grant <==> need <= Pow2(s.k) - |s'.Unread()| && need <= Pow2(s.k) - Slot(s.w.idx, s.k))
  {
    WriterGetKeeps(s, need, s.r.idx);
    WriterNeedMet(s, need, s.r.idx);
    SameQueue(s, WriterGet(s, need, s.r.idx));
    assert |s.Unread()| == s.w.idx - s.r.idx;
  }

  lemma TakeDrop(q: seq<Block>, i: nat, n: nat)
    requires i + n <= |q|
    ensures q[i..][..n] == q[i..i + n]
  {
  }

  // ----- The object -----

  /** `ring_buffer`, after an `init` with a power-of-two count. */
  class RingBuffer {
    const k: nat
    const mask: nat
    const data: array<Block>
    var writer: Side
    var reader: Side
    ghost var published: seq<Block>
    ghost var got: seq<Seen>

    ghost function Value(): Ring
      reads this, data
    {
      Ring(k, writer, reader, data[..], published, got)
    }

    ghost predicate Valid()
      reads this, data
    {
      mask == Pow2(k) - 1 && data.Length == Pow2(k) && Inv(Value())
    }

    constructor (k: nat)
      ensures Valid() && fresh(data) && Value() == Start(k, data[..])
    {
      this.k, mask := k, Pow2(k) - 1;
      data := new Block[Pow2(k)](_ => 0);
      writer, reader := Side(0, 0, 0, 0), Side(0, 0, 0, 0);
      published, got := [], [];
    }

    /** The first block and the count `internal_writer_get_buffer` grants; -1 is the null pointer. */
    method WriterRange(readIdx: nat) returns (at: int, cnt: nat)
      requires mask == Pow2(k) - 1 && data.Length == Pow2(k) && readIdx <= writer.idx
      ensures cnt == WriterCount(k, writer.idx, readIdx)
      ensures at == if cnt > 0 then Slot(writer.idx, k) else -1
    {
      WriterCountIs(k, writer.idx, readIdx);
      MaskIsSlot(writer.idx, k);
      if writer.idx - readIdx >= data.Length {
        return -1, 0;
      }
      var idxW := And(writer.idx, mask);
      var idxR := And(readIdx, mask);
      return idxW, if idxW >= idxR then data.Length - idxW else idxR - idxW;
    }

    method InternalWriterGet(readIdx: nat) returns (at: int)
      requires Valid() && readIdx <= reader.idx
      modifies this`writer
      ensures Valid() && Value() == WriterGetNow(old(Value()), readIdx)
      ensures at == if writer.grant > 0 then Slot(writer.idx, k) else -1
    {
      WriterGetKeeps(Value(), 0, readIdx);
      var cnt;
      at, cnt := WriterRange(readIdx);
      writer := Granted(writer, cnt);
    }

    /** `writer_get_buffer(need_cnt)`: refused exactly when the ring is full. */
    method WriterGetBuffer(need: nat) returns (at: int)
      requires Valid()
      modifies this`writer
      ensures Valid() && Value() == WriterGet(old(Value()), need, reader.idx)
      ensures at == if writer.grant > 0 then Slot(writer.idx, k) else -1
      ensures at == -1 <==> |Value().Unread()| == Pow2(k)
      ensures writer.grant == FreeRun(Value(), writer.snap)
      ensures need <= writer.grant <==> need <= Pow2(k) - |Value().Unread()| && need <= Pow2(k) - Slot(writer.idx, k)
    {
      WriterGetGrants(Value(), need);
      at := InternalWriterGet(writer.snap);
      if at >= 0 && writer.cnt >= need {
        return;
      }
      writer := writer.(snap := reader.idx);
      at := InternalWriterGet(writer.snap);
    }

    /** The writer stores into a granted block. */
    method Fill(i: nat, x: Block)
      requires Valid() && i < writer.grant
      modifies data
      ensures Valid() && Value() == FillBlock(old(Value()), i, x)
    {
      FillKeeps(Value(), i, x);
      GrantAvoidsUnread(Value(), i);
      data[And(writer.idx, mask) + i] := x;
    }

    method Commit(done: nat)
      requires Valid() && done <= writer.grant
      modifies this`writer, this`published
      ensures Valid() && Value() == WriterCommit(old(Value()), done)
    {
      WriterCommitKeeps(Value(), done);
      published := published + Blocks(data[..], And(writer.idx, mask), done);
      writer := writer.(idx := writer.idx + done, grant := writer.grant - done);
    }

    /** `put`: one value at the end of the queue, unless it is too large or the ring is full. */
    method Put(x: Block, size: nat, blockSize: nat) returns (ret: int)
      requires Valid()
      modifies this`writer, this`published, data
      ensures Valid()
      ensures ret == (if size > blockSize then -1 else if |old(Value()).Unread()| == Pow2(k) then -2 else 0)
      ensures Value().Unread() == if ret == 0 then old(Value()).Unread() + [x] else old(Value()).Unread()
    {
      if size > blockSize {
        return -1;
      }
      var at := WriterGetBuffer(1);
      if at < 0 {
        return -2;
      }
      Append(x);
      return 0;
    }

    method Append(x: Block)
      requires Valid() && writer.grant > 0
      modifies this`writer, this`published, data
      ensures Valid() && Value().Unread() == old(Value()).Unread() + [x]
    {
      GrantAvoidsUnread(Value(), 0);
      Fill(0, x);
      OneBlock(Value(), x);
      Commit(1);
    }

    /** The first block and the count `internal_reader_get_buffer` computes; -1 is the null pointer. */
    method ReaderRange(writeIdx: nat, readIdx: nat) returns (at: int, cnt: nat)
      requires mask == Pow2(k) - 1 && data.Length == Pow2(k) && writeIdx <= readIdx + Pow2(k)
      ensures cnt == ReaderCount(k, writeIdx, readIdx)
      ensures at == if cnt > 0 then Slot(readIdx, k) else -1
    {
      ReaderCountIs(k, writeIdx, readIdx);
      MaskIsSlot(readIdx, k);
      if writeIdx <= readIdx {
        return -1, 0;
      }
      var idxW := And(writeIdx, mask);
      var idxR := And(readIdx, mask);
      return idxR, if idxW > idxR then idxW - idxR else data.Length - idxR;
    }

    /** `reader_get_buffer(need_cnt)`: the snapshot is kept only if a block is left in it and the count
        that some peek stored is large enough. */
    method ReaderGetBufferFor(need: nat) returns (at: int)
      requires Valid()
      modifies this`reader
      ensures Valid() && Value() == ReaderGet(old(Value()), need, writer.idx)
      ensures at == -1 <==> old(Value()).Unread() == []
      ensures Offers(Value(), at, reader.grant)
      ensures old(reader).cnt < need ==> reader.grant == UnreadRun(Value(), writer.idx)
    {
      ReaderGetOffers(Value(), need);
      var cnt;
      at, cnt := ReaderRange(reader.snap, reader.idx);
      if at != -1 && reader.cnt >= need {
        reader := reader.(grant := cnt);
        return;
      }
      reader := reader.(snap := writer.idx);
      at, cnt := ReaderRange(reader.snap, reader.idx);
      reader := reader.(grant := cnt);
    }

    /** `reader_get_buffer(buf_info_ptr, read_idx)`: 0 exactly for an index that is published and not yet
        given back. Only the stored count changes. */
    method Peek(readIdx: nat) returns (ret: int)
      requires Valid()
      modifies this`reader
      ensures Valid() && Value() == ReaderPeek(old(Value()), readIdx, writer.idx)
      ensures ret == if reader.idx <= readIdx < writer.idx then 0 else -1
      ensures ret == 0 ==> reader.cnt == Min(writer.idx - readIdx, Pow2(k) - Slot(readIdx, k))
      ensures reader == old(reader).(cnt := reader.cnt) && (ret != 0 ==> reader == old(reader))
    {
      if readIdx < reader.idx || readIdx >= writer.idx {
        return -1;
      }
      ReaderCountIs(k, writer.idx, readIdx);
      var at, cnt := ReaderRange(writer.idx, readIdx);
      reader := reader.(cnt := cnt);
      return 0;
    }

    /** `reader_get_buffer()`: nothing exactly when the queue is empty; what it grants is unread. */
    method ReaderGetBuffer() returns (at: int, cnt: nat)
      requires Valid()
      modifies this`reader
      ensures Valid() && Value() == ReaderGetNow(old(Value()), writer.idx) && Offers(Value(), at, cnt)
      ensures cnt == reader.grant == UnreadRun(Value(), writer.idx)
    {
      ReaderGetNowOffers(Value());
      at, cnt := ReaderRange(writer.idx, reader.idx);
      reader := reader.(grant := cnt);
      assert Value() == ReaderGetNow(old(Value()), writer.idx);
    }

    method ReaderCommits(done: nat)
      requires Valid() && done <= reader.grant
      modifies this`reader, this`got
      ensures Valid() && Value() == ReaderCommit(old(Value()), done)
    {
      ReaderCommitKeeps(Value(), done);
      ghost var next := ReaderCommit(Value(), done);
      got := got + Observed(Blocks(data[..], And(reader.idx, mask), done), reader.idx);
      reader := reader.(idx := reader.idx + done, grant := reader.grant - done);
      assert Value() == next;
    }

    method UnreadCnt() returns (n: nat)
      requires Valid()
      modifies this`reader
      ensures Valid() && n == |Value().Unread()| && Value() == Step(old(Value()), RUnread(writer.idx))
      ensures reader == old(reader).(snap := writer.idx)
    {
      reader := reader.(snap := writer.idx);
      n := writer.idx - reader.idx;
    }

    method ResetsOut()
      requires Valid()
      modifies this`reader
      ensures Valid() && Value().Unread() == [] && Value() == ResetOut(old(Value()), writer.idx)
      ensures reader == Side(writer.idx, writer.idx, old(reader).cnt, 0)
    {
      ResetOutKeeps(Value(), writer.idx);
      reader := reader.(idx := writer.idx, snap := writer.idx, grant := 0);
    }
  }
}
