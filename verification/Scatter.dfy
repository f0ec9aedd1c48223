/**
  Scatter lists: `move_iov` on an array and a cursor, the read loops that depend on it, and the delivery
  of received data in chunks. A list is understood as the sequence of memory cells it covers; a read is
  understood as the sequence of cells into which successive bytes of the stream were put.
 */
module Scatter {

  datatype Iov = Iov(base: nat, len: nat)

  /** The cells base, base + 1, ... of one entry. */
  function Range(base: nat, len: nat): (r: seq<nat>)
    ensures |r| == len
    decreases len
  {
    if len == 0 then [] else [base] + Range(base + 1, len - 1)
  }

  /** The cells that the entries from `i` on cover, in order. */
  function CellsFrom(s: seq<Iov>, i: nat): seq<nat>
    decreases |s| - i
  {
    if i >= |s| then [] else Range(s[i].base, s[i].len) + CellsFrom(s, i + 1)
  }

  function Cells(s: seq<Iov>): seq<nat> {
    CellsFrom(s, 0)
  }

  function Drop(c: seq<nat>, n: nat): seq<nat> {
    if n <= |c| then c[n..] else []
  }

  lemma {:induction false} CellsAgree(s: seq<Iov>, t: seq<Iov>, i: nat)
    requires |s| == |t| && forall j :: i <= j < |s| ==> s[j] == t[j]
    ensures CellsFrom(s, i) == CellsFrom(t, i)
    decreases |s| - i
  {
    if i < |s| {
      CellsAgree(s, t, i + 1);
    }
  }

  lemma {:induction false} RangeSplit(base: nat, len: nat, n: nat)
    requires n <= len
    ensures Range(base, len) == Range(base, n) + Range(base + n, len - n)
    decreases n
  {
    if n > 0 {
      RangeSplit(base + 1, len - 1, n - 1);
    }
  }

  lemma DropFirst(a: seq<nat>, b: seq<nat>, c: seq<nat>)
    ensures (a + b + c)[|a|..] == b + c
  {
  }

  lemma DropAll(a: seq<nat>, b: seq<nat>, n: nat)
    requires n >= |a|
    ensures Drop(a + b, n) == Drop(b, n - |a|)
  {
  }

  // ----- move_iov -----

  /** The entry in which consuming `n` cells from entry `i` on stops, and what is left to consume there. */
  function StopAt(s: seq<Iov>, i: nat, n: nat): (r: (nat, nat))
    ensures r.0 < |s| ==> i <= r.0 && r.1 < s[r.0].len
    ensures r.0 <= if i <= |s| then |s| else i
    decreases |s| - i
  {
    if i >= |s| then (i, n) else if n < s[i].len then (i, n) else StopAt(s, i + 1, n - s[i].len)
  }

  /** The entries after `n` cells from entry `i` on were consumed: only the one in which that stops has
      changed. */
  function Trimmed(s: seq<Iov>, i: nat, n: nat): (t: seq<Iov>)
    ensures |t| == |s|
  {
    var (p, m) := StopAt(s, i, n);
    if p < |s| then s[p := Iov(s[p].base + m, s[p].len - m)] else s
  }

  lemma {:induction false} StopCells(s: seq<Iov>, i: nat, n: nat)
    requires i <= |s|
    ensures var (p, m) := StopAt(s, i, n);
            && (p < |s| <==> n < |CellsFrom(s, i)|)
            && Drop(CellsFrom(s, i), n) == Drop(CellsFrom(s, p), m)
    decreases |s| - i
  {
    if i < |s| && n >= s[i].len {
      StopCells(s, i + 1, n - s[i].len);
      DropAll(Range(s[i].base, s[i].len), CellsFrom(s, i + 1), n);
    }
  }

  /** The entries from the stop on cover what remains; there are some exactly when cells remain. */
  lemma TrimmedCells(s: seq<Iov>, i: nat, n: nat)
    requires i <= |s|
    ensures var p := StopAt(s, i, n).0;
            && CellsFrom(Trimmed(s, i, n), p) == Drop(CellsFrom(s, i), n)
            && (p < |s| <==> n < |CellsFrom(s, i)|)
  {
    StopCells(s, i, n);
    var (p, m) := StopAt(s, i, n);
    if p < |s| {
      var t := Trimmed(s, i, n);
      CellsAgree(s, t, p + 1);
      RangeSplit(s[p].base, s[p].len, m);
      DropFirst(Range(s[p].base, m), Range(s[p].base + m, s[p].len - m), CellsFrom(s, p + 1));
    }
  }

  /** `move_iov` on entries pos .. pos + cnt of the array, which cover `cells`: the rest of the list
      covers what remains after the first `size` cells, the result is 0 exactly when cells remain, and
      nothing but the first entry of the rest has changed, by as much as `Trimmed` says. */
  method MoveIov(a: array<Iov>, pos: nat, cnt: nat, size: nat, ghost cells: seq<nat>)
    returns (ret: int, pos': nat, cnt': nat)
    requires pos + cnt <= a.Length && cells == CellsFrom(a[..pos + cnt], pos)
    modifies a
    ensures pos <= pos' && pos' + cnt' == pos + cnt
    ensures CellsFrom(a[..pos + cnt], pos') == Drop(cells, size)
    ensures a[..pos + cnt] == Trimmed(old(a[..pos + cnt]), pos, size)
    ensures ret == if size < |cells| then 0 else -1
    ensures ret == 0 ==> cnt' > 0 && a[pos'].len > 0
    ensures ret != 0 ==> cnt' == 0
    ensures forall j :: pos + cnt <= j < a.Length ==> a[j] == old(a[j])
  {
    pos', cnt', ret := pos, cnt, -1;
    ghost var list := a[..pos + cnt];
    TrimmedCells(list, pos, size);
    if cnt == 0 {
      return;
    }
    var rest: nat := size;
    for i := 0 to cnt
      invariant pos' == pos + i && cnt' == cnt - i && unchanged(a)
      invariant StopAt(list, pos, size) == StopAt(list, pos', rest)
    {
      if rest >= a[pos'].len {
        rest := rest - a[pos'].len;
        pos', cnt' := pos' + 1, cnt' - 1;
      } else {
        a[pos'] := Iov(a[pos'].base + rest, a[pos'].len - rest);
        assert a[..pos + cnt] == list[pos' := a[pos']];
        return 0, pos', cnt';
      }
    }
  }

  // ----- The kernel -----

  datatype Errno = EAGAIN | EINTR | EOTHER

  /** A descriptor to read from: `placed` are the cells that received the bytes read so far, and the
      flags say how the last call ended. Interrupts are finite in number. */
  class Source {
    ghost var placed: seq<nat>
    ghost var interrupts: nat
    ghost var ended: bool
    ghost var blocked: bool
    ghost var failed: bool

    /** `readv` or `recvmsg`: some of the bytes, the end, or an error. Callers know the contract only. */
    method Receive(ghost cells: seq<nat>) returns (ret: int, errno: Errno)
      modifies this
      ensures ret <= |cells|
      ensures placed == old(placed) + if ret > 0 then cells[..ret] else []
      ensures ret < 0 && errno == EINTR ==> interrupts < old(interrupts)
      ensures !(ret < 0 && errno == EINTR) ==> interrupts <= old(interrupts)
      ensures ended == (ret == 0)
      ensures blocked == (ret < 0 && errno == EAGAIN) && failed == (ret < 0 && errno == EOTHER)
    {
      ret, errno := 0, EOTHER;
      ended, blocked, failed := true, false, false;
    }
  }

  lemma TakeMore(base: seq<nat>, c: seq<nat>, got: nat, n: nat)
    requires got + n <= |c|
    ensures base + c[..got] + c[got..][..n] == base + c[..got + n]
    ensures Drop(c[got..], n) == c[got + n..]
  {
  }

  // ----- Files -----

  /** The file read loop on a list that covers `cells`: whatever parts `readv` returns, successive bytes
      go into the cells in order, `got` of them. The result is negative exactly when the kernel reports
      an error; otherwise it is that number, and the list is full or the file at its end. */
  method ReadFile(src: Source, a: array<Iov>, count: nat, ghost cells: seq<nat>) returns (ret: int, ghost got: nat)
    requires count <= a.Length && cells == Cells(a[..count])
    modifies src, a
    ensures got <= |cells| && src.placed == old(src.placed) + cells[..got]
    ensures ret < 0 <==> src.failed || src.blocked
    ensures ret >= 0 ==> ret == got && (src.ended || got == |cells|)
  {
    ghost var base := src.placed;
    var pos, cnt := 0, count;
    var result := 0;
    while true
      invariant pos + cnt == count && 0 <= result <= |cells|
      invariant CellsFrom(a[..count], pos) == cells[result..]
      invariant src.placed == base + cells[..result]
      decreases |cells| - result, src.interrupts
    {
      var n, errno := src.Receive(cells[result..]);
      if n > 0 {
        TakeMore(base, cells, result, n);
        var r;
        r, pos, cnt := MoveIov(a, pos, cnt, n, cells[result..]);
        result := result + n;
        if r != 0 {
          break;
        }
      } else if n == 0 {
        break;
      } else {
        if errno == EINTR {
          continue;
        }
        return n, result;
      }
    }
    return result, result;
  }

  // ----- TCP -----

  ghost predicate EmptyIn(s: seq<Iov>, from: nat, to: nat) {
    forall i :: from <= i < to && i < |s| ==> s[i].len == 0
  }

  ghost predicate AtMostOne(s: seq<Iov>) {
    forall i, j :: 0 <= i < j < |s| ==> s[i].len == 0 || s[j].len == 0
  }

  /** Empty entries cover nothing. */
  lemma {:induction false} EmptyCells(s: seq<Iov>, i: nat, p: nat)
    requires i <= p <= |s| && EmptyIn(s, i, p)
    ensures CellsFrom(s, i) == CellsFrom(s, p)
    decreases p - i
  {
    if i < p {
      EmptyCells(s, i + 1, p);
    }
  }

  /** Empty entries are passed over. */
  lemma {:induction false} EmptyPassed(s: seq<Iov>, i: nat, p: nat, n: nat)
    requires i <= p <= |s| && EmptyIn(s, i, p)
    ensures StopAt(s, i, n) == StopAt(s, p, n)
    decreases p - i
  {
    if i < p {
      EmptyPassed(s, i + 1, p, n);
    }
  }

  /** `recvmsg` is told the list once. With at most one entry that is not empty, that list is still right
      after any part. */
  lemma TrimmedRight(s: seq<Iov>, n: nat)
    requires AtMostOne(s) && n < |Cells(s)|
    ensures Cells(Trimmed(s, 0, n)) == Cells(s)[n..] && AtMostOne(Trimmed(s, 0, n))
    ensures EmptyIn(Trimmed(s, 0, n), 0, StopAt(s, 0, n).0)
  {
    TrimmedCells(s, 0, n);
    var p := StopAt(s, 0, n).0;
    EmptyCells(Trimmed(s, 0, n), 0, p);
  }

  function Size(s: seq<Iov>, i: nat, g: nat): nat
    requires i <= g <= |s|
    decreases g - i
  {
    if i == g then 0 else s[i].len + Size(s, i + 1, g)
  }

  lemma {:induction false} SizeOfCells(s: seq<Iov>, i: nat, g: nat)
    requires i <= g <= |s|
    ensures |CellsFrom(s, i)| == Size(s, i, g) + |CellsFrom(s, g)|
    decreases g - i
  {
    if i < g {
      SizeOfCells(s, i + 1, g);
    }
  }

  /** Consuming exactly the cells before a non-empty entry stops at its beginning. */
  lemma {:induction false} StopsBefore(s: seq<Iov>, i: nat, g: nat)
    requires i <= g < |s| && s[g].len > 0
    ensures StopAt(s, i, Size(s, i, g)) == (g, 0)
    ensures forall f :: i <= f < g ==> s[f].len <= Size(s, i, g)
    decreases g - i
  {
    if i < g {
      StopsBefore(s, i + 1, g);
    }
  }

  /** With two, there is a part after which the list told once covers the first entry again. */
  lemma TrimmedWrong(s: seq<Iov>) returns (n: nat)
    requires !AtMostOne(s)
    ensures 0 < n < |Cells(s)| && Cells(Trimmed(s, 0, n)) == Cells(s)
  {
    var f, g :| 0 <= f < g < |s| && s[f].len > 0 && s[g].len > 0;
    n := Size(s, 0, g);
    StopsBefore(s, 0, g);
    SizeOfCells(s, 0, g);
    assert Trimmed(s, 0, n) == s;
  }

  /** So a receive that follows a partial one continues where that one stopped, for every way to stop,
      if and only if at most one entry is not empty. */
  lemma TcpScatterIff(s: seq<Iov>)
    ensures (forall n :: 0 <= n < |Cells(s)| ==> Cells(Trimmed(s, 0, n)) == Cells(s)[n..]) <==> AtMostOne(s)
  {
    if AtMostOne(s) {
      forall n | 0 <= n < |Cells(s)| ensures Cells(Trimmed(s, 0, n)) == Cells(s)[n..] {
        TrimmedRight(s, n);
      }
    } else {
      var n := TrimmedWrong(s);
      assert |Cells(s)[n..]| < |Cells(s)|;
    }
  }

  /** The cursor of the TCP loop: entries before it are empty, so the list that `recvmsg` was told
      covers the same cells as the list from the cursor on. */
  ghost predicate Cursor(s: seq<Iov>, p: nat, rest: seq<nat>) {
    AtMostOne(s) && p <= |s| && EmptyIn(s, 0, p) && Cells(s) == rest
  }

  /** One `move_iov` of the loop, seen in the list told once. */
  method MoveTcp(a: array<Iov>, pos: nat, cnt: nat, n: nat, ghost rest: seq<nat>) returns (r: int, pos': nat, cnt': nat)
    requires pos + cnt <= a.Length && 0 < n && rest == CellsFrom(a[..pos + cnt], pos)
    modifies a
    ensures pos' + cnt' == pos + cnt && CellsFrom(a[..pos + cnt], pos') == Drop(rest, n)
    ensures r == if n < |rest| then 0 else -1
    ensures old(Cursor(a[..pos + cnt], pos, rest)) ==> a[..pos + cnt] == Trimmed(old(a[..pos + cnt]), 0, n)
    ensures old(Cursor(a[..pos + cnt], pos, rest)) && r == 0 ==> Cursor(a[..pos + cnt], pos', rest[n..])
  {
    ghost var told := a[..pos + cnt];
    ghost var one := Cursor(told, pos, rest);
    r, pos', cnt' := MoveIov(a, pos, cnt, n, rest);
    if one {
      EmptyPassed(told, 0, pos, n);
      if r == 0 {
        TrimmedRight(told, n);
      }
    }
  }

  /** The TCP read loop. The result is negative exactly for an error and otherwise the number of bytes
      received, `got`, except that the end of the stream makes it 0 even after data; `isEmpty` says that
      the kernel ran out of data. On a list with at most one entry that is not empty, successive bytes
      go into its cells in order, and without an end, an error or `isEmpty` the list is full. */
  method ReadTcp(src: Source, a: array<Iov>, count: nat, ghost cells: seq<nat>)
    returns (ret: int, isEmpty: bool, ghost got: nat)
    requires count <= a.Length && cells == Cells(a[..count])
    modifies src, a
    ensures (ret < 0 <==> src.failed) && (isEmpty <==> src.blocked)
    ensures src.ended ==> ret == 0
    ensures ret >= 0 ==> (ret == got <==> !(src.ended && got > 0))
    ensures ret >= 0 && !src.ended && !isEmpty ==> got >= |cells|
    ensures isEmpty || src.ended || src.failed ==> got < |cells| || got == 0
    ensures |src.placed| == |old(src.placed)| + got
    ensures AtMostOne(old(a[..count])) ==> got <= |cells| && src.placed == old(src.placed) + cells[..got]
  {
    ghost var base, one := src.placed, AtMostOne(a[..count]);
    var pos, cnt := 0, count;
    var result := 0;
    while true
      invariant pos + cnt == count && 0 <= result <= |cells| && (result > 0 ==> result < |cells|)
      invariant |CellsFrom(a[..count], pos)| == |cells| - result && |src.placed| == |base| + result
      invariant one ==> Cursor(a[..count], pos, cells[result..]) && CellsFrom(a[..count], pos) == cells[result..]
      invariant one ==> src.placed == base + cells[..result]
      decreases |cells| - result, src.interrupts
    {
      var n, errno := src.Receive(Cells(a[..count]));
      if n > 0 {
        if one {
          TakeMore(base, cells, result, n);
        }
        var r;
        r, pos, cnt := MoveTcp(a, pos, cnt, n, CellsFrom(a[..count], pos));
        result := result + n;
        if r != 0 {
          return result, false, result;
        }
        continue;
      }
      if n == 0 {
        return 0, false, result;
      }
      if errno == EAGAIN {
        return result, true, result;
      }
      if errno == EINTR {
        continue;
      }
      return n, false, result;
    }
  }

  // ----- Chunks -----

  const Two31: int := 0x8000_0000

  /** Conversion to a 32-bit signed integer. */
  function ToInt32(x: int): int {
    (x + Two31) % (2 * Two31) - Two31
  }

  lemma Fits(x: int)
    requires -Two31 <= x < Two31
    ensures ToInt32(x) == x
  {
  }

  lemma {:induction false} CellsSnoc(s: seq<Iov>, e: Iov, i: nat)
    requires i <= |s|
    ensures CellsFrom(s + [e], i) == CellsFrom(s, i) + Range(e.base, e.len)
    decreases |s| - i
  {
    if i < |s| {
      CellsSnoc(s, e, i + 1);
    }
  }

  /** The chunks cover the first `done` cells and the entries from `i` on the others. */
  ghost predicate Delivered(chunks: seq<Iov>, iovs: seq<Iov>, i: nat, done: int) {
    0 <= done <= |Cells(iovs)| && Cells(chunks) == Cells(iovs)[..done] && CellsFrom(iovs, i) == Cells(iovs)[done..]
  }

  lemma ChunkAdds(chunks: seq<Iov>, iovs: seq<Iov>, i: nat, done: nat, n: nat)
    requires i < |iovs| && Delivered(chunks, iovs, i, done) && n <= iovs[i].len
    ensures done + n <= |Cells(iovs)| && Cells(chunks + [Iov(iovs[i].base, n)]) == Cells(iovs)[..done + n]
    ensures n == iovs[i].len ==> Delivered(chunks + [Iov(iovs[i].base, n)], iovs, i + 1, done + n)
  {
    var cells, c := Cells(iovs), Iov(iovs[i].base, n);
    CellsSnoc(chunks, c, 0);
    RangeSplit(c.base, iovs[i].len, n);
    assert cells[done..][..n] == Range(c.base, n);
    assert cells[..done + n] == cells[..done] + cells[done..][..n];
    assert cells[done..][n..] == cells[done + n..];
  }

  /** The loop of `on_read_tcp_msg`: the chunks handed to the data callback cover exactly the first `ret`
      cells of the list, and the list is never overrun. */
  method Chunks(iovs: seq<Iov>, ret: int) returns (chunks: seq<Iov>)
    requires 0 < ret < Two31 && ret <= |Cells(iovs)|
    requires forall i :: 0 <= i < |iovs| ==> iovs[i].len < Two31
    ensures Cells(chunks) == Cells(iovs)[..ret]
  {
    chunks := [];
    var len := ret;
    var i := 0;
    while len > 0
      invariant 0 <= i <= |iovs| && len <= ret
      invariant len > 0 ==> Delivered(chunks, iovs, i, ret - len)
      invariant len <= 0 ==> Cells(chunks) == Cells(iovs)[..ret]
      decreases |iovs| - i
    {
      var cur := iovs[i];
      var n := if len > cur.len then cur.len else len;
      ChunkAdds(chunks, iovs, i, ret - len, n);
      Fits(len - cur.len);
      len := ToInt32(len - cur.len);
      chunks := chunks + [Iov(cur.base, n)];
      i := i + 1;
    }
  }
}
