/**
  The TCP listener's connection cap: accepts, closes with their user callbacks, and the timer that
  removes closed channels and reopens the listener. Buffer groups are handed from closed connections to
  new ones through a free list.
 */
module Listener {
  import opened Common

  type Chan = nat

  /** A connection in the map; `live` until its close begins. */
  datatype Conn = Conn(buf: nat, live: bool)

  datatype Opening = Nothing | Opening(chan: Chan, buf: nat)

  /** Who has a registered buffer group: the free list, a channel, or nobody any more. */
  datatype Owner = InList | Of(chan: Chan) | Lost

  /** The listener and its shared data. `opening` is the accepted connection whose connect callback is
      running, `closing` are the channels whose close callbacks are running. */
  datatype State = State(
    max: nat, conns: map<Chan, Conn>, count: nat, enabled: bool, closed: seq<Chan>, free: seq<nat>,
    nextChan: Chan, opening: Opening, closing: seq<Chan>, owners: seq<Owner>)

  // ----- Buffer ids -----

  /** `get_buffer_id`: the first of the free list, or a newly registered group. */
  function NextBuffer(s: State): nat {
    if s.free == [] then |s.owners| else s.free[0]
  }

  function TakeBuffer(s: State, owner: Owner): State {
    if s.free == [] then s.(owners := s.owners + [owner])
    else s.(free := s.free[1..], owners := SetOwner(s.owners, s.free[0], owner))
  }

  function SetOwner(owners: seq<Owner>, b: nat, owner: Owner): seq<Owner> {
    if b < |owners| then owners[b := owner] else owners
  }

  // ----- The steps -----

  /** `on_accept` up to the connect callback. A registration may fail; a connection may turn out not to be
      connected, and then its buffer group is not put back. */
  function BeginAccept(s: State, ret: int, registers: bool, connected: bool): State {
    if !s.enabled || ret < 0 then s
    else
      var chan := s.nextChan;
      var s' := s.(nextChan := chan + 1);
      if s.free == [] && !registers then s'
      else if !connected then TakeBuffer(s', Lost)
      else TakeBuffer(s', Of(chan)).(opening := Opening(chan, NextBuffer(s)))
  }

  /** The rest of `on_accept`: the channel is entered and counted, and the last one disables. */
  function EndAccept(s: State): State {
    if s.opening.Nothing? then s
    else
      s.(conns := s.conns[s.opening.chan := Conn(s.opening.buf, true)], count := s.count + 1, opening := Nothing,
         enabled := s.count + 1 < s.max)
  }

  /** `tcp_event::close` up to the close callback. */
  function BeginClose(s: State, chan: Chan): State {
    if chan in s.conns && s.conns[chan].live then
      var b := s.conns[chan].buf;
      s.(conns := s.conns[chan := Conn(b, false)], free := s.free + [b], owners := SetOwner(s.owners, b, InList),
         closing := s.closing + [chan])
    else s
  }

  function EndClose(s: State): State {
    if s.closing == [] then s
    else
      var n := |s.closing| - 1;
      s.(closed := s.closed + [s.closing[n]], closing := s.closing[..n])
  }

  function Without(conns: map<Chan, Conn>, closed: seq<Chan>): map<Chan, Conn> {
    map c | c in conns && c !in closed :: conns[c]
  }

  /** `on_timer` of a listener. */
  function Timer(s: State, reopens: bool): State {
    var conns := Without(s.conns, s.closed);
    s.(conns := conns, closed := [], count := |conns|, enabled := s.enabled || (|conns| < s.max && reopens))
  }

  datatype Label =
    | LBeginAccept(ret: int, registers: bool, connected: bool)
    | LEndAccept
    | LBeginClose(chan: Chan)
    | LEndClose
    | LTimer(reopens: bool)

  /** The loop's thread does one thing at a time; callbacks may close channels. */
  predicate Can(s: State, l: Label) {
    match l
    case LBeginAccept(_, _, _) => s.opening.Nothing? && s.closing == []
    case LEndAccept => s.opening.Opening? && s.closing == []
    case LBeginClose(_) => true
    case LEndClose => s.closing != []
    case LTimer(_) => s.opening.Nothing? && s.closing == []
  }

  function Step(s: State, l: Label): State {
    match l
    case LBeginAccept(ret, registers, connected) => BeginAccept(s, ret, registers, connected)
    case LEndAccept => EndAccept(s)
    case LBeginClose(chan) => BeginClose(s, chan)
    case LEndClose => EndClose(s)
    case LTimer(reopens) => Timer(s, reopens)
  }

  // ----- The invariant -----

  /** The cap: the count is right and bounded, and an enabled listener is below the maximum. */
  ghost predicate Capped(s: State) {
    && s.count == |s.conns| <= s.max && (s.enabled ==> s.count < s.max)
    && (s.opening.Opening? ==> s.enabled && s.opening.chan < s.nextChan && s.opening.chan !in s.conns)
    && (forall c :: c in s.conns ==> c < s.nextChan)
  }

  /** Closed and closing channels are distinct and exactly the dead ones in the map. */
  ghost predicate Queued(conns: map<Chan, Conn>, queue: seq<Chan>) {
    && Distinct(queue)
    && (forall c :: c in queue ==> c in conns && !conns[c].live)
    && (forall c :: c in conns && !conns[c].live ==> c in queue)
  }

  ghost predicate Owns(owners: seq<Owner>, b: nat, owner: Owner) {
    b < |owners| && owners[b] == owner
  }

  /** Every buffer group has one owner, and everybody who uses one is its owner. */
  ghost predicate Owned(s: State) {
    && Distinct(s.free)
    && (forall b :: b in s.free ==> Owns(s.owners, b, InList))
    && (forall c :: c in s.conns && s.conns[c].live ==> Owns(s.owners, s.conns[c].buf, Of(c)))
    && (s.opening.Opening? ==> Owns(s.owners, s.opening.buf, Of(s.opening.chan)))
    && (forall b :: 0 <= b < |s.owners| ==> Placed(s, b))
  }

  /** A group that is not lost is where its owner says. */
  ghost predicate Placed(s: State, b: nat)
    requires b < |s.owners|
  {
    match s.owners[b]
    case InList => b in s.free
    case Of(c) => s.opening == Opening(c, b) || (c in s.conns && s.conns[c] == Conn(b, true))
    case Lost => true
  }

  ghost predicate Inv(s: State) {
    Capped(s) && Queued(s.conns, s.closed + s.closing) && Owned(s)
  }

  /** The group taken gets its owner, and the others keep theirs. */
  lemma TakeIs(s: State, owner: Owner)
    requires Owned(s)
    ensures var t, n := TakeBuffer(s, owner), NextBuffer(s);
            && n < |t.owners| && t.owners[n] == owner && n !in t.free && |s.owners| <= |t.owners|
            && Distinct(t.free) && (forall b :: b in t.free ==> b in s.free)
            && (forall b :: 0 <= b < |t.owners| && b != n ==> b < |s.owners| && t.owners[b] == s.owners[b])
            && (forall b :: b in s.free && b != n ==> b in t.free)
            && (n < |s.owners| ==> s.owners[n] == InList)
  {
    if s.free != [] {
      PopDistinct(s.free);
      assert Owns(s.owners, s.free[0], InList);
    }
  }

  lemma TakeKeeps(s: State, chan: Chan, connected: bool)
    requires Owned(s) && s.opening.Nothing? && chan !in s.conns
    ensures var t := TakeBuffer(s, if connected then Of(chan) else Lost);
            Owned(t.(opening := if connected then Opening(chan, NextBuffer(s)) else Nothing))
  {
    var owner := if connected then Of(chan) else Lost;
    TakeIs(s, owner);
    var t := TakeBuffer(s, owner).(opening := if connected then Opening(chan, NextBuffer(s)) else Nothing);
    forall b | 0 <= b < |t.owners| ensures Placed(t, b) {
      assert b != NextBuffer(s) ==> Placed(s, b);
    }
    forall b | b in t.free ensures Owns(t.owners, b, InList) {
      assert Owns(s.owners, b, InList);
    }
    forall c | c in t.conns && t.conns[c].live ensures Owns(t.owners, t.conns[c].buf, Of(c)) {
      assert Owns(s.owners, s.conns[c].buf, Of(c));
    }
  }

  lemma BeginAcceptKeeps(s: State, ret: int, registers: bool, connected: bool)
    requires Inv(s) && s.opening.Nothing?
    ensures Inv(BeginAccept(s, ret, registers, connected))
  {
    var s' := s.(nextChan := s.nextChan + 1);
    assert Owned(s') by {
      assert forall b :: 0 <= b < |s.owners| ==> Placed(s, b) && Placed(s', b);
    }
    TakeKeeps(s', s.nextChan, connected);
  }

  lemma EndAcceptKeeps(s: State)
    requires Inv(s) && s.opening.Opening?
    ensures Inv(EndAccept(s))
  {
    var s' := EndAccept(s);
    assert |s'.conns| == |s.conns| + 1 by {
      assert s'.conns.Keys == s.conns.Keys + {s.opening.chan};
    }
    forall b | 0 <= b < |s'.owners| ensures Placed(s', b) {
      assert Placed(s, b);
    }
  }

  lemma BeginCloseOwned(s: State, chan: Chan)
    requires Inv(s) && chan in s.conns && s.conns[chan].live
    ensures Owned(BeginClose(s, chan))
  {
    var s', b := BeginClose(s, chan), s.conns[chan].buf;
    assert Owns(s.owners, b, Of(chan)) && b !in s.free;
    AppendDistinct(s.free, b);
    forall x | 0 <= x < |s'.owners| ensures Placed(s', x) {
      assert Placed(s, x);
    }
  }

  lemma BeginCloseKeeps(s: State, chan: Chan)
    requires Inv(s)
    ensures Inv(BeginClose(s, chan))
  {
    if chan in s.conns && s.conns[chan].live {
      var s' := BeginClose(s, chan);
      assert s'.conns.Keys == s.conns.Keys;
      assert s'.closed + s'.closing == (s.closed + s.closing) + [chan];
      AppendDistinct(s.closed + s.closing, chan);
      BeginCloseOwned(s, chan);
    }
  }

  lemma EndCloseKeeps(s: State)
    requires Inv(s) && s.closing != []
    ensures Inv(EndClose(s))
  {
    var n := |s.closing| - 1;
    var s', q := EndClose(s), s.closed + s.closing;
    assert s.closing == s.closing[..n] + [s.closing[n]];
    Reordered(s.closed, s.closing[..n], s.closing[n]);
    assert q == s.closed + (s.closing[..n] + [s.closing[n]]);
    forall b | 0 <= b < |s'.owners| ensures Placed(s', b) {
      assert Placed(s, b);
    }
  }

  lemma Reordered(a: seq<nat>, b: seq<nat>, x: nat)
    requires Distinct(a + (b + [x]))
    ensures Distinct((a + [x]) + b) && forall y :: y in (a + [x]) + b <==> y in a + (b + [x])
  {
    var p, q := a + (b + [x]), (a + [x]) + b;
    assert p[|a| + |b|] == x;
    assert forall i :: 0 <= i < |a| ==> q[i] == p[i];
    assert q[|a|] == x;
    assert forall i :: |a| < i < |q| ==> q[i] == p[i - 1];
  }

  lemma {:induction false} SubmapSize(m: map<Chan, Conn>, n: map<Chan, Conn>)
    requires m.Keys <= n.Keys
    ensures |m| <= |n|
  {
    SubsetSize(m.Keys, n.Keys);
  }

  lemma {:induction false} SubsetSize(a: set<Chan>, b: set<Chan>)
    requires a <= b
    ensures |a| <= |b|
  {
    assert |b| == |a| + |b - a| by {
      assert b == a + (b - a);
    }
  }

  lemma TimerKeeps(s: State, reopens: bool)
    requires Inv(s) && s.opening.Nothing? && s.closing == []
    ensures Inv(Timer(s, reopens))
  {
    var s' := Timer(s, reopens);
    SubmapSize(s'.conns, s.conns);
    assert s.closed + [] == s.closed;
    forall b | 0 <= b < |s'.owners| ensures Placed(s', b) {
      assert Placed(s, b);
    }
  }

  lemma StepKeeps(s: State, l: Label)
    requires Inv(s) && Can(s, l)
    ensures Inv(Step(s, l)) && Step(s, l).max == s.max
  {
    match l
    case LBeginAccept(ret, registers, connected) => BeginAcceptKeeps(s, ret, registers, connected);
    case LEndAccept => EndAcceptKeeps(s);
    case LBeginClose(chan) => BeginCloseKeeps(s, chan);
    case LEndClose => EndCloseKeeps(s);
    case LTimer(reopens) => TimerKeeps(s, reopens);
  }

  // ----- Runs -----

  function Start(max: nat): State {
    State(max, map[], 0, true, [], [], 0, Nothing, [], [])
  }

  ghost predicate Steps(s: State, l: Label, s': State) {
    Can(s, l) && s' == Step(s, l)
  }

  ghost predicate Run(max: nat, ss: seq<State>, ls: seq<Label>) {
    && |ss| == |ls| + 1 && max > 0 && ss[0] == Start(max)
    && forall i :: 0 <= i < |ls| ==> Steps(ss[i], ls[i], ss[i + 1])
  }

  lemma {:induction false} RunKeeps(max: nat, ss: seq<State>, ls: seq<Label>, n: nat)
    requires Run(max, ss, ls) && n <= |ls|
    ensures Inv(ss[n]) && ss[n].max == max
  {
    if n > 0 {
      RunKeeps(max, ss, ls, n - 1);
      assert Steps(ss[n - 1], ls[n - 1], ss[n]);
      StepKeeps(ss[n - 1], ls[n - 1]);
    }
  }

  /** In every run the count is the number of channels in the map and never exceeds the maximum, an
      enabled listener is strictly below it, a channel is queued as closed at most once, and no two live
      connections use the same buffer group. */
  lemma CapHoldsInEveryRun(max: nat, ss: seq<State>, ls: seq<Label>, n: nat, c: Chan, d: Chan)
    requires Run(max, ss, ls) && n <= |ls|
    ensures ss[n].count == |ss[n].conns| <= max && (ss[n].enabled ==> ss[n].count < max)
    ensures Distinct(ss[n].closed + ss[n].closing)
    ensures c in ss[n].conns && d in ss[n].conns && c != d && ss[n].conns[c].live && ss[n].conns[d].live ==>
              ss[n].conns[c].buf != ss[n].conns[d].buf
    ensures c in ss[n].conns && ss[n].conns[c].live ==> ss[n].conns[c].buf !in ss[n].free
  {
    RunKeeps(max, ss, ls, n);
  }

  /** A timer on a quiet listener leaves exactly the live channels in the map, as they were, and with a
      working reopen the listener is enabled exactly when there is room; otherwise it stays as it was. */
  lemma TimerSettles(s: State, reopens: bool)
    requires Inv(s) && s.opening.Nothing? && s.closing == []
    ensures var t := Timer(s, reopens);
            && (forall c :: c in t.conns <==> c in s.conns && s.conns[c].live)
            && (forall c :: c in t.conns ==> t.conns[c] == s.conns[c])
            && t.closed == [] && t.free == s.free
            && (t.enabled <==> if reopens then |t.conns| < s.max else s.enabled)
  {
    TimerKeeps(s, reopens);
    assert s.closed + [] == s.closed;
  }

  // ----- Buffer groups that get lost -----

  /** Every registered group is in the free list, with a live connection or with the one being opened. */
  ghost predicate Kept(s: State) {
    forall b :: 0 <= b < |s.owners| ==> InUse(s, b)
  }

  ghost predicate InUse(s: State, b: nat) {
    || b in s.free
    || (s.opening.Opening? && s.opening.buf == b)
    || exists c :: c in s.conns && s.conns[c] == Conn(b, true)
  }

  /** The accept of a connection that turns out not to be connected, once it has a buffer group. */
  predicate Wastes(s: State, l: Label) {
    l.LBeginAccept? && s.enabled && l.ret >= 0 && (s.free != [] || l.registers) && !l.connected
  }

  lemma LostIffUnused(s: State, b: nat)
    requires Inv(s) && b < |s.owners|
    ensures InUse(s, b) <==> s.owners[b] != Lost
  {
    assert Placed(s, b);
    if s.owners[b].Of? && s.opening != Opening(s.owners[b].chan, b) {
      assert s.conns[s.owners[b].chan] == Conn(b, true);
    }
    if c :| c in s.conns && s.conns[c] == Conn(b, true) {
      assert Owns(s.owners, s.conns[c].buf, Of(c));
    }
  }

  /** What a step does to the groups that are lost: it loses the next one or none, and a lost one stays
      lost. */
  lemma StepLoses(s: State, l: Label, b: nat)
    requires Inv(s) && Can(s, l) && b < |Step(s, l).owners|
    ensures |s.owners| <= |Step(s, l).owners| && (Wastes(s, l) ==> NextBuffer(s) < |Step(s, l).owners|)
    ensures Step(s, l).owners[b] == Lost <==>
            (b < |s.owners| && s.owners[b] == Lost) || (Wastes(s, l) && b == NextBuffer(s))
  {
    match l
    case LBeginAccept(ret, registers, connected) =>
      TakeIs(s, if connected then Of(s.nextChan) else Lost);
      assert s.free != [] ==> Owns(s.owners, s.free[0], InList);
    case LBeginClose(chan) =>
      if chan in s.conns && s.conns[chan].live {
        assert Owns(s.owners, s.conns[chan].buf, Of(chan));
      }
    case LEndAccept =>
    case LEndClose =>
    case LTimer(_) =>
  }

  /** While no group is lost, a step loses one if and only if it is such an accept. */
  lemma KeptIff(s: State, l: Label)
    requires Inv(s) && Can(s, l) && Kept(s)
    ensures Kept(Step(s, l)) <==> !Wastes(s, l)
  {
    var s' := Step(s, l);
    StepKeeps(s, l);
    forall b | 0 <= b < |s'.owners| ensures InUse(s', b) <==> !(Wastes(s, l) && b == NextBuffer(s)) {
      StepLoses(s, l, b);
      LostIffUnused(s', b);
      if b < |s.owners| {
        LostIffUnused(s, b);
        assert InUse(s, b);
      }
    }
    if Wastes(s, l) {
      StepLosesNext(s, l);
      assert !InUse(s', NextBuffer(s));
    }
  }

  lemma StepLosesNext(s: State, l: Label)
    requires Inv(s) && Can(s, l) && Wastes(s, l)
    ensures NextBuffer(s) < |Step(s, l).owners| && Step(s, l).owners[NextBuffer(s)] == Lost
  {
    TakeIs(s, Lost);
  }

  ghost predicate NoWaste(ss: seq<State>, ls: seq<Label>, n: nat)
    requires n <= |ls| < |ss|
  {
    forall i :: 0 <= i < n ==> !Wastes(ss[i], ls[i])
  }

  /** In every run all registered groups are in the free list or in use if and only if no accepted
      connection turned out not to be connected; a group lost once never returns. */
  lemma {:induction false} FailedOpenLosesBuffer(max: nat, ss: seq<State>, ls: seq<Label>, n: nat)
    requires Run(max, ss, ls) && n <= |ls|
    ensures Kept(ss[n]) <==> NoWaste(ss, ls, n)
  {
    if n > 0 {
      FailedOpenLosesBuffer(max, ss, ls, n - 1);
      RunKeeps(max, ss, ls, n - 1);
      KeptStep(ss[n - 1], ls[n - 1], ss[n]);
      NoWasteStep(ss, ls, n);
    }
  }

  lemma NoWasteStep(ss: seq<State>, ls: seq<Label>, n: nat)
    requires 0 < n <= |ls| < |ss|
    ensures NoWaste(ss, ls, n) <==> NoWaste(ss, ls, n - 1) && !Wastes(ss[n - 1], ls[n - 1])
  {
  }

  lemma KeptStep(s: State, l: Label, s': State)
    requires Inv(s) && Steps(s, l, s')
    ensures Kept(s') <==> Kept(s) && !Wastes(s, l)
  {
    if Kept(s) {
      KeptIff(s, l);
    } else {
      StaysLost(s, l);
    }
  }

  /** The shortest run that loses a group: the first connection is gone before it is accepted. */
  lemma FirstAcceptLosesBuffer(max: nat) returns (ss: seq<State>, ls: seq<Label>)
    requires max > 0
    ensures Run(max, ss, ls) && |ls| == 1 && |ss[1].owners| == 1 && !Kept(ss[1])
  {
    ls := [LBeginAccept(0, true, false)];
    ss := [Start(max), Step(Start(max), ls[0])];
    assert Steps(ss[0], ls[0], ss[1]);
    FailedOpenLosesBuffer(max, ss, ls, 1);
    assert Wastes(ss[0], ls[0]);
  }

  lemma StaysLost(s: State, l: Label)
    requires Inv(s) && Can(s, l) && !Kept(s)
    ensures !Kept(Step(s, l))
  {
    var b :| 0 <= b < |s.owners| && !InUse(s, b);
    LostIffUnused(s, b);
    StepKeeps(s, l);
    OwnersGrow(s, l);
    StepLoses(s, l, b);
    LostIffUnused(Step(s, l), b);
  }

  lemma OwnersGrow(s: State, l: Label)
    ensures |s.owners| <= |Step(s, l).owners|
  {
  }

  // ----- The object -----

  /** `tcp_socket` in listen mode, with its `tcp_shared_data`. */
  class TcpListener {
    const max: nat
    var conns: map<Chan, Conn>
    var count: nat
    var enabled: bool
    var closed: seq<Chan>
    var free: seq<nat>
    var nextChan: Chan
    ghost var opening: Opening
    ghost var closing: seq<Chan>
    ghost var owners: seq<Owner>

    ghost function Value(): State
      reads this
    {
      State(max, conns, count, enabled, closed, free, nextChan, opening, closing, owners)
    }

    ghost predicate Valid()
      reads this
    {
      Inv(Value())
    }

    constructor (max: nat)
      requires max > 0
      ensures Valid() && Value() == Start(max)
    {
      this.max, conns, count, enabled, closed, free := max, map[], 0, true, [], [];
      nextChan, opening, closing, owners := 0, Nothing, [], [];
    }

    /** User callbacks: they may close channels. Callers know the contract only. */
    method UserCode()
      requires Valid()
      modifies this
      ensures Valid() && opening == old(opening) && closing == old(closing)
      ensures conns.Keys == old(conns.Keys) && count == old(count) && enabled == old(enabled)
      ensures old(free) <= free && old(closed) <= closed
    {
    }

    /** `get_buffer_id`; a new group gets the id `newId`, which no group has had. */
    method GetBufferId(registers: bool, newId: nat, ghost owner: Owner) returns (b: int)
      requires newId == |owners|
      modifies this`free, this`owners
      ensures b == if old(free) == [] && !registers then -1 else NextBuffer(old(Value()))
      ensures Value() == if b == -1 then old(Value()) else TakeBuffer(old(Value()), owner)
    {
      if free == [] {
        if !registers {
          return -1;
        }
        owners := owners + [owner];
        return newId;
      }
      b := free[0];
      free, owners := free[1..], SetOwner(owners, b, owner);
    }

    /** `on_accept` with `tcp_event::open`, up to the connect callback. */
    method OpenConnection(ret: int, registers: bool, newId: nat, connected: bool) returns (chan: Chan, b: int)
      requires opening.Nothing? && newId == |owners|
      modifies this`nextChan, this`free, this`owners, this`opening
      ensures Value() == BeginAccept(old(Value()), ret, registers, connected)
      ensures if b >= 0 then opening == Opening(chan, b) else opening.Nothing?
    {
      if !enabled || ret < 0 {
        return 0, -1;
      }
      chan := nextChan;
      nextChan := nextChan + 1;
      b := GetBufferId(registers, newId, if connected then Of(chan) else Lost);
      if b < 0 || !connected {
        return chan, -1;
      }
      opening := Opening(chan, b);
    }

    method EnterConnection(chan: Chan, b: nat)
      requires opening == Opening(chan, b) && enabled
      modifies this`conns, this`count, this`enabled, this`opening
      ensures Value() == EndAccept(old(Value()))
    {
      conns := conns[chan := Conn(b, true)];
      count := count + 1;
      opening := Nothing;
      if count < max {
        return;
      }
      enabled := false;
    }

    /** `on_accept`: at most one connection more, and the one that reaches the cap disables. */
    method OnAccept(ret: int, registers: bool, newId: nat, connected: bool)
      requires Valid() && opening.Nothing? && closing == [] && newId == |owners|
      modifies this
      ensures Valid() && opening.Nothing? && closing == []
      ensures !old(enabled) || ret < 0 ==> Value() == old(Value())
      ensures old(enabled) && ret >= 0 && connected && (registers || old(free) != []) ==>
                && old(nextChan) in conns && conns[old(nextChan)] == Conn(NextBuffer(old(Value())), true)
                && count == old(count) + 1 && enabled == (count < max)
      ensures !(connected && (registers || old(free) != [])) ==>
                Value() == BeginAccept(old(Value()), ret, registers, connected) && conns == old(conns)
    {
      BeginAcceptKeeps(Value(), ret, registers, connected);
      var chan, b := OpenConnection(ret, registers, newId, connected);
      if b < 0 {
        return;
      }
      UserCode();
      EndAcceptKeeps(Value());
      EnterConnection(chan, b);
    }

    method StartClose(chan: Chan)
      requires chan in conns && conns[chan].live
      modifies this`conns, this`free, this`owners, this`closing
      ensures Value() == BeginClose(old(Value()), chan)
    {
      var b := conns[chan].buf;
      free, owners := free + [b], SetOwner(owners, b, InList);
      conns := conns[chan := Conn(b, false)];
      closing := closing + [chan];
    }

    method FinishClose(chan: Chan)
      requires closing != [] && chan == closing[|closing| - 1]
      modifies this`closed, this`closing
      ensures Value() == EndClose(old(Value()))
    {
      closed := closed + [chan];
      closing := closing[..|closing| - 1];
    }

    /** `close_tcp_channel` with `tcp_event::close`: a live channel is dead and queued afterwards. */
    method CloseChannel(chan: Chan) returns (ret: int)
      requires Valid()
      modifies this
      ensures Valid() && opening == old(opening) && closing == old(closing)
      ensures ret == if chan in old(conns) then 0 else -1
      ensures chan in old(conns) ==> chan in conns && !conns[chan].live
      ensures chan in old(conns) && old(conns)[chan].live ==>
                chan in closed && old(free) + [old(conns)[chan].buf] <= free
      ensures conns.Keys == old(conns.Keys) && count == old(count) && enabled == old(enabled)
      ensures !(chan in old(conns) && old(conns)[chan].live) ==> Value() == old(Value())
    {
      if chan !in conns {
        return -1;
      }
      if !conns[chan].live {
        return 0;
      }
      StartClosing(chan);
      UserCode();
      FinishClosing(chan);
      return 0;
    }

    method StartClosing(chan: Chan)
      requires Valid() && chan in conns && conns[chan].live
      modifies this`conns, this`free, this`owners, this`closing
      ensures Valid() && closing == old(closing) + [chan] && conns.Keys == old(conns.Keys)
      ensures free == old(free) + [old(conns)[chan].buf]
    {
      BeginCloseKeeps(Value(), chan);
      StartClose(chan);
    }

    method FinishClosing(chan: Chan)
      requires Valid() && closing != [] && chan == closing[|closing| - 1]
      modifies this`closed, this`closing
      ensures Valid() && closing == old(closing)[..|old(closing)| - 1] && chan in conns && !conns[chan].live
      ensures closed == old(closed) + [chan]
    {
      TopIsDead(Value());
      EndCloseKeeps(Value());
      FinishClose(chan);
    }

    method RemoveClosed()
      modifies this`conns
      ensures conns == Without(old(conns), closed)
    {
      ghost var all := conns;
      for i := 0 to |closed|
        invariant conns == Without(all, closed[..i])
      {
        conns := conns - {closed[i]};
        WithoutOne(all, closed, i);
      }
      assert closed[..|closed|] == closed;
    }

    /** `on_timer`. */
    method OnTimer(reopens: bool)
      requires Valid() && opening.Nothing? && closing == []
      modifies this
      ensures Valid() && Value() == Timer(old(Value()), reopens)
    {
      TimerKeeps(Value(), reopens);
      RemoveClosed();
      closed := [];
      count := |conns|;
      if !enabled && count < max {
        enabled := reopens;
      }
      assert Value() == Timer(old(Value()), reopens);
    }
  }

  lemma WithoutOne(conns: map<Chan, Conn>, closed: seq<Chan>, i: nat)
    requires i < |closed|
    ensures Without(conns, closed[..i]) - {closed[i]} == Without(conns, closed[..i + 1])
  {
    assert closed[..i + 1] == closed[..i] + [closed[i]];
  }

  lemma TopIsDead(s: State)
    requires Inv(s) && s.closing != []
    ensures var c := s.closing[|s.closing| - 1]; c in s.conns && !s.conns[c].live
  {
    var q := s.closed + s.closing;
    assert q[|q| - 1] == s.closing[|s.closing| - 1];
  }
}
