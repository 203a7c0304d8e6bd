/** Which time is booked where: the user and ready times of a task over a run, and who is charged when. */
module Buckets {
  import opened Scheduler
  import opened Quanta
  import opened Accounting

  // ---------------------------------------------------------------- one charge

  /** A charge adds the ticks since the last reading, as 32-bit numbers, to its own bucket and to no
      other, and takes the reading. */
  lemma ChargeExact(s: Stats, b: Bucket, now: int)
    ensures var r := Charged(s, b, now);
      && (if b == User then Same32(r.user, s.user + now - s.elapsed) else r.user == s.user)
      && (if b == System then Same32(r.system, s.system + now - s.elapsed) else r.system == s.system)
      && (if b == BlockedTime then Same32(r.blocked, s.blocked + now - s.elapsed) else r.blocked == s.blocked)
      && (if b == ReadyTime then Same32(r.ready, s.ready + now - s.elapsed) else r.ready == s.ready)
      && r.elapsed == now && r.trans == s.trans
  {
    ElapseAdds(s.user, s.elapsed, now);
    ElapseAdds(s.system, s.elapsed, now);
    ElapseAdds(s.blocked, s.elapsed, now);
    ElapseAdds(s.ready, s.elapsed, now);
  }

  lemma ElapseAdds(v: int, elapsed: int, now: int)
    ensures Same32(Elapse(v, elapsed, now), v + now - elapsed)
  {
  }

  lemma SamePlus(a: int, b: int, c: int, d: int)
    requires Same32(a, b) && Same32(c, a + d)
    ensures Same32(c, b + d)
  {
  }

  // ---------------------------------------------------------------- who is charged

  /** The step hands the CPU over: the running task steps aside, or its quantum is used up and somebody
      is ready, if only a reader whose time is up with this very tick. */
  predicate HandsOver(s: Sched, e: Event)
    requires WellFormed(s) && Enabled(s, e)
  {
    StepsAside(s, e) || (UsedUp(s, e) && (s.ready != [] || Select(s.tcb, s.keyq, true) != []))
  }

  lemma SwitchesIff(s: Sched, e: Event)
    requires WellFormed(s) && Enabled(s, e)
    ensures Switches(s, e) <==> HandsOver(s, e)
  {
  }

  predicate Interrupt(e: Event) { e.Tick? || e.Key? }

  /** The tasks a step puts into the ready queue through update_process_state_rr, in order: the readers
      whose time is up, the reader a key releases, the task that is preempted or yields. */
  function Moved(s: Sched, e: Event): seq<Slot>
    requires WellFormed(s) && Enabled(s, e)
  {
    match e
    case Tick => Select(s.tcb, s.keyq, true) + if HandsOver(s, e) then [s.current] else []
    case Key(_) => if s.kb.makeFlag && s.keyq != [] then [s.keyq[0]] else []
    case Yield => [s.current]
    case _ => []
  }

  /** Who is charged what, in every step but the creation of a task: an interrupt charges the running
      task user time; a task put into the ready queue is charged system time; a hand-over charges the
      one task system time and the other ready time, and counts a dispatch; going back to user mode
      through an interrupt handler charges system time. */
  lemma StepReads(s: Sched, e: Event, leaves: bool)
    requires WellFormed(s) && Enabled(s, e) && !e.Spawn?
    ensures var c, n := s.current, Next(s, e).current;
      Ops(s, e, leaves)
      == (if Interrupt(e) then [Charge(c, User)] else [])
       + ChargeEach(Moved(s, e))
       + (if HandsOver(s, e) then [Charge(c, System), Charge(n, ReadyTime), Grant(n)] else [])
       + (if leaves then [Charge(n, System)] else [])
  {
    hide Sweep, Schedule, Next, Switches, HandsOver, Select, KeepsShape;
    SwitchesIff(s, e);
    match e
    case Tick => TickReads(s, leaves);
    case Key(c) => KeyReads(s, leaves, c);
    case Yield => YieldReads(s, leaves);
    case _ => OtherReads(s, e, leaves);
  }

  lemma ChargeEachOne(t: Slot)
    ensures ChargeEach([t]) == [Charge(t, System)] && ChargeEach([]) == []
  {
    assert [t][1..] == [];
  }

  lemma {:induction false} ChargeEachConcat(a: seq<Slot>, b: seq<Slot>)
    ensures ChargeEach(a + b) == ChargeEach(a) + ChargeEach(b)
  {
    if a == [] {
      assert a + b == b;
    } else {
      assert (a + b)[1..] == a[1..] + b;
      ChargeEachConcat(a[1..], b);
    }
  }

  lemma TickReads(s: Sched, leaves: bool)
    requires WellFormed(s) && Enabled(s, Tick)
    ensures var c, n := s.current, Next(s, Tick).current;
      Ops(s, Tick, leaves)
      == [Charge(c, User)] + ChargeEach(Moved(s, Tick))
       + (if HandsOver(s, Tick) then [Charge(c, System), Charge(n, ReadyTime), Grant(n)] else [])
       + (if leaves then [Charge(n, System)] else [])
  {
    hide Select, KeepsShape, ChargeEach;
    var expired := Select(s.tcb, s.keyq, true);
    SwitchesIff(s, Tick);
    ChargeEachOne(s.current);
    ChargeEachConcat(expired, if HandsOver(s, Tick) then [s.current] else []);
    if HandsOver(s, Tick) {
      var n := Next(s, Tick).current;
      assert DispatchOps(Preempt(Sweep(s))) == [Charge(s.current, System), Charge(n, ReadyTime), Grant(n)];
    }
  }

  lemma KeyReads(s: Sched, leaves: bool, c: int)
    requires WellFormed(s) && Enabled(s, Key(c))
    ensures var n := Next(s, Key(c)).current;
      Ops(s, Key(c), leaves)
      == [Charge(s.current, User)] + ChargeEach(Moved(s, Key(c))) + [] + (if leaves then [Charge(n, System)] else [])
    ensures !HandsOver(s, Key(c))
  {
    ChargeEachOne(if s.keyq == [] then 0 else s.keyq[0]);
  }

  lemma YieldReads(s: Sched, leaves: bool)
    requires WellFormed(s) && Enabled(s, Yield)
    ensures var c, n := s.current, Next(s, Yield).current;
      Ops(s, Yield, leaves)
      == [] + ChargeEach(Moved(s, Yield)) + [Charge(c, System), Charge(n, ReadyTime), Grant(n)]
       + (if leaves then [Charge(n, System)] else [])
    ensures HandsOver(s, Yield)
  {
    ChargeEachOne(s.current);
    var n := Next(s, Yield).current;
    assert DispatchOps(Preempt(s)) == [Charge(s.current, System), Charge(n, ReadyTime), Grant(n)];
  }

  lemma OtherReads(s: Sched, e: Event, leaves: bool)
    requires WellFormed(s) && Enabled(s, e) && !e.Tick? && !e.Key? && !e.Yield? && !e.Spawn?
    ensures var c, n := s.current, Next(s, e).current;
      Ops(s, e, leaves)
      == [] + ChargeEach(Moved(s, e))
       + (if HandsOver(s, e) then [Charge(c, System), Charge(n, ReadyTime), Grant(n)] else [])
       + (if leaves then [Charge(n, System)] else [])
  {
    hide Next, Dispatch, Switches, HandsOver, KeepsShape;
    SwitchesIff(s, e);
    ChargeEachOne(0);
    if Switches(s, e) {
      SwitchTarget(s, e);
      DispatchOpsAre(s);
    }
  }

  lemma DispatchOpsAre(s: Sched)
    requires WellFormed(s)
    ensures var n := Dispatch(s).current;
      DispatchOps(s) == [Charge(s.current, System), Charge(n, ReadyTime), Grant(n)]
  {
  }

  // ---------------------------------------------------------------- the time of a task

  /** The last reading taken for t by charges to the tasks ts, the first of them at reading k. */
  function LastReading(ts: seq<Slot>, t: Slot, clock: nat -> int, k: nat, before: int): int
    decreases |ts|
  {
    if ts == [] then before else LastReading(ts[1..], t, clock, k + 1, if ts[0] == t then clock(k) else before)
  }

  lemma {:induction false} ApplyConcat(acc: seq<Account>, a: seq<Op>, b: seq<Op>, clock: nat -> int, k: nat)
    ensures ApplyAll(acc, a + b, clock, k) == ApplyAll(ApplyAll(acc, a, clock, k), b, clock, k + |a|)
    decreases |a|
  {
    hide Apply;
    if a == [] {
      assert a + b == b;
    } else {
      assert (a + b)[1..] == a[1..] + b && (a + b)[0] == a[0];
      ApplyConcat(Apply(acc, a[0], clock(k)), a[1..], b, clock, k + 1);
    }
  }

  /** Putting tasks into the ready queue books system time only. */
  lemma {:induction false} MovedTimes(acc: seq<Account>, ts: seq<Slot>, clock: nat -> int, k: nat, t: Slot)
    requires t < |acc|
    ensures var a := ApplyAll(acc, ChargeEach(ts), clock, k)[t];
      && a.stats.user == acc[t].stats.user && a.stats.ready == acc[t].stats.ready
      && a.stats.elapsed == LastReading(ts, t, clock, k, acc[t].stats.elapsed)
    ensures |ChargeEach(ts)| == |ts|
    decreases |ts|
  {
    if ts != [] {
      var op := Charge(ts[0], System);
      assert ChargeEach(ts)[0] == op && ChargeEach(ts)[1..] == ChargeEach(ts[1..]);
      MovedTimes(Apply(acc, op, clock(k)), ts[1..], clock, k + 1, t);
    }
  }

  /** When the dispatch of a step reads the clock. */
  function DispatchAt(s: Sched, e: Event, k: nat): nat
    requires WellFormed(s) && Enabled(s, e)
  {
    k + (if Interrupt(e) then 1 else 0) + |Moved(s, e)| + 1
  }

  /** The reading taken for t last before the dispatch of a step: just before it, for the task that hands
      over; when it was put into the ready queue, if that was in this step; or before this step. */
  function ReadBefore(s: Sched, e: Event, acc: seq<Account>, clock: nat -> int, k: nat, t: Slot): int
    requires WellFormed(s) && Enabled(s, e) && t < |acc|
  {
    if t == s.current then clock(DispatchAt(s, e, k) - 1)
    else LastReading(Moved(s, e), t, clock, if Interrupt(e) then k + 1 else k, acc[t].stats.elapsed)
  }

  lemma OneOp(acc: seq<Account>, op: Op, clock: nat -> int, k: nat)
    ensures ApplyAll(acc, [op], clock, k) == Apply(acc, op, clock(k))
  {
    assert [op][1..] == [];
  }

  lemma ThreeOps(acc: seq<Account>, x: Op, y: Op, z: Op, clock: nat -> int, k: nat)
    ensures ApplyAll(acc, [x, y, z], clock, k)
         == Apply(Apply(Apply(acc, x, clock(k)), y, clock(k + 1)), z, clock(k + 2))
  {
    hide Apply;
    assert [x, y, z][1..] == [y, z] && [y, z][1..] == [z];
    OneOp(Apply(Apply(acc, x, clock(k)), y, clock(k + 1)), z, clock, k + 2);
  }

  /** The user and ready time of a task after a hand-over from c to n. */
  lemma HandOverTimes(acc: seq<Account>, c: Slot, n: Slot, clock: nat -> int, k: nat, t: Slot)
    requires t < |acc|
    ensures var a := ApplyAll(acc, [Charge(c, System), Charge(n, ReadyTime), Grant(n)], clock, k)[t];
      && a.stats.user == acc[t].stats.user
      && a.stats.ready == (
           if t == n then Elapse(acc[t].stats.ready, if t == c then clock(k) else acc[t].stats.elapsed, clock(k + 1))
           else acc[t].stats.ready)
  {
    ThreeOps(acc, Charge(c, System), Charge(n, ReadyTime), Grant(n), clock, k);
  }

  /** One step: user time grows exactly for the task an interrupt meets, by the time since the last
      reading taken for it; ready time exactly for the task the CPU is handed to. */
  lemma StepTimes(s: Sched, e: Event, leaves: bool, acc: seq<Account>, clock: nat -> int, k: nat, t: Slot)
    requires WellFormed(s) && Enabled(s, e) && t < |acc| && !e.Spawn?
    ensures var a := ApplyAll(acc, Ops(s, e, leaves), clock, k)[t];
      && a.stats.user == (
           if Interrupt(e) && s.current == t then Elapse(acc[t].stats.user, acc[t].stats.elapsed, clock(k))
           else acc[t].stats.user)
      && a.stats.ready == (
           if HandsOver(s, e) && Next(s, e).current == t
           then Elapse(acc[t].stats.ready, ReadBefore(s, e, acc, clock, k, t), clock(DispatchAt(s, e, k)))
           else acc[t].stats.ready)
  {
    hide Ops, Next, Moved, HandsOver, ChargeEach, Elapse, Apply, ApplyAll, LastReading;
    StepReads(s, e, leaves);
    PartTimes(acc, Interrupt(e), s.current, Moved(s, e), HandsOver(s, e), Next(s, e).current, leaves, clock, k, t);
  }

  function Entry(interrupt: bool, c: Slot): seq<Op> { if interrupt then [Charge(c, User)] else [] }

  function HandOver(hands: bool, c: Slot, n: Slot): seq<Op> {
    if hands then [Charge(c, System), Charge(n, ReadyTime), Grant(n)] else []
  }

  function Return(leaves: bool, n: Slot): seq<Op> { if leaves then [Charge(n, System)] else [] }

  lemma EntryTimes(acc: seq<Account>, interrupt: bool, c: Slot, clock: nat -> int, k: nat, t: Slot)
    requires t < |acc|
    ensures var a := ApplyAll(acc, Entry(interrupt, c), clock, k)[t];
      && a.stats.user == (if interrupt && c == t then Elapse(acc[t].stats.user, acc[t].stats.elapsed, clock(k))
                          else acc[t].stats.user)
      && a.stats.ready == acc[t].stats.ready
      && a.stats.elapsed == (if interrupt && c == t then clock(k) else acc[t].stats.elapsed)
  {
    hide Elapse;
    OneOp(acc, Charge(c, User), clock, k);
  }

  lemma ReturnTimes(acc: seq<Account>, leaves: bool, n: Slot, clock: nat -> int, k: nat, t: Slot)
    requires t < |acc|
    ensures var a := ApplyAll(acc, Return(leaves, n), clock, k)[t];
      a.stats.user == acc[t].stats.user && a.stats.ready == acc[t].stats.ready
  {
    hide Elapse;
    OneOp(acc, Charge(n, System), clock, k);
  }

  lemma PartTimes(acc: seq<Account>, interrupt: bool, c: Slot, ts: seq<Slot>, hands: bool, n: Slot, leaves: bool,
                  clock: nat -> int, k: nat, t: Slot)
    requires t < |acc|
    ensures var ops := Entry(interrupt, c) + ChargeEach(ts) + HandOver(hands, c, n) + Return(leaves, n);
      var a := ApplyAll(acc, ops, clock, k)[t];
      var k1 := if interrupt then k + 1 else k;
      var before := if t == c then clock(k1 + |ts|) else LastReading(ts, t, clock, k1, acc[t].stats.elapsed);
      && a.stats.user == (if interrupt && c == t then Elapse(acc[t].stats.user, acc[t].stats.elapsed, clock(k))
                          else acc[t].stats.user)
      && a.stats.ready == (if hands && n == t then Elapse(acc[t].stats.ready, before, clock(k1 + |ts| + 1))
                           else acc[t].stats.ready)
  {
    hide Elapse, Apply, ApplyAll, ChargeEach, LastReading;
    var entry, moved, hand := Entry(interrupt, c), ChargeEach(ts), HandOver(hands, c, n);
    var k1 := k + |entry|;
    var a1 := ApplyAll(acc, entry, clock, k);
    EntryTimes(acc, interrupt, c, clock, k, t);
    var a2 := ApplyAll(a1, moved, clock, k1);
    MovedTimes(a1, ts, clock, k1, t);
    var a3 := ApplyAll(a2, hand, clock, k1 + |ts|);
    if hands {
      HandOverTimes(a2, c, n, clock, k1 + |ts|, t);
    } else {
      NoOps(a2, clock, k1 + |ts|);
    }
    ReturnTimes(a3, leaves, n, clock, k1 + |ts| + |hand|, t);
    ApplyConcat(acc, entry, moved, clock, k);
    ApplyConcat(acc, entry + moved, hand, clock, k);
    ApplyConcat(acc, entry + moved + hand, Return(leaves, n), clock, k);
  }

  lemma NoOps(acc: seq<Account>, clock: nat -> int, k: nat)
    ensures ApplyAll(acc, [], clock, k) == acc
  {
  }

  // ---------------------------------------------------------------- runs

  /** The user time of task t in a run: at each interrupt it meets, the time since the reading before. */
  ghost function UserTime(
      s: Sched, es: seq<Event>, leaves: nat -> bool, acc: seq<Account>, clock: nat -> int, k: nat, t: Slot): int
    requires WellFormed(s) && Runs(s, es) && t < |acc|
    decreases |es|
  {
    if es == [] then 0
    else
      var ops := Ops(s, es[0], leaves(|es|));
      (if Interrupt(es[0]) && s.current == t then clock(k) - acc[t].stats.elapsed else 0)
      + UserTime(Next(s, es[0]), es[1..], leaves, ApplyAll(acc, ops, clock, k), clock, k + |ops|, t)
  }

  /** Its ready time: at each hand-over to it, the time since the reading before. */
  ghost function WaitingTime(
      s: Sched, es: seq<Event>, leaves: nat -> bool, acc: seq<Account>, clock: nat -> int, k: nat, t: Slot): int
    requires WellFormed(s) && Runs(s, es) && t < |acc|
    decreases |es|
  {
    if es == [] then 0
    else
      var ops := Ops(s, es[0], leaves(|es|));
      (if HandsOver(s, es[0]) && Next(s, es[0]).current == t
       then clock(DispatchAt(s, es[0], k)) - ReadBefore(s, es[0], acc, clock, k, t) else 0)
      + WaitingTime(Next(s, es[0]), es[1..], leaves, ApplyAll(acc, ops, clock, k), clock, k + |ops|, t)
  }

  /** A spawn books nothing to the user or ready time of the tasks there are. */
  lemma SpawnTimes(s: Sched, e: Event, leaves: bool, acc: seq<Account>, clock: nat -> int, k: nat, t: Slot)
    requires WellFormed(s) && Enabled(s, e) && e.Spawn? && t < |acc| && (s.free != [] ==> s.free[0] != t)
    ensures var a := ApplyAll(acc, Ops(s, e, leaves), clock, k)[t];
      a.stats.user == acc[t].stats.user && a.stats.ready == acc[t].stats.ready
    ensures !HandsOver(s, e)
  {
    hide Next, Elapse, ApplyAll;
    var made := if s.free == [] then [] else [Copy(s.free[0], s.current)] + (if e.ok then [Start(s.free[0])] else []);
    var n := Next(s, e).current;
    assert Ops(s, e, leaves) == made + Return(leaves, n);
    ApplyConcat(acc, made, Return(leaves, n), clock, k);
    OthersUntouched(acc, made, clock, k, t);
    ReturnTimes(ApplyAll(acc, made, clock, k), leaves, n, clock, k + |made|, t);
  }

  lemma {:induction false} OthersUntouched(acc: seq<Account>, ops: seq<Op>, clock: nat -> int, k: nat, t: Slot)
    requires t < |acc| && forall i :: 0 <= i < |ops| ==> ops[i].t != t
    ensures ApplyAll(acc, ops, clock, k)[t] == acc[t]
    decreases |ops|
  {
    if ops != [] { OthersUntouched(Apply(acc, ops[0], clock(k)), ops[1..], clock, k + 1, t); }
  }

  /** One step of both sums. */
  lemma StepSums(s: Sched, e: Event, leaves: bool, acc: seq<Account>, clock: nat -> int, k: nat, t: Slot)
    requires WellFormed(s) && Enabled(s, e) && t < |acc| && (e.Spawn? && s.free != [] ==> s.free[0] != t)
    ensures var a := ApplyAll(acc, Ops(s, e, leaves), clock, k)[t];
      && Same32(a.stats.user, acc[t].stats.user
           + if Interrupt(e) && s.current == t then clock(k) - acc[t].stats.elapsed else 0)
      && Same32(a.stats.ready, acc[t].stats.ready
           + if HandsOver(s, e) && Next(s, e).current == t
             then clock(DispatchAt(s, e, k)) - ReadBefore(s, e, acc, clock, k, t) else 0)
  {
    hide Ops, Next, HandsOver, DispatchAt, ReadBefore, Elapse, ApplyAll;
    if e.Spawn? {
      SpawnTimes(s, e, leaves, acc, clock, k, t);
    } else {
      StepTimes(s, e, leaves, acc, clock, k, t);
      ElapseAdds(acc[t].stats.user, acc[t].stats.elapsed, clock(k));
      ElapseAdds(acc[t].stats.ready, ReadBefore(s, e, acc, clock, k, t), clock(DispatchAt(s, e, k)));
    }
  }

  /** Over every run, and whatever the clock reads: user_ticks is the time up to each interrupt the task
      meets, and ready_ticks the time up to each dispatch of it, from the reading before, as 32-bit
      numbers; with the law that all four buckets add up, this fixes the system time as well. */
  lemma {:induction false} RunTimes(
      s: Sched, es: seq<Event>, leaves: nat -> bool, acc: seq<Account>, clock: nat -> int, k: nat, t: Slot)
    requires WellFormed(s) && Runs(s, es) && t < |acc| && KeepsSlot(s, es, t)
    ensures var a := Accounts(s, es, leaves, acc, clock, k)[t];
      && Same32(a.stats.user, acc[t].stats.user + UserTime(s, es, leaves, acc, clock, k, t))
      && Same32(a.stats.ready, acc[t].stats.ready + WaitingTime(s, es, leaves, acc, clock, k, t))
    decreases |es|
  {
    hide Ops, Next, HandsOver, DispatchAt, ReadBefore, ApplyAll, Same32;
    if es == [] {
      SameSelf(acc[t].stats.user);
      SameSelf(acc[t].stats.ready);
    } else {
      var ops := Ops(s, es[0], leaves(|es|));
      var acc' := ApplyAll(acc, ops, clock, k);
      StepSums(s, es[0], leaves(|es|), acc, clock, k, t);
      RunTimes(Next(s, es[0]), es[1..], leaves, acc', clock, k + |ops|, t);
      var a := Accounts(s, es, leaves, acc, clock, k)[t];
      var rest := UserTime(Next(s, es[0]), es[1..], leaves, acc', clock, k + |ops|, t);
      var wait := WaitingTime(Next(s, es[0]), es[1..], leaves, acc', clock, k + |ops|, t);
      var du := if Interrupt(es[0]) && s.current == t then clock(k) - acc[t].stats.elapsed else 0;
      var dr := if HandsOver(s, es[0]) && Next(s, es[0]).current == t
                then clock(DispatchAt(s, es[0], k)) - ReadBefore(s, es[0], acc, clock, k, t) else 0;
      SamePlus(acc'[t].stats.user, acc[t].stats.user + du, a.stats.user, rest);
      SamePlus(acc'[t].stats.ready, acc[t].stats.ready + dr, a.stats.ready, wait);
    }
  }

  lemma SameSelf(a: int)
    ensures Same32(a, a)
  {
  }

  /** A new task starts with nothing booked and the clock reading of its creation. */
  lemma StartsFresh(s: Sched, leaves: bool, acc: seq<Account>, clock: nat -> int, k: nat, t: Slot)
    requires WellFormed(s) && Enabled(s, Spawn(true)) && s.free != [] && t == s.free[0] < |acc| && t != s.current
    ensures ApplyAll(acc, Ops(s, Spawn(true), leaves), clock, k)[t]
         == Account(Stats(0, 0, 0, 0, clock(k + 1), 0), clock(k + 1), 0)
  {
    hide ApplyAll, Dispatch, Sweep, Schedule;
    var made, n := [Copy(t, s.current), Start(t)], Next(s, Spawn(true)).current;
    assert Ops(s, Spawn(true), leaves) == made + Return(leaves, n);
    ApplyConcat(acc, made, Return(leaves, n), clock, k);
    ApplyConcat(acc, [Copy(t, s.current)], [Start(t)], clock, k);
    assert [Copy(t, s.current)] + [Start(t)] == made;
    OneOp(acc, Copy(t, s.current), clock, k);
    OneOp(ApplyAll(acc, [Copy(t, s.current)], clock, k), Start(t), clock, k + 1);
    OthersUntouched(ApplyAll(acc, made, clock, k), Return(leaves, n), clock, k + 2, t);
  }

  /** The slot of a task for which no memory is found holds a copy of the caller's account. */
  lemma FailedCopies(s: Sched, leaves: bool, acc: seq<Account>, clock: nat -> int, k: nat, t: Slot)
    requires WellFormed(s) && Enabled(s, Spawn(false)) && s.free != [] && t == s.free[0] < |acc|
    requires t != s.current < |acc|
    ensures ApplyAll(acc, Ops(s, Spawn(false), leaves), clock, k)[t] == acc[s.current]
  {
    hide ApplyAll, Dispatch, Sweep, Schedule;
    var made, n := [Copy(t, s.current)], Next(s, Spawn(false)).current;
    assert Ops(s, Spawn(false), leaves) == made + Return(leaves, n);
    ApplyConcat(acc, made, Return(leaves, n), clock, k);
    OneOp(acc, Copy(t, s.current), clock, k);
    OthersUntouched(ApplyAll(acc, made, clock, k), Return(leaves, n), clock, k + 1, t);
  }
}
