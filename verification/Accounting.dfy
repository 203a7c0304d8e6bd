/** Process time accounting (p_stats.c, and its callers in sched.c, sys.c and entry.ss). */
module Accounting {
  import opened Scheduler
  import opened Boot
  import opened Utils

  // ---------------------------------------------------------------- update_stats

  class Counter {
    var value: int
    constructor (v: int) ensures value == v { value := v; }
  }

  /** A 32-bit counter v once the ticks from `elapsed` to `now` are added. */
  function Elapse(v: int, elapsed: int, now: int): int { (v + (now - elapsed) % WORD) % WORD }

  /** update_stats, in 32-bit arithmetic; `now` is what get_ticks returns. */
  method UpdateStats(v: Counter, elapsed: Counter, now: int)
    requires v != elapsed && 0 <= now < WORD
    modifies v, elapsed
    ensures v.value == Elapse(old(v.value), old(elapsed.value), now) && elapsed.value == now
  {
    var delta := (now - elapsed.value) % WORD;
    v.value := (v.value + delta) % WORD;
    elapsed.value := now;
  }

  // ---------------------------------------------------------------- one task's account

  datatype Bucket = User | System | BlockedTime | ReadyTime

  datatype Stats = Stats(user: int, system: int, blocked: int, ready: int, elapsed: int, trans: int)

  /** A task's statistics, and their history: the tick count at init_stats, and how often the task
      has been given the CPU since. */
  datatype Account = Account(stats: Stats, birth: int, dispatched: nat)

  /** An account right after init_stats. */
  function Started(now: int): Account { Account(Stats(0, 0, 0, 0, now, 0), now, 0) }

  function Charged(s: Stats, b: Bucket, now: int): Stats {
    match b
    case User => s.(user := Elapse(s.user, s.elapsed, now), elapsed := now)
    case System => s.(system := Elapse(s.system, s.elapsed, now), elapsed := now)
    case BlockedTime => s.(blocked := Elapse(s.blocked, s.elapsed, now), elapsed := now)
    case ReadyTime => s.(ready := Elapse(s.ready, s.elapsed, now), elapsed := now)
  }

  /** a and b agree as 32-bit numbers. */
  predicate Same32(a: int, b: int) { (a - b) % WORD == 0 }

  /** No tick is lost: the four buckets add up to the time since init_stats; total_trans counts the
      dispatches; and nothing is ever booked as blocked time. */
  predicate Conserved(a: Account) {
    && Same32(a.stats.user + a.stats.system + a.stats.blocked + a.stats.ready, a.stats.elapsed - a.birth)
    && Same32(a.stats.trans, a.dispatched)
    && a.stats.blocked == 0
  }

  lemma Mod32(x: int, y: int)
    ensures Same32(x % WORD + y, x + y)
  {
  }

  lemma ChargedConserves(a: Account, b: Bucket, now: int)
    requires Conserved(a) && b != BlockedTime
    ensures Conserved(a.(stats := Charged(a.stats, b, now)))
  {
  }

  // ---------------------------------------------------------------- the accounts along a run

  datatype Op = Charge(t: Slot, b: Bucket) | Grant(t: Slot) | Copy(t: Slot, from: Slot) | Start(t: Slot)

  function Apply(acc: seq<Account>, op: Op, now: int): (r: seq<Account>)
    ensures |r| == |acc|
  {
    if op.t >= |acc| then acc
    else
      var a := acc[op.t];
      match op
      case Charge(t, b) => acc[t := a.(stats := Charged(a.stats, b, now))]
      case Grant(t) => acc[t := Account(a.stats.(trans := (a.stats.trans + 1) % WORD), a.birth, a.dispatched + 1)]
      case Copy(t, from) => if from < |acc| then acc[t := acc[from]] else acc
      case Start(t) => acc[t := Started(now)]
  }

  /** Each operation reads the clock anew: the k-th reading is clock(k), about which nothing is
      known. */
  ghost function ApplyAll(acc: seq<Account>, ops: seq<Op>, clock: nat -> int, k: nat): (r: seq<Account>)
    ensures |r| == |acc|
    decreases |ops|
  {
    if ops == [] then acc else ApplyAll(Apply(acc, ops[0], clock(k)), ops[1..], clock, k + 1)
  }

  /** The book-keeping of sched_next_rr. */
  function DispatchOps(s: Sched): seq<Op> {
    var t := if s.ready != [] then s.ready[0] else s.idle;
    [Charge(s.current, System), Charge(t, ReadyTime), Grant(t)]
  }

  function ChargeEach(ts: seq<Slot>): seq<Op> {
    if ts == [] then [] else [Charge(ts[0], System)] + ChargeEach(ts[1..])
  }

  /** The step calls sched_next_rr. */
  predicate Switches(s: Sched, e: Event)
    requires WellFormed(s) && Enabled(s, e)
  {
    match e
    case Tick => s.remaining == 1 && Sweep(s).ready != []
    case Yield => true
    case Exit => true
    case Block => s.tcb[s.current].pendingUnblocks == 0
    case GetKey(_) => MustBlock(s)
    case SemWait(i) => s.sems[i].count - 1 < 0
    case _ => false
  }

  /** The book-keeping of one step.  A woken reader is charged system time for the time it was
      blocked.  `leaves` says whether the task that has the CPU at the end goes back to user mode
      through an interrupt handler, which charges it once more. */
  function Ops(s: Sched, e: Event, leaves: bool): seq<Op>
    requires WellFormed(s) && Enabled(s, e)
  {
    var c := s.current;
    var last := if leaves then [Charge(Next(s, e).current, System)] else [];
    match e
    case Tick =>
      [Charge(c, User)] + ChargeEach(Select(s.tcb, s.keyq, true))
      + (if Switches(s, e) then [Charge(c, System)] + DispatchOps(Preempt(Sweep(s))) else []) + last
    case Key(_) =>
      [Charge(c, User)] + (if s.kb.makeFlag && s.keyq != [] then [Charge(s.keyq[0], System)] else []) + last
    case Yield => [Charge(c, System)] + DispatchOps(Preempt(s)) + last
    case Spawn(ok) =>
      if s.free == [] then last
      else [Copy(s.free[0], c)] + (if ok then [Start(s.free[0])] else []) + last
    case _ => (if Switches(s, e) then DispatchOps(s) else []) + last
  }

  ghost predicate AllConserved(acc: seq<Account>) {
    forall t :: 0 <= t < |acc| ==> Conserved(acc[t])
  }

  predicate Booked(op: Op) { op.Charge? ==> op.b != BlockedTime }

  lemma ApplyConserves(acc: seq<Account>, op: Op, now: int)
    requires AllConserved(acc) && Booked(op)
    ensures AllConserved(Apply(acc, op, now))
  {
    if op.t < |acc| {
      var a := acc[op.t];
      match op
      case Charge(t, b) => ChargedConserves(a, b, now);
      case Grant(t) => GrantConserves(a);
      case Copy(t, from) =>
      case Start(t) =>
    }
  }

  lemma {:induction false} ApplyAllConserves(acc: seq<Account>, ops: seq<Op>, clock: nat -> int, k: nat)
    requires AllConserved(acc) && forall i :: 0 <= i < |ops| ==> Booked(ops[i])
    ensures AllConserved(ApplyAll(acc, ops, clock, k))
    decreases |ops|
  {
    if ops != [] {
      ApplyConserves(acc, ops[0], clock(k));
      ApplyAllConserves(Apply(acc, ops[0], clock(k)), ops[1..], clock, k + 1);
    }
  }

  lemma {:induction false} ChargeEachBooked(ts: seq<Slot>)
    ensures forall i :: 0 <= i < |ChargeEach(ts)| ==> Booked(ChargeEach(ts)[i]) && ChargeEach(ts)[i].Charge?
  {
    if ts != [] { ChargeEachBooked(ts[1..]); }
  }

  lemma OpsBooked(s: Sched, e: Event, leaves: bool)
    requires WellFormed(s) && Enabled(s, e)
    ensures forall i :: 0 <= i < |Ops(s, e, leaves)| ==> Booked(Ops(s, e, leaves)[i])
  {
    hide Next, Sweep, Preempt, Switches, Select, MustBlock;
    if e.Tick? { ChargeEachBooked(Select(s.tcb, s.keyq, true)); }
  }

  /** The accounts after a run; leaves(n) is the return path of the step n events before the end. */
  ghost function Accounts(
      s: Sched, es: seq<Event>, leaves: nat -> bool, acc: seq<Account>, clock: nat -> int, k: nat): (r: seq<Account>)
    requires WellFormed(s) && Runs(s, es)
    ensures |r| == |acc|
    decreases |es|
  {
    if es == [] then acc
    else
      var ops := Ops(s, es[0], leaves(|es|));
      Accounts(Next(s, es[0]), es[1..], leaves, ApplyAll(acc, ops, clock, k), clock, k + |ops|)
  }

  /** Time conservation: in every run, and whatever the clock reads, every task's four buckets add
      up (as 32-bit numbers) to the time since its init_stats, and none of it is blocked time. */
  lemma {:induction false} RunConserves(
      s: Sched, es: seq<Event>, leaves: nat -> bool, acc: seq<Account>, clock: nat -> int, k: nat)
    requires WellFormed(s) && Runs(s, es) && AllConserved(acc)
    ensures AllConserved(Accounts(s, es, leaves, acc, clock, k))
    decreases |es|
  {
    hide Next, Ops, AllConserved;
    if es != [] {
      var ops := Ops(s, es[0], leaves(|es|));
      OpsBooked(s, es[0], leaves(|es|));
      ApplyAllConserves(acc, ops, clock, k);
      RunConserves(Next(s, es[0]), es[1..], leaves, ApplyAll(acc, ops, clock, k), clock, k + |ops|);
    }
  }

  // ---------------------------------------------------------------- live tasks

  /** The books of every task that is not in the free queue are in order. */
  ghost predicate LiveConserved(s: Sched, acc: seq<Account>) {
    forall t :: 0 <= t < |acc| && t !in s.free ==> Conserved(acc[t])
  }

  predicate Resets(op: Op, t: Slot) { (op.Copy? || op.Start?) && op.t == t }

  lemma GrantConserves(a: Account)
    requires Conserved(a)
    ensures Conserved(Account(a.stats.(trans := (a.stats.trans + 1) % WORD), a.birth, a.dispatched + 1))
  {
    Mod32(a.stats.trans + 1, -(a.dispatched + 1));
  }

  lemma ApplySlot(acc: seq<Account>, op: Op, now: int, t: Slot)
    requires t < |acc| && Conserved(acc[t]) && Booked(op) && !Resets(op, t)
    ensures Conserved(Apply(acc, op, now)[t])
  {
    hide Conserved, Charged;
    if op.t == t && op.Charge? { ChargedConserves(acc[t], op.b, now); }
    if op.t == t && op.Grant? { GrantConserves(acc[t]); }
  }

  /** What is booked for other tasks does not matter. */
  lemma {:induction false} SlotConserves(acc: seq<Account>, ops: seq<Op>, clock: nat -> int, k: nat, t: Slot)
    requires t < |acc| && Conserved(acc[t])
    requires forall i :: 0 <= i < |ops| ==> Booked(ops[i]) && !Resets(ops[i], t)
    ensures Conserved(ApplyAll(acc, ops, clock, k)[t])
    decreases |ops|
  {
    hide Conserved, Apply, Charged;
    if ops != [] {
      ApplySlot(acc, ops[0], clock(k), t);
      SlotConserves(Apply(acc, ops[0], clock(k)), ops[1..], clock, k + 1, t);
    }
  }

  /** A new task starts with its books in order, whatever its slot held before. */
  lemma StartConserves(acc: seq<Account>, t: Slot, from: Slot, last: seq<Op>, clock: nat -> int, k: nat)
    requires t < |acc| && forall i :: 0 <= i < |last| ==> Booked(last[i]) && !Resets(last[i], t)
    ensures Conserved(ApplyAll(acc, [Copy(t, from), Start(t)] + last, clock, k)[t])
  {
    var ops := [Copy(t, from), Start(t)] + last;
    assert ops[1..][1..] == last;
    var acc2 := Apply(Apply(acc, ops[0], clock(k)), ops[1..][0], clock(k + 1));
    assert ApplyAll(acc, ops, clock, k) == ApplyAll(acc2, last, clock, k + 2);
    SlotConserves(acc2, last, clock, k + 2, t);
  }

  lemma StepConservesLive(s: Sched, e: Event, leaves: bool, acc: seq<Account>, clock: nat -> int, k: nat)
    requires WellFormed(s) && Enabled(s, e) && LiveConserved(s, acc)
    ensures LiveConserved(Next(s, e), ApplyAll(acc, Ops(s, e, leaves), clock, k))
  {
    hide Next, Ops, Conserved, ApplyAll;
    var ops, r := Ops(s, e, leaves), Next(s, e);
    OpsBooked(s, e, leaves);
    forall t | 0 <= t < |acc| && t !in r.free ensures Conserved(ApplyAll(acc, ops, clock, k)[t]) {
      if e.Spawn? && s.free != [] && s.free[0] == t {
        NewSlot(s, e.ok, leaves, t);
        StartConserves(acc, t, s.current, ops[2..], clock, k);
      } else {
        FreeGrows(s, e, t);
        OpsReset(s, e, leaves, t);
        SlotConserves(acc, ops, clock, k, t);
      }
    }
  }

  lemma NewSlot(s: Sched, ok: bool, leaves: bool, t: Slot)
    requires WellFormed(s) && Enabled(s, Spawn(ok)) && s.free != [] && t == s.free[0] && t !in Next(s, Spawn(ok)).free
    ensures var ops := Ops(s, Spawn(ok), leaves);
      && |ops| >= 2 && ops == [Copy(t, s.current), Start(t)] + ops[2..]
      && forall i :: 2 <= i < |ops| ==> !Resets(ops[i], t)
  {
    assert SpawnStep(s, false).free[|s.free| - 1] == t;
  }

  /** A step takes at most the first slot out of the free queue. */
  lemma FreeGrows(s: Sched, e: Event, t: Slot)
    requires WellFormed(s) && Enabled(s, e) && (e.Spawn? && s.free != [] ==> s.free[0] != t)
    ensures t in s.free ==> t in Next(s, e).free
  {
    hide Select, KeepsShape;
    if e.Spawn? && s.free != [] {
      assert s.free == [s.free[0]] + s.free[1..];
    }
  }

  lemma OpsReset(s: Sched, e: Event, leaves: bool, t: Slot)
    requires WellFormed(s) && Enabled(s, e) && (e.Spawn? && s.free != [] ==> s.free[0] != t)
    ensures forall i :: 0 <= i < |Ops(s, e, leaves)| ==> !Resets(Ops(s, e, leaves)[i], t)
  {
    hide Next, Sweep, Preempt, Switches, Select, MustBlock;
    if e.Tick? { ChargeEachBooked(Select(s.tcb, s.keyq, true)); }
  }

  /** Time conservation for the tasks that exist, whatever the unused slots hold. */
  lemma {:induction false} RunConservesLive(
      s: Sched, es: seq<Event>, leaves: nat -> bool, acc: seq<Account>, clock: nat -> int, k: nat)
    requires WellFormed(s) && Runs(s, es) && LiveConserved(s, acc)
    ensures LiveConserved(After(s, es), Accounts(s, es, leaves, acc, clock, k))
    decreases |es|
  {
    hide Next, Ops, LiveConserved;
    if es != [] {
      var ops := Ops(s, es[0], leaves(|es|));
      StepConservesLive(s, es[0], leaves(|es|), acc, clock, k);
      RunConservesLive(Next(s, es[0]), es[1..], leaves, ApplyAll(acc, ops, clock, k), clock, k + |ops|);
    }
  }

  /** init_idle and init_task1 call init_stats for slots 0 and 1; nothing is known of the others. */
  predicate BootAccounts(acc: seq<Account>, n: nat) {
    && |acc| == n >= 2
    && acc[0] == Started(acc[0].birth) && acc[1] == Started(acc[1].birth)
  }

  /** In every run from boot, and whatever the clock reads, the buckets of every task that exists add
      up to the time since its init_stats, and none of it is blocked time. */
  lemma ConservedFromBoot(n: nat, q: int, capacity: nat, sems: nat, es: seq<Event>,
                          leaves: nat -> bool, acc: seq<Account>, clock: nat -> int)
    requires n >= 2 && Runs(Booted(n, q, capacity, sems), es) && BootAccounts(acc, n)
    ensures var s := Booted(n, q, capacity, sems);
      LiveConserved(After(s, es), Accounts(s, es, leaves, acc, clock, 0))
  {
    hide Runs, After;
    var s := Booted(n, q, capacity, sems);
    forall t | 2 <= t < n ensures t in s.free {
      assert s.free[t - 2] == t;
    }
    RunConservesLive(s, es, leaves, acc, clock, 0);
  }

  // ---------------------------------------------------------------- dispatch counts

  function Grants(ops: seq<Op>, t: Slot): nat {
    if ops == [] then 0 else (if ops[0] == Grant(t) then 1 else 0) + Grants(ops[1..], t)
  }

  lemma {:induction false} GrantsConcat(a: seq<Op>, b: seq<Op>, t: Slot)
    ensures Grants(a + b, t) == Grants(a, t) + Grants(b, t)
  {
    if a == [] {
      assert a + b == b;
    } else {
      assert (a + b)[1..] == a[1..] + b;
      GrantsConcat(a[1..], b, t);
    }
  }

  lemma {:induction false} NoGrants(ops: seq<Op>, t: Slot)
    requires forall i :: 0 <= i < |ops| ==> !ops[i].Grant?
    ensures Grants(ops, t) == 0
  {
    if ops != [] { NoGrants(ops[1..], t); }
  }

  lemma DispatchGrants(s: Sched, t: Slot)
    requires WellFormed(s)
    ensures Grants(DispatchOps(s), t) == if Dispatch(s).current == t then 1 else 0
  {
    var ops := DispatchOps(s);
    assert ops == [ops[0], ops[1]] + [ops[2]];
    GrantsConcat([ops[0], ops[1]], [ops[2]], t);
    NoGrants([ops[0], ops[1]], t);
    assert [ops[2]][1..] == [];
  }

  /** The book-keeping of a step grants the CPU exactly to the task it is switched to. */
  lemma StepGrants(s: Sched, e: Event, leaves: bool, t: Slot)
    requires WellFormed(s) && Enabled(s, e)
    ensures Grants(Ops(s, e, leaves), t) == if Switches(s, e) && Next(s, e).current == t then 1 else 0
  {
    match e
    case Tick => TickGrants(s, leaves, t);
    case Key(_) => NoGrants(Ops(s, e, leaves), t);
    case Spawn(_) => NoGrants(Ops(s, e, leaves), t);
    case Yield => YieldGrants(s, leaves, t);
    case _ => OtherGrants(s, e, leaves, t);
  }

  lemma YieldGrants(s: Sched, leaves: bool, t: Slot)
    requires WellFormed(s) && Enabled(s, Yield)
    ensures Grants(Ops(s, Yield, leaves), t) == if Next(s, Yield).current == t then 1 else 0
  {
    hide Grants, DispatchOps, Dispatch;
    var last := if leaves then [Charge(Next(s, Yield).current, System)] else [];
    var first, ops := [Charge(s.current, System)], DispatchOps(Preempt(s));
    DispatchGrants(Preempt(s), t);
    GrantsConcat(first + ops, last, t);
    GrantsConcat(first, ops, t);
    NoGrants(first, t);
    NoGrants(last, t);
  }

  lemma OtherGrants(s: Sched, e: Event, leaves: bool, t: Slot)
    requires WellFormed(s) && Enabled(s, e) && !e.Tick? && !e.Key? && !e.Spawn? && !e.Yield?
    ensures Grants(Ops(s, e, leaves), t) == if Switches(s, e) && Next(s, e).current == t then 1 else 0
  {
    hide Grants, DispatchOps, Dispatch, Next, Switches;
    var last := if leaves then [Charge(Next(s, e).current, System)] else [];
    NoGrants(last, t);
    NoGrants([], t);
    DispatchGrants(s, t);
    if Switches(s, e) { SwitchTarget(s, e); }
    GrantsConcat(if Switches(s, e) then DispatchOps(s) else [], last, t);
  }

  lemma SwitchTarget(s: Sched, e: Event)
    requires WellFormed(s) && Enabled(s, e) && Switches(s, e) && !e.Tick? && !e.Yield?
    ensures Next(s, e).current == Dispatch(s).current
  {
  }

  lemma TickGrants(s: Sched, leaves: bool, t: Slot)
    requires WellFormed(s) && Enabled(s, Tick)
    ensures Grants(Ops(s, Tick, leaves), t) == if Switches(s, Tick) && Next(s, Tick).current == t then 1 else 0
  {
    hide Grants, DispatchOps, Select, KeepsShape;
    var c, woken := s.current, ChargeEach(Select(s.tcb, s.keyq, true));
    var last := if leaves then [Charge(Next(s, Tick).current, System)] else [];
    var first := [Charge(c, User)] + woken;
    ChargeEachBooked(Select(s.tcb, s.keyq, true));
    NoGrants(first, t);
    NoGrants(last, t);
    if Switches(s, Tick) {
      var mid := Preempt(Sweep(s));
      DispatchGrants(mid, t);
      NoGrants([Charge(c, System)], t);
      GrantsConcat([Charge(c, System)], DispatchOps(mid), t);
      GrantsConcat(first, [Charge(c, System)] + DispatchOps(mid), t);
      GrantsConcat(first + ([Charge(c, System)] + DispatchOps(mid)), last, t);
    } else {
      assert first + [] == first;
      GrantsConcat(first, last, t);
    }
  }

  lemma {:induction false} ApplyAllGrants(acc: seq<Account>, ops: seq<Op>, clock: nat -> int, k: nat, t: Slot)
    requires t < |acc| && forall i :: 0 <= i < |ops| ==> !Resets(ops[i], t)
    ensures ApplyAll(acc, ops, clock, k)[t].dispatched == acc[t].dispatched + Grants(ops, t)
    decreases |ops|
  {
    if ops != [] {
      ApplyAllGrants(Apply(acc, ops[0], clock(k)), ops[1..], clock, k + 1, t);
    }
  }

  /** How often the run switches to t. */
  ghost function Dispatches(s: Sched, es: seq<Event>, t: Slot): nat
    requires WellFormed(s) && Runs(s, es)
    decreases |es|
  {
    if es == [] then 0
    else (if Switches(s, es[0]) && Next(s, es[0]).current == t then 1 else 0) + Dispatches(Next(s, es[0]), es[1..], t)
  }

  /** Nobody takes slot t during the run. */
  ghost predicate KeepsSlot(s: Sched, es: seq<Event>, t: Slot)
    requires WellFormed(s) && Runs(s, es)
    decreases |es|
  {
    es == [] ||
    ((es[0].Spawn? && s.free != [] ==> s.free[0] != t) && KeepsSlot(Next(s, es[0]), es[1..], t))
  }

  /** total_trans counts the dispatches exactly: over any run, the count of a task that keeps its
      slot grows by the number of times the run switches to it. */
  lemma {:induction false} RunCountsDispatches(
      s: Sched, es: seq<Event>, leaves: nat -> bool, acc: seq<Account>, clock: nat -> int, k: nat, t: Slot)
    requires WellFormed(s) && Runs(s, es) && t < |acc| && Conserved(acc[t]) && KeepsSlot(s, es, t)
    ensures var a := Accounts(s, es, leaves, acc, clock, k)[t];
      && a.dispatched == acc[t].dispatched + Dispatches(s, es, t)
      && Same32(a.stats.trans, acc[t].dispatched + Dispatches(s, es, t))
    decreases |es|
  {
    hide Next, Ops, Apply, Switches;
    if es != [] {
      var ops := Ops(s, es[0], leaves(|es|));
      var acc' := ApplyAll(acc, ops, clock, k);
      OpsBooked(s, es[0], leaves(|es|));
      OpsReset(s, es[0], leaves(|es|), t);
      SlotConserves(acc, ops, clock, k, t);
      ApplyAllGrants(acc, ops, clock, k, t);
      StepGrants(s, es[0], leaves(|es|), t);
      RunCountsDispatches(Next(s, es[0]), es[1..], leaves, acc', clock, k + |ops|, t);
    }
  }

  /** From boot: total_trans of idle, and of the first process as long as nobody else takes its slot,
      is the number of switches to it. */
  lemma DispatchesFromBoot(n: nat, q: int, capacity: nat, sems: nat, es: seq<Event>,
                           leaves: nat -> bool, acc: seq<Account>, clock: nat -> int, t: Slot)
    requires n >= 2 && Runs(Booted(n, q, capacity, sems), es) && BootAccounts(acc, n)
    requires t <= 1 && KeepsSlot(Booted(n, q, capacity, sems), es, t)
    ensures var s := Booted(n, q, capacity, sems);
      Same32(Accounts(s, es, leaves, acc, clock, 0)[t].stats.trans, Dispatches(s, es, t))
  {
    hide Next, Runs, Ops;
    RunCountsDispatches(Booted(n, q, capacity, sems), es, leaves, acc, clock, 0, t);
  }

  /** The accounts of a run split at any point: the second part starts with some accounts. */
  lemma {:induction false} AccountsSplit(
      s: Sched, a: seq<Event>, b: seq<Event>, leaves: nat -> bool, acc: seq<Account>, clock: nat -> int, k: nat)
      returns (mid: seq<Account>, k': nat)
    requires WellFormed(s) && Runs(s, a + b)
    ensures Runs(s, a) && Runs(After(s, a), b) && |mid| == |acc|
    ensures Accounts(s, a + b, leaves, acc, clock, k) == Accounts(After(s, a), b, leaves, mid, clock, k')
    decreases |a|
  {
    hide Next, Ops, Enabled, ApplyAll, WellFormed;
    if a == [] {
      assert a + b == b;
      mid, k' := acc, k;
    } else {
      assert (a + b)[1..] == a[1..] + b && (a + b)[0] == a[0];
      var ops := Ops(s, a[0], leaves(|a + b|));
      mid, k' := AccountsSplit(Next(s, a[0]), a[1..], b, leaves, ApplyAll(acc, ops, clock, k), clock, k + |ops|);
    }
  }

  /** A task created in a run: total_trans is the number of switches to it since, as long as nobody
      else takes its slot, and whatever the accounts were before. */
  lemma DispatchesSinceSpawn(
      s: Sched, before: seq<Event>, after: seq<Event>,
      leaves: nat -> bool, acc: seq<Account>, clock: nat -> int, k: nat, t: Slot)
    requires WellFormed(s) && Runs(s, before + ([Spawn(true)] + after)) && Runs(s, before)
    requires After(s, before).free != [] && t == After(s, before).free[0] < |acc|
    requires Enabled(After(s, before), Spawn(true)) && Runs(Next(After(s, before), Spawn(true)), after)
    requires KeepsSlot(Next(After(s, before), Spawn(true)), after, t)
    ensures var a := Accounts(s, before + ([Spawn(true)] + after), leaves, acc, clock, k)[t];
      && a.dispatched == Dispatches(Next(After(s, before), Spawn(true)), after, t)
      && Same32(a.stats.trans, a.dispatched) && Conserved(a)
  {
    hide Next, Ops, Runs, After, Dispatches, KeepsSlot, Accounts;
    var es, s1 := [Spawn(true)] + after, After(s, before);
    var mid, k1 := AccountsSplit(s, before, es, leaves, acc, clock, k);
    var ops := Ops(s1, Spawn(true), leaves(|es|));
    var started := ApplyAll(mid, ops, clock, k1);
    SpawnAccounts(s1, after, leaves, mid, clock, k1);
    StartedAccount(s1, leaves(|es|), mid, clock, k1, t);
    RunCountsDispatches(Next(s1, Spawn(true)), after, leaves, started, clock, k1 + |ops|, t);
    ConservedSlot(Next(s1, Spawn(true)), after, leaves, started, clock, k1 + |ops|, t);
  }

  lemma SpawnAccounts(
      s: Sched, after: seq<Event>, leaves: nat -> bool, acc: seq<Account>, clock: nat -> int, k: nat)
    requires WellFormed(s) && Enabled(s, Spawn(true)) && Runs(s, [Spawn(true)] + after)
    ensures Runs(Next(s, Spawn(true)), after)
    ensures var es := [Spawn(true)] + after;
      var ops := Ops(s, Spawn(true), leaves(|es|));
      Accounts(s, es, leaves, acc, clock, k)
      == Accounts(Next(s, Spawn(true)), after, leaves, ApplyAll(acc, ops, clock, k), clock, k + |ops|)
  {
    hide Next, Ops;
    assert ([Spawn(true)] + after)[1..] == after;
  }

  /** Right after the spawn nothing is counted yet. */
  lemma StartedAccount(s: Sched, leaves: bool, acc: seq<Account>, clock: nat -> int, k: nat, t: Slot)
    requires WellFormed(s) && Enabled(s, Spawn(true)) && s.free != [] && t == s.free[0] < |acc|
    ensures var a := ApplyAll(acc, Ops(s, Spawn(true), leaves), clock, k)[t]; a.dispatched == 0 && Conserved(a)
  {
    hide Next, Conserved;
    var ops := Ops(s, Spawn(true), leaves);
    var last := if leaves then [Charge(Next(s, Spawn(true)).current, System)] else [];
    assert ops == [Copy(t, s.current), Start(t)] + last;
    StartConserves(acc, t, s.current, last, clock, k);
    assert ops[1..][1..] == last;
    var acc2 := Apply(Apply(acc, ops[0], clock(k)), ops[1..][0], clock(k + 1));
    assert ApplyAll(acc, ops, clock, k) == ApplyAll(acc2, last, clock, k + 2);
    ApplyAllGrants(acc2, last, clock, k + 2, t);
    NoGrants(last, t);
  }

  /** A task that keeps its slot keeps its books. */
  lemma {:induction false} ConservedSlot(
      s: Sched, es: seq<Event>, leaves: nat -> bool, acc: seq<Account>, clock: nat -> int, k: nat, t: Slot)
    requires WellFormed(s) && Runs(s, es) && t < |acc| && Conserved(acc[t]) && KeepsSlot(s, es, t)
    ensures Conserved(Accounts(s, es, leaves, acc, clock, k)[t])
    decreases |es|
  {
    hide Next, Ops, Apply, Conserved;
    if es != [] {
      var ops := Ops(s, es[0], leaves(|es|));
      OpsBooked(s, es[0], leaves(|es|));
      OpsReset(s, es[0], leaves(|es|), t);
      SlotConserves(acc, ops, clock, k, t);
      ConservedSlot(Next(s, es[0]), es[1..], leaves, ApplyAll(acc, ops, clock, k), clock, k + |ops|, t);
    }
  }
}
