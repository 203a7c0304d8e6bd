/** How long a task can wait: bounded waiting in the ready queue and inside getKey. */
module Waiting {
  import opened Semaphores
  import opened Scheduler
  import opened Partition
  import opened Reachable

  function Ticks(es: seq<Event>): nat {
    if es == [] then 0 else (if es[0].Tick? then 1 else 0) + Ticks(es[1..])
  }

  /** `t` owns the CPU after the first `j` events of the run, at most `d` of them clock ticks. */
  ghost predicate RunsWithin(s: Sched, es: seq<Event>, t: Slot, j: nat, d: int)
    requires WellFormed(s)
  {
    j <= |es| && Runs(s, es[..j]) && After(s, es[..j]).current == t && Ticks(es[..j]) <= d
  }

  // ---------------------------------------------------------------- the ready queue

  /** The waiting measure of position k: what is left of this quantum and k whole quanta. */
  function Measure(s: Sched, q: int, k: nat): int {
    s.remaining + q * k
  }

  /** In a step that starts with `t` at position `k` of the ready queue, either `t` gets the CPU or
      its waiting measure does not rise, and drops if the step is a tick. */
  ghost predicate Advances(s: Sched, r: Sched, q: int, t: Slot, k: nat, tick: int) {
    r.current == t ||
    var k' := if r.current == s.current then k else k - 1;
    && 0 <= k' < |r.ready| && r.ready[k'] == t
    && r.remaining + q * k' + tick <= s.remaining + q * k
  }

  lemma SwitchAdvances(s: Sched, mid: Sched, q: int, t: Slot, k: nat, tick: int)
    requires WellFormed(mid) && k < |s.ready| && s.ready[k] == t && s.ready <= mid.ready
    requires s.current !in s.ready && mid.tcb[s.ready[0]].quantum == q
    requires tick <= s.remaining
    ensures Advances(s, Dispatch(mid), q, t, k, tick)
  {
  }

  lemma StayAdvances(s: Sched, r: Sched, q: int, t: Slot, k: nat, tick: int)
    requires k < |s.ready| && s.ready[k] == t && s.ready <= r.ready
    requires r.current == s.current && r.remaining + tick <= s.remaining
    ensures Advances(s, r, q, t, k, tick)
  {
  }

  lemma TickAdvances(s: Sched, q: int, t: Slot, k: nat)
    requires Inv(s, q) && k < |s.ready| && s.ready[k] == t
    ensures Advances(s, Schedule(Sweep(s)), q, t, k, 1)
  {
    hide Advances, Dispatch, Select, OnePlaceEach, CallsOk, KeyboardOk, SemsOk, KeepsShape;
    Apart(s);
    assert s.ready[0] in s.ready;
    var r := Sweep(s).(remaining := s.remaining - 1);
    if r.remaining == 0 {
      SwitchAdvances(s, Preempt(r), q, t, k, 1);
    } else {
      StayAdvances(s, r, q, t, k, 1);
    }
  }

  lemma LeavingAdvances(s: Sched, e: Event, q: int, t: Slot, k: nat)
    requires Inv(s, q) && Enabled(s, e) && k < |s.ready| && s.ready[k] == t
    requires e.Yield? || e.Exit? || e.Block?
    ensures Advances(s, Next(s, e), q, t, k, 0)
  {
    hide Advances, Dispatch, OnePlaceEach, CallsOk, KeyboardOk, SemsOk, KeepsShape;
    Apart(s);
    assert s.ready[0] in s.ready;
    match e
    case Yield => SwitchAdvances(s, Preempt(s), q, t, k, 0);
    case Exit => SwitchAdvances(s, s.(free := s.free + [s.current]), q, t, k, 0);
    case Block =>
      if s.tcb[s.current].pendingUnblocks == 0 {
        SwitchAdvances(s, Leave(s, Blocked).(blocked := s.blocked + [s.current]), q, t, k, 0);
      } else {
        StayAdvances(s, BlockStep(s), q, t, k, 0);
      }
  }

  lemma GetKeyAdvances(s: Sched, timeout: int, q: int, t: Slot, k: nat)
    requires Inv(s, q) && k < |s.ready| && s.ready[k] == t
    ensures Advances(s, GetKeyStep(s, timeout), q, t, k, 0)
  {
    hide Advances, Dispatch, OnePlaceEach, CallsOk, KeyboardOk, SemsOk, KeepsShape;
    Apart(s);
    assert s.ready[0] in s.ready;
    if MustBlock(s) {
      var b := s.tcb[s.current].(keyTimeout := timeout, state := Blocked, call := Call(timeout, Waiting));
      SwitchAdvances(s, s.(tcb := s.tcb[s.current := b], keyq := s.keyq + [s.current]), q, t, k, 0);
    } else {
      StayAdvances(s, GetKeyStep(s, timeout), q, t, k, 0);
    }
  }

  lemma SemAdvances(s: Sched, i: nat, q: int, t: Slot, k: nat)
    requires Inv(s, q) && k < |s.ready| && s.ready[k] == t && i < |s.sems|
    ensures Advances(s, SemWaitStep(s, i), q, t, k, 0)
  {
    hide Advances, Dispatch, OnePlaceEach, CallsOk, KeyboardOk, SemsOk;
    Apart(s);
    assert s.ready[0] in s.ready;
    if s.sems[i].count - 1 < 0 {
      SwitchAdvances(s, s.(sems := s.sems[i := Wait(s.sems[i], s.current)]), q, t, k, 0);
    } else {
      StayAdvances(s, SemWaitStep(s, i), q, t, k, 0);
    }
  }

  lemma StepAdvances(s: Sched, e: Event, q: int, t: Slot, k: nat)
    requires Inv(s, q) && Enabled(s, e) && k < |s.ready| && s.ready[k] == t
    ensures Advances(s, Next(s, e), q, t, k, if e.Tick? then 1 else 0)
  {
    hide Advances, OnePlaceEach, CallsOk, KeyboardOk, SemsOk, Sweep, Schedule, Dispatch, GetKeyStep, SemWaitStep,
      BlockStep;
    match e
    case Tick => TickAdvances(s, q, t, k);
    case GetKey(timeout) => GetKeyAdvances(s, timeout, q, t, k);
    case SemWait(i) => SemAdvances(s, i, q, t, k);
    case Key(c) => StayAdvances(s, KeyStep(s, c), q, t, k, 0);
    case Spawn(ok) => StayAdvances(s, SpawnStep(s, ok), q, t, k, 0);
    case Resume => StayAdvances(s, ResumeStep(s), q, t, k, 0);
    case SemCreate(v) => StayAdvances(s, SemCreateStep(s, v), q, t, k, 0);
    case SemSignal(i) => StayAdvances(s, SemSignalStep(s, i), q, t, k, 0);
    case _ => LeavingAdvances(s, e, q, t, k);
  }

  /** One step of waiting, with the new position. */
  lemma StepWaits(s: Sched, e: Event, q: int, t: Slot, k: nat) returns (k': nat)
    requires Inv(s, q) && Enabled(s, e) && k < |s.ready| && s.ready[k] == t
    ensures Inv(Next(s, e), q)
    ensures var r := Next(s, e);
      r.current == t ||
      (k' < |r.ready| && r.ready[k'] == t
       && r.remaining + q * k' + (if e.Tick? then 1 else 0) <= s.remaining + q * k)
  {
    StepAdvances(s, e, q, t, k);
    StepKeepsInv(s, e, q);
    var r := Next(s, e);
    k' := if r.current == t || r.current == s.current then k else k - 1;
  }

  lemma LaterWithin(s: Sched, es: seq<Event>, t: Slot, j: nat, d: int)
    requires WellFormed(s) && es != [] && Enabled(s, es[0])
    requires RunsWithin(Next(s, es[0]), es[1..], t, j, d)
    ensures RunsWithin(s, es, t, j + 1, d + if es[0].Tick? then 1 else 0)
  {
    hide Next;
    assert es[..j + 1][1..] == es[1..][..j];
  }

  lemma MeasurePositive(s: Sched, q: int, k: nat)
    requires QuantaOk(s, q)
    ensures s.remaining + q * k >= 1
  {
  }

  lemma {:induction false} WaitsAtMost(s: Sched, es: seq<Event>, q: int, t: Slot, k: nat, d: int) returns (j: nat)
    requires Inv(s, q) && Runs(s, es) && k < |s.ready| && s.ready[k] == t
    requires s.remaining + q * k <= d <= Ticks(es)
    ensures RunsWithin(s, es, t, j, d)
    decreases |es|
  {
    hide Next, OnePlaceEach, StatesOk, CallsOk, KeyboardOk, SemsOk;
    MeasurePositive(s, q, k);
    var r, d' := Next(s, es[0]), if es[0].Tick? then d - 1 else d;
    var k' := StepWaits(s, es[0], q, t, k);
    if r.current == t {
      assert RunsWithin(r, es[1..], t, 0, d');
      j := 0;
    } else {
      j := WaitsAtMost(r, es[1..], q, t, k', d');
    }
    LaterWithin(s, es, t, j, d');
    j := j + 1;
  }

  /** Bounded waiting: in every run with enough clock ticks, the task at position k of the ready
      queue gets the CPU within remaining_quantum + q*k of them. */
  lemma BoundedWaiting(s: Sched, es: seq<Event>, q: int, t: Slot, k: nat)
    requires Inv(s, q) && Runs(s, es) && k < |s.ready| && s.ready[k] == t
    requires Ticks(es) >= Measure(s, q, k)
    ensures exists j :: RunsWithin(s, es, t, j, Measure(s, q, k))
  {
    hide Next, OnePlaceEach, StatesOk, CallsOk, KeyboardOk, SemsOk;
    var j := WaitsAtMost(s, es, q, t, k, Measure(s, q, k));
  }

  // ---------------------------------------------------------------- the bound is attained

  lemma TwiceCounted(q: seq<Slot>, i: nat, j: nat)
    requires i < j < |q| && q[i] == q[j]
    ensures multiset(q)[q[i]] >= 2
  {
    assert q == q[..j] + q[j..];
    assert q[..j][i] == q[j..][0] == q[i];
  }

  lemma ReadyOnce(s: Sched, k: nat)
    requires OnePlaceEach(s) && 0 < k < |s.ready|
    ensures s.ready[0] != s.ready[k]
  {
    OnceAtMost(s, s.ready[0]);
    assert multiset(s.ready)[s.ready[0]] <= Population(s)[s.ready[0]];
    if s.ready[0] == s.ready[k] { TwiceCounted(s.ready, 0, k); }
  }

  /** The switch at the end of a quantum brings the others forward by one place. */
  lemma SwitchExact(s: Sched, q: int, k: nat)
    requires WellFormed(s) && s.remaining == 1 && 0 < k < |s.ready| && s.tcb[s.ready[0]].quantum == q
    ensures var r := Schedule(Sweep(s));
      r.current == s.ready[0] && k - 1 < |r.ready| && r.ready[k - 1] == s.ready[k]
      && Measure(r, q, k - 1) == Measure(s, q, k) - 1
  {
    hide Select;
    var p := Preempt(Sweep(s).(remaining := 0));
    assert p.ready[k] == s.ready[k] && p.ready[0] == s.ready[0];
    assert q * k == q * (k - 1) + q;
  }

  lemma SpendExact(s: Sched, q: int, k: nat)
    requires WellFormed(s) && s.remaining > 1 && k < |s.ready|
    ensures var r := Schedule(Sweep(s));
      r.current == s.current && k < |r.ready| && r.ready[k] == s.ready[k] && Measure(r, q, k) == Measure(s, q, k) - 1
  {
    hide Select;
  }

  /** A tick that does not yet bring the task its turn brings it exactly one tick closer. */
  lemma TickExact(s: Sched, q: int, t: Slot, k: nat) returns (k': nat)
    requires Inv(s, q) && Enabled(s, Tick) && k < |s.ready| && s.ready[k] == t && Measure(s, q, k) > 1
    ensures var r := Next(s, Tick);
      Inv(r, q) && r.current != t && k' < |r.ready| && r.ready[k'] == t && Measure(r, q, k') == Measure(s, q, k) - 1
  {
    hide Sweep, Schedule, OnePlaceEach, StatesOk, CallsOk, KeyboardOk, SemsOk;
    StepKeepsInv(s, Tick, q);
    Apart(s);
    assert s.ready[0] in s.ready && t in s.ready;
    if s.remaining == 1 {
      k' := k - 1;
      ReadyOnce(s, k);
      SwitchExact(s, q, k);
    } else {
      k' := k;
      SpendExact(s, q, k);
    }
  }

  /** Bounded waiting is tight: with nothing but clock ticks, the task does not run any earlier. */
  lemma {:induction false} BoundAttained(s: Sched, es: seq<Event>, q: int, t: Slot, k: nat)
    requires Inv(s, q) && Runs(s, es) && k < |s.ready| && s.ready[k] == t
    requires (forall i :: 0 <= i < |es| ==> es[i] == Tick) && |es| < Measure(s, q, k)
    ensures After(s, es).current != t
    decreases |es|
  {
    hide Next, StatesOk, KeyboardOk, SemsOk, CallsOk;
    Apart(s);
    assert t in s.ready;
    if es != [] {
      var k' := TickExact(s, q, t, k);
      BoundAttained(Next(s, es[0]), es[1..], q, t, k');
    }
  }

  lemma {:induction false} DistinctBelow(m: multiset<Slot>, n: nat)
    requires forall t :: t in m ==> t < n && m[t] == 1
    ensures |m| <= n
  {
    if n == 0 {
      assert forall t :: t !in m;
      assert m == multiset{};
    } else {
      var m' := m[n - 1 := 0];
      DistinctBelow(m', n - 1);
    }
  }

  /** With n task slots and one of them running, at most n - 1 are ready. */
  lemma ReadyFits(s: Sched)
    requires OnePlaceEach(s)
    ensures |s.ready| <= |s.tcb| - 1
  {
    var m := multiset{s.current} + multiset(s.ready);
    forall t | t in m ensures t < |s.tcb| && m[t] == 1 {
      OnceAtMost(s, t);
    }
    DistinctBelow(m, |s.tcb|);
  }

  lemma WholeQuanta(q: int, k: nat, n: nat)
    requires k <= n && q >= 0
    ensures q * k <= q * n
  {
  }

  /** Whatever its position, a ready task gets the CPU within q*(n - 1) ticks. */
  lemma ReadyMeasure(s: Sched, q: int, k: nat)
    requires OnePlaceEach(s) && QuantaOk(s, q) && k < |s.ready|
    ensures Measure(s, q, k) <= q * (|s.tcb| - 1)
  {
    ReadyFits(s);
    WholeQuanta(q, k + 1, |s.tcb| - 1);
    assert q * (k + 1) == q * k + q;
  }

  // ---------------------------------------------------------------- readers blocked in getKey

  ghost predicate AwaitsKey(s: Sched, t: Slot, m: int)
    requires WellFormed(s)
  {
    t in s.keyq && s.tcb[t].keyTimeout == m && m > 0
  }

  /** Inside getKey, nothing but its own release and resumption changes a reader's call. */
  ghost predicate SameCall(s: Sched, r: Sched, t: Slot)
    requires WellFormed(s) && WellFormed(r) && t < |s.tcb| == |r.tcb|
  {
    r.tcb[t].call == s.tcb[t].call && r.tcb[t].keyTimeout == s.tcb[t].keyTimeout
  }

  ghost predicate Released(s: Sched, t: Slot, wake: Wake)
    requires WellFormed(s) && t < |s.tcb|
  {
    && (t in s.ready || t == s.current) && t !in s.keyq
    && s.tcb[t].call.Call? && s.tcb[t].call.wake == wake
  }

  lemma ScheduleFrame(s: Sched, t: Slot)
    requires WellFormed(s) && t < |s.tcb|
    ensures SameCall(s, Schedule(s), t) && Schedule(s).keyq == s.keyq
    ensures t in s.ready || t == s.current ==> t in Schedule(s).ready || t == Schedule(s).current
  {
    var p := Preempt(s.(remaining := s.remaining - 1));
    assert s.current == p.ready[|s.ready|];
    if t in s.ready || t == s.current {
      assert p.ready == s.ready + [s.current] && t in p.ready;
      var i :| 0 <= i < |p.ready| && p.ready[i] == t;
      assert i > 0 ==> p.ready[1..][i - 1] == t;
    }
  }

  lemma TickAwaits(s: Sched, q: int, t: Slot, m: int)
    requires Inv(s, q) && AwaitsKey(s, t, m)
    ensures var r := Schedule(Sweep(s));
      if m > 1 then AwaitsKey(r, t, m - 1) && r.tcb[t].call == s.tcb[t].call else Released(r, t, BySweep)
  {
    var w := Sweep(s);
    assert w.tcb[t] == Age(s.tcb[t]) && s.tcb[t].call.Call?;
    assert t in (if m > 1 then w.keyq else w.ready);
    assert t in w.keyq <==> m > 1;
    ScheduleFrame(w, t);
  }

  lemma KeyAwaits(s: Sched, q: int, t: Slot, m: int, c: int)
    requires Inv(s, q) && AwaitsKey(s, t, m)
    ensures var r := KeyStep(s, c);
      || (AwaitsKey(r, t, m) && r.tcb[t].call == s.tcb[t].call)
      || (Released(r, t, ByKey) && r.tcb[t].keyTimeout == m)
  {
    var r := KeyStep(s, c);
    if s.kb.makeFlag {
      if s.keyq[0] == t {
        FirstReaderOnce(s);
        assert r.ready[|s.ready|] == t;
      } else {
        assert t in s.keyq[1..];
      }
    }
  }

  lemma OtherAwaits(s: Sched, e: Event, q: int, t: Slot, m: int)
    requires Inv(s, q) && Enabled(s, e) && AwaitsKey(s, t, m) && !e.Tick? && !e.Key?
    ensures AwaitsKey(Next(s, e), t, m) && Next(s, e).tcb[t].call == s.tcb[t].call
  {
    hide Next, QuantaOk, KeyboardOk, SemsOk, StatesOk;
    Apart(s);
    OtherCallsFrame(s, e, t);
    KeyqGrows(s, e);
  }

  /** Only ticks and key presses take readers out of the key queue. */
  lemma KeyqGrows(s: Sched, e: Event)
    requires WellFormed(s) && Enabled(s, e) && !e.Tick? && !e.Key?
    ensures s.keyq <= Next(s, e).keyq
  {
    hide Sweep, Schedule, KeyStep, KeepsShape;
  }

  lemma OtherCallsFrame(s: Sched, e: Event, t: Slot)
    requires WellFormed(s) && Enabled(s, e) && t < |s.tcb| && !e.Tick?
    requires t != s.current && t !in s.free && (e.Key? ==> t !in s.keyq)
    ensures SameCall(s, Next(s, e), t)
  {
    hide Sweep, Schedule, KeepsShape;
  }

  /** A blocked reader either keeps waiting, one tick closer to its timeout after each tick, or it
      is released, by the sweep of its last tick or by a key press. */
  lemma StepAwaits(s: Sched, e: Event, q: int, t: Slot, m: int)
    requires Inv(s, q) && Enabled(s, e) && AwaitsKey(s, t, m)
    ensures var r := Next(s, e);
      || (AwaitsKey(r, t, if e.Tick? then m - 1 else m) && r.tcb[t].call == s.tcb[t].call)
      || (e.Tick? && m == 1 && Released(r, t, BySweep))
      || (e.Key? && Released(r, t, ByKey) && r.tcb[t].keyTimeout == m)
  {
    match e
    case Tick => TickAwaits(s, q, t, m);
    case Key(c) => KeyAwaits(s, q, t, m, c);
    case _ => OtherAwaits(s, e, q, t, m);
  }

  /** A reader that blocks with a positive timeout starts out awaiting a key for that long. */
  lemma GetKeyAwaits(s: Sched, timeout: int, q: int)
    requires Inv(s, q) && Enabled(s, GetKey(timeout)) && MustBlock(s) && timeout > 0
    ensures AwaitsKey(GetKeyStep(s, timeout), s.current, timeout)
  {
  }

  /** `t` has left the key queue after the first `j` events, at most `d` of them clock ticks. */
  ghost predicate LeavesWithin(s: Sched, es: seq<Event>, t: Slot, j: nat, d: int)
    requires WellFormed(s)
  {
    j <= |es| && Runs(s, es[..j]) && t !in After(s, es[..j]).keyq && Ticks(es[..j]) <= d
  }

  lemma LaterLeaves(s: Sched, es: seq<Event>, t: Slot, j: nat, d: int)
    requires WellFormed(s) && es != [] && Enabled(s, es[0])
    requires LeavesWithin(Next(s, es[0]), es[1..], t, j, d)
    ensures LeavesWithin(s, es, t, j + 1, d + if es[0].Tick? then 1 else 0)
  {
    hide Next;
    assert es[..j + 1][1..] == es[1..][..j];
  }

  /** A blocked reader with m ticks to go leaves the key queue within m ticks. */
  lemma {:induction false} LeavesKeyQueue(s: Sched, es: seq<Event>, q: int, t: Slot, m: int)
    requires Inv(s, q) && Runs(s, es) && AwaitsKey(s, t, m) && Ticks(es) >= m
    ensures exists j :: LeavesWithin(s, es, t, j, m)
    decreases |es|
  {
    hide Next, OnePlaceEach, StatesOk, CallsOk, KeyboardOk, SemsOk;
    var r := Next(s, es[0]);
    StepAwaits(s, es[0], q, t, m);
    StepKeepsInv(s, es[0], q);
    var m' := if es[0].Tick? then m - 1 else m;
    if AwaitsKey(r, t, m') {
      LeavesKeyQueue(r, es[1..], q, t, m');
    } else {
      assert LeavesWithin(r, es[1..], t, 0, m');
    }
    var j :| LeavesWithin(r, es[1..], t, j, m');
    LaterLeaves(s, es, t, j, m');
  }

  lemma ReadyRunsWithin(s: Sched, es: seq<Event>, q: int, t: Slot, d: int) returns (j: nat)
    requires Inv(s, q) && Runs(s, es) && t in s.ready
    requires q * (|s.tcb| - 1) <= d <= Ticks(es)
    ensures RunsWithin(s, es, t, j, d)
  {
    hide Next, StatesOk, KeyboardOk, SemsOk;
    var k :| 0 <= k < |s.ready| && s.ready[k] == t;
    ReadyMeasure(s, q, k);
    j := WaitsAtMost(s, es, q, t, k, d);
  }

  /** A blocked reader with m ticks to go has the CPU again within m + d ticks, if d ticks are
      enough for any ready task. */
  lemma {:induction false} ReaderRunsWithin(s: Sched, es: seq<Event>, q: int, t: Slot, m: int, d: int) returns (j: nat)
    requires Inv(s, q) && Runs(s, es) && AwaitsKey(s, t, m)
    requires Ticks(es) >= m + d && d == q * (|s.tcb| - 1) >= 0
    ensures RunsWithin(s, es, t, j, m + d)
    decreases |es|
  {
    hide Next, OnePlaceEach, StatesOk, CallsOk, KeyboardOk, SemsOk;
    var r, tick := Next(s, es[0]), if es[0].Tick? then 1 else 0;
    StepAwaits(s, es[0], q, t, m);
    StepKeepsInv(s, es[0], q);
    if r.current == t {
      assert RunsWithin(r, es[1..], t, 0, m + d - tick);
      j := 0;
    } else if AwaitsKey(r, t, m - tick) {
      j := ReaderRunsWithin(r, es[1..], q, t, m - tick, d);
    } else {
      j := ReadyRunsWithin(r, es[1..], q, t, m + d - tick);
    }
    LaterWithin(s, es, t, j, m + d - tick);
    j := j + 1;
  }

  /** The worst case of a timed getKey: its own timeout plus one round of the ready queue. */
  function ReaderMeasure(s: Sched, q: int, m: int): int {
    m + q * (|s.tcb| - 1)
  }

  lemma TimedReaderRuns(s: Sched, es: seq<Event>, q: int, t: Slot, m: int)
    requires Inv(s, q) && Runs(s, es) && AwaitsKey(s, t, m)
    requires Ticks(es) >= ReaderMeasure(s, q, m)
    ensures exists j :: RunsWithin(s, es, t, j, ReaderMeasure(s, q, m))
  {
    hide Next, OnePlaceEach, StatesOk, CallsOk, KeyboardOk, SemsOk;
    WholeQuanta(q, 0, |s.tcb| - 1);
    var j := ReaderRunsWithin(s, es, q, t, m, q * (|s.tcb| - 1));
  }

  // ---------------------------------------------------------------- what getKey returns

  /** `es` ends with the first state in which `t` owns the CPU. */
  ghost predicate FirstRun(s: Sched, es: seq<Event>, t: Slot)
    requires WellFormed(s) && Runs(s, es)
    decreases |es|
  {
    if es == [] then s.current == t
    else s.current != t && FirstRun(Next(s, es[0]), es[1..], t)
  }

  /** The event that takes `t` out of the key queue in this run is a clock tick. */
  ghost predicate SweptOut(s: Sched, es: seq<Event>, t: Slot)
    requires WellFormed(s) && Runs(s, es)
    decreases |es|
  {
    es != [] &&
    if t in Next(s, es[0]).keyq then SweptOut(Next(s, es[0]), es[1..], t) else es[0].Tick?
  }

  /** The event that takes `t` out of the key queue in this run is a keyboard interrupt. */
  ghost predicate KeyedOut(s: Sched, es: seq<Event>, t: Slot)
    requires WellFormed(s) && Runs(s, es)
    decreases |es|
  {
    es != [] &&
    if t in Next(s, es[0]).keyq then KeyedOut(Next(s, es[0]), es[1..], t) else es[0].Key?
  }

  lemma StepKeepsCall(s: Sched, e: Event, q: int, t: Slot)
    requires Inv(s, q) && Enabled(s, e) && t in s.ready
    ensures SameCall(s, Next(s, e), t) && (t in Next(s, e).ready || t == Next(s, e).current)
  {
    Apart(s);
    var k :| 0 <= k < |s.ready| && s.ready[k] == t;
    StepAdvances(s, e, q, t, k);
    if e.Tick? {
      ScheduleFrame(Sweep(s), t);
    } else {
      OtherCallsFrame(s, e, t);
    }
  }

  lemma {:induction false} ReleasedStays(s: Sched, es: seq<Event>, q: int, t: Slot)
    requires Inv(s, q) && Runs(s, es) && FirstRun(s, es, t) && (t in s.ready || t == s.current)
    ensures t < |s.tcb| && SameCall(s, After(s, es), t) && After(s, es).current == t
    decreases |es|
  {
    hide Next, OnePlaceEach, StatesOk, CallsOk, KeyboardOk, SemsOk;
    if es != [] {
      StepKeepsCall(s, es[0], q, t);
      StepKeepsInv(s, es[0], q);
      ReleasedStays(Next(s, es[0]), es[1..], q, t);
    }
  }

  /** When a call resumes, it reports a timeout exactly if it asked for no time at all or was
      released by the sweep. */
  lemma TimedOutIff(s: Sched, q: int)
    requires Inv(s, q) && Enabled(s, Resume)
    ensures ResumeResult(s) == TimedOut
       <==> s.tcb[s.current].call.asked <= 0 || s.tcb[s.current].call.wake == BySweep
  {
  }

  /** A blocked call with time to go reports a timeout exactly when the sweep, and not a key press,
      released it. */
  lemma {:induction false} TimeoutIffSwept(s: Sched, es: seq<Event>, q: int, t: Slot, m: int)
    requires Inv(s, q) && Runs(s, es) && AwaitsKey(s, t, m) && FirstRun(s, es, t)
    ensures ResumeResult(After(s, es)) == TimedOut <==> SweptOut(s, es, t)
    ensures ResumeResult(After(s, es)) != TimedOut <==> KeyedOut(s, es, t)
    decreases |es|
  {
    hide Next, OnePlaceEach, QuantaOk, StatesOk, KeyboardOk, SemsOk;
    Apart(s);
    var r := Next(s, es[0]);
    StepAwaits(s, es[0], q, t, m);
    StepKeepsInv(s, es[0], q);
    if t in r.keyq {
      TimeoutIffSwept(r, es[1..], q, t, if es[0].Tick? then m - 1 else m);
    } else {
      ReleasedStays(r, es[1..], q, t);
      assert CallOk(r.tcb[t]);
    }
  }
}
