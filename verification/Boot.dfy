/** The state the kernel boots into, and what holds in every run from there. */
module Boot {
  import opened Semaphores
  import opened Scheduler
  import opened Partition
  import opened Reachable
  import opened Waiting
  import opened Ranges

  const NR_TASKS := 10
  const DEFAULT_QUANTUM := 10
  const BUFFER_SIZE := 3
  const NUM_SEMS := 10

  /** After init_sched, init_idle and init_task1: slot 0 is idle, slot 1 runs, the rest are free. */
  function Booted(n: nat, q: int, capacity: nat, sems: nat): Sched
    requires n >= 2
  {
    Sched(seq(n, i => Tcb(Run, q, 0, 0, NoCall)), 0, 1, q,
          [], [], [], From(2, n), seq(sems, i => Create(0)), From(0, sems),
          Keyboard(capacity, [], true, 0, [], [], []))
  }

  lemma {:induction false} CountFrom(q: seq<Slot>, a: nat, t: Slot)
    requires forall i :: 0 <= i < |q| ==> q[i] == a + i
    ensures multiset(q)[t] == if a <= t < a + |q| then 1 else 0
  {
    if q != [] {
      Uncons(q);
      CountFrom(q[1..], a + 1, t);
    }
  }

  lemma {:induction false} NoneQueued(sems: seq<Sem>)
    requires forall i :: 0 <= i < |sems| ==> sems[i].queue == []
    ensures SemQueued(sems) == multiset{}
  {
    if sems != [] { NoneQueued(sems[1..]); }
  }

  lemma BootedInv(n: nat, q: int, capacity: nat, sems: nat)
    requires n >= 2 && q >= 1
    ensures Inv(Booted(n, q, capacity, sems), q)
  {
    hide OnePlaceEach, Fair;
    BootedPlaces(n, q, capacity, sems);
    CreateFair(0);
  }

  lemma BootedPlaces(n: nat, q: int, capacity: nat, sems: nat)
    requires n >= 2
    ensures OnePlaceEach(Booted(n, q, capacity, sems))
  {
    hide SemQueued;
    var s := Booted(n, q, capacity, sems);
    NoneQueued(s.sems);
    forall t: Slot ensures Population(s)[t] == if 1 <= t < n then 1 else 0 {
      CountFrom(s.free, 2, t);
    }
    CountFrom(s.free, 2, 0);
  }

  /** In every run of the kernel every task has its place, the state fields agree with the queues,
      no character is lost, and every semaphore keeps its books and its order. */
  lemma EveryRun(n: nat, q: int, capacity: nat, sems: nat, es: seq<Event>)
    requires n >= 2 && q >= 1 && Runs(Booted(n, q, capacity, sems), es)
    ensures Inv(After(Booted(n, q, capacity, sems), es), q)
  {
    hide Next, Inv;
    BootedInv(n, q, capacity, sems);
    RunKeepsInv(Booted(n, q, capacity, sems), es, q);
  }

  /** With the kernel's own constants, a ready task gets the CPU within 90 ticks. */
  lemma ReadyWithin90(before: seq<Event>, es: seq<Event>, t: Slot)
    requires Runs(Booted(NR_TASKS, DEFAULT_QUANTUM, BUFFER_SIZE, NUM_SEMS), before)
    requires var s := After(Booted(NR_TASKS, DEFAULT_QUANTUM, BUFFER_SIZE, NUM_SEMS), before);
      t in s.ready && Runs(s, es) && Ticks(es) >= 90
    ensures var s := After(Booted(NR_TASKS, DEFAULT_QUANTUM, BUFFER_SIZE, NUM_SEMS), before);
      exists j :: RunsWithin(s, es, t, j, 90)
  {
    hide Next, Inv;
    EveryRun(NR_TASKS, DEFAULT_QUANTUM, BUFFER_SIZE, NUM_SEMS, before);
    var j := ReadyRunsWithin(After(Booted(NR_TASKS, DEFAULT_QUANTUM, BUFFER_SIZE, NUM_SEMS), before), es,
                             DEFAULT_QUANTUM, t, 90);
  }

  /** A getKey that blocks with a positive timeout has the CPU again within timeout + 90 ticks. */
  lemma GetKeyWithinTimeoutAnd90(before: seq<Event>, timeout: int, es: seq<Event>)
    requires Runs(Booted(NR_TASKS, DEFAULT_QUANTUM, BUFFER_SIZE, NUM_SEMS), before)
    requires var s := After(Booted(NR_TASKS, DEFAULT_QUANTUM, BUFFER_SIZE, NUM_SEMS), before);
      && Enabled(s, GetKey(timeout)) && MustBlock(s) && timeout > 0
      && Runs(GetKeyStep(s, timeout), es) && Ticks(es) >= timeout + 90
    ensures var s := After(Booted(NR_TASKS, DEFAULT_QUANTUM, BUFFER_SIZE, NUM_SEMS), before);
      exists j :: RunsWithin(GetKeyStep(s, timeout), es, s.current, j, ReaderMeasure(s, DEFAULT_QUANTUM, timeout))
    ensures var s := After(Booted(NR_TASKS, DEFAULT_QUANTUM, BUFFER_SIZE, NUM_SEMS), before);
      ReaderMeasure(s, DEFAULT_QUANTUM, timeout) == timeout + 90
  {
    hide Inv, Dispatch, GetKeyStep;
    EveryRun(NR_TASKS, DEFAULT_QUANTUM, BUFFER_SIZE, NUM_SEMS, before);
    var s := After(Booted(NR_TASKS, DEFAULT_QUANTUM, BUFFER_SIZE, NUM_SEMS), before);
    StepKeepsInv(s, GetKey(timeout), DEFAULT_QUANTUM);
    GetKeyAwaits(s, timeout, DEFAULT_QUANTUM);
    var r := GetKeyStep(s, timeout);
    assert ReaderMeasure(r, DEFAULT_QUANTUM, timeout) == ReaderMeasure(s, DEFAULT_QUANTUM, timeout) == timeout + 90;
    TimedReaderRuns(r, es, DEFAULT_QUANTUM, s.current, timeout);
  }

  /** In every run, and for every semaphore, whatever its initial value v: the count is v plus the
      signals minus the waits; the wait calls let through are the first min(waits, max(v, 0) + signals)
      in call order, and the others queue in that order; as many tasks queue as the count is below 0
      exactly if v >= 0; and the next signal finds a task to wake, or needs none, exactly if v >= 0 or
      more waits than signals were made. */
  lemma SemaphoresEveryRun(n: nat, q: int, capacity: nat, sems: nat, es: seq<Event>, i: nat)
    requires n >= 2 && q >= 1 && i < sems && Runs(Booted(n, q, capacity, sems), es)
    ensures |After(Booted(n, q, capacity, sems), es).sems| == sems
    ensures var s := After(Booted(n, q, capacity, sems), es).sems[i];
      var v := if s.initial < 0 then 0 else s.initial;
      var granted := Min(|s.calls|, v + s.signals);
      && s.count == s.initial + s.signals - |s.calls|
      && 0 <= granted <= |s.calls| && s.released == s.calls[..granted] && s.queue == s.calls[granted..]
      && (|s.queue| == (if s.count < 0 then -s.count else 0) <==> s.initial >= 0)
      && (SignalSafe(s) <==> s.initial >= 0 || |s.calls| > s.signals)
  {
    hide Next, OnePlaceEach, StatesOk, QuantaOk, CallsOk, KeyboardOk;
    EveryRun(n, q, capacity, sems, es);
    var s := After(Booted(n, q, capacity, sems), es);
    SignalSafeIff(s.sems[i]);
    QueueLengthIff(s.sems[i]);
  }

  /** In every run, the characters accepted are those taken followed by those still buffered, and
      every taken character other than the error value was handed to a process, in order. */
  lemma KeyboardEveryRun(n: nat, q: int, capacity: nat, sems: nat, es: seq<Event>)
    requires n >= 2 && q >= 1 && Runs(Booted(n, q, capacity, sems), es)
    ensures var k := After(Booted(n, q, capacity, sems), es).kb;
      k.accepted == k.taken + k.buffer && |k.buffer| <= capacity && k.delivered == NonError(k.taken)
  {
    hide Next, OnePlaceEach, StatesOk, QuantaOk, CallsOk, SemsOk;
    EveryRun(n, q, capacity, sems, es);
  }

  /** With the kernel's own constants, at most three characters are buffered, and at most nine tasks are
      ready. */
  lemma ZeosLimits(es: seq<Event>)
    requires Runs(Booted(NR_TASKS, DEFAULT_QUANTUM, BUFFER_SIZE, NUM_SEMS), es)
    ensures var s := After(Booted(NR_TASKS, DEFAULT_QUANTUM, BUFFER_SIZE, NUM_SEMS), es);
      |s.kb.buffer| <= 3 == s.kb.capacity && |s.tcb| == 10 && |s.ready| <= 9 && 1 <= s.remaining <= 10
  {
    hide Next, Runs, After;
    EveryRun(NR_TASKS, DEFAULT_QUANTUM, BUFFER_SIZE, NUM_SEMS, es);
    ReadyFits(After(Booted(NR_TASKS, DEFAULT_QUANTUM, BUFFER_SIZE, NUM_SEMS), es));
  }
}
