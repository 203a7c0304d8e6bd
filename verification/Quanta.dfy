/** How long a task keeps the CPU: exact laws about the quantum. */
module Quanta {
  import opened Scheduler
  import opened Partition
  import opened Reachable
  import opened Waiting
  import opened Boot

  /** The running task gives the CPU up by itself: it yields, exits or blocks. */
  predicate StepsAside(s: Sched, e: Event)
    requires WellFormed(s) && Enabled(s, e)
  {
    match e
    case Yield => true
    case Exit => true
    case Block => s.tcb[s.current].pendingUnblocks == 0
    case GetKey(_) => s.kb.pending > 0 || s.kb.buffer == [] || s.keyq != []
    case SemWait(i) => s.sems[i].count <= 0
    case _ => false
  }

  /** The quantum is used up by this step. */
  predicate UsedUp(s: Sched, e: Event) { e.Tick? && s.remaining == 1 }

  /** What is left of the quantum after a step: a full quantum if the task stepped aside or used its
      quantum up, and otherwise what was left before, less one for a tick. */
  lemma StepQuantum(s: Sched, e: Event, q: int)
    requires Inv(s, q) && Enabled(s, e)
    ensures Next(s, e).remaining
         == if StepsAside(s, e) || UsedUp(s, e) then q else if e.Tick? then s.remaining - 1 else s.remaining
  {
    hide Sweep, Schedule, KeepsShape, OnePlaceEach, CallsOk, KeyboardOk, SemsOk;
    Apart(s);
    if s.ready != [] { assert s.ready[0] in s.ready; }
    if e.Tick? { TickQuantum(s, q); }
  }

  lemma TickQuantum(s: Sched, q: int)
    requires Inv(s, q)
    ensures Schedule(Sweep(s)).remaining == if s.remaining == 1 then q else s.remaining - 1
  {
    hide Select, KeepsShape, OnePlaceEach, CallsOk, KeyboardOk, SemsOk;
    SweptQuanta(s, q);
  }

  lemma SweptQuanta(s: Sched, q: int)
    requires Inv(s, q)
    ensures forall t :: t in Sweep(s).ready || t == s.current ==> t < |s.tcb| && Sweep(s).tcb[t].quantum == q
  {
    hide Select, KeyboardOk, SemsOk;
    Apart(s);
  }

  /** Who has the CPU after a step: the task that had it, unless it stepped aside, or used its quantum up
      while others are ready. */
  lemma StepKeepsCpu(s: Sched, e: Event, q: int)
    requires Inv(s, q) && Enabled(s, e) && !StepsAside(s, e) && !UsedUp(s, e)
    ensures Next(s, e).current == s.current
  {
    hide Select, KeepsShape, OnePlaceEach, CallsOk, KeyboardOk, SemsOk;
  }

  /** Nobody steps aside during the run. */
  ghost predicate AllStay(s: Sched, es: seq<Event>)
    requires WellFormed(s) && Runs(s, es)
    decreases |es|
  {
    es == [] || (!StepsAside(s, es[0]) && AllStay(Next(s, es[0]), es[1..]))
  }

  /** Whatever happens, a task keeps the CPU for as many ticks less one as its quantum has left, unless
      it steps aside, and every tick takes one off. */
  lemma {:induction false} KeepsCpu(s: Sched, es: seq<Event>, q: int)
    requires Inv(s, q) && Runs(s, es) && AllStay(s, es) && Ticks(es) < s.remaining
    ensures After(s, es).current == s.current && After(s, es).remaining == s.remaining - Ticks(es)
    decreases |es|
  {
    hide Next, StepsAside, OnePlaceEach, StatesOk, CallsOk, KeyboardOk, SemsOk;
    if es != [] {
      StepQuantum(s, es[0], q);
      StepKeepsCpu(s, es[0], q);
      StepKeepsInv(s, es[0], q);
      KeepsCpu(Next(s, es[0]), es[1..], q);
    }
  }

  /** So a task that has just been given the CPU, or a fresh quantum, is not switched away from for
      q - 1 ticks unless it steps aside. */
  lemma FullQuantum(s: Sched, e: Event, es: seq<Event>, q: int)
    requires Inv(s, q) && Enabled(s, e) && Runs(Next(s, e), es)
    requires Next(s, e).current != s.current || StepsAside(s, e) || UsedUp(s, e)
    requires AllStay(Next(s, e), es) && Ticks(es) < q
    ensures After(Next(s, e), es).current == Next(s, e).current
    ensures After(Next(s, e), es).remaining == q - Ticks(es)
  {
    hide Next, StepsAside, OnePlaceEach, StatesOk, CallsOk, KeyboardOk, SemsOk;
    if !StepsAside(s, e) && !UsedUp(s, e) { StepKeepsCpu(s, e, q); }
    StepQuantum(s, e, q);
    StepKeepsInv(s, e, q);
    KeepsCpu(Next(s, e), es, q);
  }

  /** The tick that uses the quantum up: the first of the ready tasks, the readers that time out now
      counted last, gets the CPU and the task that had it goes to the end of the line; if nobody is
      ready, it goes on. */
  lemma QuantumEnds(s: Sched, q: int)
    requires Inv(s, q) && Enabled(s, Tick) && s.remaining == 1
    ensures var r, line := Next(s, Tick), s.ready + Select(s.tcb, s.keyq, true);
      if line == [] then r.current == s.current && r.ready == []
      else r.current == line[0] && r.ready == line[1..] + [s.current]
  {
    hide KeepsShape, OnePlaceEach, CallsOk, KeyboardOk, SemsOk;
  }

  lemma AloneTick(s: Sched, q: int)
    requires Inv(s, q) && Enabled(s, Tick) && s.ready == [] && s.keyq == []
    ensures var r := Next(s, Tick);
      r.current == s.current && r.ready == [] && r.keyq == []
      && r.remaining == if s.remaining == 1 then q else s.remaining - 1
  {
    hide KeepsShape, OnePlaceEach, CallsOk, KeyboardOk, SemsOk;
    StepQuantum(s, Tick, q);
  }

  /** A task alone on the machine: ticks take it round its quantum and never away from the CPU. */
  lemma {:induction false} Alone(s: Sched, es: seq<Event>, q: int)
    requires Inv(s, q) && Runs(s, es) && s.ready == [] && s.keyq == []
    requires forall i :: 0 <= i < |es| ==> es[i] == Tick
    ensures var r := After(s, es);
      && r.current == s.current && r.ready == [] && r.keyq == []
      && r.remaining == q - (q - s.remaining + |es|) % q
    decreases |es|
  {
    hide Next, OnePlaceEach, StatesOk, CallsOk, KeyboardOk, SemsOk;
    if es == [] {
      Small(q, q - s.remaining);
    } else {
      var r := Next(s, es[0]);
      AloneTick(s, q);
      StepKeepsInv(s, es[0], q);
      Alone(r, es[1..], q);
      if s.remaining == 1 { WholeTurn(q, |es| - 1); }
    }
  }

  lemma Small(q: int, x: int)
    requires 0 <= x < q
    ensures x % q == x
  {
  }

  lemma WholeTurn(q: int, m: nat)
    requires q > 0
    ensures (q - 1 + (m + 1)) % q == m % q
  {
    var x, k := q + m, m / q + 1;
    assert x == q * k + m % q by { assert q * k == q * (m / q) + q; }
    Remainder(x, q, k, m % q);
  }

  lemma Remainder(x: int, q: int, k: int, b: int)
    requires 0 <= b < q && x == q * k + b
    ensures x % q == b
  {
    var d := k - x / q;
    assert q * d == q * k - q * (x / q) == x % q - b;
    Multiples(q, d);
  }

  lemma Multiples(q: int, d: int)
    requires q > 0
    ensures (d >= 1 ==> q * d >= q) && (d <= -1 ==> q * d <= -q)
  {
  }

  /** The kernel boots with the first process on the CPU and a full quantum. */
  lemma BootQuantum(n: nat, q: int, capacity: nat, sems: nat, es: seq<Event>)
    requires n >= 2 && q >= 1 && Runs(Booted(n, q, capacity, sems), es)
    requires forall i :: 0 <= i < |es| ==> es[i] == Tick
    ensures var r := After(Booted(n, q, capacity, sems), es);
      r.current == 1 && r.ready == [] && r.remaining == q - |es| % q
  {
    hide Next, Runs, After, Inv;
    BootedInv(n, q, capacity, sems);
    Alone(Booted(n, q, capacity, sems), es, q);
  }
}
