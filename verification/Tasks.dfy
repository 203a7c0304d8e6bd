/** What a task's control block says: its state field, its pending unblocks, and how it is born. */
module Tasks {
  import opened Semaphores
  import opened Scheduler
  import opened Partition
  import opened Reachable
  import opened Boot

  // ---------------------------------------------------------------- the state field

  /** The running task is marked Run, blocked tasks and blocked readers Blocked, ready tasks not Blocked.
      Tasks that wait at a semaphore keep the mark Run, as the semaphore calls leave the field alone. */
  ghost predicate Marked(s: Sched) {
    && WellFormed(s)
    && s.tcb[s.current].state == Run
    && (forall t :: t in s.blocked || t in s.keyq ==> s.tcb[t].state == Blocked)
    && (forall t :: t in s.ready ==> s.tcb[t].state != Blocked)
    && (forall i, t :: 0 <= i < |s.sems| && t in s.sems[i].queue ==> s.tcb[t].state == Run)
  }

  /** Neither running, nor idle, nor in a queue other than a semaphore's. */
  ghost predicate Elsewhere(s: Sched, t: Slot) {
    && t < |s.tcb| && t != s.current && t != s.idle
    && t !in s.ready && t !in s.blocked && t !in s.keyq && t !in s.free
  }

  /** A task at a semaphore is nowhere else. */
  lemma QueuedApart(s: Sched, i: nat, t: Slot)
    requires OnePlaceEach(s) && i < |s.sems| && t in s.sems[i].queue
    ensures Elsewhere(s, t)
  {
    SemUpdate(s.sems, i, s.sems[i]);
    var x :| 0 <= x < |s.sems[i].queue| && s.sems[i].queue[x] == t;
    assert multiset(s.sems[i].queue)[t] <= SemQueued(s.sems)[t];
    assert t in SemQueued(s.sems) && t in Parked(s);
    QueuePartition(s, t);
  }

  lemma AllQueuedApart(s: Sched)
    requires OnePlaceEach(s)
    ensures forall i, t {:trigger t in s.sems[i].queue} ::
              0 <= i < |s.sems| && t in s.sems[i].queue ==> Elsewhere(s, t)
  {
    hide Elsewhere;
    forall i, t | 0 <= i < |s.sems| && t in s.sems[i].queue ensures Elsewhere(s, t) {
      QueuedApart(s, i, t);
    }
  }

  /** Giving the CPU to the next task keeps the marks, once the task before has its new one. */
  lemma DispatchMarks(s: Sched)
    requires WellFormed(s) && s.idle !in s.blocked && s.idle !in s.keyq
    requires forall t :: t in s.blocked || t in s.keyq ==> s.tcb[t].state == Blocked && t !in s.ready
    requires forall t :: t in s.ready ==> s.tcb[t].state != Blocked
    requires forall i, t :: 0 <= i < |s.sems| && t in s.sems[i].queue ==> s.tcb[t].state == Run
    ensures Marked(Dispatch(s))
  {
  }

  lemma SweepMarks(s: Sched)
    requires OnePlaceEach(s) && Marked(s)
    ensures Marked(Sweep(s))
  {
    hide Select, OnePlaceEach;
    Apart(s);
    AllQueuedApart(s);
  }

  lemma ScheduleMarks(s: Sched)
    requires OnePlaceEach(s) && Marked(s)
    ensures Marked(Schedule(s))
  {
    hide OnePlaceEach, Dispatch, KeepsShape;
    Apart(s);
    AllQueuedApart(s);
    if s.remaining == 1 && s.ready != [] { DispatchMarks(Preempt(s.(remaining := 0))); }
  }

  lemma KeyMarks(s: Sched, c: int)
    requires OnePlaceEach(s) && Marked(s)
    ensures Marked(KeyStep(s, c))
  {
    hide OnePlaceEach;
    Apart(s);
    AllQueuedApart(s);
    if s.keyq != [] {
      FirstReaderOnce(s);
      assert s.keyq[0] in s.keyq;
    }
  }

  lemma LeavingMarks(s: Sched, e: Event)
    requires OnePlaceEach(s) && Marked(s) && Enabled(s, e) && (e.Yield? || e.Block? || e.Exit?)
    ensures Marked(Next(s, e))
  {
    hide OnePlaceEach, Dispatch, KeepsShape;
    Apart(s);
    AllQueuedApart(s);
    match e
    case Yield => DispatchMarks(Preempt(s));
    case Exit => DispatchMarks(s.(free := s.free + [s.current]));
    case Block =>
      if s.tcb[s.current].pendingUnblocks == 0 {
        DispatchMarks(Leave(s, Blocked).(blocked := s.blocked + [s.current]));
      }
  }

  lemma GetKeyMarks(s: Sched, timeout: int)
    requires OnePlaceEach(s) && Marked(s) && Enabled(s, GetKey(timeout))
    ensures Marked(GetKeyStep(s, timeout))
  {
    hide OnePlaceEach, Dispatch, KeepsShape;
    Apart(s);
    AllQueuedApart(s);
    if MustBlock(s) {
      var b := s.tcb[s.current].(keyTimeout := timeout, state := Blocked, call := Call(timeout, Waiting));
      DispatchMarks(s.(tcb := s.tcb[s.current := b], keyq := s.keyq + [s.current]));
    }
  }

  lemma WaitMarks(s: Sched, i: nat)
    requires OnePlaceEach(s) && Marked(s) && i < |s.sems| && s.current != s.idle
    ensures Marked(SemWaitStep(s, i))
  {
    hide OnePlaceEach, Dispatch, KeepsShape;
    Apart(s);
    AllQueuedApart(s);
    if s.sems[i].count - 1 < 0 {
      DispatchMarks(s.(sems := s.sems[i := Wait(s.sems[i], s.current)]));
    }
  }

  lemma SignalMarks(s: Sched, i: nat)
    requires OnePlaceEach(s) && Marked(s) && i < |s.sems| && SignalSafe(s.sems[i])
    ensures Marked(SemSignalStep(s, i))
  {
    hide OnePlaceEach, KeepsShape;
  }

  lemma CreateMarks(s: Sched, v: int)
    requires Marked(s)
    ensures Marked(SemCreateStep(s, v))
  {
    hide KeepsShape;
  }

  lemma SpawnMarks(s: Sched, ok: bool)
    requires OnePlaceEach(s) && Marked(s)
    ensures Marked(SpawnStep(s, ok))
  {
    hide OnePlaceEach, KeepsShape;
    Apart(s);
    AllQueuedApart(s);
    if s.free != [] { assert s.free[0] in s.free; }
  }

  lemma ResumeMarks(s: Sched)
    requires Marked(s)
    ensures Marked(ResumeStep(s))
  {
    hide KeepsShape;
    var r := ResumeStep(s);
    assert r.tcb == s.tcb[s.current := s.tcb[s.current].(call := NoCall)];
    assert r == s.(tcb := r.tcb, kb := r.kb);
  }

  /** Every step keeps the marks. */
  lemma StepKeepsMarks(s: Sched, e: Event, q: int)
    requires Inv(s, q) && Marked(s) && Enabled(s, e)
    ensures Marked(Next(s, e))
  {
    hide Marked, Sweep, Schedule, KeyStep, SpawnStep, ResumeStep, GetKeyStep, SemCreateStep, SemWaitStep,
      SemSignalStep, OnePlaceEach, StatesOk, QuantaOk, CallsOk, KeyboardOk;
    match e
    case Tick => SweepMarks(s); SweepPlaces(s); ScheduleMarks(Sweep(s));
    case Key(c) => KeyMarks(s, c);
    case SemCreate(v) => CreateMarks(s, v);
    case SemWait(i) => WaitMarks(s, i);
    case SemSignal(i) => SignalMarks(s, i);
    case Spawn(ok) => SpawnMarks(s, ok);
    case Resume => ResumeMarks(s);
    case GetKey(timeout) => GetKeyMarks(s, timeout);
    case _ => LeavingMarks(s, e);
  }

  lemma {:induction false} RunKeepsMarks(s: Sched, es: seq<Event>, q: int)
    requires Inv(s, q) && Marked(s) && Runs(s, es)
    ensures Marked(After(s, es))
    decreases |es|
  {
    hide Next, Inv;
    if es != [] {
      StepKeepsMarks(s, es[0], q);
      StepKeepsInv(s, es[0], q);
      RunKeepsMarks(Next(s, es[0]), es[1..], q);
    }
  }

  /** In every run from boot. */
  lemma MarksEveryRun(n: nat, q: int, capacity: nat, sems: nat, es: seq<Event>)
    requires n >= 2 && q >= 1 && Runs(Booted(n, q, capacity, sems), es)
    ensures Marked(After(Booted(n, q, capacity, sems), es))
  {
    hide Next, Runs, After, Inv;
    BootedInv(n, q, capacity, sems);
    RunKeepsMarks(Booted(n, q, capacity, sems), es, q);
  }

  /** A task that joins the ready queue is marked Ready, unless a signal put it there. */
  lemma JoinsReady(s: Sched, e: Event, q: int, t: Slot)
    requires Inv(s, q) && Marked(s) && Enabled(s, e) && t !in s.ready && t in Next(s, e).ready
    ensures Next(s, e).tcb[t].state == if e.SemSignal? then Run else Ready
  {
    hide Select, KeepsShape, OnePlaceEach, QuantaOk, CallsOk, KeyboardOk;
    Apart(s);
    if e.Tick? {
      TickJoins(s, t);
    } else if e.Yield? {
      assert t == s.current;
    }
  }

  lemma TickJoins(s: Sched, t: Slot)
    requires WellFormed(s) && OnePlaceEach(s) && t !in s.ready && t in Schedule(Sweep(s)).ready
    ensures Schedule(Sweep(s)).tcb[t].state == Ready
  {
    hide Sweep, Schedule, OnePlaceEach;
    SweepPlaces(s);
    SweepJoins(s, t);
    ScheduleJoins(Sweep(s), t);
  }

  lemma SweepJoins(s: Sched, t: Slot)
    requires OnePlaceEach(s) && t < |s.tcb| && t !in s.ready
    ensures Sweep(s).current == s.current && (t in Sweep(s).ready ==> Sweep(s).tcb[t].state == Ready)
  {
    hide OnePlaceEach;
    Apart(s);
  }

  lemma ScheduleJoins(s: Sched, t: Slot)
    requires WellFormed(s) && OnePlaceEach(s) && t in Schedule(s).ready
    ensures t in s.ready || t == s.current
    ensures Schedule(s).tcb[t].state == if t == s.current then Ready else s.tcb[t].state
  {
    hide OnePlaceEach, KeepsShape;
    Apart(s);
    if s.remaining == 1 && s.ready != [] {
      ReadyApart(s);
      assert (s.ready + [s.current])[1..] == s.ready[1..] + [s.current];
    }
  }

  /** A task is in the ready queue once only. */
  lemma ReadyApart(s: Sched)
    requires OnePlaceEach(s) && s.ready != []
    ensures s.ready[0] !in s.ready[1..] && s.ready[0] != s.current
  {
    Apart(s);
    OnceAtMost(s, s.ready[0]);
    assert multiset(s.ready)[s.ready[0]] <= Population(s)[s.ready[0]];
    NoRepeat(s.ready, s.ready[0]);
    assert s.ready[0] in s.ready;
  }

  // ---------------------------------------------------------------- pending unblocks

  /** n pending unblocks let the next n calls of block return at once, and the one after them blocks. */
  lemma {:induction false} UnblocksAreUsed(s: Sched, n: nat, es: seq<Event>)
    requires WellFormed(s) && Runs(s, es) && |es| == n + 1 && forall i :: 0 <= i < |es| ==> es[i] == Block
    requires s.tcb[s.current].pendingUnblocks == n
    ensures Runs(s, es[..n]) && After(s, es[..n]).current == s.current
    ensures After(s, es).blocked == s.blocked + [s.current]
    decreases n
  {
    hide Dispatch;
    var r := Next(s, es[0]);
    if n == 0 {
      assert es[1..] == [];
      assert After(r, es[1..]) == r;
      DispatchKeepsBlocked(Leave(s, Blocked).(blocked := s.blocked + [s.current]));
    } else {
      UnblocksAreUsed(r, n - 1, es[1..]);
      assert es[..n][1..] == es[1..][..n - 1];
    }
  }

  /** A negative counter blocks nobody and stays as it is. */
  lemma NegativeUnblocks(s: Sched)
    requires WellFormed(s) && Enabled(s, Block) && s.tcb[s.current].pendingUnblocks < 0
    ensures Next(s, Block) == s
  {
  }

  lemma DispatchKeepsBlocked(s: Sched)
    requires WellFormed(s)
    ensures Dispatch(s).blocked == s.blocked
  {
  }

  // ---------------------------------------------------------------- new tasks

  /** A new task is the last in line, a copy of its creator with its quantum, with no unblocks pending
      and no call in progress; nobody else's control block changes. */
  lemma ChildStarts(s: Sched, q: int, t: Slot)
    requires Inv(s, q) && Enabled(s, Spawn(true)) && s.free != [] && t < |s.tcb|
    ensures var r, c := Next(s, Spawn(true)), s.free[0];
      && r.ready == s.ready + [c] && r.current == s.current
      && r.tcb[c] == s.tcb[s.current].(state := Ready, pendingUnblocks := 0)
      && r.tcb[c].quantum == q && r.tcb[c].call == NoCall
      && (t != c ==> r.tcb[t] == s.tcb[t])
  {
    Apart(s);
  }

  /** A task for which no memory is found: the slot that was tried holds a copy of the caller's control
      block and goes to the end of the free queue; nobody else's control block changes. */
  lemma FailedChild(s: Sched, t: Slot)
    requires WellFormed(s) && Enabled(s, Spawn(false)) && s.free != [] && t < |s.tcb|
    ensures var r, c := Next(s, Spawn(false)), s.free[0];
      && r.free == s.free[1..] + [c] && r.ready == s.ready && r.current == s.current
      && r.tcb[t] == if t == c then s.tcb[s.current] else s.tcb[t]
  {
  }

  /** No code sets pending unblocks: there are none in any run. */
  ghost predicate NoUnblocks(s: Sched) {
    forall t :: 0 <= t < |s.tcb| ==> s.tcb[t].pendingUnblocks == 0
  }

  lemma StepNoUnblocks(s: Sched, e: Event)
    requires WellFormed(s) && Enabled(s, e) && NoUnblocks(s)
    ensures NoUnblocks(Next(s, e))
  {
    hide Sweep, Schedule, KeepsShape;
    if e.Tick? { TickNoUnblocks(s); }
  }

  lemma TickNoUnblocks(s: Sched)
    requires WellFormed(s) && NoUnblocks(s)
    ensures NoUnblocks(Schedule(Sweep(s)))
  {
    hide Select, KeepsShape;
  }

  lemma {:induction false} RunNoUnblocks(s: Sched, es: seq<Event>)
    requires WellFormed(s) && Runs(s, es) && NoUnblocks(s)
    ensures NoUnblocks(After(s, es))
    decreases |es|
  {
    hide Next, NoUnblocks;
    if es != [] {
      StepNoUnblocks(s, es[0]);
      RunNoUnblocks(Next(s, es[0]), es[1..]);
    }
  }

  /** So in every run from boot, every call of block blocks its caller, for good. */
  lemma BlockBlocks(n: nat, q: int, capacity: nat, sems: nat, es: seq<Event>)
    requires n >= 2 && q >= 1 && Runs(Booted(n, q, capacity, sems), es)
    requires Enabled(After(Booted(n, q, capacity, sems), es), Block)
    ensures var s := After(Booted(n, q, capacity, sems), es);
      Next(s, Block).blocked == s.blocked + [s.current]
  {
    hide Runs, After, Dispatch;
    RunNoUnblocks(Booted(n, q, capacity, sems), es);
    var s := After(Booted(n, q, capacity, sems), es);
    DispatchKeepsBlocked(Leave(s, Blocked).(blocked := s.blocked + [s.current]));
  }

  // ---------------------------------------------------------------- what can happen

  /** A task inside getKey finishes the call; otherwise interrupts can come, and unless it is idle the task
      can make any of the calls, with any arguments. */
  lemma AlwaysEnabled(s: Sched, q: int, x: int, ok: bool)
    requires Inv(s, q)
    ensures s.tcb[s.current].call.Call? && s.current != s.idle ==> Enabled(s, Resume)
    ensures !s.tcb[s.current].call.Call? ==> Enabled(s, Tick) && Enabled(s, Key(x))
    ensures !s.tcb[s.current].call.Call? && s.current != s.idle ==>
      && Enabled(s, Yield) && Enabled(s, Block) && Enabled(s, Exit) && Enabled(s, Spawn(ok))
      && Enabled(s, GetKey(x)) && Enabled(s, SemCreate(x))
      && forall i :: 0 <= i < |s.sems| && i !in s.freesem ==>
           Enabled(s, SemWait(i)) && (SignalSafe(s.sems[i]) ==> Enabled(s, SemSignal(i)))
  {
    hide OnePlaceEach, QuantaOk, CallsOk, KeyboardOk, SemsOk;
  }

  // ---------------------------------------------------------------- the order of the sweep

  /** The sweep sorts the readers into those it releases and those it keeps, each in the order of the
      queue: it treats a queue as it treats its parts, one after the other. */
  lemma {:induction false} SelectConcat(tcb: seq<Tcb>, a: seq<Slot>, b: seq<Slot>, expiring: bool)
    requires InRange(a, |tcb|) && InRange(b, |tcb|)
    ensures InRange(a + b, |tcb|)
    ensures Select(tcb, a + b, expiring) == Select(tcb, a, expiring) + Select(tcb, b, expiring)
  {
    hide Select;
    if a == [] {
      assert a + b == b;
      SelectNone(tcb, expiring);
    } else {
      SelectStep(tcb, a, expiring);
      SelectStep(tcb, a + b, expiring);
      assert (a + b)[1..] == a[1..] + b && (a + b)[0] == a[0];
      SelectConcat(tcb, a[1..], b, expiring);
    }
  }

  lemma SelectNone(tcb: seq<Tcb>, expiring: bool)
    ensures Select(tcb, [], expiring) == []
  {
  }

  lemma SelectStep(tcb: seq<Tcb>, q: seq<Slot>, expiring: bool)
    requires InRange(q, |tcb|) && q != []
    ensures Select(tcb, q, expiring)
         == (if (tcb[q[0]].keyTimeout == 1) == expiring then [q[0]] else []) + Select(tcb, q[1..], expiring)
  {
  }

  lemma SelectOne(tcb: seq<Tcb>, t: Slot, expiring: bool)
    requires t < |tcb|
    ensures Select(tcb, [t], expiring) == if (tcb[t].keyTimeout == 1) == expiring then [t] else []
  {
    assert [t][1..] == [];
  }

  /** One tick for the readers: those whose last tick it is become ready, in queue order; the others stay,
      in queue order, each a tick closer if it has a timeout. */
  lemma SweepReaders(s: Sched, q: int, t: Slot)
    requires Inv(s, q) && Enabled(s, Tick) && t in s.keyq
    ensures var r := Next(s, Tick);
      && r.keyq == Select(s.tcb, s.keyq, false)
      && (t in r.keyq <==> s.tcb[t].keyTimeout != 1)
      && r.tcb[t].keyTimeout == (if s.tcb[t].keyTimeout > 0 then s.tcb[t].keyTimeout - 1 else s.tcb[t].keyTimeout)
  {
    hide OnePlaceEach, QuantaOk, CallsOk, KeyboardOk, SemsOk;
    Apart(s);
  }
}
