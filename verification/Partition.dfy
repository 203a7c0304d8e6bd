/** Where every task is, in every reachable state of the scheduler. */
module Partition {
  import opened Semaphores
  import opened Scheduler

  // ---------------------------------------------------------------- counting tasks

  ghost function SemQueued(sems: seq<Sem>): multiset<Slot> {
    if sems == [] then multiset{} else multiset(sems[0].queue) + SemQueued(sems[1..])
  }

  /** Everything linked into some list, with multiplicity, except the ready queue. */
  ghost function Parked(s: Sched): multiset<Slot> {
    multiset(s.blocked) + multiset(s.keyq) + multiset(s.free) + SemQueued(s.sems)
  }

  /** Every task the kernel knows the place of: the running one and all the linked ones. */
  ghost function Population(s: Sched): multiset<Slot> {
    multiset{s.current} + multiset(s.ready) + Parked(s)
  }

  /** Each task other than idle has exactly one place; idle has at most one, and is never parked. */
  ghost predicate OnePlaceEach(s: Sched) {
    && WellFormed(s)
    && (forall t :: 0 <= t < |s.tcb| && t != s.idle ==> Population(s)[t] == 1)
    && Population(s)[s.idle] <= 1
    && s.idle !in Parked(s)
  }

  lemma {:induction false} SemUpdate(sems: seq<Sem>, i: nat, x: Sem)
    requires i < |sems|
    ensures SemQueued(sems[i := x]) + multiset(sems[i].queue) == SemQueued(sems) + multiset(x.queue)
    ensures multiset(sems[i].queue) <= SemQueued(sems)
  {
    if i == 0 {
      assert sems[0 := x][1..] == sems[1..];
    } else {
      var u, tl := sems[i := x], sems[1..];
      SemUpdate(tl, i - 1, x);
      assert u[1..] == tl[i - 1 := x] && tl[i - 1] == sems[i];
      var h, q := multiset(sems[0].queue), multiset(sems[i].queue);
      calc {
        SemQueued(u) + q;
        h + SemQueued(u[1..]) + q;
        h + (SemQueued(u[1..]) + q);
        h + (SemQueued(tl) + multiset(x.queue));
        SemQueued(sems) + multiset(x.queue);
      }
      assert q <= SemQueued(tl) <= h + SemQueued(tl);
    }
  }

  lemma Uncons(q: seq<Slot>)
    requires q != []
    ensures multiset(q) == multiset{q[0]} + multiset(q[1..])
  {
    assert q == [q[0]] + q[1..];
  }

  lemma Cancel(a: multiset<Slot>, b: multiset<Slot>, c: multiset<Slot>)
    requires a + c == b + c
    ensures a == b
  {
    assert a == (a + c) - c && b == (b + c) - c;
  }

  lemma {:induction false} SelectSplits(tcb: seq<Tcb>, q: seq<Slot>)
    requires InRange(q, |tcb|)
    ensures multiset(Select(tcb, q, true)) + multiset(Select(tcb, q, false)) == multiset(q)
  {
    if q != [] {
      SelectSplits(tcb, q[1..]);
      Uncons(q);
    }
  }

  /** Dispatching moves the first ready task out of the ready queue, or brings idle in. */
  lemma DispatchMoves(s: Sched)
    requires WellFormed(s)
    ensures var r := Dispatch(s);
      && Parked(r) == Parked(s)
      && multiset{r.current} + multiset(r.ready)
         == multiset(s.ready) + (if s.ready == [] then multiset{s.idle} else multiset{})
  {
    if s.ready != [] { Uncons(s.ready); }
  }

  /** Either nobody is lost or duplicated, or idle was switched to because nothing was ready,
      which is the moment idle enters the population. */
  ghost predicate Conserves(s: Sched, r: Sched) {
    && (|| Population(r) == Population(s)
        || (Population(r) == Population(s) + multiset{s.idle} && r.current == s.idle
            && s.ready == [] && s.current != s.idle))
    && (s.idle !in Parked(s) ==> s.idle !in Parked(r))
  }

  /** A task that has just been parked, or put back in line, makes room for the next one. */
  lemma SwitchConserves(s: Sched, mid: Sched)
    requires WellFormed(s) && WellFormed(mid) && mid.idle == s.idle
    requires multiset(mid.ready) + Parked(mid) == Population(s)
    requires mid.ready == [] ==> s.ready == [] && s.current != s.idle
    requires s.idle !in Parked(s) ==> s.idle !in Parked(mid)
    ensures Conserves(s, Dispatch(mid))
  {
    DispatchMoves(mid);
  }

  lemma SamePlaces(s: Sched, r: Sched)
    requires r.current == s.current && r.idle == s.idle && r.ready == s.ready
    requires r.blocked == s.blocked && r.keyq == s.keyq && r.free == s.free
    requires SemQueued(r.sems) == SemQueued(s.sems)
    ensures Conserves(s, r)
  {
  }

  /** The sweep only moves readers from one queue to another. */
  lemma SweepConserves(s: Sched)
    requires WellFormed(s)
    ensures Population(Sweep(s)) == Population(s)
    ensures s.idle !in Parked(s) ==> s.idle !in Parked(Sweep(s))
  {
    SelectSplits(s.tcb, s.keyq);
    var r := Sweep(s);
    assert multiset(r.ready) == multiset(s.ready) + multiset(Select(s.tcb, s.keyq, true));
  }

  lemma TickConserves(s: Sched)
    requires WellFormed(s)
    ensures Conserves(s, Schedule(Sweep(s)))
  {
    hide Sweep;
    SweepConserves(s);
    var s1 := Sweep(s).(remaining := Sweep(s).remaining - 1);
    assert Population(s1) == Population(s) && Parked(s1) == Parked(Sweep(s));
    if s1.remaining == 0 && s1.ready != [] {
      DispatchMoves(Preempt(s1));
    }
  }

  lemma KeyConserves(s: Sched, c: int)
    requires WellFormed(s)
    ensures Conserves(s, KeyStep(s, c))
  {
    var r := KeyStep(s, c);
    if s.keyq != [] && s.kb.makeFlag {
      Uncons(s.keyq);
      assert Parked(s) == Parked(r) + multiset{s.keyq[0]};
    } else {
      assert Parked(r) == Parked(s) && r.ready == s.ready;
    }
  }

  lemma SpawnConserves(s: Sched, ok: bool)
    requires WellFormed(s)
    ensures Conserves(s, SpawnStep(s, ok))
  {
    if s.free != [] { Uncons(s.free); }
  }

  lemma YieldConserves(s: Sched)
    requires WellFormed(s)
    ensures Conserves(s, Dispatch(Preempt(s)))
  {
    SwitchConserves(s, Preempt(s));
  }

  lemma ExitConserves(s: Sched)
    requires WellFormed(s) && s.current != s.idle
    ensures Conserves(s, ExitStep(s))
  {
    SwitchConserves(s, s.(free := s.free + [s.current]));
  }

  lemma BlockConserves(s: Sched)
    requires WellFormed(s) && s.current != s.idle
    ensures Conserves(s, BlockStep(s))
  {
    if s.tcb[s.current].pendingUnblocks == 0 {
      SwitchConserves(s, Leave(s, Blocked).(blocked := s.blocked + [s.current]));
    }
  }

  lemma GetKeyConserves(s: Sched, timeout: int)
    requires WellFormed(s) && s.current != s.idle
    ensures Conserves(s, GetKeyStep(s, timeout))
  {
    if MustBlock(s) {
      var b := s.tcb[s.current].(keyTimeout := timeout, state := Blocked, call := Call(timeout, Waiting));
      SwitchConserves(s, s.(tcb := s.tcb[s.current := b], keyq := s.keyq + [s.current]));
    }
  }

  lemma ResumeConserves(s: Sched)
    requires WellFormed(s)
    ensures Conserves(s, ResumeStep(s))
  {
    SamePlaces(s, ResumeStep(s));
  }

  lemma CreateConserves(s: Sched, v: int)
    requires WellFormed(s)
    requires s.freesem != [] ==> s.sems[s.freesem[0]].queue == []
    ensures Conserves(s, SemCreateStep(s, v))
  {
    if s.freesem != [] {
      SemUpdate(s.sems, s.freesem[0], Create(v));
      Cancel(SemQueued(s.sems[s.freesem[0] := Create(v)]), SemQueued(s.sems), multiset{});
      SamePlaces(s, SemCreateStep(s, v));
    }
  }

  lemma WaitQueues(sems: seq<Sem>, i: nat, t: Slot)
    requires i < |sems|
    ensures SemQueued(sems[i := Wait(sems[i], t)])
         == SemQueued(sems) + (if sems[i].count - 1 < 0 then multiset{t} else multiset{})
  {
    var w := Wait(sems[i], t);
    SemUpdate(sems, i, w);
    var more := if sems[i].count - 1 < 0 then multiset{t} else multiset{};
    assert multiset(w.queue) == multiset(sems[i].queue) + more;
    Cancel(SemQueued(sems[i := w]), SemQueued(sems) + more, multiset(sems[i].queue));
  }

  lemma WaitInRange(s: Sched, i: nat)
    requires WellFormed(s) && i < |s.sems|
    ensures WellFormed(s.(sems := s.sems[i := Wait(s.sems[i], s.current)]))
  {
  }

  /** Queueing the running task at a semaphore parks it. */
  lemma QueuedParks(s: Sched, mid: Sched)
    requires mid == s.(sems := mid.sems) && SemQueued(mid.sems) == SemQueued(s.sems) + multiset{s.current}
    ensures Parked(mid) == Parked(s) + multiset{s.current}
    ensures multiset(mid.ready) + Parked(mid) == Population(s)
  {
  }

  lemma WaitConserves(s: Sched, i: nat)
    requires WellFormed(s) && i < |s.sems| && s.current != s.idle
    ensures Conserves(s, SemWaitStep(s, i))
  {
    hide KeepsShape, Conserves, Population, Parked, SemQueued, Dispatch, Wait;
    var mid := s.(sems := s.sems[i := Wait(s.sems[i], s.current)]);
    WaitQueues(s.sems, i, s.current);
    if s.sems[i].count - 1 < 0 {
      assert WellFormed(mid) by { WaitInRange(s, i); }
      QueuedParks(s, mid);
      SwitchConserves(s, mid);
    } else {
      SamePlaces(s, mid);
    }
  }

  lemma SignalConserves(s: Sched, i: nat)
    requires WellFormed(s) && i < |s.sems| && SignalSafe(s.sems[i])
    ensures Conserves(s, SemSignalStep(s, i))
  {
    var q, w := s.sems[i].queue, Signal(s.sems[i]);
    SemUpdate(s.sems, i, w);
    if s.sems[i].count + 1 <= 0 {
      Uncons(q);
      Cancel(SemQueued(s.sems[i := w]) + multiset{q[0]}, SemQueued(s.sems), multiset(q[1..]));
    } else {
      Cancel(SemQueued(s.sems[i := w]), SemQueued(s.sems), multiset(q));
      SamePlaces(s, SemSignalStep(s, i));
    }
  }

  lemma StepConserves(s: Sched, e: Event)
    requires WellFormed(s) && Enabled(s, e)
    requires e.SemCreate? && s.freesem != [] ==> s.sems[s.freesem[0]].queue == []
    ensures Conserves(s, Next(s, e))
  {
    hide Conserves, Sweep, Schedule, KeyStep, Dispatch, Preempt, BlockStep, ExitStep, SpawnStep, GetKeyStep, ResumeStep,
      SemCreateStep, SemWaitStep, SemSignalStep, KeepsShape;
    match e
    case Tick => TickConserves(s);
    case Key(c) => KeyConserves(s, c);
    case Yield => YieldConserves(s);
    case Block => BlockConserves(s);
    case Exit => ExitConserves(s);
    case Spawn(ok) => SpawnConserves(s, ok);
    case GetKey(timeout) => GetKeyConserves(s, timeout);
    case Resume => ResumeConserves(s);
    case SemCreate(v) => CreateConserves(s, v);
    case SemWait(i) => WaitConserves(s, i);
    case SemSignal(i) => SignalConserves(s, i);
  }

  lemma StepKeepsPlaces(s: Sched, e: Event)
    requires OnePlaceEach(s) && Enabled(s, e)
    requires e.SemCreate? && s.freesem != [] ==> s.sems[s.freesem[0]].queue == []
    ensures OnePlaceEach(Next(s, e))
  {
    hide Next, Population, Parked;
    StepConserves(s, e);
    if Population(Next(s, e)) != Population(s) {
      IdleAbsent(s);
    }
  }

  lemma IdleAbsent(s: Sched)
    requires s.ready == [] && s.current != s.idle && s.idle !in Parked(s)
    ensures Population(s)[s.idle] == 0
  {
  }
}
