/** Semaphores in runs of the kernel: what the system calls of a run do to each of them. */
module SemaphoreRuns {
  import opened Semaphores
  import opened Scheduler
  import opened Reachable
  import opened Ranges
  import opened Boot

  /** The calls of a run on semaphore i, with their callers. */
  ghost function SemOps(s: Sched, es: seq<Event>, i: nat): seq<Op>
    requires WellFormed(s) && Runs(s, es)
    decreases |es|
  {
    if es == [] then []
    else
      (if es[0] == SemWait(i) then [WaitBy(s.current)]
       else if es[0] == SemSignal(i) then [SignalBy(s.current)]
       else [])
      + SemOps(Next(s, es[0]), es[1..], i)
  }

  /** Only the calls on a semaphore change it, once it is created. */
  lemma StepSem(s: Sched, e: Event, i: nat)
    requires WellFormed(s) && Enabled(s, e) && i < |s.sems| && i !in s.freesem
    ensures i !in Next(s, e).freesem && i < |Next(s, e).sems|
    ensures Next(s, e).sems[i] == (
      if e == SemWait(i) then Wait(s.sems[i], s.current)
      else if e == SemSignal(i) then Signal(s.sems[i])
      else s.sems[i])
  {
    hide Sweep, Schedule, KeyStep, GetKeyStep, ResumeStep, SpawnStep, BlockStep, ExitStep, Wait, Signal, KeepsShape;
    if !e.SemCreate? && !e.SemWait? && !e.SemSignal? {
      OtherStepsFrame(s, e);
    } else if e.SemCreate? && s.freesem != [] {
      assert s.freesem[0] in s.freesem;
    }
  }

  /** So the semaphore after a run is the one the run's calls on it make of it. */
  lemma {:induction false} RunPlays(s: Sched, es: seq<Event>, i: nat)
    requires WellFormed(s) && Runs(s, es) && i < |s.sems| && i !in s.freesem
    ensures i < |After(s, es).sems| && i !in After(s, es).freesem
    ensures AllSafe(s.sems[i], SemOps(s, es, i)) && After(s, es).sems[i] == Play(s.sems[i], SemOps(s, es, i))
    decreases |es|
  {
    hide Next, Wait, Signal;
    if es != [] {
      var r, rest := Next(s, es[0]), SemOps(Next(s, es[0]), es[1..], i);
      StepSem(s, es[0], i);
      RunPlays(r, es[1..], i);
      if es[0] == SemWait(i) {
        assert ([WaitBy(s.current)] + rest)[1..] == rest;
      } else if es[0] == SemSignal(i) {
        assert SignalSafe(s.sems[i]) && ([SignalBy(s.current)] + rest)[1..] == rest;
      } else {
        assert [] + rest == rest;
      }
    }
  }

  /** A new semaphore starts with the value asked for, nobody waiting, and is no longer free. */
  lemma CreateGives(s: Sched, v: int)
    requires SemsOk(s) && Enabled(s, SemCreate(v)) && s.freesem != []
    ensures var i, r := s.freesem[0], Next(s, SemCreate(v));
      && i < |r.sems| && i !in r.freesem && r.sems[i] == Create(v)
      && r.sems[i].count == v && r.sems[i].queue == [] && r.sems[i].calls == [] && r.sems[i].signals == 0
  {
  }

  /** A semaphore created with the value v, in every run after that: the count is v plus the signals
      minus the waits of the run; the waits let through are the first min(waits, max(v, 0) + signals), in
      call order, and the others queue in that order. */
  lemma CreatedSemaphore(s: Sched, v: int, es: seq<Event>)
    requires SemsOk(s) && Enabled(s, SemCreate(v)) && s.freesem != [] && Runs(Next(s, SemCreate(v)), es)
    ensures s.freesem[0] < |After(Next(s, SemCreate(v)), es).sems|
    ensures var i := s.freesem[0];
      var r, ops := After(Next(s, SemCreate(v)), es).sems[i], SemOps(Next(s, SemCreate(v)), es, i);
      var w, n := Waits(ops), |Signals(ops)|;
      && r.count == v + n - |w|
      && r.released == w[..Passing(v, |w|, n)] && r.queue == w[Passing(v, |w|, n)..]
  {
    hide Next, Runs, After, SemOps, Play, Waits, Signals, AllSafe;
    var r, i := Next(s, SemCreate(v)), s.freesem[0];
    CreateGives(s, v);
    RunPlays(r, es, i);
    ByHistory(v, SemOps(r, es, i));
  }

  /** Without a signal exactly the first max(v, 0) waits pass; so with v = 1 the second one queues. */
  lemma FirstWaitsPass(s: Sched, v: int, es: seq<Event>)
    requires SemsOk(s) && Enabled(s, SemCreate(v)) && s.freesem != [] && Runs(Next(s, SemCreate(v)), es)
    requires Signals(SemOps(Next(s, SemCreate(v)), es, s.freesem[0])) == []
    ensures s.freesem[0] < |After(Next(s, SemCreate(v)), es).sems|
    ensures var i := s.freesem[0];
      var r, w := After(Next(s, SemCreate(v)), es).sems[i], Waits(SemOps(Next(s, SemCreate(v)), es, i));
      var g := if v < 0 then 0 else if |w| < v then |w| else v;
      && r.released == w[..g] && r.queue == w[g..]
      && (v == 1 && |w| >= 2 ==> w[1] in r.queue && r.released == [w[0]])
  {
    hide Next, Runs, After, SemOps, Waits, Signals;
    CreatedSemaphore(s, v, es);
    var i := s.freesem[0];
    var r, w := After(Next(s, SemCreate(v)), es).sems[i], Waits(SemOps(Next(s, SemCreate(v)), es, i));
    if v == 1 && |w| >= 2 { assert r.queue[0] == w[1]; }
  }

  /** Exclusion: in every run after its creation in which every signal comes from a task that got
      through and has not signalled since, at most max(v, 0) tasks are in that position; one if v is 1. */
  lemma Exclusion(s: Sched, v: int, es: seq<Event>, a: nat, b: nat)
    requires SemsOk(s) && Enabled(s, SemCreate(v)) && s.freesem != [] && Runs(Next(s, SemCreate(v)), es)
    requires Bracketed(v, SemOps(Next(s, SemCreate(v)), es, s.freesem[0]))
    ensures s.freesem[0] < |After(Next(s, SemCreate(v)), es).sems|
    ensures var i := s.freesem[0];
      var r, ops := After(Next(s, SemCreate(v)), es).sems[i], SemOps(Next(s, SemCreate(v)), es, i);
      var h := multiset(r.released) - multiset(Signals(ops));
      && |h| <= (if v < 0 then 0 else v)
      && (v == 1 && a in h && b in h ==> a == b && h[a] == 1)
  {
    hide Next, Runs, After, SemOps, Waits, Signals, Bracketed;
    CreatedSemaphore(s, v, es);
    BracketedHolders(v, SemOps(Next(s, SemCreate(v)), es, s.freesem[0]), a, b);
  }

  /** The kernel boots with all its semaphores free: creating them one after the other hands them out in
      order, each with its own value, until none is left. */
  lemma {:induction false} CreateInTurn(n: nat, q: int, capacity: nat, sems: nat, es: seq<Event>)
    requires n >= 2 && |es| <= sems && (forall i :: 0 <= i < |es| ==> es[i].SemCreate?)
    ensures WellFormed(Booted(n, q, capacity, sems)) && Runs(Booted(n, q, capacity, sems), es)
    ensures var r := After(Booted(n, q, capacity, sems), es);
      && r.freesem == From(|es|, sems) && |r.sems| == sems && r.current == 1 && r.tcb[1].call == NoCall && r.idle == 0
      && forall i :: 0 <= i < |es| ==> r.sems[i] == Create(es[i].v)
    decreases |es|
  {
    var s := Booted(n, q, capacity, sems);
    if es != [] {
      var last := |es| - 1;
      var before := es[..last];
      CreateInTurn(n, q, capacity, sems, before);
      CreateNext(After(s, before), es[last].v, last, sems);
      RunExtends(s, before, es[last]);
      assert before + [es[last]] == es;
    }
  }

  lemma CreateNext(s: Sched, v: int, a: nat, sems: nat)
    requires WellFormed(s) && a < sems && s.freesem == From(a, sems) && |s.sems| == sems
    requires s.current != s.idle && s.tcb[s.current].call == NoCall
    ensures Enabled(s, SemCreate(v))
    ensures var r := Next(s, SemCreate(v));
      && r == s.(sems := r.sems, freesem := From(a + 1, sems)) && |r.sems| == sems && r.sems[a] == Create(v)
      && forall i :: 0 <= i < sems && i != a ==> r.sems[i] == s.sems[i]
  {
    assert s.freesem[1..] == From(a + 1, sems);
  }

  /** When none is left, the call changes nothing. */
  lemma NoneLeft(s: Sched, v: int)
    requires WellFormed(s) && Enabled(s, SemCreate(v)) && s.freesem == []
    ensures Next(s, SemCreate(v)) == s
  {
  }

  /** With the kernel's own constants, ten semaphores can be created, and no more. */
  lemma TenSemaphores(es: seq<Event>)
    requires |es| == 10 && forall i :: 0 <= i < |es| ==> es[i].SemCreate?
    ensures WellFormed(Booted(NR_TASKS, DEFAULT_QUANTUM, BUFFER_SIZE, NUM_SEMS))
    ensures Runs(Booted(NR_TASKS, DEFAULT_QUANTUM, BUFFER_SIZE, NUM_SEMS), es)
    ensures After(Booted(NR_TASKS, DEFAULT_QUANTUM, BUFFER_SIZE, NUM_SEMS), es).freesem == []
  {
    hide Runs, After, Booted;
    CreateInTurn(NR_TASKS, DEFAULT_QUANTUM, BUFFER_SIZE, NUM_SEMS, es);
  }

  lemma {:induction false} RunExtends(s: Sched, es: seq<Event>, e: Event)
    requires WellFormed(s) && Runs(s, es) && Enabled(After(s, es), e)
    ensures Runs(s, es + [e]) && After(s, es + [e]) == Next(After(s, es), e)
    decreases |es|
  {
    hide Next, Enabled;
    if es == [] {
      assert [] + [e] == [e] && [e][1..] == [];
      assert Runs(Next(s, e), [e][1..]) && After(Next(s, e), [e][1..]) == Next(s, e);
    } else {
      RunExtends(Next(s, es[0]), es[1..], e);
      assert (es + [e])[1..] == es[1..] + [e];
    }
  }
}
