/** What the counter pending_to_service really counts. */
module Pending {
  import opened Semaphores
  import opened Scheduler
  import opened Partition
  import opened Reachable
  import opened Boot

  /** Released by a key press and not yet back in getKey. */
  predicate IsWoken(b: Tcb) { b.call.Call? && b.call.wake == ByKey }

  /** Released by a key press, with time left, and not yet back in getKey to take a character. */
  predicate IsOwed(b: Tcb) { IsWoken(b) && b.call.asked > 0 }

  function Count(tcb: seq<Tcb>, p: Tcb -> bool): nat {
    if tcb == [] then 0 else Count(tcb[1..], p) + if p(tcb[0]) then 1 else 0
  }

  function Woken(tcb: seq<Tcb>): nat { Count(tcb, IsWoken) }
  function Owed(tcb: seq<Tcb>): nat { Count(tcb, IsOwed) }

  lemma {:induction false} CountSame(a: seq<Tcb>, b: seq<Tcb>, p: Tcb -> bool)
    requires |a| == |b| && forall t :: 0 <= t < |a| ==> p(a[t]) == p(b[t])
    ensures Count(a, p) == Count(b, p)
  {
    if a != [] { CountSame(a[1..], b[1..], p); }
  }

  lemma {:induction false} CountBut(a: seq<Tcb>, b: seq<Tcb>, p: Tcb -> bool, x: Slot)
    requires |a| == |b| && x < |a| && forall t :: 0 <= t < |a| && t != x ==> p(a[t]) == p(b[t])
    ensures Count(b, p) - One(p(b[x])) == Count(a, p) - One(p(a[x]))
  {
    if x == 0 {
      CountSame(a[1..], b[1..], p);
    } else {
      CountBut(a[1..], b[1..], p, x - 1);
    }
  }

  ghost predicate FreeIdle(s: Sched)
    requires WellFormed(s)
  {
    forall t :: t in s.free ==> s.tcb[t].call == NoCall
  }

  /** The two ways the counter and the number of woken readers drift apart: a call that did not
      block is subtracted although it was never added, and a call with no time left, woken by a
      key, is never subtracted. */
  function Drift(s: Sched, e: Event): int
    requires WellFormed(s)
  {
    var b := s.tcb[s.current];
    if !e.Resume? || b.call == NoCall then 0
    else if b.call.wake == ByKey then (if b.call.asked <= 0 then 1 else 0)
    else if b.call.wake == NotBlocked then (if b.call.asked > 0 then -1 else 0)
    else 0
  }

  /** Scheduling touches no call. */
  lemma DispatchCalls(s: Sched, t: Slot)
    requires WellFormed(s) && t < |s.tcb|
    ensures Dispatch(s).tcb[t].call == s.tcb[t].call && Dispatch(s).free == s.free
  {
  }

  lemma TickCalls(s: Sched, t: Slot)
    requires WellFormed(s) && t < |s.tcb|
    ensures var r := Schedule(Sweep(s));
      && r.free == s.free
      && r.tcb[t].call == (if t in s.keyq then Age(s.tcb[t]).call else s.tcb[t].call)
  {
    hide Dispatch, Select;
    var r := Sweep(s).(remaining := s.remaining - 1);
    DispatchCalls(Preempt(r), t);
  }

  /** What a step does to the call of a task that is neither the caller, nor the reader it wakes, nor
      the slot it hands out. */
  lemma OtherCalls(s: Sched, e: Event, t: Slot)
    requires WellFormed(s) && Enabled(s, e) && t < |s.tcb| && !e.Tick?
    requires e.Key? && s.keyq != [] ==> t != s.keyq[0]
    requires e.Resume? || e.GetKey? ==> t != s.current
    requires e.Spawn? && s.free != [] ==> t != s.free[0]
    ensures Next(s, e).tcb[t].call == s.tcb[t].call
  {
    hide Sweep, Schedule, KeepsShape;
  }

  /** The slot whose call a step may change. */
  function Touched(s: Sched, e: Event): (x: Slot)
    requires WellFormed(s)
    ensures x < |s.tcb|
  {
    if e.Key? && s.keyq != [] then s.keyq[0]
    else if e.Spawn? && s.free != [] then s.free[0]
    else s.current
  }

  /** No other slot changes whether it is woken, or owed a character. */
  lemma StepWoken(s: Sched, e: Event, q: int, x: Slot)
    requires Inv(s, q) && Enabled(s, e) && x == Touched(s, e)
    ensures forall t :: 0 <= t < |s.tcb| && t != x ==>
      IsWoken(Next(s, e).tcb[t]) == IsWoken(s.tcb[t]) && IsOwed(Next(s, e).tcb[t]) == IsOwed(s.tcb[t])
  {
    hide OnePlaceEach, QuantaOk, KeyboardOk, SemsOk, StatesOk, Sweep, Schedule, KeyStep, SpawnStep, GetKeyStep,
      ResumeStep, BlockStep, Dispatch, SemWaitStep, SemSignalStep, SemCreateStep;
    forall t | 0 <= t < |s.tcb| && t != x
      ensures IsWoken(Next(s, e).tcb[t]) == IsWoken(s.tcb[t]) && IsOwed(Next(s, e).tcb[t]) == IsOwed(s.tcb[t])
    {
      if e.Tick? { TickCalls(s, t); } else { OtherCalls(s, e, t); }
    }
  }

  lemma FreeStaysIdle(s: Sched, e: Event, q: int)
    requires Inv(s, q) && Enabled(s, e) && FreeIdle(s)
    ensures FreeIdle(Next(s, e))
  {
    Apart(s);
    var r := Next(s, e);
    forall t | t in r.free ensures r.tcb[t].call == NoCall {
      FreeAfter(s, e, t);
    }
  }

  lemma FreeAfter(s: Sched, e: Event, t: Slot)
    requires OnePlaceEach(s) && Enabled(s, e) && FreeIdle(s) && t in Next(s, e).free
    ensures Next(s, e).tcb[t].call == NoCall
  {
    Apart(s);
    if e.Tick? {
      TickCalls(s, t);
    } else if e.Exit? {
      assert t in s.free || t == s.current;
      OtherCalls(s, e, t);
    } else if e.Spawn? {
      assert t in s.free;
    } else {
      assert t in s.free by { OtherFree(s, e); }
      OtherCalls(s, e, t);
    }
  }

  lemma OtherFree(s: Sched, e: Event)
    requires WellFormed(s) && Enabled(s, e) && !e.Exit? && !e.Spawn?
    ensures Next(s, e).free == s.free
  {
  }

  /** One step of the drift. */
  lemma StepDrifts(s: Sched, e: Event, q: int)
    requires Inv(s, q) && Enabled(s, e) && FreeIdle(s)
    ensures var r := Next(s, e);
      r.kb.pending - Woken(r.tcb) == s.kb.pending - Woken(s.tcb) + Drift(s, e)
  {
    var r := Next(s, e);
    var x := Touched(s, e);
    StepWoken(s, e, q, x);
    CountBut(s.tcb, r.tcb, IsWoken, x);
    SlotDrift(s, e, q, x);
  }

  lemma SlotDrift(s: Sched, e: Event, q: int, x: Slot)
    requires Inv(s, q) && Enabled(s, e) && FreeIdle(s) && x == Touched(s, e)
    ensures var r := Next(s, e);
      r.kb.pending - One(IsWoken(r.tcb[x])) == s.kb.pending - One(IsWoken(s.tcb[x])) + Drift(s, e)
  {
    hide OnePlaceEach, QuantaOk, KeyboardOk, SemsOk, Sweep, Schedule, Dispatch, BlockStep, SpawnStep, GetKeyStep,
      SemCreateStep, SemWaitStep, SemSignalStep;
    Apart(s);
    if e.Key? {
      if s.keyq != [] { assert s.keyq[0] in s.keyq; }
    } else if !e.Resume? {
      QuietStep(s, e, q, x);
    }
  }

  /** Only keyboard interrupts and returning calls change the keyboard, or who is owed a character. */
  lemma QuietStep(s: Sched, e: Event, q: int, x: Slot)
    requires Inv(s, q) && Enabled(s, e) && FreeIdle(s) && x == Touched(s, e) && !e.Key? && !e.Resume?
    ensures var r := Next(s, e);
      r.kb == s.kb && IsWoken(r.tcb[x]) == IsWoken(s.tcb[x]) && IsOwed(r.tcb[x]) == IsOwed(s.tcb[x])
  {
    hide QuantaOk, KeyboardOk, SemsOk, Select, Sweep, Schedule, Dispatch, SemWaitStep, SemSignalStep,
      SemCreateStep, BlockStep, Fair;
    Apart(s);
    KeyboardFrame(s, e);
    if e.Tick? {
      TickCalls(s, x);
    } else if e.Spawn? {
      if s.free != [] { assert s.free[0] in s.free; }
    } else if e.GetKey? {
      GetKeyCalls(s, e.timeout);
    } else {
      OtherCalls(s, e, x);
    }
  }

  lemma GetKeyCalls(s: Sched, timeout: int)
    requires WellFormed(s)
    ensures GetKeyStep(s, timeout).kb == s.kb && !IsWoken(GetKeyStep(s, timeout).tcb[s.current])
  {
  }

  ghost function Drifts(s: Sched, es: seq<Event>): int
    requires WellFormed(s) && Runs(s, es)
    decreases |es|
  {
    if es == [] then 0 else Drift(s, es[0]) + Drifts(Next(s, es[0]), es[1..])
  }

  /** In every run, pending_to_service is the number of woken readers plus the accumulated drift; so
      it counts them exactly when the drift is 0. */
  lemma {:induction false} PendingCounts(s: Sched, es: seq<Event>, q: int)
    requires Inv(s, q) && FreeIdle(s) && Runs(s, es)
    ensures var r := After(s, es);
      r.kb.pending - Woken(r.tcb) == s.kb.pending - Woken(s.tcb) + Drifts(s, es)
    decreases |es|
  {
    hide Next, Drift;
    if es != [] {
      StepDrifts(s, es[0], q);
      StepKeepsInv(s, es[0], q);
      FreeStaysIdle(s, es[0], q);
      PendingCounts(Next(s, es[0]), es[1..], q);
    }
  }

  /** The shortest drifting run: a key is pressed, and a getKey that need not block takes it.  Nobody
      is woken, yet the counter ends at -1. */
  lemma DriftFromBoot(n: nat, q: int, capacity: nat, sems: nat, c: int, timeout: int)
    requires n >= 2 && q >= 1 && capacity >= 1 && timeout > 0
    ensures var s, es := Booted(n, q, capacity, sems), [Key(c), GetKey(timeout), Resume];
      && Inv(s, q) && Runs(s, es)
      && After(s, es).kb.pending == -1 && Woken(After(s, es).tcb) == 0
  {
    hide Next, Runs, After, Booted, Inv;
    BootedInv(n, q, capacity, sems);
    var s := Booted(n, q, capacity, sems);
    BootedCalls(n, q, capacity, sems, c, timeout);
    ThreeSteps(s, Key(c), GetKey(timeout), Resume);
    NobodyWoken(Next(Next(Next(s, Key(c)), GetKey(timeout)), Resume).tcb);
  }

  lemma ThreeSteps(s: Sched, a: Event, b: Event, c: Event)
    requires WellFormed(s) && Enabled(s, a) && Enabled(Next(s, a), b) && Enabled(Next(Next(s, a), b), c)
    ensures Runs(s, [a, b, c]) && After(s, [a, b, c]) == Next(Next(Next(s, a), b), c)
  {
    hide Next, Enabled;
    var s1, s2 := Next(s, a), Next(Next(s, a), b);
    assert [a, b, c][1..] == [b, c] && [b, c][1..] == [c] && [c][1..] == [];
    assert Runs(Next(s2, c), []) && After(Next(s2, c), []) == Next(s2, c);
    assert Runs(s2, [c]) && After(s2, [c]) == After(Next(s2, c), [c][1..]);
    assert Runs(s1, [b, c]) && After(s1, [b, c]) == After(s2, [b, c][1..]);
  }

  lemma BootedCalls(n: nat, q: int, capacity: nat, sems: nat, c: int, timeout: int)
    requires n >= 2 && q >= 1 && capacity >= 1 && timeout > 0
    ensures var s := Booted(n, q, capacity, sems);
      && WellFormed(s) && Enabled(s, Key(c)) && Enabled(Next(s, Key(c)), GetKey(timeout))
      && var s2 := Next(Next(s, Key(c)), GetKey(timeout));
      && Enabled(s2, Resume) && Next(s2, Resume).kb.pending == -1 && |Next(s2, Resume).tcb| == n
      && forall t :: 0 <= t < n ==> !IsWoken(Next(s2, Resume).tcb[t])
  {
    hide Sweep, Schedule, Dispatch;
  }

  lemma {:induction false} NobodyWoken(tcb: seq<Tcb>)
    requires forall t :: 0 <= t < |tcb| ==> !IsWoken(tcb[t])
    ensures Woken(tcb) == 0 && Owed(tcb) == 0
  {
    if tcb != [] { NobodyWoken(tcb[1..]); }
  }
}
