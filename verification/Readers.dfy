/** Whether a reader released by a key press finds a character. */
module Readers {
  import opened Scheduler
  import opened Partition
  import opened Reachable
  import opened Boot
  import opened Pending

  /** Characters in the buffer beyond those owed to released readers. */
  function Credit(s: Sched): int { |s.kb.buffer| - Owed(s.tcb) }

  /** What a step does to the characters in the buffer and the readers they are owed to.  A `spare`
      character arrives that no waiting reader is released for.  A spare one is `used`: a call that
      does not block takes it, or a reader is released by a key press whose character is dropped.  The
      same when nothing is spare: the character is `stolen` from, or `dropped` for, a released reader.
      Or a released reader finds the buffer `empty`. */
  datatype Tally = Tally(spare: nat, used: nat, stolen: nat, dropped: nat, empty: nat)

  function Plus(a: Tally, b: Tally): Tally {
    Tally(a.spare + b.spare, a.used + b.used, a.stolen + b.stolen, a.dropped + b.dropped, a.empty + b.empty)
  }

  const NOTHING := Tally(0, 0, 0, 0, 0)

  function TallyOf(s: Sched, e: Event): Tally
    requires WellFormed(s)
  {
    var call, room, rich := s.tcb[s.current].call, |s.kb.buffer| < s.kb.capacity, Credit(s) > 0;
    if e.Key? && s.kb.makeFlag then
      var owes := s.keyq != [] && s.tcb[s.keyq[0]].call.Call? && s.tcb[s.keyq[0]].call.asked > 0;
      Tally(One(room && !owes), One(!room && owes && rich), 0, One(!room && owes && !rich), 0)
    else if e.Resume? && call.Call? && call.asked > 0 && call.wake == ByKey then
      Tally(0, 0, 0, 0, One(s.kb.buffer == []))
    else if e.Resume? && call.Call? && call.asked > 0 && call.wake == NotBlocked then
      Tally(0, One(s.kb.buffer != [] && rich), One(s.kb.buffer != [] && !rich), 0, 0)
    else NOTHING
  }

  ghost function Tallies(s: Sched, es: seq<Event>): Tally
    requires WellFormed(s) && Runs(s, es)
    decreases |es|
  {
    if es == [] then NOTHING else Plus(TallyOf(s, es[0]), Tallies(Next(s, es[0]), es[1..]))
  }

  lemma StepCredit(s: Sched, e: Event, q: int)
    requires Inv(s, q) && Enabled(s, e) && FreeIdle(s)
    ensures var t := TallyOf(s, e);
      Credit(Next(s, e)) == Credit(s) + t.spare + t.empty - t.used - t.stolen - t.dropped
  {
    hide Next, Count, QuantaOk, KeyboardOk, SemsOk, OnePlaceEach, CallsOk, TallyOf;
    var r, x := Next(s, e), Touched(s, e);
    StepWoken(s, e, q, x);
    CountBut(s.tcb, r.tcb, IsOwed, x);
    SlotCredit(s, e, q, x);
  }

  lemma SlotCredit(s: Sched, e: Event, q: int, x: Slot)
    requires Inv(s, q) && Enabled(s, e) && FreeIdle(s) && x == Touched(s, e)
    ensures var r, t := Next(s, e), TallyOf(s, e);
      |r.kb.buffer| - One(IsOwed(r.tcb[x]))
      == |s.kb.buffer| - One(IsOwed(s.tcb[x])) + t.spare + t.empty - t.used - t.stolen - t.dropped
  {
    hide OnePlaceEach, QuantaOk, KeyboardOk, SemsOk, Sweep, Schedule, Dispatch, BlockStep, SpawnStep, GetKeyStep,
      SemCreateStep, SemWaitStep, SemSignalStep;
    Apart(s);
    if e.Key? {
      if s.keyq != [] { assert s.keyq[0] in s.keyq; }
    } else if !e.Resume? {
      QuietStep(s, e, q, x);
    }
  }

  /** The credit of every state of every run. */
  lemma {:induction false} RunCredit(s: Sched, es: seq<Event>, q: int)
    requires Inv(s, q) && FreeIdle(s) && Runs(s, es)
    ensures var t := Tallies(s, es);
      Credit(After(s, es)) == Credit(s) + t.spare + t.empty - t.used - t.stolen - t.dropped
    decreases |es|
  {
    hide Next, TallyOf, Credit;
    if es != [] {
      StepCredit(s, es[0], q);
      StepKeepsInv(s, es[0], q);
      FreeStaysIdle(s, es[0], q);
      RunCredit(Next(s, es[0]), es[1..], q);
    }
  }

  lemma {:induction false} OwedOne(tcb: seq<Tcb>, t: Slot)
    requires t < |tcb| && IsOwed(tcb[t])
    ensures Owed(tcb) >= 1
  {
    if t > 0 { OwedOne(tcb[1..], t - 1); }
  }

  /** Nobody is short of a character, now or later in the run. */
  ghost predicate NeverShort(s: Sched, es: seq<Event>)
    requires WellFormed(s) && Runs(s, es)
    decreases |es|
  {
    Credit(s) >= 0 && (es == [] || NeverShort(Next(s, es[0]), es[1..]))
  }

  /** Over a whole run nobody is ever short exactly if no character is stolen or dropped. */
  lemma {:induction false} NeverShortIff(s: Sched, es: seq<Event>, q: int)
    requires Inv(s, q) && FreeIdle(s) && Runs(s, es) && Credit(s) >= 0
    ensures NeverShort(s, es) <==> Tallies(s, es).stolen == 0 && Tallies(s, es).dropped == 0
    ensures NeverShort(s, es) ==> Credit(After(s, es)) >= 0
    decreases |es|
  {
    hide Next, TallyOf, Credit, OnePlaceEach, QuantaOk, CallsOk, SemsOk;
    if es != [] {
      ShortIff(s, es[0], q);
      StepKeepsInv(s, es[0], q);
      FreeStaysIdle(s, es[0], q);
      if Credit(Next(s, es[0])) >= 0 {
        NeverShortIff(Next(s, es[0]), es[1..], q);
      }
    }
  }

  /** In every run from boot, a reader that was released by a key with time left returns -EAGAIN
      because the buffer is empty exactly if the characters used, stolen and dropped so far outnumber
      the spare ones, and the calls that already went without, by as many as readers are owed one now.
      So every such reader gets a character as long as none is stolen or dropped. */
  lemma KeyReaderServedIff(n: nat, q: int, capacity: nat, sems: nat, es: seq<Event>)
    requires n >= 2 && q >= 1 && Runs(Booted(n, q, capacity, sems), es)
    requires var s := After(Booted(n, q, capacity, sems), es);
      Enabled(s, Resume) && IsOwed(s.tcb[s.current])
    ensures var s, t := After(Booted(n, q, capacity, sems), es), Tallies(Booted(n, q, capacity, sems), es);
      && ResumeResult(s) != TimedOut
      && (s.kb.buffer == [] <==> t.used + t.stolen + t.dropped == t.spare + t.empty + Owed(s.tcb))
      && (ResumeResult(s) == TryAgain <==> s.kb.buffer == [] || s.kb.buffer[0] == -1)
      && (t.stolen == 0 && t.dropped == 0 ==> s.kb.buffer != [])
  {
    hide Next, Runs, Tallies, Booted, OnePlaceEach, StatesOk, QuantaOk, KeyboardOk, SemsOk;
    var s0 := Booted(n, q, capacity, sems);
    BootedInv(n, q, capacity, sems);
    BootedQuiet(n, q, capacity, sems);
    EveryRun(n, q, capacity, sems, es);
    var s := After(s0, es);
    RunCredit(s0, es, q);
    NeverShortIff(s0, es, q);
    OwedOne(s.tcb, s.current);
  }

  lemma BootedQuiet(n: nat, q: int, capacity: nat, sems: nat)
    requires n >= 2
    ensures var s := Booted(n, q, capacity, sems);
      && WellFormed(s) && FreeIdle(s) && Credit(s) == 0 && s.kb.pending == 0 && Woken(s.tcb) == 0
      && |s.tcb| == n && forall t :: 0 <= t < n ==> s.tcb[t].call == NoCall
  {
    hide Count;
    NobodyWoken(Booted(n, q, capacity, sems).tcb);
  }

  /** When a getKey with nobody queued before it takes a character without blocking: exactly if there
      is one and the drift so far makes up for all the readers released but not back yet.  So without
      drift it takes a character only when none is owed to a reader. */
  lemma TakesWithoutBlockingIff(n: nat, q: int, capacity: nat, sems: nat, es: seq<Event>)
    requires n >= 2 && q >= 1 && Runs(Booted(n, q, capacity, sems), es)
    ensures var s, d := After(Booted(n, q, capacity, sems), es), Drifts(Booted(n, q, capacity, sems), es);
      && (!MustBlock(s) <==> s.keyq == [] && s.kb.buffer != [] && Woken(s.tcb) + d <= 0)
      && (!MustBlock(s) && Owed(s.tcb) > 0 ==> d < 0)
  {
    hide Next, Runs, Booted, Inv, Count;
    var s0 := Booted(n, q, capacity, sems);
    BootedInv(n, q, capacity, sems);
    BootedQuiet(n, q, capacity, sems);
    PendingCounts(s0, es, q);
    OwedAreWoken(After(s0, es).tcb);
  }

  lemma {:induction false} OwedAreWoken(tcb: seq<Tcb>)
    ensures Owed(tcb) <= Woken(tcb)
  {
    if tcb != [] { OwedAreWoken(tcb[1..]); }
  }

  /** As long as nobody is short, a step makes somebody short exactly if it steals a character, or
      drops one, and then on a buffer whose every character is owed. */
  lemma ShortIff(s: Sched, e: Event, q: int)
    requires Inv(s, q) && Enabled(s, e) && FreeIdle(s) && Credit(s) >= 0
    ensures Credit(Next(s, e)) < 0 <==> TallyOf(s, e).stolen == 1 || TallyOf(s, e).dropped == 1
    ensures TallyOf(s, e).stolen <= 1 && TallyOf(s, e).dropped <= 1
    ensures TallyOf(s, e).dropped == 1 ==> Owed(s.tcb) == |s.kb.buffer| == s.kb.capacity
  {
    hide Next, Count, OnePlaceEach, StatesOk, QuantaOk, CallsOk, SemsOk;
    StepCredit(s, e, q);
  }
}
