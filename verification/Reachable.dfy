/** The invariant of every reachable scheduler state, and its preservation by every step. */
module Reachable {
  import opened Semaphores
  import opened Scheduler
  import opened Partition

  /** The running task is marked Run; a task parked in `blocked` or `keyq` never is, so that
      update_process_state_rr unlinks exactly the tasks that are linked. */
  ghost predicate StatesOk(s: Sched) {
    && WellFormed(s)
    && s.tcb[s.current].state == Run
    && (forall t :: t in s.blocked ==> s.tcb[t].state != Run)
    && (forall t :: t in s.keyq ==> s.tcb[t].state != Run)
  }

  ghost predicate QuantaOk(s: Sched, q: int) {
    && WellFormed(s)
    && 1 <= s.remaining <= q
    && forall t :: 0 <= t < |s.tcb| && t !in s.free ==> s.tcb[t].quantum == q
  }

  predicate CallOk(b: Tcb) {
    b.call.Call? ==>
      match b.call.wake
      case NotBlocked => b.keyTimeout == b.call.asked
      case Waiting => b.keyTimeout > 0 <==> b.call.asked > 0
      case ByKey => b.keyTimeout > 0 <==> b.call.asked > 0
      case BySweep => b.keyTimeout == 0 && b.call.asked > 0
  }

  /** The readers parked in `keyq` are exactly those waiting inside getKey. */
  ghost predicate CallsOk(s: Sched) {
    && WellFormed(s)
    && forall t :: 0 <= t < |s.tcb| ==>
         CallOk(s.tcb[t]) && (t in s.keyq <==> s.tcb[t].call.Call? && s.tcb[t].call.wake == Waiting)
  }

  function NonError(cs: seq<int>): seq<int> {
    if cs == [] then []
    else NonError(cs[..|cs| - 1]) + (if cs[|cs| - 1] == -1 then [] else [cs[|cs| - 1]])
  }

  /** No accepted character is lost, duplicated or reordered; the only ones popped but not handed
      over are those equal to the error value -1. */
  ghost predicate KeyboardOk(k: Keyboard) {
    && |k.buffer| <= k.capacity
    && k.accepted == k.taken + k.buffer
    && k.delivered == NonError(k.taken)
  }

  ghost predicate SemsOk(s: Sched) {
    && WellFormed(s)
    && (forall i :: 0 <= i < |s.sems| ==> Fair(s.sems[i]))
    && (forall i :: 0 <= i < |s.freesem| ==> s.sems[s.freesem[i]].queue == [])
    && (forall i, j :: 0 <= i < j < |s.freesem| ==> s.freesem[i] != s.freesem[j])
  }

  ghost predicate Inv(s: Sched, q: int) {
    OnePlaceEach(s) && StatesOk(s) && QuantaOk(s, q) && CallsOk(s) && KeyboardOk(s.kb) && SemsOk(s)
  }

  // ---------------------------------------------------------------- one place means one place

  lemma OnceAtMost(s: Sched, t: Slot)
    requires OnePlaceEach(s)
    ensures Population(s)[t] <= 1
  {
    if t >= |s.tcb| && t in Population(s) {
      assert t in SemQueued(s.sems);
      SemQueuedInRange(s.sems, |s.tcb|, t);
    }
  }

  lemma {:induction false} SemQueuedInRange(sems: seq<Sem>, n: nat, t: Slot)
    requires forall i :: 0 <= i < |sems| ==> InRange(sems[i].queue, n)
    requires t in SemQueued(sems)
    ensures t < n
  {
    if t in sems[0].queue {
    } else {
      SemQueuedInRange(sems[1..], n, t);
    }
  }

  ghost predicate ApartAt(s: Sched, t: Slot) {
    && (t in s.keyq ==> t != s.current && t !in s.ready && t !in s.blocked && t !in s.free)
    && (t in s.blocked ==> t != s.current && t !in s.ready && t !in s.free)
    && (t in s.free ==> t != s.current && t !in s.ready)
    && (t in s.ready ==> t != s.current)
  }

  lemma Apart(s: Sched)
    requires OnePlaceEach(s)
    ensures forall t {:trigger t in s.keyq} {:trigger t in s.blocked} {:trigger t in s.free} {:trigger t in s.ready} ::
              ApartAt(s, t)
    ensures s.idle !in s.keyq && s.idle !in s.blocked && s.idle !in s.free
  {
    forall t: Slot
      ensures ApartAt(s, t)
    {
      OnceAtMost(s, t);
      var linked := multiset(s.ready)[t] + multiset(s.blocked)[t] + multiset(s.keyq)[t] + multiset(s.free)[t];
      assert Population(s)[t] >= (if t == s.current then 1 else 0) + linked;
    }
  }

  lemma {:induction false} SemMember(sems: seq<Sem>, t: Slot) returns (i: nat)
    requires t in SemQueued(sems)
    ensures i < |sems| && t in sems[i].queue
  {
    if t in sems[0].queue {
      i := 0;
    } else {
      i := SemMember(sems[1..], t);
      i := i + 1;
    }
  }

  lemma SemTwice(sems: seq<Sem>, i: nat, j: nat, t: Slot)
    requires i < |sems| && j < |sems| && i != j && t in sems[i].queue && t in sems[j].queue
    ensures SemQueued(sems)[t] >= 2
  {
    var none := sems[i].(queue := []);
    SemUpdate(sems, i, none);
    SemUpdate(sems[i := none], j, none);
    assert (SemQueued(sems[i := none]) + multiset(sems[i].queue))[t] == (SemQueued(sems) + multiset(none.queue))[t];
    assert multiset(sems[i := none][j].queue)[t] <= SemQueued(sems[i := none])[t];
  }

  /** Queue partition: a task other than idle is running, or in exactly one of the ready, blocked,
      key and free queues, or in the queue of exactly one semaphore, and once only. */
  lemma QueuePartition(s: Sched, t: Slot)
    requires OnePlaceEach(s) && t < |s.tcb| && t != s.idle
    ensures t == s.current || t in s.ready || t in s.blocked || t in s.keyq || t in s.free
            || exists i :: 0 <= i < |s.sems| && t in s.sems[i].queue
    ensures ApartAt(s, t)
    ensures forall i :: 0 <= i < |s.sems| && t in s.sems[i].queue ==>
      t != s.current && t !in s.ready && t !in s.blocked && t !in s.keyq && t !in s.free
    ensures forall i, j ::
      0 <= i < |s.sems| && 0 <= j < |s.sems| && t in s.sems[i].queue && t in s.sems[j].queue ==> i == j
  {
    var here := One(t == s.current) + multiset(s.ready)[t] + multiset(s.blocked)[t] + multiset(s.keyq)[t]
                + multiset(s.free)[t];
    assert Population(s)[t] == here + SemQueued(s.sems)[t];
    Apart(s);
    if here == 0 {
      var i := SemMember(s.sems, t);
    }
    forall i | 0 <= i < |s.sems| && t in s.sems[i].queue ensures here == 0 {
      SemUpdate(s.sems, i, s.sems[i]);
      assert SemQueued(s.sems)[t] >= multiset(s.sems[i].queue)[t];
    }
    forall i, j | 0 <= i < |s.sems| && 0 <= j < |s.sems| && t in s.sems[i].queue && t in s.sems[j].queue
      ensures i == j
    {
      if i != j { SemTwice(s.sems, i, j, t); }
    }
  }

  function One(b: bool): nat { if b then 1 else 0 }

  lemma NoRepeat(q: seq<Slot>, t: Slot)
    requires q != [] && multiset(q)[q[0]] <= 1
    ensures q[0] !in q[1..]
  {
    Uncons(q);
  }

  /** A reader is in the key queue once only. */
  lemma FirstReaderOnce(s: Sched)
    requires OnePlaceEach(s) && s.keyq != []
    ensures s.keyq[0] !in s.keyq[1..]
  {
    OnceAtMost(s, s.keyq[0]);
    assert multiset(s.keyq)[s.keyq[0]] <= Population(s)[s.keyq[0]];
    NoRepeat(s.keyq, s.keyq[0]);
  }

  // ---------------------------------------------------------------- states, quanta and calls

  /** Dispatch changes one state field, the CPU owner and the remaining quantum. */
  lemma DispatchKeeps(s: Sched, q: int)
    requires WellFormed(s) && q >= 1
    requires forall t :: t in s.blocked ==> s.tcb[t].state != Run && t !in s.ready
    requires forall t :: t in s.keyq ==> s.tcb[t].state != Run && t !in s.ready
    requires s.idle !in s.blocked && s.idle !in s.keyq && s.idle !in s.free
    requires forall t :: 0 <= t < |s.tcb| && t !in s.free ==> s.tcb[t].quantum == q
    requires forall t :: t in s.ready ==> t !in s.free
    requires CallsOk(s)
    ensures StatesOk(Dispatch(s)) && QuantaOk(Dispatch(s), q) && CallsOk(Dispatch(s))
  {
  }

  ghost predicate TcbsOk(s: Sched, q: int) {
    StatesOk(s) && QuantaOk(s, q) && CallsOk(s)
  }

  lemma SweepStates(s: Sched)
    requires OnePlaceEach(s) && StatesOk(s)
    ensures StatesOk(Sweep(s))
  {
  }

  lemma SweepCalls(s: Sched)
    requires CallsOk(s)
    ensures CallsOk(Sweep(s))
  {
  }

  lemma SweepKeeps(s: Sched, q: int)
    requires OnePlaceEach(s) && TcbsOk(s, q)
    ensures TcbsOk(Sweep(s), q)
  {
    SweepStates(s);
    SweepCalls(s);
  }

  lemma ScheduleKeeps(s: Sched, q: int)
    requires OnePlaceEach(s) && TcbsOk(s, q)
    ensures TcbsOk(Schedule(s), q)
  {
    hide OnePlaceEach, Dispatch, KeepsShape;
    Apart(s);
    if s.remaining == 1 && s.ready != [] {
      DispatchKeeps(Preempt(s.(remaining := 0)), q);
    }
  }

  lemma SweepPlaces(s: Sched)
    requires OnePlaceEach(s)
    ensures OnePlaceEach(Sweep(s))
  {
    SweepConserves(s);
  }

  lemma WakeKeeps(s: Sched, q: int)
    requires OnePlaceEach(s) && TcbsOk(s, q) && s.keyq != []
    ensures TcbsOk(WakeFirst(s), q)
  {
    Apart(s);
    FirstReaderOnce(s);
  }

  lemma KeyKeeps(s: Sched, q: int, c: int)
    requires OnePlaceEach(s) && TcbsOk(s, q)
    ensures TcbsOk(KeyStep(s, c), q)
  {
    hide OnePlaceEach, WakeFirst;
    if s.keyq != [] { WakeKeeps(s, q); }
  }

  lemma YieldKeeps(s: Sched, q: int)
    requires OnePlaceEach(s) && TcbsOk(s, q)
    ensures TcbsOk(Dispatch(Preempt(s)), q)
  {
    hide OnePlaceEach, Dispatch, KeepsShape;
    Apart(s);
    DispatchKeeps(Preempt(s), q);
  }

  lemma BlockKeeps(s: Sched, q: int)
    requires OnePlaceEach(s) && TcbsOk(s, q) && s.current != s.idle
    ensures TcbsOk(BlockStep(s), q)
  {
    hide OnePlaceEach, Dispatch, KeepsShape;
    Apart(s);
    if s.tcb[s.current].pendingUnblocks == 0 {
      DispatchKeeps(Leave(s, Blocked).(blocked := s.blocked + [s.current]), q);
    }
  }

  lemma ExitKeeps(s: Sched, q: int)
    requires OnePlaceEach(s) && TcbsOk(s, q) && s.current != s.idle
    ensures TcbsOk(ExitStep(s), q)
  {
    hide OnePlaceEach, Dispatch, KeepsShape;
    Apart(s);
    DispatchKeeps(s.(free := s.free + [s.current]), q);
  }

  lemma SpawnKeeps(s: Sched, q: int, ok: bool)
    requires OnePlaceEach(s) && TcbsOk(s, q) && s.tcb[s.current].call == NoCall
    ensures TcbsOk(SpawnStep(s, ok), q)
  {
    hide OnePlaceEach, KeepsShape;
    Apart(s);
  }

  lemma GetKeyKeeps(s: Sched, q: int, timeout: int)
    requires OnePlaceEach(s) && TcbsOk(s, q) && s.current != s.idle
    ensures TcbsOk(GetKeyStep(s, timeout), q)
  {
    hide OnePlaceEach, Dispatch, KeepsShape;
    Apart(s);
    if MustBlock(s) {
      var b := s.tcb[s.current].(keyTimeout := timeout, state := Blocked, call := Call(timeout, Waiting));
      DispatchKeeps(s.(tcb := s.tcb[s.current := b], keyq := s.keyq + [s.current]), q);
    }
  }

  lemma ResumeKeeps(s: Sched, q: int)
    requires OnePlaceEach(s) && TcbsOk(s, q)
    ensures TcbsOk(ResumeStep(s), q)
  {
    Apart(s);
    var r := ResumeStep(s);
    assert r.tcb == s.tcb[s.current := s.tcb[s.current].(call := NoCall)];
    assert r == s.(tcb := r.tcb, kb := r.kb);
  }

  lemma SemKeeps(s: Sched, q: int, i: nat)
    requires OnePlaceEach(s) && TcbsOk(s, q) && s.current != s.idle && i < |s.sems|
    ensures TcbsOk(SemWaitStep(s, i), q)
    ensures SignalSafe(s.sems[i]) ==> TcbsOk(SemSignalStep(s, i), q)
  {
    hide OnePlaceEach, Dispatch, KeepsShape;
    Apart(s);
    if s.sems[i].count - 1 < 0 {
      DispatchKeeps(s.(sems := s.sems[i := Wait(s.sems[i], s.current)]), q);
    }
  }

  lemma SemCreateKeeps(s: Sched, q: int, v: int)
    requires TcbsOk(s, q)
    ensures TcbsOk(SemCreateStep(s, v), q)
  {
  }

  lemma StepKeepsTcbs(s: Sched, e: Event, q: int)
    requires OnePlaceEach(s) && TcbsOk(s, q) && Enabled(s, e)
    ensures TcbsOk(Next(s, e), q)
  {
    hide TcbsOk, Sweep, Schedule, KeyStep, Dispatch, Preempt, BlockStep, ExitStep, SpawnStep, GetKeyStep, ResumeStep,
      SemWaitStep, SemSignalStep;
    match e
    case Tick => SweepKeeps(s, q); SweepPlaces(s); ScheduleKeeps(Sweep(s), q);
    case Key(c) => KeyKeeps(s, q, c);
    case Yield => YieldKeeps(s, q);
    case Block => BlockKeeps(s, q);
    case Exit => ExitKeeps(s, q);
    case Spawn(ok) => SpawnKeeps(s, q, ok);
    case GetKey(timeout) => GetKeyKeeps(s, q, timeout);
    case Resume => ResumeKeeps(s, q);
    case SemCreate(v) => SemCreateKeeps(s, q, v);
    case SemWait(i) => SemKeeps(s, q, i);
    case SemSignal(i) => SemKeeps(s, q, i);
  }

  // ---------------------------------------------------------------- keyboard and semaphores

  /** Ticks and system calls other than a returning getKey leave the keyboard alone. */
  lemma KeyboardFrame(s: Sched, e: Event)
    requires WellFormed(s) && Enabled(s, e) && !e.Key? && !e.Resume?
    ensures Next(s, e).kb == s.kb
  {
    hide Select, KeepsShape;
  }

  lemma ResumeKeepsKeyboard(s: Sched)
    requires WellFormed(s) && KeyboardOk(s.kb)
    ensures KeyboardOk(ResumeStep(s).kb)
  {
    var k, k' := s.kb, ResumeStep(s).kb;
    if s.tcb[s.current].keyTimeout > 0 && k.buffer != [] {
      assert k'.taken[..|k.taken|] == k.taken;
      assert k.buffer == [k.buffer[0]] + k.buffer[1..];
      assert k'.taken + k'.buffer == k.taken + ([k.buffer[0]] + k.buffer[1..]);
    }
  }

  lemma StepKeepsKeyboard(s: Sched, e: Event)
    requires WellFormed(s) && Enabled(s, e) && KeyboardOk(s.kb)
    ensures KeyboardOk(Next(s, e).kb)
  {
    hide ResumeStep, NonError, Dispatch, Schedule, Sweep, KeepsShape;
    if e.Resume? {
      ResumeKeepsKeyboard(s);
    } else if !e.Key? {
      KeyboardFrame(s, e);
    }
  }

  lemma SemUpdateOk(s: Sched, i: nat, x: Sem)
    requires SemsOk(s) && i < |s.sems| && i !in s.freesem && Fair(x) && InRange(x.queue, |s.tcb|)
    ensures SemsOk(s.(sems := s.sems[i := x]))
  {
  }

  lemma SemsFrame(s: Sched, r: Sched)
    requires SemsOk(s) && WellFormed(r) && r.sems == s.sems && r.freesem == s.freesem
    ensures SemsOk(r)
  {
  }

  lemma OtherStepsFrame(s: Sched, e: Event)
    requires WellFormed(s) && Enabled(s, e) && !e.SemCreate? && !e.SemWait? && !e.SemSignal?
    ensures Next(s, e).sems == s.sems && Next(s, e).freesem == s.freesem
  {
  }

  lemma CreateKeepsSems(s: Sched, v: int)
    requires SemsOk(s)
    ensures SemsOk(SemCreateStep(s, v))
  {
    hide Fair;
    CreateFair(v);
  }

  lemma WaitKeepsSems(s: Sched, i: nat)
    requires SemsOk(s) && i < |s.sems| && i !in s.freesem
    ensures SemsOk(SemWaitStep(s, i))
  {
    hide Fair;
    WaitFair(s.sems[i], s.current);
    SemUpdateOk(s, i, Wait(s.sems[i], s.current));
    SemsFrame(s.(sems := s.sems[i := Wait(s.sems[i], s.current)]), SemWaitStep(s, i));
  }

  lemma SignalKeepsSems(s: Sched, i: nat)
    requires SemsOk(s) && i < |s.sems| && i !in s.freesem && SignalSafe(s.sems[i])
    ensures SemsOk(SemSignalStep(s, i))
  {
    hide Fair;
    SignalFair(s.sems[i]);
    SemUpdateOk(s, i, Signal(s.sems[i]));
    SemsFrame(s.(sems := s.sems[i := Signal(s.sems[i])]), SemSignalStep(s, i));
  }

  lemma StepKeepsSems(s: Sched, e: Event)
    requires WellFormed(s) && Enabled(s, e) && SemsOk(s)
    ensures SemsOk(Next(s, e))
  {
    hide Fair, Sweep, Schedule, KeyStep, SpawnStep, GetKeyStep, ResumeStep, BlockStep, Dispatch, SemsOk;
    match e
    case SemCreate(v) => CreateKeepsSems(s, v);
    case SemWait(i) => WaitKeepsSems(s, i);
    case SemSignal(i) => SignalKeepsSems(s, i);
    case _ => OtherStepsFrame(s, e); SemsFrame(s, Next(s, e));
  }

  /** Every step keeps the whole invariant. */
  lemma StepKeepsInv(s: Sched, e: Event, q: int)
    requires Inv(s, q) && Enabled(s, e)
    ensures Inv(Next(s, e), q)
  {
    StepKeepsPlaces(s, e);
    StepKeepsTcbs(s, e, q);
    StepKeepsKeyboard(s, e);
    StepKeepsSems(s, e);
  }

  // ---------------------------------------------------------------- runs

  lemma {:induction false} RunKeepsInv(s: Sched, es: seq<Event>, q: int)
    requires Inv(s, q) && Runs(s, es)
    ensures Inv(After(s, es), q)
    decreases |es|
  {
    if es != [] {
      StepKeepsInv(s, es[0], q);
      RunKeepsInv(Next(s, es[0]), es[1..], q);
    }
  }
}
