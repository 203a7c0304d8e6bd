/** The kernel's process state machine: round-robin scheduling, the blocking queues, the keyboard
    protocol and the semaphores.  Interrupts are off inside every handler, so each event below is
    one atomic step of the kernel. */
module Scheduler {
  import opened Semaphores

  /** A task is named by its index in the kernel's task array. */
  type Slot = nat

  datatype RunState = Run | Ready | Blocked

  /** How a pending getKey call came to run again. */
  datatype Wake = NotBlocked | Waiting | ByKey | BySweep

  datatype KeyCall = NoCall | Call(asked: int, wake: Wake)

  /** `call` is history: the getKey call in progress, if any.  The other fields are the kernel's. */
  datatype Tcb = Tcb(state: RunState, quantum: int, pendingUnblocks: int, keyTimeout: int, call: KeyCall)

  /** Characters are the signed values of a C `char`.  `accepted`, `taken` and `delivered` are the
      history of characters pushed, popped, and handed to a user process. */
  datatype Keyboard = Keyboard(
    capacity: nat, buffer: seq<int>, makeFlag: bool, pending: int,
    accepted: seq<int>, taken: seq<int>, delivered: seq<int>)

  datatype Sched = Sched(
    tcb: seq<Tcb>, idle: Slot, current: Slot, remaining: int,
    ready: seq<Slot>, blocked: seq<Slot>, keyq: seq<Slot>, free: seq<Slot>,
    sems: seq<Sem>, freesem: seq<nat>, kb: Keyboard)

  /** One atomic kernel step.  `Spawn` is fork or threadCreateWithStack; `ok` says whether memory
      could be found for the new task. */
  datatype Event =
    | Tick | Key(c: int)
    | Yield | Block | Exit | Spawn(ok: bool)
    | GetKey(timeout: int) | Resume
    | SemCreate(v: int) | SemWait(i: nat) | SemSignal(i: nat)

  predicate InRange(q: seq<Slot>, n: nat) {
    forall i :: 0 <= i < |q| ==> q[i] < n
  }

  predicate WellFormed(s: Sched) {
    && s.current < |s.tcb| && s.idle < |s.tcb|
    && InRange(s.ready, |s.tcb|) && InRange(s.blocked, |s.tcb|)
    && InRange(s.keyq, |s.tcb|) && InRange(s.free, |s.tcb|)
    && InRange(s.freesem, |s.sems|)
    && forall i :: 0 <= i < |s.sems| ==> InRange(s.sems[i].queue, |s.tcb|)
  }

  /** What no step changes: the task array, the idle task, the semaphore pool, the buffer size. */
  predicate KeepsShape(s: Sched, r: Sched) {
    && WellFormed(r) && |r.tcb| == |s.tcb| && r.idle == s.idle
    && |r.sems| == |s.sems| && r.kb.capacity == s.kb.capacity
  }

  // ---------------------------------------------------------------- scheduling primitives

  /** update_process_state_rr for a running task. */
  function Leave(s: Sched, dst: RunState): (r: Sched)
    requires WellFormed(s)
    ensures KeepsShape(s, r)
  {
    s.(tcb := s.tcb[s.current := s.tcb[s.current].(state := dst)])
  }

  function Preempt(s: Sched): (r: Sched)
    requires WellFormed(s)
    ensures KeepsShape(s, r)
  {
    Leave(s, Ready).(ready := s.ready + [s.current])
  }

  /** sched_next_rr. */
  function Dispatch(s: Sched): (r: Sched)
    requires WellFormed(s)
    ensures KeepsShape(s, r)
  {
    var t := if s.ready != [] then s.ready[0] else s.idle;
    s.(ready := if s.ready != [] then s.ready[1..] else [],
       tcb := s.tcb[t := s.tcb[t].(state := Run)],
       remaining := s.tcb[t].quantum,
       current := t)
  }

  /** schedule: spend one tick of the quantum, and switch when it is used up and somebody waits. */
  function Schedule(s: Sched): (r: Sched)
    requires WellFormed(s)
    ensures KeepsShape(s, r)
  {
    var s1 := s.(remaining := s.remaining - 1);
    if s1.remaining == 0 && s1.ready != [] then Dispatch(Preempt(s1))
    else if s1.remaining == 0 then s1.(remaining := s1.tcb[s1.current].quantum)
    else s1
  }

  // ---------------------------------------------------------------- timeout sweep

  /** One tick of the timeout of a blocked reader. */
  function Age(b: Tcb): Tcb {
    if b.keyTimeout <= 0 then b
    else if b.keyTimeout == 1 then
      b.(keyTimeout := 0, state := Ready,
         call := if b.call.Call? then b.call.(wake := BySweep) else b.call)
    else b.(keyTimeout := b.keyTimeout - 1)
  }

  predicate Expiring(b: Tcb) { b.keyTimeout == 1 }

  /** The readers of `q`, in queue order, whose timeout expires (or does not) at this tick. */
  function Select(tcb: seq<Tcb>, q: seq<Slot>, expiring: bool): (r: seq<Slot>)
    requires InRange(q, |tcb|)
    ensures forall t :: t in r <==> t in q && t < |tcb| && Expiring(tcb[t]) == expiring
    ensures InRange(r, |tcb|)
  {
    if q == [] then []
    else
      var rest := Select(tcb, q[1..], expiring);
      if Expiring(tcb[q[0]]) == expiring then [q[0]] + rest else rest
  }

  /** key_timout_system: age every blocked reader, move the expired ones to the ready queue. */
  function Sweep(s: Sched): (r: Sched)
    requires WellFormed(s)
    ensures KeepsShape(s, r)
  {
    s.(tcb := seq(|s.tcb|, t requires 0 <= t < |s.tcb| => if t in s.keyq then Age(s.tcb[t]) else s.tcb[t]),
       ready := s.ready + Select(s.tcb, s.keyq, true),
       keyq := Select(s.tcb, s.keyq, false))
  }

  // ---------------------------------------------------------------- keyboard

  function Push(k: Keyboard, c: int): Keyboard {
    if |k.buffer| >= k.capacity then k
    else k.(buffer := k.buffer + [c], accepted := k.accepted + [c])
  }

  /** The first blocked reader becomes ready. */
  function WakeFirst(s: Sched): (r: Sched)
    requires WellFormed(s) && s.keyq != []
    ensures KeepsShape(s, r)
  {
    var t := s.keyq[0];
    var b := s.tcb[t];
    var call := if b.call.Call? then b.call.(wake := ByKey) else b.call;
    s.(tcb := s.tcb[t := b.(state := Ready, call := call)], keyq := s.keyq[1..], ready := s.ready + [t])
  }

  /** keyboard_routine: only every second interrupt (the key press) does anything. */
  function KeyStep(s: Sched, c: int): (r: Sched)
    requires WellFormed(s)
    ensures KeepsShape(s, r)
  {
    if !s.kb.makeFlag then s.(kb := s.kb.(makeFlag := true))
    else
      var k := Push(s.kb, c).(makeFlag := false);
      if s.keyq == [] then s.(kb := k)
      else WakeFirst(s).(kb := k.(pending := k.pending + 1))
  }

  predicate MustBlock(s: Sched) {
    s.kb.pending > 0 || s.kb.buffer == [] || s.keyq != []
  }

  /** sys_getKey up to the point where the caller owns the CPU again. */
  function GetKeyStep(s: Sched, timeout: int): (r: Sched)
    requires WellFormed(s)
    ensures KeepsShape(s, r)
  {
    var b := s.tcb[s.current].(keyTimeout := timeout);
    if MustBlock(s) then
      Dispatch(s.(tcb := s.tcb[s.current := b.(state := Blocked, call := Call(timeout, Waiting))],
                  keyq := s.keyq + [s.current]))
    else s.(tcb := s.tcb[s.current := b.(call := Call(timeout, NotBlocked))])
  }

  datatype KeyResult = Got(c: int) | TimedOut | TryAgain

  /** What the rest of sys_getKey returns to the caller. */
  function ResumeResult(s: Sched): KeyResult
    requires WellFormed(s)
  {
    if s.tcb[s.current].keyTimeout <= 0 then TimedOut
    else if s.kb.buffer == [] || s.kb.buffer[0] == -1 then TryAgain
    else Got(s.kb.buffer[0])
  }

  /** The rest of sys_getKey: a timed-out call touches nothing, any other call takes a character. */
  function ResumeStep(s: Sched): (r: Sched)
    requires WellFormed(s)
    ensures KeepsShape(s, r)
  {
    var s1 := s.(tcb := s.tcb[s.current := s.tcb[s.current].(call := NoCall)]);
    var k := s.kb;
    if s.tcb[s.current].keyTimeout <= 0 then s1
    else if k.buffer == [] then s1.(kb := k.(pending := k.pending - 1))
    else
      var c := k.buffer[0];
      s1.(kb := k.(pending := k.pending - 1, buffer := k.buffer[1..], taken := k.taken + [c],
                   delivered := if c == -1 then k.delivered else k.delivered + [c]))
  }

  // ---------------------------------------------------------------- process and semaphore calls

  /** sys_block. */
  function BlockStep(s: Sched): (r: Sched)
    requires WellFormed(s)
    ensures KeepsShape(s, r)
  {
    var b := s.tcb[s.current];
    if b.pendingUnblocks == 0 then Dispatch(Leave(s, Blocked).(blocked := s.blocked + [s.current]))
    else if b.pendingUnblocks > 0 then
      s.(tcb := s.tcb[s.current := b.(pendingUnblocks := b.pendingUnblocks - 1)])
    else s
  }

  /** The slot handling of sys_exit. */
  function ExitStep(s: Sched): (r: Sched)
    requires WellFormed(s)
    ensures KeepsShape(s, r)
  {
    Dispatch(s.(free := s.free + [s.current]))
  }

  /** The slot handling of sys_fork and sys_threadCreateWithStack: the child starts as a copy of
      the caller; when memory is short the slot goes back to the other end of the free queue. */
  function SpawnStep(s: Sched, ok: bool): (r: Sched)
    requires WellFormed(s)
    ensures KeepsShape(s, r)
  {
    if s.free == [] then s
    else
      var c := s.free[0];
      var copy := s.tcb[s.current];
      if ok then
        s.(free := s.free[1..], ready := s.ready + [c],
           tcb := s.tcb[c := copy.(state := Ready, pendingUnblocks := 0)])
      else
        s.(free := s.free[1..] + [c], tcb := s.tcb[c := copy])
  }

  function SemCreateStep(s: Sched, v: int): (r: Sched)
    requires WellFormed(s)
    ensures KeepsShape(s, r)
  {
    if s.freesem == [] then s
    else s.(sems := s.sems[s.freesem[0] := Create(v)], freesem := s.freesem[1..])
  }

  /** sys_semWait leaves the state field alone. */
  function SemWaitStep(s: Sched, i: nat): (r: Sched)
    requires WellFormed(s) && i < |s.sems|
    ensures KeepsShape(s, r)
  {
    var s1 := s.(sems := s.sems[i := Wait(s.sems[i], s.current)]);
    if s.sems[i].count - 1 < 0 then
      assert InRange(s1.sems[i].queue, |s.tcb|);
      Dispatch(s1)
    else s1
  }

  function SemSignalStep(s: Sched, i: nat): (r: Sched)
    requires WellFormed(s) && i < |s.sems| && SignalSafe(s.sems[i])
    ensures KeepsShape(s, r)
  {
    var s1 := s.(sems := s.sems[i := Signal(s.sems[i])]);
    if s.sems[i].count + 1 <= 0 then s1.(ready := s.ready + [s.sems[i].queue[0]]) else s1
  }

  // ---------------------------------------------------------------- steps and runs

  /** A task inside getKey finishes the call before anything else happens, because it was switched
      to with interrupts off.  The idle task makes no system calls.  Semaphores are used after
      creation, and signalled when that is safe. */
  predicate Enabled(s: Sched, e: Event)
    requires WellFormed(s)
  {
    && (s.tcb[s.current].call.Call? <==> e.Resume?)
    && (e.Tick? || e.Key? || s.current != s.idle)
    && (e.SemWait? ==> e.i < |s.sems| && e.i !in s.freesem)
    && (e.SemSignal? ==> e.i < |s.sems| && e.i !in s.freesem && SignalSafe(s.sems[e.i]))
  }

  function Next(s: Sched, e: Event): (r: Sched)
    requires WellFormed(s) && Enabled(s, e)
    ensures KeepsShape(s, r)
  {
    match e
    case Tick => Schedule(Sweep(s))
    case Key(c) => KeyStep(s, c)
    case Yield => Dispatch(Preempt(s))
    case Block => BlockStep(s)
    case Exit => ExitStep(s)
    case Spawn(ok) => SpawnStep(s, ok)
    case GetKey(timeout) => GetKeyStep(s, timeout)
    case Resume => ResumeStep(s)
    case SemCreate(v) => SemCreateStep(s, v)
    case SemWait(i) => SemWaitStep(s, i)
    case SemSignal(i) => SemSignalStep(s, i)
  }

  /** `es` can happen, event by event, from `s`. */
  ghost predicate Runs(s: Sched, es: seq<Event>)
    requires WellFormed(s)
    decreases |es|
  {
    es == [] || (
      && Enabled(s, es[0])
      && Runs(Next(s, es[0]), es[1..]))
  }

  /** The state after `es`. */
  ghost function After(s: Sched, es: seq<Event>): (r: Sched)
    requires WellFormed(s) && Runs(s, es)
    ensures KeepsShape(s, r)
    decreases |es|
  {
    if es == [] then s else After(Next(s, es[0]), es[1..])
  }
}
