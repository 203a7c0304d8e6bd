/** The scheduler and the memory manager together: one kernel state, one set of system calls. */
module WholeKernel {
  import opened Layout
  import opened Frames
  import S = Scheduler
  import P = Partition
  import R = Reachable
  import W = Waiting
  import B = Boot
  import M = Memory
  import MI = MemoryInv
  import MR = MemoryRuns
  import MB = MemoryBoot
  import MT = MemoryTheorems
  import LP = LowPages

  datatype State = State(s: S.Sched, m: M.Mem)

  /** A scheduler step that touches no memory, or a call that involves both. */
  datatype Event =
    | Plain(e: S.Event)
    | Fork
    | NewThread(pages: int)
    | Exit
    | Get(pages: int)
    | Del(k: nat)

  /** The slots in the free queue are exactly the slots memory considers free; idle owns none. */
  ghost predicate Coupled(k: State) {
    && |k.s.tcb| == |k.m.kinds| && k.s.idle < |k.m.kinds| && k.m.kinds[k.s.idle] == M.Idle
    && (forall t :: 0 <= t < |k.m.kinds| && t != k.s.idle ==> (t in k.s.free <==> k.m.kinds[t] == M.FreeSlot))
    && (forall t :: 0 <= t < |k.m.kinds| && k.m.kinds[t] == M.Idle ==> t == k.s.idle)
  }

  ghost predicate Inv(k: State, q: int) {
    R.Inv(k.s, q) && M.Inv(k.m) && Coupled(k)
  }

  /** The running task, unless it is idle, has memory; the free queue holds free slots. */
  lemma Runners(k: State, q: int)
    requires Inv(k, q)
    ensures k.s.current != k.s.idle ==> M.Live(k.m, k.s.current)
    ensures k.s.free != [] ==>
      k.s.free[0] < |k.m.kinds| && k.m.kinds[k.s.free[0]] == M.FreeSlot && k.s.free[0] != k.s.idle
    ensures k.s.free != [] ==> k.s.free[0] !in k.s.free[1..]
  {
    R.Apart(k.s);
    if k.s.free != [] {
      var c := k.s.free[0];
      assert c in k.s.free;
      R.OnceAtMost(k.s, c);
      assert multiset(k.s.free)[c] <= P.Population(k.s)[c];
      R.NoRepeat(k.s.free, c);
      assert c in P.Parked(k.s);
    }
  }

  /** The memory step of an event, if it takes one. */
  function MemStep(k: State, e: Event): (r: seq<M.Event>)
    ensures |r| <= 1
  {
    match e
    case Plain(_) => []
    case Fork => if k.s.free == [] then [] else [M.Fork(k.s.current, k.s.free[0])]
    case NewThread(n) =>
      if n >= TOTAL_PAGES - FIRST_FREE_PAGE || k.s.free == [] then []
      else [M.NewThread(k.s.current, k.s.free[0], n)]
    case Exit => [M.Exit(k.s.current)]
    case Get(n) => [M.Get(k.s.current, n)]
    case Del(c) => [M.Del(k.s.current, c)]
  }

  /** The memory after an event. */
  ghost function MemNext(k: State, e: Event): M.Mem
    requires M.Inv(k.m)
    requires forall i :: 0 <= i < |MemStep(k, e)| ==> M.Enabled(k.m, MemStep(k, e)[i])
  {
    if MemStep(k, e) == [] then k.m else M.Next(k.m, MemStep(k, e)[0])
  }

  /** The scheduler step of an event, if it takes one: fork and threadCreate put the new task in
      line when memory was found for it. */
  ghost function SchedStep(k: State, e: Event): (r: seq<S.Event>)
    requires M.Inv(k.m)
    requires forall i :: 0 <= i < |MemStep(k, e)| ==> M.Enabled(k.m, MemStep(k, e)[i])
    ensures |r| <= 1
  {
    match e
    case Plain(p) => [p]
    case Fork => [S.Spawn(MemNext(k, e).kinds != k.m.kinds)]
    case NewThread(n) =>
      if n >= TOTAL_PAGES - FIRST_FREE_PAGE then [] else [S.Spawn(MemNext(k, e).kinds != k.m.kinds)]
    case Exit => [S.Exit]
    case Get(_) => []
    case Del(_) => []
  }

  /** System calls come from a task that is not idle and not inside getKey. */
  ghost predicate Enabled(k: State, e: Event, q: int)
    requires Inv(k, q)
  {
    && (e.Plain? ==> S.Enabled(k.s, e.e) && !e.e.Spawn? && !e.e.Exit?)
    && (!e.Plain? ==> k.s.current != k.s.idle && !k.s.tcb[k.s.current].call.Call?)
    && (forall i :: 0 <= i < |MemStep(k, e)| ==> M.Enabled(k.m, MemStep(k, e)[i]))
  }

  lemma SchedEnabled(k: State, e: Event, q: int)
    requires Inv(k, q) && Enabled(k, e, q) && SchedStep(k, e) != []
    ensures S.Enabled(k.s, SchedStep(k, e)[0])
  {
    hide M.Next, M.Inv, Coupled, R.Inv;
  }

  ghost function Next(k: State, e: Event, q: int): State
    requires Inv(k, q) && Enabled(k, e, q)
  {
    hide M.Next, M.Inv, Coupled;
    var es := SchedStep(k, e);
    State(if es == [] then k.s else (SchedEnabled(k, e, q); S.Next(k.s, es[0])), MemNext(k, e))
  }

  // ---------------------------------------------------------------- the coupling is kept

  /** Scheduler steps other than Spawn and Exit leave the free queue alone. */
  lemma PlainKeepsFree(s: S.Sched, e: S.Event)
    requires S.WellFormed(s) && S.Enabled(s, e) && !e.Spawn? && !e.Exit?
    ensures S.Next(s, e).free == s.free
  {
  }

  lemma MemKinds(m: M.Mem, e: M.Event)
    requires M.Inv(m) && M.Enabled(m, e)
    ensures var r := M.Next(m, e);
      && |r.kinds| == |m.kinds|
      && (e.Get? || e.Del? ==> r.kinds == m.kinds)
      && (e.Exit? ==> r.kinds == m.kinds[e.t := M.FreeSlot])
      && (e.Fork? && r.kinds != m.kinds ==> r.kinds == m.kinds[e.child := M.Process(false, false)])
      && (e.NewThread? && r.kinds != m.kinds ==>
            && r.kinds[e.child].Thread?
            && forall t :: 0 <= t < |m.kinds| && t != e.child ==>
                 r.kinds[t] == m.kinds[t] || (m.kinds[t].Process? && r.kinds[t].Process?))
  {
  }

  lemma SpawnCoupled(k: State, m: M.Mem, q: int)
    requires Inv(k, q) && M.Inv(m) && |m.kinds| == |k.m.kinds| && k.s.free != []
    requires m.kinds != k.m.kinds ==>
      var c := k.s.free[0];
      && c < |m.kinds| && (m.kinds[c].Process? || m.kinds[c].Thread?)
      && forall t :: 0 <= t < |m.kinds| && t != c ==>
           m.kinds[t] == k.m.kinds[t] || (m.kinds[t].Process? && k.m.kinds[t].Process?)
    ensures Coupled(State(S.SpawnStep(k.s, m.kinds != k.m.kinds), m))
  {
    Runners(k, q);
    var s, s', c := k.s, S.SpawnStep(k.s, m.kinds != k.m.kinds), k.s.free[0];
    forall t ensures t in s'.free <==> t in s.free && (m.kinds == k.m.kinds || t != c) {
      assert s.free == [c] + s.free[1..];
    }
  }

  lemma ExitCoupled(k: State, m: M.Mem, q: int)
    requires Inv(k, q) && M.Inv(m) && k.s.current != k.s.idle && m.kinds == k.m.kinds[k.s.current := M.FreeSlot]
    ensures Coupled(State(S.ExitStep(k.s), m))
  {
    var s' := S.ExitStep(k.s);
    forall t ensures t in s'.free <==> t in k.s.free || t == k.s.current {
      assert t == k.s.current ==> s'.free[|k.s.free|] == t;
    }
  }

  lemma StepKeepsCoupled(k: State, e: Event, q: int)
    requires Inv(k, q) && Enabled(k, e, q)
    ensures Coupled(Next(k, e, q))
  {
    hide S.Next, M.Next, S.SpawnStep, S.Dispatch, R.Inv, M.Inv;
    var ms := MemStep(k, e);
    if ms != [] { MemKinds(k.m, ms[0]); MI.StepKeepsInv(k.m, ms[0]); }
    match e
    case Plain(p) => PlainStep(k, p, q);
    case Get(_) =>
    case Del(_) =>
    case Fork => SpawnNext(k, e, q);
    case NewThread(n) => if n < TOTAL_PAGES - FIRST_FREE_PAGE { SpawnNext(k, e, q); }
    case Exit => ExitNext(k, q);
  }

  lemma PlainStep(k: State, p: S.Event, q: int)
    requires Inv(k, q) && Enabled(k, Plain(p), q)
    ensures Coupled(Next(k, Plain(p), q))
  {
    PlainKeepsFree(k.s, p);
  }

  lemma SpawnNext(k: State, e: Event, q: int)
    requires Inv(k, q) && Enabled(k, e, q) && (e.Fork? || (e.NewThread? && e.pages < TOTAL_PAGES - FIRST_FREE_PAGE))
    ensures Coupled(Next(k, e, q))
  {
    hide M.Next, R.Inv, M.Inv;
    var m := MemNext(k, e);
    if k.s.free != [] {
      MemKinds(k.m, MemStep(k, e)[0]);
      MI.StepKeepsInv(k.m, MemStep(k, e)[0]);
      Runners(k, q);
      SpawnCoupled(k, m, q);
    }
  }

  lemma ExitNext(k: State, q: int)
    requires Inv(k, q) && Enabled(k, Exit, q)
    ensures Coupled(Next(k, Exit, q))
  {
    hide S.ExitStep, M.Next, R.Inv, M.Inv, Coupled;
    var e := MemStep(k, Exit)[0];
    MemKinds(k.m, e);
    MI.StepKeepsInv(k.m, e);
    ExitCoupled(k, MemNext(k, Exit), q);
  }

  /** Every step of the whole kernel keeps all the invariants, and their agreement. */
  lemma StepKeepsInv(k: State, e: Event, q: int)
    requires Inv(k, q) && Enabled(k, e, q)
    ensures Inv(Next(k, e, q), q)
  {
    hide S.Next, M.Next, R.Inv, M.Inv, Coupled;
    StepKeepsCoupled(k, e, q);
    var es, ms := SchedStep(k, e), MemStep(k, e);
    if ms != [] { MI.StepKeepsInv(k.m, ms[0]); }
    if es != [] {
      SchedEnabled(k, e, q);
      R.StepKeepsInv(k.s, es[0], q);
    }
  }

  // ---------------------------------------------------------------- failed calls

  /** The call asked for memory and got none: no new task, no new region. */
  ghost predicate Fails(k: State, e: Event, q: int)
    requires Inv(k, q) && Enabled(k, e, q)
  {
    && (e.Fork? || e.NewThread? || e.Get?)
    && Next(k, e, q).m.kinds == k.m.kinds && |Next(k, e, q).m.claims| == |k.m.claims|
  }

  /** The front slot goes to the back. */
  function Rotated(free: seq<S.Slot>): seq<S.Slot> {
    if free == [] then [] else free[1..] + [free[0]]
  }

  /** All or nothing, for the whole kernel: a call that fails leaves the memory as it was and the set
      of free slots too; at most the free queue is rotated and the control block of the slot that was
      tried is overwritten.  Everything else the scheduler knows stays as it is. */
  lemma FailedCallChangesNothing(k: State, e: Event, q: int)
    requires Inv(k, q) && Enabled(k, e, q) && Fails(k, e, q)
    ensures var r := Next(k, e, q);
      && r.m == k.m
      && multiset(r.s.free) == multiset(k.s.free)
      && (r.s.free == k.s.free || r.s.free == Rotated(k.s.free))
      && r.s == k.s.(free := r.s.free, tcb := r.s.tcb)
      && |r.s.tcb| == |k.s.tcb|
      && forall t :: 0 <= t < |k.s.tcb| && (k.s.free == [] || t != k.s.free[0]) ==> r.s.tcb[t] == k.s.tcb[t]
  {
    hide S.Next, S.WellFormed, S.Enabled, M.Next, M.Inv, M.Enabled, R.Inv, Coupled;
    assert S.WellFormed(k.s) by { InvWellFormed(k.s, q); }
    var ms := MemStep(k, e);
    if ms != [] { MT.FailedCallChangesNothing(k.m, ms[0]); }
    if SchedStep(k, e) != [] {
      SchedEnabled(k, e, q);
      FailedSpawn(k.s);
    }
  }

  /** What a call that succeeds gives: memRegGet(n) a region of n + 1 pages to the caller; threadCreate(n)
      a stack of n pages to the head of the free queue, and fork a process there, last in the ready
      queue; memRegDel takes the region away.  The scheduler notices nothing else. */
  lemma CallsGive(k: State, e: Event, q: int)
    requires Inv(k, q) && Enabled(k, e, q) && !e.Plain? && !e.Exit? && !Fails(k, e, q) && MemStep(k, e) != []
    ensures var r, c, t := Next(k, e, q), |k.m.claims|, k.s.current;
      match e
      case Get(n) => r.s == k.s && |r.m.claims| == c + 1 && t < |k.m.kinds|
                     && r.m.claims[c] == M.Claim(M.TableOf(k.m, t), r.m.claims[c].start, n + 1, M.Region(t))
      case Del(l) => r.s == k.s && l < |r.m.claims| == c && r.m.claims[l].pages == 0
      case NewThread(n) => k.s.free != [] && |r.m.claims| == c + 1 && t < |k.m.kinds|
                     && r.m.claims[c] == M.Claim(M.TableOf(k.m, t), r.m.claims[c].start, n, M.Stack(k.s.free[0]))
                     && r.s.ready == k.s.ready + [k.s.free[0]] && r.s.free == k.s.free[1..]
      case Fork => k.s.free != [] && k.s.free[0] < |r.m.kinds| && r.m.kinds[k.s.free[0]] == M.Process(false, false)
                     && r.s.ready == k.s.ready + [k.s.free[0]] && r.s.free == k.s.free[1..]
      case _ => true
  {
    hide M.Next, M.Inv, Coupled, P.OnePlaceEach, R.QuantaOk, R.CallsOk, R.KeyboardOk, R.SemsOk;
    var ms := MemStep(k, e)[0];
    MemKinds(k.m, ms);
    match e
    case Get(n) => LP.GetGives(k.m, k.s.current, n);
    case NewThread(n) => LP.NewThreadGives(k.m, k.s.current, k.s.free[0], n);
    case Fork => MT.FailsIff(k.m, ms); LP.ForkGives(k.m, k.s.current, k.s.free[0]);
    case Del(l) => LP.DelTakes(k.m, k.s.current, l);
    case _ =>
  }

  lemma InvWellFormed(s: S.Sched, q: int)
    requires R.Inv(s, q)
    ensures S.WellFormed(s)
  {
  }

  lemma FailedSpawn(s: S.Sched)
    requires S.WellFormed(s) && S.Enabled(s, S.Spawn(false))
    ensures var r := S.Next(s, S.Spawn(false));
      && r == s.(free := Rotated(s.free), tcb := r.tcb) && multiset(r.free) == multiset(s.free) && |r.tcb| == |s.tcb|
      && forall t :: 0 <= t < |s.tcb| && (s.free == [] || t != s.free[0]) ==> r.tcb[t] == s.tcb[t]
  {
    if s.free != [] { P.Uncons(s.free); }
  }

  // ---------------------------------------------------------------- runs

  ghost predicate Runs(k: State, es: seq<Event>, q: int)
    requires Inv(k, q)
    decreases |es|
  {
    es == [] || (Enabled(k, es[0], q) && (StepKeepsInv(k, es[0], q); Runs(Next(k, es[0], q), es[1..], q)))
  }

  ghost function After(k: State, es: seq<Event>, q: int): (r: State)
    requires Inv(k, q) && Runs(k, es, q)
    ensures Inv(r, q)
    decreases |es|
  {
    if es == [] then k else (StepKeepsInv(k, es[0], q); After(Next(k, es[0], q), es[1..], q))
  }

  function Booted(n: nat, q: int, capacity: nat, sems: nat, guards: set<nat>, used: seq<bool>): State
    requires n >= 2 && MB.KernelOnly(used)
  {
    State(B.Booted(n, q, capacity, sems), MB.Booted(n, guards, used))
  }

  lemma BootedInv(n: nat, q: int, capacity: nat, sems: nat, guards: set<nat>, used: seq<bool>)
    requires n >= 2 && q >= 1 && MB.KernelOnly(used)
    ensures Inv(Booted(n, q, capacity, sems, guards, used), q)
  {
    hide R.Inv, M.Inv;
    B.BootedInv(n, q, capacity, sems);
    MB.BootedInv(n, guards, used);
    var k := Booted(n, q, capacity, sems, guards, used);
    forall t | 0 <= t < n && t >= 2 ensures t in k.s.free {
      assert k.s.free[t - 2] == t;
    }
  }

  /** The scheduler's part of a run of the whole kernel. */
  ghost function SchedEvents(k: State, es: seq<Event>, q: int): seq<S.Event>
    requires Inv(k, q) && Runs(k, es, q)
    decreases |es|
  {
    if es == [] then []
    else (StepKeepsInv(k, es[0], q); SchedStep(k, es[0]) + SchedEvents(Next(k, es[0], q), es[1..], q))
  }

  /** That part is a run of the scheduler, so what holds of every scheduler run, such as bounded
      waiting, holds of the whole kernel. */
  lemma {:induction false} Projects(k: State, es: seq<Event>, q: int)
    requires Inv(k, q) && Runs(k, es, q)
    ensures S.Runs(k.s, SchedEvents(k, es, q))
    ensures S.After(k.s, SchedEvents(k, es, q)) == After(k, es, q).s
    decreases |es|
  {
    hide S.Next, M.Next, P.OnePlaceEach, M.Inv, Coupled;
    if es != [] {
      StepKeepsInv(k, es[0], q);
      Projects(Next(k, es[0], q), es[1..], q);
      var one, rest := SchedStep(k, es[0]), SchedEvents(Next(k, es[0], q), es[1..], q);
      if one == [] {
        assert one + rest == rest;
      } else {
        SchedEnabled(k, es[0], q);
        assert (one + rest)[1..] == rest;
      }
    }
  }

  /** In every run of the whole kernel, every ready task gets the CPU within q*(n - 1) ticks. */
  lemma EveryReadyTaskRuns(k: State, es: seq<Event>, q: int, t: S.Slot)
    requires Inv(k, q) && Runs(k, es, q) && t in k.s.ready
    requires W.Ticks(SchedEvents(k, es, q)) >= q * (|k.s.tcb| - 1)
    ensures S.Runs(k.s, SchedEvents(k, es, q))
    ensures var d := q * (|k.s.tcb| - 1); exists j :: W.RunsWithin(k.s, SchedEvents(k, es, q), t, j, d)
  {
    hide S.Next, M.Next, M.Inv, Coupled, P.OnePlaceEach, R.QuantaOk, R.CallsOk, R.KeyboardOk, R.SemsOk;
    Projects(k, es, q);
    var j := W.ReadyRunsWithin(k.s, SchedEvents(k, es, q), q, t, q * (|k.s.tcb| - 1));
  }

  /** The memory's part of a run of the whole kernel. */
  ghost function MemEvents(k: State, es: seq<Event>, q: int): seq<M.Event>
    requires Inv(k, q) && Runs(k, es, q)
    decreases |es|
  {
    if es == [] then []
    else (StepKeepsInv(k, es[0], q); MemStep(k, es[0]) + MemEvents(Next(k, es[0], q), es[1..], q))
  }

  /** That part is a run of the memory machine, so what holds of every such run, such as frame
      ownership and the frame count, holds of the whole kernel. */
  lemma {:induction false} ProjectsMemory(k: State, es: seq<Event>, q: int)
    requires Inv(k, q) && Runs(k, es, q)
    ensures MR.Runs(k.m, MemEvents(k, es, q))
    ensures MR.After(k.m, MemEvents(k, es, q)) == After(k, es, q).m
    decreases |es|
  {
    hide S.Next, M.Next, R.Inv, M.Inv, Coupled;
    if es != [] {
      StepKeepsInv(k, es[0], q);
      ProjectsMemory(Next(k, es[0], q), es[1..], q);
      var one, rest := MemStep(k, es[0]), MemEvents(Next(k, es[0], q), es[1..], q);
      if one == [] {
        assert one + rest == rest;
      } else {
        assert (one + rest)[1..] == rest;
      }
    }
  }

  /** In every run of the whole kernel from boot all the invariants hold, and no frame is lost: the
      free ones, those of the processes' data pages and those of stacks and regions are always the
      same number, 376 in the kernel as it is. */
  lemma EveryRun(
      n: nat, q: int, capacity: nat, sems: nat, guards: set<nat>, used: seq<bool>, es: seq<Event>)
    requires n >= 2 && q >= 1 && MB.KernelOnly(used)
    requires Inv(Booted(n, q, capacity, sems, guards, used), q)
    requires Runs(Booted(n, q, capacity, sems, guards, used), es, q)
    ensures var r := After(Booted(n, q, capacity, sems, guards, used), es, q);
      && Inv(r, q)
      && |FreeFrames(r.m.used)| + NUM_PAG_DATA * MR.Processes(r.m.kinds) + MR.ClaimedPages(r.m.claims)
         == (if SIZES == ZEOS then 376 else (TOTAL_PAGES - NUM_PAG_KERNEL) / 2 - NUM_PAG_CODE)
  {
    hide S.Next, M.Next, R.Inv, M.Inv, Coupled, Booted;
    var k := Booted(n, q, capacity, sems, guards, used);
    ProjectsMemory(k, es, q);
    BootedMemory(n, q, capacity, sems, guards, used);
    MT.EveryRun(n, guards, used, MemEvents(k, es, q));
  }

  lemma BootedMemory(n: nat, q: int, capacity: nat, sems: nat, guards: set<nat>, used: seq<bool>)
    requires n >= 2 && q >= 1 && MB.KernelOnly(used)
    ensures Booted(n, q, capacity, sems, guards, used).m == MB.Booted(n, guards, used)
  {
  }
}
