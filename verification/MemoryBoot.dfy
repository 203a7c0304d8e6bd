/** The memory the kernel boots with, and the theorems about every run from there. */
module MemoryBoot {
  import opened Layout
  import opened Frames
  import opened Paging
  import opened Ownership
  import opened Memory
  import opened MemoryInv
  import opened MemoryRuns

  // ---------------------------------------------------------------- boot

  /** init_table_pages: kernel pages map themselves, except page 0 and the guard pages around the
      task array, whose numbers depend on the linker. */
  function InitEntry(p: nat, guards: set<nat>): Pte {
    if 1 <= p < NUM_PAG_KERNEL then Pte(p, false, true, p !in guards) else ZERO
  }

  function InitTable(guards: set<nat>): (pt: seq<Pte>)
    ensures |pt| == TOTAL_PAGES
    ensures forall p :: 0 <= p < |pt| ==> pt[p] == InitEntry(p, guards)
  {
    seq(TOTAL_PAGES, p requires 0 <= p => InitEntry(p, guards))
  }

  /** The frame map init_frames leaves. */
  predicate KernelOnly(used: seq<bool>) {
    |used| == TOTAL_PAGES && forall f :: 0 <= f < |used| ==> used[f] == (f < NUM_PAG_KERNEL)
  }

  /** set_user_pages: code pages are not writable, data pages are. */
  function UserEntry(p: nat, frame: nat): Pte {
    Pte(frame, true, p >= PAG_LOG_INIT_DATA, true)
  }

  function UserTable(pt: seq<Pte>, fs: seq<nat>): (r: seq<Pte>)
    ensures |r| == |pt|
    ensures forall p :: 0 <= p < |r| ==>
      r[p] == if PAG_LOG_INIT_CODE <= p < PAG_LOG_INIT_CODE + |fs| then UserEntry(p, fs[p - PAG_LOG_INIT_CODE])
              else pt[p]
  {
    seq(|pt|, p requires 0 <= p < |pt| =>
      if PAG_LOG_INIT_CODE <= p < PAG_LOG_INIT_CODE + |fs| then UserEntry(p, fs[p - PAG_LOG_INIT_CODE]) else pt[p])
  }

  lemma {:induction false} AllFree(used: seq<bool>, from: nat)
    requires from % 2 == 0 && |used| % 2 == 0 && from <= |used| && forall f :: from <= f < |used| ==> !used[f]
    ensures |FreeFrom(used, from)| == (|used| - from) / 2
    ensures forall i :: 0 <= i < |FreeFrom(used, from)| ==> FreeFrom(used, from)[i] == from + 2 * i
    decreases |used| - from
  {
    if from < |used| { AllFree(used, from + 2); }
  }

  /** The frames set_user_pages hands out, for code and then data: the lowest candidates. */
  function UserFrames(used: seq<bool>): (fs: seq<nat>)
    requires KernelOnly(used)
    ensures |fs| == NUM_PAG_CODE + NUM_PAG_DATA && fs <= FreeFrames(used)
    ensures forall i :: 0 <= i < |fs| ==> fs[i] == NUM_PAG_KERNEL + 2 * i
  {
    AllFree(used, NUM_PAG_KERNEL);
    FreeFrames(used)[..NUM_PAG_CODE + NUM_PAG_DATA]
  }

  function BootTable(j: int, guards: set<nat>, fs: seq<nat>): (pt: seq<Pte>)
    ensures |pt| == TOTAL_PAGES
  {
    if j == 1 then UserTable(InitTable(guards), fs) else InitTable(guards)
  }

  /** Slot 0 is idle, slot 1 is the first process, the rest are free. */
  function Booted(n: nat, guards: set<nat>, used: seq<bool>): Mem
    requires n >= 2 && KernelOnly(used)
  {
    Mem(Take(used, UserFrames(used)),
        seq(n, j => BootTable(j, guards, UserFrames(used))),
        seq(n, j => if j == 0 then Idle else if j == 1 then Process(false, true) else FreeSlot),
        [])
  }

  function CodeTaken(used: seq<bool>): seq<bool>
    requires KernelOnly(used)
  {
    Take(used, UserFrames(used)[..NUM_PAG_CODE])
  }

  /** The first frames handed out, to the code pages, are the code frames. */
  lemma CodeFramesTaken(used: seq<bool>)
    requires KernelOnly(used)
    ensures forall f :: 0 <= f < TOTAL_PAGES ==> CodeTaken(used)[f] == (f < NUM_PAG_KERNEL || CodeFrame(f))
    ensures |FreeFrames(CodeTaken(used))| == TOTAL_PAGES / 2 - NUM_PAG_KERNEL / 2 - NUM_PAG_CODE
    ensures FreeFrames(CodeTaken(used))[..NUM_PAG_DATA] == UserFrames(used)[NUM_PAG_CODE..]
  {
    hide FreeFrom;
    AllFree(used, NUM_PAG_KERNEL);
    TakeLeaves(used, NUM_PAG_CODE);
    var all, fs := FreeFrames(used), UserFrames(used);
    assert fs[..NUM_PAG_CODE] == all[..NUM_PAG_CODE] && fs[NUM_PAG_CODE..] == all[NUM_PAG_CODE..][..NUM_PAG_DATA];
    forall f | 0 <= f < TOTAL_PAGES && CodeFrame(f) ensures f in fs[..NUM_PAG_CODE] {
      assert fs[..NUM_PAG_CODE][(f - NUM_PAG_KERNEL) / 2] == f;
    }
  }

  function EmptyTables(n: nat, guards: set<nat>): seq<seq<Pte>> {
    seq(n, j => InitTable(guards))
  }

  lemma EmptyOwned(n: nat, guards: set<nat>, used: seq<bool>)
    requires KernelOnly(used)
    ensures Owned(CodeTaken(used), EmptyTables(n, guards))
  {
    CodeFramesTaken(used);
    hide CodeTaken, Candidate;
    var tables := EmptyTables(n, guards);
    forall j: nat, p: nat, f ensures !Holds(tables, j, p, f) {
    }
    forall f ensures !Held(tables, f) {
    }
  }

  lemma BootedOwned(n: nat, guards: set<nat>, used: seq<bool>)
    requires n >= 2 && KernelOnly(used)
    ensures Owned(Booted(n, guards, used).used, Booted(n, guards, used).tables)
  {
    hide Owned, FreeFrom;
    EmptyOwned(n, guards, used);
    CodeFramesTaken(used);
    var m, empty, fs := Booted(n, guards, used), EmptyTables(n, guards), UserFrames(used);
    assert forall j :: 0 <= j < n ==> m.tables[j] == BootTable(j, guards, fs);
    assert forall j :: 0 <= j < n ==> empty[j] == InitTable(guards);
    MapKeepsOwned(CodeTaken(used), empty, 1, PAG_LOG_INIT_DATA, NUM_PAG_DATA);
    assert fs == fs[..NUM_PAG_CODE] + fs[NUM_PAG_CODE..];
    assert Take(CodeTaken(used), fs[NUM_PAG_CODE..]) == m.used;
    OwnedIgnoresLowPages(m.used, empty[1 := MapPages(empty[1], PAG_LOG_INIT_DATA, fs[NUM_PAG_CODE..])], m.tables);
  }

  lemma BootedLow(tables: seq<seq<Pte>>, guards: set<nat>, fs: seq<nat>)
    requires |fs| == NUM_PAG_CODE + NUM_PAG_DATA && forall i :: 0 <= i < |fs| ==> fs[i] == NUM_PAG_KERNEL + 2 * i
    requires forall j :: 0 <= j < |tables| ==> tables[j] == BootTable(j, guards, fs)
    ensures LowPagesOk(tables)
  {
    hide InitTable, UserTable;
  }

  lemma BootedLayout(n: nat, guards: set<nat>, used: seq<bool>)
    requires n >= 2 && KernelOnly(used)
    ensures Shape(Booted(n, guards, used)) && LowPagesOk(Booted(n, guards, used).tables)
    ensures forall t :: 0 <= t < n ==> KindOk(Booted(n, guards, used), t)
  {
    hide FreeFrames, FreeFrom, UserFrames, LowPagesOk;
    var m := Booted(n, guards, used);
    assert forall j :: 0 <= j < n ==> m.tables[j] == BootTable(j, guards, UserFrames(used));
    BootedLow(m.tables, guards, UserFrames(used));
  }

  lemma BootedInv(n: nat, guards: set<nat>, used: seq<bool>)
    requires n >= 2 && KernelOnly(used)
    ensures Inv(Booted(n, guards, used))
    ensures Balance(Booted(n, guards, used)) == TOTAL_PAGES / 2 - NUM_PAG_KERNEL / 2 - NUM_PAG_CODE
  {
    hide Owned, KindOk, LowPagesOk, FreeFrom;
    BootedOwned(n, guards, used);
    BootedLayout(n, guards, used);
    AllFree(used, NUM_PAG_KERNEL);
    TakeLeaves(used, NUM_PAG_CODE + NUM_PAG_DATA);
    OneProcess(Booted(n, guards, used).kinds);
  }

  lemma {:induction false} OneProcess(kinds: seq<Kind>)
    requires |kinds| >= 2
    requires forall t :: 0 <= t < |kinds| ==> (kinds[t].Process? <==> t == 1)
    ensures Processes(kinds) == 1
  {
    var last := |kinds| - 1;
    if last == 1 {
      assert kinds[..1] == [kinds[0]];
      assert Processes([kinds[0]]) == Processes([]) + 0;
    } else {
      OneProcess(kinds[..last]);
    }
  }
}
