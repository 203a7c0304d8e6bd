/** Two runs from boot that show what becomes of the regions of a task that exits. */
module RegionRuns {
  import opened Layout
  import opened Frames
  import opened Paging
  import opened Ownership
  import opened Memory
  import opened MemoryInv
  import opened MemoryRuns
  import opened MemoryBoot
  import opened MemoryTheorems
  import opened Regions

  /** The pages of table j from FIRST_FREE_PAGE up to a are mapped, the others above are not. */
  predicate FilledTo(pt: seq<Pte>, a: int) {
    && |pt| == TOTAL_PAGES
    && forall p :: FIRST_FREE_PAGE <= p < TOTAL_PAGES ==> (pt[p].present <==> p < a)
  }

  /** The next request for a single page is satisfied right there. */
  lemma NextFit(pt: seq<Pte>, a: nat)
    requires FilledTo(pt, a) && FIRST_FREE_PAGE <= a < TOTAL_PAGES - 1
    ensures FirstFit(pt, FIRST_FREE_PAGE, 1) == a
  {
    assert Gap(pt, a, 1);
    forall s | FIRST_FREE_PAGE <= s < a ensures !Gap(pt, s, 1) {
      assert pt[s].present;
    }
  }

  /** The window of fork is clear if there is room for it. */
  lemma WindowAbove(pt: seq<Pte>, a: nat)
    requires FilledTo(pt, a) && FIRST_FREE_PAGE <= a && a + WINDOW + NUM_PAG_DATA <= TOTAL_PAGES
    ensures WindowClear(pt)
  {
    assert Gap(pt, a, NUM_PAG_DATA);
    forall s | FIRST_FREE_PAGE <= s < a ensures !Gap(pt, s, NUM_PAG_DATA) {
      assert pt[s].present;
    }
  }

  /** A task gets a region of one page, which holds nothing but its header. */
  lemma GetOne(m: Mem, t: nat, a: nat) returns (r: Mem)
    requires Tidy(m) && Enabled(m, Get(t, 0)) && 1 <= |FreeFrames(m.used)|
    requires FIRST_FREE_PAGE <= a < TOTAL_PAGES - 1 && FilledTo(m.tables[TableOf(m, t)], a)
    ensures r == Next(m, Get(t, 0)) && Tidy(r) && r.kinds == m.kinds && |r.tables| == |m.tables|
    ensures r.claims == m.claims + [Claim(TableOf(m, t), a, 1, Region(t))]
    ensures FilledTo(r.tables[TableOf(m, t)], a + 1) && |FreeFrames(r.used)| == |FreeFrames(m.used)| - 1
    ensures forall j :: 0 <= j < |m.tables| && j != TableOf(m, t) ==> r.tables[j] == m.tables[j]
  {
    hide Owned, LowPagesOk, ClaimsOk, KindOk, FirstFit, MapPages, Take, FreeFrom, Covered, OwnersOk;
    NextFit(m.tables[TableOf(m, t)], a);
    StepKeepsTidy(m, Get(t, 0));
    TakeLeaves(m.used, 1);
    r := Next(m, Get(t, 0));
  }

  /** The first process starts a thread with a stack of one page. */
  lemma ThreadOne(m: Mem) returns (r: Mem)
    requires Tidy(m) && |m.kinds| >= 3 && m.kinds[1].Process? && m.kinds[2] == FreeSlot && 1 <= |FreeFrames(m.used)|
    requires FIRST_FREE_PAGE < TOTAL_PAGES - 1 && FilledTo(m.tables[1], FIRST_FREE_PAGE) && m.claims == []
    ensures Enabled(m, NewThread(1, 2, 1)) && r == Next(m, NewThread(1, 2, 1)) && Tidy(r)
    ensures |r.kinds| == |m.kinds| && r.kinds[1].Process? && r.kinds[2] == Thread(1, FIRST_FREE_PAGE, 1, 0)
    ensures r.claims == [Claim(1, FIRST_FREE_PAGE, 1, Stack(2))]
    ensures FilledTo(r.tables[1], FIRST_FREE_PAGE + 1) && |FreeFrames(r.used)| == |FreeFrames(m.used)| - 1
  {
    hide Owned, LowPagesOk, ClaimsOk, KindOk, FirstFit, MapPages, Take, FreeFrom, Covered, OwnersOk;
    NextFit(m.tables[1], FIRST_FREE_PAGE);
    StepKeepsTidy(m, NewThread(1, 2, 1));
    TakeLeaves(m.used, 1);
    r := Next(m, NewThread(1, 2, 1));
  }

  /** A thread gets a region and exits.  Its frame is still in use; then the process the thread belonged
      to deletes the region, and the frame is free. */
  lemma ThreadLeavesRegion(n: nat, guards: set<nat>, used: seq<bool>) returns (f: nat)
    requires n >= 3 && KernelOnly(used) && NUM_PAG_CODE + NUM_PAG_DATA + 2 <= (TOTAL_PAGES - NUM_PAG_KERNEL) / 2
    ensures Inv(Booted(n, guards, used)) && f < TOTAL_PAGES
    ensures var m, es := Booted(n, guards, used), [NewThread(1, 2, 1), Get(2, 0), Exit(2)];
      && Runs(m, es) && After(m, es).kinds[2] == FreeSlot && After(m, es).used[f]
      && Runs(m, es + [Del(1, 1)]) && !After(m, es + [Del(1, 1)]).used[f]
  {
    hide Owned, LowPagesOk, ClaimsOk, KindOk, FreeFrames, Next, Enabled, Booted, Covered, OwnersOk;
    var m := Booted(n, guards, used);
    BootedTidy(n, guards, used);
    BootedAbove(n, guards, used);
    FreeAtBoot(n, guards, used);
    var m1 := ThreadOne(m);
    CanAsk(m1, 2);
    var m2 := GetOne(m1, 2, FIRST_FREE_PAGE + 1);
    CanExit(m2, 2);
    MasterFrees(m2, 2, 1, FIRST_FREE_PAGE + 1);
    f := m2.tables[1][FIRST_FREE_PAGE + 1].base;
    Extend(m, [], NewThread(1, 2, 1));
    Extend(m, [] + [NewThread(1, 2, 1)], Get(2, 0));
    Extend(m, [] + [NewThread(1, 2, 1)] + [Get(2, 0)], Exit(2));
    assert [] + [NewThread(1, 2, 1)] + [Get(2, 0)] + [Exit(2)] == [NewThread(1, 2, 1), Get(2, 0), Exit(2)];
    Extend(m, [NewThread(1, 2, 1), Get(2, 0), Exit(2)], Del(1, 1));
  }

  lemma CanAsk(m: Mem, t: nat)
    requires Shape(m) && t < |m.kinds| && m.kinds[t].Thread?
    ensures Enabled(m, Get(t, 0))
  {
  }

  lemma CanExit(m: Mem, t: nat)
    requires Inv(m) && t < |m.kinds| && m.kinds[t].Thread?
    ensures Enabled(m, Exit(t)) && Next(m, Exit(t)).kinds[t] == FreeSlot && TableOf(m, t) == m.kinds[t].table
  {
    assert KindOk(m, t);
  }

  // ---------------------------------------------------------------- a child that inherits a region

  /** A fork from slot p into slot c, with room for its window. */
  lemma ForkOne(m: Mem, p: nat, c: nat, a: nat) returns (r: Mem)
    requires Tidy(m) && p < |m.kinds| && m.kinds[p].Process? && c < |m.kinds| && m.kinds[c] == FreeSlot
    requires NUM_PAG_DATA <= |FreeFrames(m.used)| && FIRST_FREE_PAGE <= a
    requires FilledTo(m.tables[p], a) && a + WINDOW + NUM_PAG_DATA <= TOTAL_PAGES
    ensures Enabled(m, Fork(p, c)) && r == Next(m, Fork(p, c)) && Tidy(r)
    ensures r.kinds == m.kinds[c := Process(false, false)] && r.claims == m.claims && |r.tables| == |m.tables|
    ensures |FreeFrames(r.used)| == |FreeFrames(m.used)| - NUM_PAG_DATA
    ensures forall j, x :: 0 <= j < |m.tables| && FIRST_FREE_PAGE <= x < TOTAL_PAGES ==>
      r.tables[j][x] == m.tables[j][x]
  {
    hide Owned, LowPagesOk, ClaimsOk, KindOk, FirstFit, WindowClear, FreeFrom, Covered, OwnersOk;
    WindowAbove(m.tables[p], a);
    StepKeepsTidy(m, Fork(p, c));
    ForkTables(m, p, c);
    TakeLeaves(m.used, NUM_PAG_DATA);
    r := Next(m, Fork(p, c));
  }

  /** A process without threads exits. */
  lemma ExitOne(m: Mem, t: nat) returns (r: Mem)
    requires Tidy(m) && t < |m.kinds| && m.kinds[t].Process? && !m.kinds[t].threaded
    ensures Enabled(m, Exit(t)) && r == Next(m, Exit(t)) && Tidy(r) && r.kinds == m.kinds[t := FreeSlot]
    ensures |FreeFrames(r.used)| == |FreeFrames(m.used)| + NUM_PAG_DATA && |r.tables| == |m.tables|
    ensures forall j :: 0 <= j < |m.tables| && j != t ==> r.tables[j] == m.tables[j]
  {
    hide Owned, LowPagesOk, ClaimsOk, FreeFrom, Covered, OwnersOk, Release, ClearPages;
    StepKeepsTidy(m, Exit(t));
    assert KindOk(m, t);
    ReleaseFrees(m.used, m.tables, t, PAG_LOG_INIT_DATA, NUM_PAG_DATA);
    r := Next(m, Exit(t));
  }

  /** The first process gets a region, forks and exits; its child forks into the slot that became free.
      The new process has the region of the first one mapped, although it never asked for it. */
  lemma ChildInheritsRegion(n: nat, guards: set<nat>, used: seq<bool>)
    requires n >= 3 && KernelOnly(used)
    requires NUM_PAG_CODE + 2 * NUM_PAG_DATA + 1 <= (TOTAL_PAGES - NUM_PAG_KERNEL) / 2
    requires FIRST_FREE_PAGE + 1 + WINDOW + NUM_PAG_DATA <= TOTAL_PAGES
    ensures Inv(Booted(n, guards, used))
    ensures var m, es := Booted(n, guards, used), [Get(1, 0), Fork(1, 2), Exit(1), Fork(2, 1)];
      && Runs(m, es) && After(m, es).kinds[1] == Process(false, false)
      && After(m, es).tables[1][FIRST_FREE_PAGE].present
      && !NothingAbove(After(m, es).tables[1])
  {
    hide Owned, LowPagesOk, ClaimsOk, KindOk, FreeFrames, Next, Enabled, Booted, Covered, OwnersOk;
    var m, a := Booted(n, guards, used), FIRST_FREE_PAGE;
    BootedTidy(n, guards, used);
    BootedAbove(n, guards, used);
    FreeAtBoot(n, guards, used);
    assert Enabled(m, Get(1, 0)) by { FirstCanAsk(m); }
    var m1 := GetOne(m, 1, a);
    var m2 := ForkOne(m1, 1, 2, a + 1);
    var m3 := ExitOne(m2, 1);
    assert FilledTo(m3.tables[2], a);
    var m4 := ForkOne(m3, 2, 1, a);
    assert m2.tables[1][a] == m1.tables[1][a];
    RegionStays(m2, Exit(1), 0, a);
    assert m4.tables[1][a] == m3.tables[1][a];
    Extend(m, [], Get(1, 0));
    Extend(m, [] + [Get(1, 0)], Fork(1, 2));
    Extend(m, [] + [Get(1, 0)] + [Fork(1, 2)], Exit(1));
    Extend(m, [] + [Get(1, 0)] + [Fork(1, 2)] + [Exit(1)], Fork(2, 1));
    assert [] + [Get(1, 0)] + [Fork(1, 2)] + [Exit(1)] + [Fork(2, 1)] == [Get(1, 0), Fork(1, 2), Exit(1), Fork(2, 1)];
  }

  lemma FirstCanAsk(m: Mem)
    requires Shape(m) && |m.kinds| >= 2 && m.kinds[1] == Process(false, true)
    ensures Enabled(m, Get(1, 0))
  {
  }
}
