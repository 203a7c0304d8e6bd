/** The guarantees of the memory manager, in terms a caller can read. */
module MemoryTheorems {
  import opened Layout
  import opened Frames
  import opened Paging
  import opened Ownership
  import opened Memory
  import opened MemoryInv
  import opened MemoryRuns
  import opened MemoryBoot

  /** In every run from boot the invariant holds, and of the frames alloc_frame looks at, all but
      the code frames are free, in the data pages of a process, or claimed: 376 of them in the
      kernel as it is. */
  lemma EveryRun(n: nat, guards: set<nat>, used: seq<bool>, es: seq<Event>)
    requires n >= 2 && KernelOnly(used) && Inv(Booted(n, guards, used)) && Runs(Booted(n, guards, used), es)
    ensures Inv(After(Booted(n, guards, used), es))
    ensures Balance(After(Booted(n, guards, used), es)) == (TOTAL_PAGES - NUM_PAG_KERNEL) / 2 - NUM_PAG_CODE
    ensures SIZES == ZEOS ==> Balance(After(Booted(n, guards, used), es)) == 376
  {
    hide Next, Inv, Balance, Booted;
    BootedInv(n, guards, used);
    RunBalances(Booted(n, guards, used), es);
  }

  ghost predicate OnlyHolder(tables: seq<seq<Pte>>, j: nat, p: nat, f: int) {
    Holds(tables, j, p, f) && forall j', p' :: Holds(tables, j', p', f) ==> j' == j && p' == p
  }

  /** A frame handed out by the allocator is in use exactly when it is a code frame or exactly one
      data, stack or region page of all the page tables maps it; frames at odd places never are. */
  lemma FrameOwnership(m: Mem, f: nat)
    requires Inv(m) && NUM_PAG_KERNEL <= f < TOTAL_PAGES
    ensures m.used[f] <==> CodeFrame(f) || exists j, p :: OnlyHolder(m.tables, j, p, f)
    ensures f % 2 == 1 ==> !m.used[f]
    ensures CodeFrame(f) ==> !Held(m.tables, f)
  {
    if Held(m.tables, f) {
      var j, p :| Holds(m.tables, j, p, f);
      assert OnlyHolder(m.tables, j, p, f);
    }
  }

  /** The run of pages an event passes, frame by frame, to free_frame. */
  function Freed(m: Mem, e: Event): Claim
    requires Inv(m) && Enabled(m, e) && (e.Exit? || e.Del?)
  {
    match e
    case Exit(t) =>
      if m.kinds[t].Thread? then Claim(m.kinds[t].table, m.kinds[t].base, m.kinds[t].pages, Orphan)
      else Claim(t, PAG_LOG_INIT_DATA, NUM_PAG_DATA, Orphan)
    case Del(t, k) => m.claims[k]
  }

  lemma FreedRun(m: Mem, e: Event)
    requires Inv(m) && Enabled(m, e) && (e.Exit? || e.Del?)
    ensures var c := Freed(m, e);
      c.table < |m.tables| && PAG_LOG_INIT_DATA <= c.start && Present(m.tables[c.table], c.start, c.pages)
  {
    if e.Exit? { assert KindOk(m, e.t); }
    assert e.Exit? && m.kinds[e.t].Thread? ==> ClaimOk(m.tables, m.claims[m.kinds[e.t].claim]);
    assert e.Del? ==> ClaimOk(m.tables, m.claims[e.k]);
  }

  /** Frame 256 stays in use for ever and is never passed to free_frame: no page released by an exit
      or a delete names it, and the rollbacks of fork, threadCreateWithStack and memRegGet only free
      frames they were just given, which it is not among. */
  lemma Frame256Permanent(m: Mem, e: Event)
    requires Inv(m) && Enabled(m, e)
    ensures m.used[NUM_PAG_KERNEL] && Next(m, e).used[NUM_PAG_KERNEL]
    ensures NUM_PAG_KERNEL !in FreeFrames(m.used)
    ensures e.Exit? || e.Del? ==>
      var c := Freed(m, e);
      c.table < |m.tables| && !Names(m.tables[c.table], c.start, c.pages, NUM_PAG_KERNEL)
  {
    assert CodeFrame(NUM_PAG_KERNEL);
    StepKeepsInv(m, e);
    if e.Exit? || e.Del? {
      var c := Freed(m, e);
      FreedRun(m, e);
      forall p | c.start <= p < c.start + c.pages && p < |m.tables[c.table]|
        ensures m.tables[c.table][p].base != NUM_PAG_KERNEL
      {
        assert Holds(m.tables, c.table, p, m.tables[c.table][p].base);
      }
    }
  }

  /** Allocation fails exactly when every frame it looks at is in use. */
  lemma CapacityExact(used: seq<bool>)
    ensures FreeFrames(used) == [] <==> forall f :: Candidate(f, |used|) ==> used[f]
  {
    if FreeFrames(used) != [] { assert FreeFrames(used)[0] in FreeFrames(used); }
  }

  // ---------------------------------------------------------------- all or nothing

  /** The call asked for memory and got none: no new task, no new region. */
  predicate Fails(m: Mem, e: Event)
    requires Inv(m) && Enabled(m, e)
  {
    (e.Fork? || e.NewThread? || e.Get?) && Next(m, e).kinds == m.kinds && |Next(m, e).claims| == |m.claims|
  }

  /** All or nothing: a fork, threadCreateWithStack or memRegGet that fails leaves the frame map, every
      page table and every slot exactly as they were. */
  lemma FailedCallChangesNothing(m: Mem, e: Event)
    requires Inv(m) && Enabled(m, e) && Fails(m, e)
    ensures Next(m, e) == m
  {
    hide Owned, LowPagesOk, ClaimsOk, FreeFrames;
    match e
    case Fork(p, c) => FailedFork(m, p, c);
    case NewThread(t, c, n) =>
      var j := TableOf(m, t);
      var s := FirstFit(m.tables[j], FIRST_FREE_PAGE, n);
      if n < TOTAL_PAGES - FIRST_FREE_PAGE && s >= 0 { MapGap(m, j, s, n); }
    case Get(t, pages) =>
      var j := TableOf(m, t);
      var s := FirstFit(m.tables[j], FIRST_FREE_PAGE, pages + 1);
      if pages >= 0 && s >= 0 { MapGap(m, j, s, pages + 1); }
  }

  /** A call fails exactly when the frames or the pages it needs are not there. */
  lemma FailsIff(m: Mem, e: Event)
    requires Inv(m) && Enabled(m, e) && (e.Fork? || e.NewThread? || e.Get?)
    ensures Fails(m, e) <==>
      match e
      case Fork(_, _) => |FreeFrames(m.used)| < NUM_PAG_DATA
      case NewThread(t, _, n) => n >= TOTAL_PAGES - FIRST_FREE_PAGE || NoRoom(m, TableOf(m, t), n)
      case Get(t, n) => n < 0 || NoRoom(m, TableOf(m, t), n + 1)
  {
    hide Owned, LowPagesOk, ClaimsOk, FreeFrames;
  }

  /** n pages cannot be had in table j: no gap is wide enough, or there are not as many free frames. */
  ghost predicate NoRoom(m: Mem, j: nat, n: int)
    requires j < |m.tables|
  {
    (forall s :: FIRST_FREE_PAGE <= s ==> !Gap(m.tables[j], s, n)) || n > |FreeFrames(m.used)|
  }

  // ---------------------------------------------------------------- regions

  /** Live regions and stacks never share a page; they lie above the process image and below the last
      page of the table (284..1022). */
  lemma RegionsDisjoint(m: Mem, k: nat, l: nat, p: nat)
    requires Inv(m) && k < |m.claims| && l < |m.claims| && m.claims[k].table == m.claims[l].table
    requires m.claims[k].start <= p < m.claims[k].start + m.claims[k].pages
    requires m.claims[l].start <= p < m.claims[l].start + m.claims[l].pages
    ensures k == l && FIRST_FREE_PAGE <= p < TOTAL_PAGES - 1
  {
  }

  predicate RegionCalls(es: seq<Event>) {
    forall i :: 0 <= i < |es| ==> es[i].Get? || es[i].Del?
  }

  lemma {:induction false} RegionCallsKeepKinds(m: Mem, es: seq<Event>)
    requires Inv(m) && Runs(m, es) && RegionCalls(es)
    ensures After(m, es).kinds == m.kinds
    decreases |es|
  {
    hide Inv;
    if es != [] {
      StepKeepsInv(m, es[0]);
      RegionCallsKeepKinds(Next(m, es[0]), es[1..]);
    }
  }

  /** Over any run of memRegGet and memRegDel, the frames that are no longer free are those of the
      pages claimed in the meantime. */
  lemma RegionAccounting(m: Mem, es: seq<Event>)
    requires Inv(m) && Runs(m, es) && RegionCalls(es)
    ensures var r := After(m, es);
      |FreeFrames(r.used)| + ClaimedPages(r.claims) == |FreeFrames(m.used)| + ClaimedPages(m.claims)
  {
    hide Next, Inv;
    RunBalances(m, es);
    RegionCallsKeepKinds(m, es);
  }

  /** memRegGet followed by memRegDel of what it returned is the identity on frames and tables. */
  lemma GetThenDel(m: Mem, t: nat, pages: int)
    requires Inv(m) && t < |m.kinds| && |GetStep(m, t, pages).claims| > |m.claims|
    ensures var r := GetStep(m, t, pages);
      && Shape(r) && r.claims[|m.claims|].table < |m.kinds|
      && DelStep(r, |m.claims|).used == m.used
      && DelStep(r, |m.claims|).tables == m.tables
  {
    GetKeeps(m, t, pages);
    var j, n := TableOf(m, t), pages + 1;
    var s := FirstFit(m.tables[j], FIRST_FREE_PAGE, n);
    var fs := FreeFrames(m.used)[..n];
    GapIsZero(m.used, m.tables, j, s, n);
    assert forall i :: 0 <= i < |fs| ==> fs[i] in FreeFrames(m.used);
    assert CodeFrame(NUM_PAG_KERNEL);
    RoundTripIff(m.used, m.tables[j], s, fs);
    assert m.tables[j := MapPages(m.tables[j], s, fs)][j := m.tables[j]] == m.tables;
  }

  // ---------------------------------------------------------------- exit

  /** Frame f is behind a page of claim k. */
  ghost predicate Claims(m: Mem, k: nat, f: int) {
    && k < |m.claims| && m.claims[k].table < |m.tables|
    && exists p ::
         m.claims[k].start <= p < m.claims[k].start + m.claims[k].pages && Holds(m.tables, m.claims[k].table, p, f)
  }

  ghost predicate HoldsRegion(m: Mem, t: nat, f: int) {
    exists k :: 0 <= k < |m.claims| && m.claims[k].use == Region(t) && Claims(m, k, f)
  }

  /** Frame f belongs to task t: it is behind one of its data pages or its stack, or in a region it got. */
  ghost predicate Belongs(m: Mem, t: nat, f: int)
    requires Inv(m) && Live(m, t)
  {
    || HoldsRegion(m, t, f)
    || (if m.kinds[t].Thread? then Claims(m, m.kinds[t].claim, f)
        else exists p :: PAG_LOG_INIT_DATA <= p < FIRST_FREE_PAGE && Holds(m.tables, t, p, f))
  }

  /** Task t has a region it has not deleted. */
  predicate HasRegion(m: Mem, t: nat) {
    exists k :: 0 <= k < |m.claims| && m.claims[k].use == Region(t) && m.claims[k].pages > 0
  }

  /** Exit frees the frames of the data pages or the stack of a task, and none of its regions. */
  lemma ExitFrees(m: Mem, t: nat, f: nat)
    requires Inv(m) && Enabled(m, Exit(t)) && f < TOTAL_PAGES && Belongs(m, t, f)
    ensures m.used[f] && (Next(m, Exit(t)).used[f] <==> HoldsRegion(m, t, f))
  {
    hide LowPagesOk, ClaimsOk, FreeFrames;
    assert KindOk(m, t);
    var c := Freed(m, Exit(t));
    FreedRun(m, Exit(t));
    if HoldsRegion(m, t, f) {
      var k :| 0 <= k < |m.claims| && m.claims[k].use == Region(t) && Claims(m, k, f);
      var r := m.claims[k];
      var p :| r.start <= p < r.start + r.pages && Holds(m.tables, r.table, p, f);
      RegionOutsideFreed(m, t, k);
      ReleasedIff(m, c, r.table, p, f);
    } else {
      var p :| c.start <= p < c.start + c.pages && Holds(m.tables, c.table, p, f);
      ReleasedIff(m, c, c.table, p, f);
    }
  }

  /** What exit releases is apart from every claim but the stack it releases. */
  lemma RegionOutsideFreed(m: Mem, t: nat, k: nat)
    requires Inv(m) && Enabled(m, Exit(t)) && k < |m.claims| && m.claims[k].use != Stack(t)
    ensures Apart(m.claims[k], Freed(m, Exit(t)))
  {
    assert KindOk(m, t) && ClaimOk(m.tables, m.claims[k]);
    if m.kinds[t].Thread? {
      var l := m.kinds[t].claim;
      assert k != l && (Apart(m.claims[k], m.claims[l]) || Apart(m.claims[l], m.claims[k]));
    }
  }

  /** Releasing the run c frees the frame behind a page exactly if the page is in the run. */
  lemma ReleasedIff(m: Mem, c: Claim, j: nat, p: nat, f: nat)
    requires Inv(m) && c.table < |m.tables| && PAG_LOG_INIT_DATA <= c.start
    requires Present(m.tables[c.table], c.start, c.pages) && f < TOTAL_PAGES && Holds(m.tables, j, p, f)
    ensures m.used[f]
    ensures Release(m.used, m.tables[c.table], c.start, c.pages)[f]
       <==> !(j == c.table && c.start <= p < c.start + c.pages)
  {
    hide LowPagesOk, ClaimsOk, FreeFrames;
    assert Held(m.tables, f);
    var pt := m.tables[c.table];
    if Names(pt, c.start, c.pages, f) {
      var x :| c.start <= x < c.start + c.pages && x < |pt| && pt[x].base == f;
      assert Holds(m.tables, c.table, x, f);
    }
  }

  /** So exit gives back every frame that belongs to the task exactly when it has no region left. */
  lemma ExitFreesAllIff(m: Mem, t: nat)
    requires Inv(m) && Enabled(m, Exit(t))
    ensures (forall f :: 0 <= f < TOTAL_PAGES && Belongs(m, t, f) ==> !Next(m, Exit(t)).used[f]) <==> !HasRegion(m, t)
  {
    hide Owned, LowPagesOk, FreeFrames, Belongs, Next;
    StepKeepsInv(m, Exit(t));
    forall f | 0 <= f < TOTAL_PAGES && Belongs(m, t, f)
      ensures Next(m, Exit(t)).used[f] <==> HoldsRegion(m, t, f)
    {
      ExitFrees(m, t, f);
    }
    if HasRegion(m, t) {
      var k :| 0 <= k < |m.claims| && m.claims[k].use == Region(t) && m.claims[k].pages > 0;
      RegionFrame(m, t, k);
    }
  }

  lemma RegionFrame(m: Mem, t: nat, k: nat)
    requires Inv(m) && Live(m, t) && k < |m.claims| && m.claims[k].use == Region(t) && m.claims[k].pages > 0
    ensures m.claims[k].table < |m.tables|
    ensures var f := m.tables[m.claims[k].table][m.claims[k].start].base;
      f < TOTAL_PAGES && HoldsRegion(m, t, f) && Belongs(m, t, f)
  {
    var c := m.claims[k];
    assert ClaimOk(m.tables, c);
    var f := m.tables[c.table][c.start].base;
    assert Holds(m.tables, c.table, c.start, f);
    assert Claims(m, k, f);
  }

  /** Calls that ask for memory touch no page above the process images that is mapped already. */
  lemma NewPagesElsewhere(m: Mem, e: Event, j: nat, p: nat)
    requires Inv(m) && Enabled(m, e) && (e.Fork? || e.NewThread? || e.Get?)
    requires j < |m.tables| && FIRST_FREE_PAGE <= p < TOTAL_PAGES && m.tables[j][p].present
    ensures var r := Next(m, e);
      && m.claims <= r.claims && |r.tables| == |m.tables|
      && |r.tables[j]| == TOTAL_PAGES && r.tables[j][p] == m.tables[j][p]
  {
    hide Owned, LowPagesOk, ClaimsOk, FreeFrames, MapPages, ClearPages, ShareLowPages, Take;
    if Fails(m, e) {
      FailedCallChangesNothing(m, e);
    } else if e.Fork? {
      ForkTables(m, e.parent, e.child);
    }
  }

  lemma OutsideClear(m: Mem, k: nat, p: nat, c: Claim)
    requires Inv(m) && k < |m.claims| && (Apart(m.claims[k], c) || Apart(c, m.claims[k]))
    requires m.claims[k].start <= p < m.claims[k].start + m.claims[k].pages
    requires m.claims[k].table < |m.tables| && c.table < |m.tables| && p < TOTAL_PAGES
    ensures var tables' := m.tables[c.table := ClearPages(m.tables[c.table], c.start, c.pages)];
      tables'[m.claims[k].table][p] == m.tables[m.claims[k].table][p]
  {
  }

  // ---------------------------------------------------------------- fork

  /** A successful fork leaves the parent's table as it was, and each data page of the child maps a
      frame that was free before and that no other page of any table, of any kind, maps. */
  lemma ForkIsolates(m: Mem, p: nat, c: nat, i: nat, j: nat, q: nat)
    requires Inv(m) && Enabled(m, Fork(p, c)) && NUM_PAG_DATA <= |FreeFrames(m.used)| && i < NUM_PAG_DATA
    requires j < |m.kinds| && q < TOTAL_PAGES && (j, q) != (c, PAG_LOG_INIT_DATA + i)
    ensures var r := ForkStep(m, p, c);
      && r.tables[TableOf(m, p)] == m.tables[TableOf(m, p)]
      && var f := r.tables[c][PAG_LOG_INIT_DATA + i].base;
      && f < TOTAL_PAGES && !m.used[f] && r.used[f]
      && r.tables[c][PAG_LOG_INIT_DATA + i] == Mapped(f)
      && (r.tables[j][q].present ==> r.tables[j][q].base != f)
  {
    hide FreeFrames, FirstFit, ForkStep, ClaimsOk, MapPages, ShareLowPages, Take;
    ForkTables(m, p, c);
    ForkKeeps(m, p, c);
    assert KindOk(m, p);
    var r, d := ForkStep(m, p, c), PAG_LOG_INIT_DATA + i;
    var f := r.tables[c][d].base;
    assert f == FreeFrames(m.used)[..NUM_PAG_DATA][i] && f in FreeFrames(m.used);
    assert Holds(r.tables, c, d, f);
    if r.tables[j][q].present && q >= PAG_LOG_INIT_DATA {
      assert Holds(r.tables, j, q, r.tables[j][q].base);
    }
  }

  /** Fork keeps every frame owned exactly when the pages its misplaced window falls on were absent:
      otherwise it wipes a live mapping of the parent and loses the frame behind it. */
  lemma ForkKeepsOwnedIff(m: Mem, p: nat, c: nat)
    requires Inv(m) && Live(m, p) && c < |m.kinds| && m.kinds[c] == FreeSlot
    requires NUM_PAG_DATA <= |FreeFrames(m.used)|
    requires var g := ForkGap(m.tables[TableOf(m, p)]); g >= 0 && g + WINDOW + NUM_PAG_DATA <= TOTAL_PAGES
    ensures var r := ForkStep(m, p, c);
      Owned(r.used, r.tables) <==> WindowClear(m.tables[TableOf(m, p)])
    ensures var r, pt := ForkStep(m, p, c), m.tables[TableOf(m, p)];
      var w := ForkGap(pt) + 2 * NUM_PAG_CODE;
      Owned(r.used, r.tables) <==> forall x :: w <= x < w + NUM_PAG_DATA ==> !pt[x].present
  {
    var j, r := TableOf(m, p), ForkStep(m, p, c);
    assert KindOk(m, p);
    if WindowClear(m.tables[j]) {
      ForkKeeps(m, p, c);
    } else {
      var w := ForkGap(m.tables[j]) + WINDOW;
      var q :| w <= q < w + NUM_PAG_DATA && m.tables[j][q].present;
      ClobberedFrame(m, p, c, q);
    }
  }

  lemma ClobberedFrame(m: Mem, p: nat, c: nat, q: nat)
    requires Inv(m) && Live(m, p) && c < |m.kinds| && m.kinds[c] == FreeSlot
    requires NUM_PAG_DATA <= |FreeFrames(m.used)|
    requires var pt := m.tables[TableOf(m, p)];
      var w := ForkGap(pt) + WINDOW;
      ForkGap(pt) >= 0 && w <= q < w + NUM_PAG_DATA && q < TOTAL_PAGES && pt[q].present
    ensures var r := ForkStep(m, p, c); !Owned(r.used, r.tables)
  {
    var j, r := TableOf(m, p), ForkStep(m, p, c);
    assert KindOk(m, p);
    var f, fs := m.tables[j][q].base, FreeFrames(m.used)[..NUM_PAG_DATA];
    assert Holds(m.tables, j, q, f);
    assert Held(m.tables, f) && m.used[f] && r.used[f] && !CodeFrame(f);
    assert f !in fs by {
      assert forall i :: 0 <= i < |fs| ==> fs[i] in FreeFrames(m.used);
    }
    forall k: nat, x: nat ensures !Holds(r.tables, k, x, f) {
      assert Holds(r.tables, k, x, f) && k < |m.tables| && m.tables[k][x] == r.tables[k][x] ==>
          Holds(m.tables, k, x, f);
    }
    assert !Held(r.tables, f);
  }

  /** The size of a region such that the hole it leaves is big enough for fork, but the window of
      fork reaches what comes after it. */
  const HOLE := Max(NUM_PAG_DATA, WINDOW)

  /** Such a window does come up, if memory is not tiny: get a region of HOLE pages, one of a single
      page after it, and delete the first one. */
  lemma ForkWindowCanBeBlocked(n: nat, guards: set<nat>, used: seq<bool>) returns (m: Mem)
    requires n >= 3 && KernelOnly(used)
    requires NUM_PAG_CODE + NUM_PAG_DATA + HOLE + 1 <= (TOTAL_PAGES - NUM_PAG_KERNEL) / 2
    ensures Inv(Booted(n, guards, used))
    ensures var m0, es := Booted(n, guards, used), [Get(1, HOLE - 1), Get(1, 0), Del(1, 0)];
      Runs(m0, es) && m == After(m0, es)
    ensures Inv(m) && |m.kinds| == n && Live(m, 1) && m.kinds[2] == FreeSlot && NUM_PAG_DATA <= |FreeFrames(m.used)|
    ensures ForkGap(m.tables[1]) == FIRST_FREE_PAGE && !WindowClear(m.tables[1])
  {
    hide Owned, LowPagesOk, FreeFrames, KindOk, ClaimsOk, Next, Enabled, Booted, WindowClear, ForkGap;
    BootedInv(n, guards, used);
    BootedAbove(n, guards, used);
    FreeAtBoot(n, guards, used);
    var m0 := Booted(n, guards, used);
    var m1, m2 := TwoRegions(m0);
    m := DelFirst(m2);
    Extend(m0, [], Get(1, HOLE - 1));
    Extend(m0, [] + [Get(1, HOLE - 1)], Get(1, 0));
    Extend(m0, [] + [Get(1, HOLE - 1)] + [Get(1, 0)], Del(1, 0));
    assert [] + [Get(1, HOLE - 1)] + [Get(1, 0)] + [Del(1, 0)] == [Get(1, HOLE - 1), Get(1, 0), Del(1, 0)];
  }

  lemma BootedAbove(n: nat, guards: set<nat>, used: seq<bool>)
    requires n >= 2 && KernelOnly(used)
    ensures var m := Booted(n, guards, used);
      && |m.tables| == |m.kinds| == n && m.claims == [] && m.kinds[1] == Process(false, true)
      && (forall t :: 2 <= t < n ==> m.kinds[t] == FreeSlot)
      && forall j, p :: 0 <= j < n && FIRST_FREE_PAGE <= p < TOTAL_PAGES ==>
           |m.tables[j]| == TOTAL_PAGES && !m.tables[j][p].present
  {
    hide FreeFrames, FreeFrom, UserFrames;
    var m := Booted(n, guards, used);
    assert forall j :: 0 <= j < n ==> m.tables[j] == BootTable(j, guards, UserFrames(used));
  }

  /** The first process gets a region of HOLE pages and one of a single page. */
  lemma TwoRegions(m: Mem) returns (m1: Mem, m2: Mem)
    requires Inv(m) && |m.kinds| >= 3 && m.kinds[1] == Process(false, true) && m.claims == []
    requires forall p :: FIRST_FREE_PAGE <= p < TOTAL_PAGES ==> !m.tables[1][p].present
    requires HOLE + 1 <= |FreeFrames(m.used)| && FIRST_FREE_PAGE + HOLE + 1 < TOTAL_PAGES
    ensures Enabled(m, Get(1, HOLE - 1)) && m1 == Next(m, Get(1, HOLE - 1)) && Inv(m1)
    ensures Enabled(m1, Get(1, 0)) && m2 == Next(m1, Get(1, 0)) && Inv(m2) && m2.kinds == m.kinds
    ensures m2.claims == [Claim(1, FIRST_FREE_PAGE, HOLE, Region(1)), Claim(1, FIRST_FREE_PAGE + HOLE, 1, Region(1))]
  {
    hide Owned, LowPagesOk, FreeFrames, KindOk, ClaimsOk, FirstFit, Next, MapPages, Enabled;
    var a := FIRST_FREE_PAGE;
    m1 := GetAt(m, HOLE, a);
    forall s | a <= s < a + HOLE ensures !Gap(m1.tables[1], s, 1) {
      assert m1.tables[1][s].present;
    }
    m2 := GetAt(m1, 1, a + HOLE);
  }

  /** With the kernel's own sizes: after regions of 20 pages and of one, and a deletion, fork finds its
      gap at page 284, but its window reaches page 304. */
  lemma ForkWindowBlockedInZeos(n: nat, guards: set<nat>, used: seq<bool>) returns (m: Mem)
    requires n >= 3 && KernelOnly(used) && SIZES == ZEOS
    ensures Inv(Booted(n, guards, used))
    ensures var m0, es := Booted(n, guards, used), [Get(1, 19), Get(1, 0), Del(1, 0)];
      Runs(m0, es) && m == After(m0, es)
    ensures |m.tables| == n && ForkGap(m.tables[1]) == 284 && !WindowClear(m.tables[1])
  {
    hide Owned, ClaimsOk, LowPagesOk, KindOk, Next, Enabled, WindowClear, ForkGap;
    m := ForkWindowCanBeBlocked(n, guards, used);
  }

  lemma DelFirst(m: Mem) returns (r: Mem)
    requires Inv(m) && |m.kinds| >= 3 && m.kinds[1] == Process(false, true)
    requires |m.claims| == 2 && m.claims[0] == Claim(1, FIRST_FREE_PAGE, HOLE, Region(1))
    requires m.claims[1] == Claim(1, FIRST_FREE_PAGE + HOLE, 1, Region(1))
    ensures Enabled(m, Del(1, 0)) && r == Next(m, Del(1, 0)) && Inv(r)
    ensures r.kinds == m.kinds && NUM_PAG_DATA <= |FreeFrames(r.used)|
    ensures ForkGap(r.tables[1]) == FIRST_FREE_PAGE && !WindowClear(r.tables[1])
  {
    hide Owned, LowPagesOk, FreeFrom;
    StepKeepsInv(m, Del(1, 0));
    UnmapBalance(m, 0);
    ClaimedUpdate(m.claims, 0, m.claims[0].(pages := 0, use := Orphan));
    assert ClaimOk(m.tables, m.claims[1]);
    r := Next(m, Del(1, 0));
    assert Gap(r.tables[1], FIRST_FREE_PAGE, NUM_PAG_DATA);
    var last := FIRST_FREE_PAGE + HOLE;
    assert r.tables[1][last] == m.tables[1][last] && m.tables[1][last].present;
    assert FIRST_FREE_PAGE + WINDOW <= last < FIRST_FREE_PAGE + WINDOW + NUM_PAG_DATA;
  }

  lemma FreeAtBoot(n: nat, guards: set<nat>, used: seq<bool>)
    requires n >= 2 && KernelOnly(used)
    ensures |FreeFrames(Booted(n, guards, used).used)|
         == (TOTAL_PAGES - NUM_PAG_KERNEL) / 2 - NUM_PAG_CODE - NUM_PAG_DATA
  {
    hide FreeFrom;
    AllFree(used, NUM_PAG_KERNEL);
    TakeLeaves(used, NUM_PAG_CODE + NUM_PAG_DATA);
  }

  /** A request by slot 1 for a region of n pages, header included, that is satisfied at page s. */
  lemma GetAt(m: Mem, n: nat, s: nat) returns (r: Mem)
    requires Inv(m) && |m.kinds| >= 3 && m.kinds[1] == Process(false, true) && 1 <= n <= |FreeFrames(m.used)|
    requires FIRST_FREE_PAGE <= s && Gap(m.tables[1], s, n)
    requires forall x :: FIRST_FREE_PAGE <= x < s ==> !Gap(m.tables[1], x, n)
    ensures Enabled(m, Get(1, n - 1)) && r == Next(m, Get(1, n - 1)) && Inv(r)
    ensures r.kinds == m.kinds && r.claims == m.claims + [Claim(1, s, n, Region(1))]
    ensures |FreeFrames(r.used)| == |FreeFrames(m.used)| - n
    ensures r.tables[1] == MapPages(m.tables[1], s, FreeFrames(m.used)[..n])
  {
    hide Owned, LowPagesOk, FreeFrom;
    StepKeepsInv(m, Get(1, n - 1));
    r := Next(m, Get(1, n - 1));
    assert FirstFit(m.tables[1], FIRST_FREE_PAGE, n) == s;
    TakeLeaves(m.used, n);
  }
}
