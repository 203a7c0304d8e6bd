/** The kernel and code pages of every table, and what memory calls hand out. */
module LowPages {
  import opened Layout
  import opened Frames
  import opened Paging
  import opened Ownership
  import opened Memory
  import opened MemoryInv
  import opened MemoryRuns
  import opened MemoryBoot
  import opened MemoryTheorems

  // ---------------------------------------------------------------- boot

  /** A table at boot: page 0 and the guard pages are absent; the other kernel pages map themselves, for
      the kernel only.  The first process has its code pages, not writable, on the first frames after the
      kernel, and its data pages, writable, on the ones that follow; nothing else is mapped. */
  lemma BootPages(n: nat, guards: set<nat>, used: seq<bool>, j: nat, p: nat)
    requires n >= 2 && KernelOnly(used) && j < n && p < TOTAL_PAGES
    ensures var m := Booted(n, guards, used);
      && |m.tables| == n && |m.tables[j]| == TOTAL_PAGES
      && var e := m.tables[j][p];
      if p < NUM_PAG_KERNEL then
        e.present == (p != 0 && p !in guards) && !e.user && e.base == p && (e.present ==> e.rw)
      else if j == 1 && p < FIRST_FREE_PAGE then
        && e.present && e.user && e.rw == (p >= PAG_LOG_INIT_DATA)
        && e.base == NUM_PAG_KERNEL + 2 * (p - PAG_LOG_INIT_CODE)
      else
        !e.present
  {
    hide FreeFrames, FreeFrom, UserFrames;
    assert Booted(n, guards, used).tables[j] == BootTable(j, guards, UserFrames(used));
  }

  // ---------------------------------------------------------------- every run

  /** In every state, a live task finds its code pages where they belong: present, open to the user, page
      i on code frame i. */
  lemma CodeIsThere(m: Mem, t: nat, i: nat)
    requires Inv(m) && Live(m, t) && i < NUM_PAG_CODE
    ensures var e := m.tables[TableOf(m, t)][PAG_LOG_INIT_CODE + i];
      e.present && e.user && e.base == NUM_PAG_KERNEL + 2 * i
  {
    assert KindOk(m, t) && KindOk(m, TableOf(m, t));
  }

  /** Every table has the kernel's pages, but for page 0 and the guards. */
  predicate KernelMapped(tables: seq<seq<Pte>>, guards: set<nat>) {
    forall j, p :: 0 <= j < |tables| && 1 <= p < NUM_PAG_KERNEL && p < |tables[j]| && p !in guards ==>
      tables[j][p].present && tables[j][p].rw && tables[j][p].base == p
  }

  /** Only fork writes to kernel and code pages, and only to those of the child. */
  lemma LowPagesStay(m: Mem, e: Event, j: nat, p: nat)
    requires Inv(m) && Enabled(m, e) && j < |m.tables| && p < PAG_LOG_INIT_DATA
    requires e.Fork? ==> j != e.child || Fails(m, e)
    ensures var r := Next(m, e);
      |r.tables| == |m.tables| && |r.tables[j]| == TOTAL_PAGES && r.tables[j][p] == m.tables[j][p]
  {
    hide Owned, LowPagesOk, ClaimsOk, FreeFrames, MapPages, ClearPages, ShareLowPages, Take, Release;
    if e.Exit? || e.Del? {
      FreedRun(m, e);
    } else if Fails(m, e) {
      FailedCallChangesNothing(m, e);
    } else if e.Fork? {
      ForkTables(m, e.parent, e.child);
    }
  }

  /** The child's kernel and code pages map what the parent's map, present and open to the user, for
      writing too, whatever they are in the parent. */
  lemma ForkShares(m: Mem, p: nat, c: nat, x: nat)
    requires Inv(m) && Enabled(m, Fork(p, c)) && NUM_PAG_DATA <= |FreeFrames(m.used)| && x < PAG_LOG_INIT_DATA
    ensures var r := ForkStep(m, p, c);
      && |r.tables| == |m.tables| && |r.tables[c]| == TOTAL_PAGES
      && r.tables[c][x] == Pte(m.tables[TableOf(m, p)][x].base, true, true, true)
  {
    hide Owned, LowPagesOk, ClaimsOk, FreeFrames, MapPages, ShareLowPages, Take, ForkStep;
    ForkTables(m, p, c);
  }

  lemma StepKeepsKernel(m: Mem, e: Event, guards: set<nat>)
    requires Inv(m) && Enabled(m, e) && KernelMapped(m.tables, guards)
    ensures KernelMapped(Next(m, e).tables, guards)
  {
    hide Next, Owned, ClaimsOk, KindOk, FreeFrames, LowPagesOk;
    StepKeepsInv(m, e);
    var r := Next(m, e);
    forall j, p | 0 <= j < |r.tables| && 1 <= p < NUM_PAG_KERNEL && p < |r.tables[j]| && p !in guards
      ensures r.tables[j][p].present && r.tables[j][p].rw && r.tables[j][p].base == p
    {
      KernelPage(m, e, guards, j, p);
    }
  }

  lemma KernelPage(m: Mem, e: Event, guards: set<nat>, j: nat, p: nat)
    requires Inv(m) && Enabled(m, e) && Inv(Next(m, e)) && KernelMapped(m.tables, guards)
    requires j < |Next(m, e).tables| && 1 <= p < NUM_PAG_KERNEL && p !in guards
    ensures var x := Next(m, e).tables[j][p]; x.present && x.rw && x.base == p
  {
    hide Owned, ClaimsOk, KindOk, FreeFrames, LowPagesOk, ForkStep;
    TablesKept(m, e);
    if e.Fork? && j == e.child && !Fails(m, e) {
      EnoughForFork(m, e.parent, e.child);
      ForkShares(m, e.parent, e.child, p);
    } else {
      LowPagesStay(m, e, j, p);
    }
  }

  lemma TablesKept(m: Mem, e: Event)
    requires Inv(m) && Enabled(m, e)
    ensures |Next(m, e).tables| == |m.tables|
  {
  }

  lemma EnoughForFork(m: Mem, p: nat, c: nat)
    requires Inv(m) && Enabled(m, Fork(p, c)) && !Fails(m, Fork(p, c))
    ensures NUM_PAG_DATA <= |FreeFrames(m.used)|
  {
    FailsIff(m, Fork(p, c));
  }

  /** In every run from boot, every table has the kernel's pages, mapped to themselves. */
  lemma {:induction false} RunKeepsKernel(m: Mem, es: seq<Event>, guards: set<nat>)
    requires Inv(m) && Runs(m, es) && KernelMapped(m.tables, guards)
    ensures KernelMapped(After(m, es).tables, guards)
    decreases |es|
  {
    hide Next, Inv, KernelMapped;
    if es != [] {
      StepKeepsKernel(m, es[0], guards);
      StepKeepsInv(m, es[0]);
      RunKeepsKernel(Next(m, es[0]), es[1..], guards);
    }
  }

  lemma BootKernel(n: nat, guards: set<nat>, used: seq<bool>)
    requires n >= 2 && KernelOnly(used)
    ensures KernelMapped(Booted(n, guards, used).tables, guards)
  {
    hide Booted;
    var tables: seq<seq<Pte>> := Booted(n, guards, used).tables;
    forall j, p | 0 <= j < |tables| && 1 <= p < NUM_PAG_KERNEL && p < |tables[j]| && p !in guards
      ensures tables[j][p].present && tables[j][p].rw && tables[j][p].base == p
    {
      BootedAbove(n, guards, used);
      BootPages(n, guards, used, j, p);
    }
  }

  // ---------------------------------------------------------------- what calls hand out

  /** Pages s .. s+n-1 of table j, absent before, are now present and open to the user for writing, and s
      is the first place above the process image with room for them. */
  ghost predicate HandedOut(m: Mem, r: Mem, j: nat, s: nat, n: int)
    requires j < |m.tables| == |r.tables|
  {
    && |m.tables[j]| == |r.tables[j]| == TOTAL_PAGES && FIRST_FREE_PAGE <= s && s + n < TOTAL_PAGES
    && (forall p :: s <= p < s + n ==>
          !m.tables[j][p].present && r.tables[j][p].present && r.tables[j][p].user && r.tables[j][p].rw)
    && (forall x :: FIRST_FREE_PAGE <= x < s ==> !Gap(m.tables[j], x, n))
  }

  /** A successful memRegGet(pages) gives the caller pages + 1 pages of its table, one for the header. */
  lemma GetGives(m: Mem, t: nat, pages: int)
    requires Inv(m) && Enabled(m, Get(t, pages)) && !Fails(m, Get(t, pages))
    ensures var r, j, k := Next(m, Get(t, pages)), TableOf(m, t), |m.claims|;
      && |r.tables| == |m.tables| && r.kinds == m.kinds && |r.claims| == k + 1 && r.claims[..k] == m.claims
      && var c := r.claims[k];
      && c.table == j && c.pages == pages + 1 && c.use == Region(t) && HandedOut(m, r, j, c.start, pages + 1)
  {
    hide Owned, LowPagesOk, ClaimsOk, KindOk, FreeFrames, FirstFit, MapPages, Take;
    var r := Next(m, Get(t, pages));
    assert r.claims[..|m.claims|] == m.claims;
  }

  /** A successful thread creation gives the new task a stack of exactly the pages asked for, in the
      caller's table. */
  lemma NewThreadGives(m: Mem, t: nat, c: nat, n: int)
    requires Inv(m) && Enabled(m, NewThread(t, c, n)) && !Fails(m, NewThread(t, c, n))
    ensures var r, j, k := Next(m, NewThread(t, c, n)), TableOf(m, t), |m.claims|;
      && |r.tables| == |m.tables| && |r.kinds| == |m.kinds| && |r.claims| == k + 1 && r.claims[..k] == m.claims
      && var x := r.claims[k];
      && x.table == j && x.pages == n && x.use == Stack(c) && (n > 0 ==> HandedOut(m, r, j, x.start, n))
      && r.kinds[c] == Thread(j, x.start, n, k)
      && m.kinds[j].Process? && r.kinds[j] == Process(true, m.kinds[j].listReady)
      && forall y :: 0 <= y < |m.kinds| && y != c && y != j ==> r.kinds[y] == m.kinds[y]
  {
    hide Owned, LowPagesOk, ClaimsOk, FreeFrames, FirstFit, MapPages, Take;
    var r := Next(m, NewThread(t, c, n));
    assert KindOk(m, t);
    assert r.claims[..|m.claims|] == m.claims;
  }

  /** A successful fork makes slot c a process, without threads and without a region list, and claims
      nothing. */
  lemma ForkGives(m: Mem, p: nat, c: nat)
    requires Inv(m) && Enabled(m, Fork(p, c)) && !Fails(m, Fork(p, c))
    ensures var r := Next(m, Fork(p, c));
      r.kinds == m.kinds[c := Process(false, false)] && r.claims == m.claims
  {
    hide Owned, LowPagesOk, ClaimsOk, FreeFrames;
    EnoughForFork(m, p, c);
    ForkTables(m, p, c);
  }

  /** memRegDel leaves nothing of the region, and every other claim as it was. */
  lemma DelTakes(m: Mem, t: nat, k: nat)
    requires Inv(m) && Enabled(m, Del(t, k))
    ensures var r := Next(m, Del(t, k));
      && |r.claims| == |m.claims| && r.claims[k].pages == 0 && r.kinds == m.kinds
      && forall l :: 0 <= l < |m.claims| && l != k ==> r.claims[l] == m.claims[l]
  {
  }
}
