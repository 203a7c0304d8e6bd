/** How long the pages of a region live, who can give them back, and what a forked child finds mapped. */
module Regions {
  import opened Layout
  import opened Frames
  import opened Paging
  import opened Ownership
  import opened Memory
  import opened MemoryInv
  import opened MemoryRuns
  import opened MemoryBoot
  import opened MemoryTheorems

  // ---------------------------------------------------------------- until somebody deletes it

  /** Claim k is a region, of a task that may have exited, that is still mapped. */
  predicate LiveRegion(m: Mem, k: nat) {
    k < |m.claims| && !m.claims[k].use.Stack? && m.claims[k].pages > 0
  }

  /** Page p of table j is one of the claim's. */
  predicate Covers(c: Claim, j: nat, p: nat) {
    c.table == j && c.start <= p < c.start + c.pages
  }

  predicate Deletes(e: Event, k: nat) { e.Del? && e.k == k }

  predicate NoneDeletes(es: seq<Event>, k: nat) {
    forall i :: 0 <= i < |es| ==> !Deletes(es[i], k)
  }

  /** A step that does not delete the region keeps it, page by page. */
  lemma RegionStays(m: Mem, e: Event, k: nat, p: nat)
    requires Inv(m) && Enabled(m, e) && LiveRegion(m, k) && !Deletes(e, k) && Covers(m.claims[k], m.claims[k].table, p)
    ensures m.claims[k].table < |m.tables| && FIRST_FREE_PAGE <= p < TOTAL_PAGES
    ensures var r, c := Next(m, e), m.claims[k];
      && LiveRegion(r, k) && r.claims[k] == c.(use := r.claims[k].use) && c.table < |r.tables|
      && |r.tables[c.table]| == TOTAL_PAGES && r.tables[c.table][p] == m.tables[c.table][p]
  {
    hide Owned, LowPagesOk, FreeFrames, Apart, MapPages, ClearPages, ShareLowPages, Take, Release;
    assert ClaimOk(m.tables, m.claims[k]);
    match e
    case Fork(_, _) => NewPagesElsewhere(m, e, m.claims[k].table, p);
    case NewThread(_, _, _) => NewPagesElsewhere(m, e, m.claims[k].table, p);
    case Get(_, _) => NewPagesElsewhere(m, e, m.claims[k].table, p);
    case Exit(t) =>
      assert KindOk(m, t);
      RegionOutsideFreed(m, t, k);
      OutsideClear(m, k, p, Freed(m, e));
    case Del(t, l) =>
      assert Apart(m.claims[k], m.claims[l]) || Apart(m.claims[l], m.claims[k]);
      OutsideClear(m, k, p, m.claims[l]);
  }

  lemma OutsideClear(m: Mem, k: nat, p: nat, c: Claim)
    requires Inv(m) && k < |m.claims| && (Apart(m.claims[k], c) || Apart(c, m.claims[k]))
    requires m.claims[k].table < |m.tables| && c.table < |m.tables| && p < TOTAL_PAGES
    requires Covers(m.claims[k], m.claims[k].table, p)
    ensures var tables' := m.tables[c.table := ClearPages(m.tables[c.table], c.start, c.pages)];
      tables'[m.claims[k].table][p] == m.tables[m.claims[k].table][p]
  {
  }

  /** The frame behind a page of a live claim is in use. */
  lemma ClaimedFrameUsed(m: Mem, k: nat, p: nat)
    requires Inv(m) && k < |m.claims| && Covers(m.claims[k], m.claims[k].table, p)
    ensures m.claims[k].table < |m.tables| && FIRST_FREE_PAGE <= p < TOTAL_PAGES
    ensures var f := m.tables[m.claims[k].table][p].base;
      f < TOTAL_PAGES && m.used[f] && Holds(m.tables, m.claims[k].table, p, f)
  {
    assert ClaimOk(m.tables, m.claims[k]);
    var f := m.tables[m.claims[k].table][p].base;
    assert Holds(m.tables, m.claims[k].table, p, f);
    assert Held(m.tables, f);
  }

  /** A region outlives the task that asked for it: through every run in which nobody deletes it, its
      pages stay mapped to the frames they have, and those frames stay in use. */
  lemma {:induction false} RegionsStay(m: Mem, es: seq<Event>, k: nat, p: nat)
    requires Inv(m) && Runs(m, es) && LiveRegion(m, k) && NoneDeletes(es, k)
    requires Covers(m.claims[k], m.claims[k].table, p)
    ensures m.claims[k].table < |m.tables| && p < TOTAL_PAGES
    ensures var r, j, f := After(m, es), m.claims[k].table, m.tables[m.claims[k].table][p].base;
      && LiveRegion(r, k) && r.claims[k] == m.claims[k].(use := r.claims[k].use)
      && f < TOTAL_PAGES && r.used[f] && Holds(r.tables, j, p, f)
    decreases |es|
  {
    hide Next, Owned, LowPagesOk, ClaimsOk, KindOk;
    ClaimedFrameUsed(m, k, p);
    if es != [] {
      StepKeepsInv(m, es[0]);
      assert !Deletes(es[0], k);
      RegionStays(m, es[0], k, p);
      RegionsStay(Next(m, es[0]), es[1..], k, p);
    }
  }

  /** Deleting it frees every one of its frames and wipes its pages. */
  lemma DelFrees(m: Mem, t: nat, k: nat, p: nat)
    requires Inv(m) && Enabled(m, Del(t, k)) && Covers(m.claims[k], m.claims[k].table, p)
    ensures m.claims[k].table < |m.tables| && p < TOTAL_PAGES
    ensures var r, j, f := Next(m, Del(t, k)), m.claims[k].table, m.tables[m.claims[k].table][p].base;
      && f < TOTAL_PAGES && m.used[f] && !r.used[f] && |r.tables[j]| == TOTAL_PAGES && r.tables[j][p] == ZERO
      && !LiveRegion(r, k)
  {
    hide Owned, LowPagesOk, FreeFrames;
    ClaimedFrameUsed(m, k, p);
    assert ClaimOk(m.tables, m.claims[k]);
    ReleasedIff(m, m.claims[k], m.claims[k].table, p, m.tables[m.claims[k].table][p].base);
  }

  /** A spent claim never comes back. */
  lemma {:induction false} SpentStays(m: Mem, es: seq<Event>, k: nat)
    requires Inv(m) && Runs(m, es) && k < |m.claims| && m.claims[k].use == Orphan && m.claims[k].pages <= 0
    ensures k < |After(m, es).claims| && !LiveRegion(After(m, es), k)
    decreases |es|
  {
    hide Inv, Owned, FreeFrames;
    if es != [] {
      StepKeepsInv(m, es[0]);
      SpentStep(m, es[0], k);
      SpentStays(Next(m, es[0]), es[1..], k);
    }
  }

  lemma SpentStep(m: Mem, e: Event, k: nat)
    requires Inv(m) && Enabled(m, e) && k < |m.claims| && m.claims[k].use == Orphan && m.claims[k].pages <= 0
    ensures k < |Next(m, e).claims| && Next(m, e).claims[k] == m.claims[k]
  {
    hide Owned, LowPagesOk, ClaimsOk, FreeFrames;
    if e.Exit? { assert KindOk(m, e.t); }
  }

  /** A region is mapped after a run exactly if the run did not delete it. */
  lemma {:induction false} RegionLivesIff(m: Mem, es: seq<Event>, k: nat)
    requires Inv(m) && Runs(m, es) && LiveRegion(m, k)
    ensures LiveRegion(After(m, es), k) <==> NoneDeletes(es, k)
    decreases |es|
  {
    hide Next, Inv;
    if es != [] {
      var r := Next(m, es[0]);
      StepKeepsInv(m, es[0]);
      if Deletes(es[0], k) {
        DelSpends(m, es[0].t, k);
        SpentStays(r, es[1..], k);
      } else {
        RegionStays(m, es[0], k, m.claims[k].start);
        RegionLivesIff(r, es[1..], k);
        assert NoneDeletes(es, k) <==> NoneDeletes(es[1..], k) by {
          assert forall i :: 0 < i < |es| ==> es[i] == es[1..][i - 1];
        }
      }
    }
  }

  lemma DelSpends(m: Mem, t: nat, k: nat)
    requires Inv(m) && Enabled(m, Del(t, k))
    ensures var r := Next(m, Del(t, k)); k < |r.claims| && r.claims[k].use == Orphan && r.claims[k].pages == 0
  {
  }

  // ---------------------------------------------------------------- who can delete it

  /** Somebody can give a region back exactly while a process occupies the slot its table belongs to;
      it need not be the process, or one of its threads, that asked for it. */
  lemma RecoverableIff(m: Mem, k: nat)
    requires Inv(m) && LiveRegion(m, k)
    ensures m.claims[k].table < |m.kinds|
    ensures (exists t :: Enabled(m, Del(t, k))) <==> m.kinds[m.claims[k].table].Process?
  {
    var j := m.claims[k].table;
    assert ClaimOk(m.tables, m.claims[k]);
    if t :| Enabled(m, Del(t, k)) {
      assert KindOk(m, t);
    }
    if m.kinds[j].Process? { assert Enabled(m, Del(j, k)); }
  }

  /** The tasks that asked for regions and have not exited share the tables these are in. */
  predicate OwnersOk(m: Mem)
    requires Shape(m)
  {
    forall k :: 0 <= k < |m.claims| && m.claims[k].use.Region? ==>
      Live(m, m.claims[k].use.owner) && m.claims[k].table == TableOf(m, m.claims[k].use.owner)
  }

  /** Every page above the process image that is mapped belongs to a claim. */
  ghost predicate Covered(m: Mem)
    requires Shape(m)
  {
    forall j, p :: 0 <= j < |m.tables| && FIRST_FREE_PAGE <= p < TOTAL_PAGES && m.tables[j][p].present ==>
      exists k :: 0 <= k < |m.claims| && Covers(m.claims[k], j, p)
  }

  /** What holds in every run besides Inv. */
  ghost predicate Tidy(m: Mem) {
    Inv(m) && OwnersOk(m) && Covered(m)
  }

  lemma StepKeepsOwners(m: Mem, e: Event)
    requires Inv(m) && Enabled(m, e) && Inv(Next(m, e)) && OwnersOk(m)
    ensures OwnersOk(Next(m, e))
  {
    hide Owned, LowPagesOk, ClaimsOk, FreeFrames, FirstFit, TryMap, MapPages, ClearPages, ShareLowPages, Take, Release;
    if e.Exit? { assert KindOk(m, e.t); }
  }

  lemma KeptCover(m: Mem, j: nat, p: nat) returns (k: nat)
    requires Shape(m) && Covered(m) && j < |m.tables| && FIRST_FREE_PAGE <= p < TOTAL_PAGES && m.tables[j][p].present
    ensures k < |m.claims| && Covers(m.claims[k], j, p)
  {
    k :| 0 <= k < |m.claims| && Covers(m.claims[k], j, p);
  }

  /** Where the claim is that a mapped page belongs to after a step. */
  lemma StillCovered(m: Mem, e: Event, j: nat, p: nat) returns (k: nat)
    requires Inv(m) && Covered(m) && Enabled(m, e) && Inv(Next(m, e))
    requires j < |m.tables| && FIRST_FREE_PAGE <= p < TOTAL_PAGES && Next(m, e).tables[j][p].present
    ensures k < |Next(m, e).claims| && Covers(Next(m, e).claims[k], j, p)
  {
    hide Owned, LowPagesOk, ClaimsOk, FreeFrames, FirstFit, MapPages, ClearPages, ShareLowPages, Take, Release;
    if e.Exit? || e.Del? {
      if e.Exit? { assert KindOk(m, e.t); }
      k := KeptCover(m, j, p);
    } else {
      k := GrownCover(m, e, j, p);
    }
  }

  lemma GrownCover(m: Mem, e: Event, j: nat, p: nat) returns (k: nat)
    requires Inv(m) && Covered(m) && Enabled(m, e) && Inv(Next(m, e)) && (e.Fork? || e.NewThread? || e.Get?)
    requires j < |m.tables| && FIRST_FREE_PAGE <= p < TOTAL_PAGES && Next(m, e).tables[j][p].present
    ensures k < |Next(m, e).claims| && Covers(Next(m, e).claims[k], j, p)
  {
    hide Owned, LowPagesOk, ClaimsOk, KindOk, FreeFrames, FirstFit, MapPages, ClearPages, ShareLowPages, Take;
    if Fails(m, e) {
      FailedCallChangesNothing(m, e);
    } else if e.Fork? {
      ForkTables(m, e.parent, e.child);
    }
    if m.tables[j][p].present {
      k := KeptCover(m, j, p);
    } else {
      k := |m.claims|;
    }
  }

  lemma StepKeepsTidy(m: Mem, e: Event)
    requires Tidy(m) && Enabled(m, e)
    ensures Tidy(Next(m, e))
  {
    hide Next, OwnersOk, Owned, LowPagesOk, ClaimsOk, KindOk, Covers;
    StepKeepsInv(m, e);
    StepKeepsOwners(m, e);
    var r := Next(m, e);
    KindsKept(m, e);
    forall j, p | 0 <= j < |r.tables| && FIRST_FREE_PAGE <= p < TOTAL_PAGES && r.tables[j][p].present
      ensures exists k :: 0 <= k < |r.claims| && Covers(r.claims[k], j, p)
    {
      var k := StillCovered(m, e, j, p);
    }
  }

  lemma KindsKept(m: Mem, e: Event)
    requires Inv(m) && Enabled(m, e)
    ensures |Next(m, e).tables| == |m.tables|
  {
  }

  /** Every run from boot is tidy. */
  lemma {:induction false} RunKeepsTidy(m: Mem, es: seq<Event>)
    requires Tidy(m) && Runs(m, es)
    ensures Tidy(After(m, es))
    decreases |es|
  {
    hide Next, OwnersOk, Covered, Inv;
    if es != [] {
      StepKeepsTidy(m, es[0]);
      RunKeepsTidy(Next(m, es[0]), es[1..]);
    }
  }

  lemma BootedTidy(n: nat, guards: set<nat>, used: seq<bool>)
    requires n >= 2 && KernelOnly(used)
    ensures Tidy(Booted(n, guards, used))
  {
    hide FreeFrames, FreeFrom, UserFrames, Owned, LowPagesOk, KindOk;
    BootedInv(n, guards, used);
    var m := Booted(n, guards, used);
    assert forall j :: 0 <= j < n ==> m.tables[j] == BootTable(j, guards, UserFrames(used));
  }

  /** When a thread exits, the process it belonged to can give back what the thread left, every frame
      of it. */
  lemma MasterFrees(m: Mem, t: nat, k: nat, p: nat)
    requires Tidy(m) && Enabled(m, Exit(t)) && m.kinds[t].Thread?
    requires LiveRegion(m, k) && m.claims[k].use == Region(t) && Covers(m.claims[k], m.claims[k].table, p)
    ensures var r, j := Next(m, Exit(t)), TableOf(m, t);
      && Inv(r) && Enabled(r, Del(j, k)) && p < TOTAL_PAGES
      && var f := m.tables[j][p].base;
      && f < TOTAL_PAGES && m.used[f] && r.used[f] && !Next(r, Del(j, k)).used[f]
  {
    hide Owned, LowPagesOk, ClaimsOk, FreeFrames;
    assert KindOk(m, t);
    StepKeepsInv(m, Exit(t));
    RegionStays(m, Exit(t), k, p);
    ClaimedFrameUsed(m, k, p);
    DelFrees(Next(m, Exit(t)), TableOf(m, t), k, p);
  }

  // ---------------------------------------------------------------- what a child finds mapped

  /** The pages of a table above the process image are all absent. */
  predicate NothingAbove(pt: seq<Pte>) {
    forall p :: FIRST_FREE_PAGE <= p < |pt| ==> !pt[p].present
  }

  /** What a forked child has mapped besides the pages it shares and its own data: nothing, exactly if
      nobody left a region behind in its slot.  Fork does not clear the pages above the process image. */
  lemma ChildMapsOnlyItsOwnIff(m: Mem, p: nat, c: nat)
    requires Tidy(m) && Enabled(m, Fork(p, c)) && NUM_PAG_DATA <= |FreeFrames(m.used)|
    ensures NothingAbove(ForkStep(m, p, c).tables[c])
       <==> forall k :: 0 <= k < |m.claims| && m.claims[k].table == c ==> m.claims[k].pages <= 0
  {
    hide Owned, LowPagesOk, FreeFrames, FirstFit, MapPages, ShareLowPages, Take, ForkStep;
    ForkTables(m, p, c);
    var r := ForkStep(m, p, c).tables[c];
    if k :| 0 <= k < |m.claims| && m.claims[k].table == c && m.claims[k].pages > 0 {
      assert ClaimOk(m.tables, m.claims[k]);
      assert r[m.claims[k].start].present;
    } else {
      forall x | FIRST_FREE_PAGE <= x < |r| ensures !r[x].present {
        if r[x].present {
          var k := KeptCover(m, c, x);
        }
      }
    }
  }
}
