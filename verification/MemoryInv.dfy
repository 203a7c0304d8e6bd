/** Every step of the memory machine keeps frame ownership and the layout of the page tables. */
module MemoryInv {
  import opened Layout
  import opened Frames
  import opened Paging
  import opened Ownership
  import opened Memory

  /** The two sets of tables agree on the kernel and code pages, and on which data pages are present. */
  ghost predicate SameData(a: seq<seq<Pte>>, b: seq<seq<Pte>>) {
    && |a| == |b|
    && forall j, p :: 0 <= j < |a| && 0 <= p < FIRST_FREE_PAGE && p < |a[j]| && p < |b[j]| ==>
         if p < PAG_LOG_INIT_DATA then b[j][p] == a[j][p] else b[j][p].present == a[j][p].present
  }

  lemma GapIsApart(tables: seq<seq<Pte>>, a: Claim, b: Claim)
    requires ClaimOk(tables, a) && b.table < |tables| && Gap(tables[b.table], b.start, b.pages)
    ensures Apart(a, b)
  {
    var p := Max(a.start, b.start);
    if a.table == b.table && a.pages > 0 && b.pages > 0 && p < a.start + a.pages {
      assert tables[a.table][p].present;
    }
  }

  lemma GapIsZero(used: seq<bool>, tables: seq<seq<Pte>>, j: nat, s: nat, n: int)
    requires Owned(used, tables) && j < |tables| && s >= PAG_LOG_INIT_DATA && Absent(tables[j], s, n)
    ensures forall p :: s <= p < s + n ==> tables[j][p] == ZERO
  {
  }

  /** Mapping a gap: what both memRegGet and threadCreateWithStack do to the tables. */
  lemma MapGap(m: Mem, j: nat, s: nat, n: int)
    requires Inv(m) && j < |m.kinds| && FIRST_FREE_PAGE <= s && Gap(m.tables[j], s, n)
    ensures var a := TryMap(m.used, m.tables[j], s, n);
      && (!a.ok ==> a.used == m.used && m.tables[j := a.pt] == m.tables)
      && (a.ok ==>
          && Owned(a.used, m.tables[j := a.pt])
          && LowPagesOk(m.tables[j := a.pt])
          && SameData(m.tables, m.tables[j := a.pt])
          && forall u :: ClaimsOk(m.tables[j := a.pt], m.claims + [Claim(j, s, n, u)]))
  {
    var a := TryMap(m.used, m.tables[j], s, n);
    if !a.ok {
      GapIsZero(m.used, m.tables, j, s, n);
      FailedMapChangesNothing(m.used, m.tables[j], s, n);
      assert m.tables[j := m.tables[j]] == m.tables;
    } else {
      if n > 0 { MapKeepsOwned(m.used, m.tables, j, s, n); }
      var tables' := m.tables[j := a.pt];
      assert n <= 0 ==> tables' == m.tables;
      forall u ensures ClaimsOk(tables', m.claims + [Claim(j, s, n, u)]) {
        forall k | 0 <= k < |m.claims| ensures Apart(m.claims[k], Claim(j, s, n, u)) {
          GapIsApart(m.tables, m.claims[k], Claim(j, s, n, u));
        }
      }
    }
  }

  lemma KindsFrame(m: Mem, r: Mem)
    requires Inv(m) && Shape(r) && r.kinds == m.kinds && SameData(m.tables, r.tables) && m.claims <= r.claims
    ensures forall t :: 0 <= t < |r.kinds| ==> KindOk(r, t)
  {
    forall t | 0 <= t < |r.kinds| ensures KindOk(r, t) {
      assert KindOk(m, t);
    }
  }

  lemma GetKeeps(m: Mem, t: nat, pages: int)
    requires Inv(m) && t < |m.kinds|
    ensures Inv(GetStep(m, t, pages))
  {
    hide Owned, LowPagesOk, FreeFrames, MapPages, Take;
    var j, n := TableOf(m, t), pages + 1;
    var s := FirstFit(m.tables[j], FIRST_FREE_PAGE, n);
    if pages >= 0 && s >= 0 {
      MapGap(m, j, s, n);
      var r := GetStep(m, t, pages);
      if TryMap(m.used, m.tables[j], s, n).ok {
        assert ClaimsOk(r.tables, m.claims + [Claim(j, s, n, Region(t))]);
        KindsFrame(m, r);
      }
    }
  }

  lemma NewThreadKeeps(m: Mem, t: nat, c: nat, n: int)
    requires Inv(m) && Live(m, t) && c < |m.kinds| && m.kinds[c] == FreeSlot
    ensures Inv(NewThreadStep(m, t, c, n))
  {
    hide Owned, LowPagesOk, FreeFrames, MapPages, Take;
    var j := TableOf(m, t);
    var s := FirstFit(m.tables[j], FIRST_FREE_PAGE, n);
    if n < TOTAL_PAGES - FIRST_FREE_PAGE && s >= 0 {
      MapGap(m, j, s, n);
      var r := NewThreadStep(m, t, c, n);
      if TryMap(m.used, m.tables[j], s, n).ok {
        assert ClaimsOk(r.tables, m.claims + [Claim(j, s, n, Stack(c))]);
        KindsFrame(m, r.(kinds := m.kinds));
        assert KindOk(m, t);
        forall x | 0 <= x < |r.kinds| ensures KindOk(r, x) {
          assert KindOk(r.(kinds := m.kinds), x);
        }
      }
    }
  }

  /** Unmapping a run that is apart from a claim does not disturb the claim. */
  lemma ClaimSurvives(tables: seq<seq<Pte>>, a: Claim, b: Claim)
    requires ClaimOk(tables, a) && Apart(a, b) && b.table < |tables|
    ensures ClaimOk(tables[b.table := ClearPages(tables[b.table], b.start, b.pages)], a)
  {
  }

  lemma SpentKeepsClaims(tables: seq<seq<Pte>>, claims: seq<Claim>, k: nat)
    requires ClaimsOk(tables, claims) && k < |claims|
    requires forall j :: 0 <= j < |tables| ==> |tables[j]| == TOTAL_PAGES
    ensures var c := claims[k];
      ClaimsOk(tables[c.table := ClearPages(tables[c.table], c.start, c.pages)], Spent(claims, k))
  {
  }

  lemma OrphanedKeepsClaims(tables: seq<seq<Pte>>, claims: seq<Claim>, t: nat)
    requires ClaimsOk(tables, claims)
    ensures ClaimsOk(tables, Orphaned(claims, t))
  {
  }

  lemma UnmapClaimKeeps(m: Mem, k: nat)
    requires Inv(m) && k < |m.claims|
    ensures var c := m.claims[k];
      && c.table < |m.kinds|
      && var r := Unmap(m, c.table, c.start, c.pages);
      && Shape(r) && Owned(r.used, r.tables) && LowPagesOk(r.tables) && SameData(m.tables, r.tables)
      && ClaimsOk(r.tables, Spent(m.claims, k))
  {
    var c := m.claims[k];
    assert ClaimOk(m.tables, c);
    ReleaseKeepsOwned(m.used, m.tables, c.table, c.start, c.pages);
    SpentKeepsClaims(m.tables, m.claims, k);
  }

  lemma DelKeeps(m: Mem, t: nat, k: nat)
    requires Inv(m) && Enabled(m, Del(t, k))
    ensures m.claims[k].table < |m.kinds| && Inv(DelStep(m, k))
  {
    UnmapClaimKeeps(m, k);
    var r := DelStep(m, k);
    forall x | 0 <= x < |r.kinds| ensures KindOk(r, x) {
      assert KindOk(m, x);
    }
  }

  lemma ThreadExitKeeps(m: Mem, t: nat)
    requires Inv(m) && t < |m.kinds| && m.kinds[t].Thread?
    ensures KindOk(m, t) && Inv(ExitStep(m, t))
  {
    assert KindOk(m, t);
    var k := m.kinds[t].claim;
    UnmapClaimKeeps(m, k);
    var r := ExitStep(m, t);
    OrphanedKeepsClaims(r.tables, Spent(m.claims, k), t);
    forall x | 0 <= x < |r.kinds| ensures KindOk(r, x) {
      assert KindOk(m, x);
    }
  }

  lemma ProcessExitKeeps(m: Mem, t: nat)
    requires Inv(m) && t < |m.kinds| && m.kinds[t].Process? && !m.kinds[t].threaded
    ensures Inv(ExitStep(m, t))
  {
    assert KindOk(m, t);
    var data := Claim(t, PAG_LOG_INIT_DATA, NUM_PAG_DATA, Orphan);
    ReleaseKeepsOwned(m.used, m.tables, t, PAG_LOG_INIT_DATA, NUM_PAG_DATA);
    var r := ExitStep(m, t);
    forall k | 0 <= k < |m.claims| ensures ClaimOk(r.tables, m.claims[k]) {
      ClaimSurvives(m.tables, m.claims[k], data);
    }
    OrphanedKeepsClaims(r.tables, m.claims, t);
    forall x | 0 <= x < |r.kinds| ensures KindOk(r, x) {
      assert KindOk(m, x);
    }
  }

  /** Ownership does not depend on the kernel and code pages. */
  lemma OwnedIgnoresLowPages(used: seq<bool>, a: seq<seq<Pte>>, b: seq<seq<Pte>>)
    requires Owned(used, a) && WellShaped(used, b) && |a| == |b|
    requires forall j, p :: 0 <= j < |a| && PAG_LOG_INIT_DATA <= p < TOTAL_PAGES ==> b[j][p] == a[j][p]
    ensures Owned(used, b)
  {
    forall j: nat, p: nat, f ensures Holds(b, j, p, f) <==> Holds(a, j, p, f) {
    }
    forall f ensures Held(b, f) <==> Held(a, f) {
      if Held(a, f) { var j, p :| Holds(a, j, p, f); assert Holds(b, j, p, f); }
      if Held(b, f) { var j, p :| Holds(b, j, p, f); assert Holds(a, j, p, f); }
    }
  }

  /** With a clear window, the parent's table ends as it began. */
  lemma WindowRestored(m: Mem, j: nat)
    requires Inv(m) && j < |m.kinds| && WindowClear(m.tables[j])
    ensures ClearPages(m.tables[j], ForkGap(m.tables[j]) + WINDOW, NUM_PAG_DATA) == m.tables[j]
  {
  }

  /** What fork does to the tables, with a clear window and enough frames. */
  lemma ForkTables(m: Mem, p: nat, c: nat)
    requires Inv(m) && Enabled(m, Fork(p, c)) && NUM_PAG_DATA <= |FreeFrames(m.used)|
    ensures var fs := FreeFrames(m.used)[..NUM_PAG_DATA];
      var child := ShareLowPages(MapPages(m.tables[c], PAG_LOG_INIT_DATA, fs), m.tables[TableOf(m, p)]);
      ForkStep(m, p, c) == m.(used := Take(m.used, fs), tables := m.tables[c := child],
                              kinds := m.kinds[c := Process(false, false)])
  {
    var j := TableOf(m, p);
    assert KindOk(m, p);
    WindowRestored(m, j);
    var fs := FreeFrames(m.used)[..NUM_PAG_DATA];
    var child := ShareLowPages(MapPages(m.tables[c], PAG_LOG_INIT_DATA, fs), m.tables[j]);
    assert m.tables[c := child][j := m.tables[j]] == m.tables[c := child];
  }

  /** Without enough frames fork changes nothing. */
  lemma FailedFork(m: Mem, p: nat, c: nat)
    requires Inv(m) && Enabled(m, Fork(p, c)) && |FreeFrames(m.used)| < NUM_PAG_DATA
    ensures ForkStep(m, p, c) == m
  {
    assert KindOk(m, c) && CodeFrame(NUM_PAG_KERNEL);
    GapIsZero(m.used, m.tables, c, PAG_LOG_INIT_DATA, NUM_PAG_DATA);
    FailedMapChangesNothing(m.used, m.tables[c], PAG_LOG_INIT_DATA, NUM_PAG_DATA);
    assert m.tables[c := m.tables[c]] == m.tables;
  }

  /** What the child shares with the parent is laid out as it should be. */
  lemma SharedLow(m: Mem, p: nat, pt: seq<Pte>, child: seq<Pte>)
    requires Inv(m) && Live(m, p) && |pt| == TOTAL_PAGES
    requires child == ShareLowPages(pt, m.tables[TableOf(m, p)])
    ensures CodeMapped(child) && forall x :: 0 <= x < PAG_LOG_INIT_DATA ==> LowPageOk(child[x], x)
  {
    hide Owned, ClaimsOk, ShareLowPages;
    assert KindOk(m, p) && KindOk(m, TableOf(m, p));
  }

  lemma ForkKeeps(m: Mem, p: nat, c: nat)
    requires Inv(m) && Enabled(m, Fork(p, c))
    ensures Inv(ForkStep(m, p, c))
  {
    hide Owned, FreeFrames, FirstFit, CodeMapped, LowPageOk, MapPages, ShareLowPages, Take, ForkStep;
    assert KindOk(m, c) && KindOk(m, p);
    if NUM_PAG_DATA <= |FreeFrames(m.used)| {
      ForkTables(m, p, c);
      var r := ForkStep(m, p, c);
      var fs := FreeFrames(m.used)[..NUM_PAG_DATA];
      MapKeepsOwned(m.used, m.tables, c, PAG_LOG_INIT_DATA, NUM_PAG_DATA);
      OwnedIgnoresLowPages(r.used, m.tables[c := MapPages(m.tables[c], PAG_LOG_INIT_DATA, fs)], r.tables);
      SharedLow(m, p, MapPages(m.tables[c], PAG_LOG_INIT_DATA, fs), r.tables[c]);
      forall x | 0 <= x < |r.kinds| ensures KindOk(r, x) {
        assert KindOk(m, x);
      }
    } else {
      FailedFork(m, p, c);
    }
  }

  lemma StepKeepsInv(m: Mem, e: Event)
    requires Inv(m) && Enabled(m, e)
    ensures Inv(Next(m, e))
  {
    match e
    case Fork(p, c) => ForkKeeps(m, p, c);
    case NewThread(t, c, n) => NewThreadKeeps(m, t, c, n);
    case Exit(t) => if m.kinds[t].Thread? { ThreadExitKeeps(m, t); } else { ProcessExitKeeps(m, t); }
    case Get(t, n) => GetKeeps(m, t, n);
    case Del(t, k) => DelKeeps(m, t, k);
  }
}
