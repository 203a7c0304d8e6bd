/** What holds in every run of the memory machine from boot. */
module MemoryRuns {
  import opened Layout
  import opened Frames
  import opened Paging
  import opened Ownership
  import opened Memory
  import opened MemoryInv

  ghost predicate Runs(m: Mem, es: seq<Event>)
    requires Inv(m)
    decreases |es|
  {
    es == [] || (Enabled(m, es[0]) && (StepKeepsInv(m, es[0]); Runs(Next(m, es[0]), es[1..])))
  }

  ghost function After(m: Mem, es: seq<Event>): (r: Mem)
    requires Inv(m) && Runs(m, es)
    ensures Inv(r)
    decreases |es|
  {
    if es == [] then m else (StepKeepsInv(m, es[0]); After(Next(m, es[0]), es[1..]))
  }

  lemma {:induction false} Extend(m: Mem, es: seq<Event>, e: Event)
    requires Inv(m) && Runs(m, es) && Enabled(After(m, es), e)
    ensures Runs(m, es + [e]) && After(m, es + [e]) == Next(After(m, es), e)
    decreases |es|
  {
    hide Inv, Next, Enabled;
    if es == [] {
      StepKeepsInv(m, e);
      assert [] + [e] == [e] && [e][1..] == [];
      assert Runs(Next(m, e), [e][1..]) && After(Next(m, e), [e][1..]) == Next(m, e);
    } else {
      StepKeepsInv(m, es[0]);
      Extend(Next(m, es[0]), es[1..], e);
      assert (es + [e])[1..] == es[1..] + [e];
    }
  }

  // ---------------------------------------------------------------- counting frames

  /** One turn of the search for free frames. */
  lemma FreeStep(used: seq<bool>, from: nat)
    requires from % 2 == 0 && from < |used|
    ensures FreeFrom(used, from) == (if used[from] then [] else [from]) + FreeFrom(used, from + 2)
  {
  }

  lemma {:induction false} FreeingOne(used: seq<bool>, from: nat, f: nat)
    requires from % 2 == 0 && f % 2 == 0 && from <= f < |used| && used[f]
    ensures |FreeFrom(used[f := false], from)| == |FreeFrom(used, from)| + 1
    decreases |used| - from
  {
    hide FreeFrom;
    var u := used[f := false];
    FreeStep(used, from);
    FreeStep(u, from);
    if from == f {
      SameFrom(used, u, from + 2);
    } else {
      FreeingOne(used, from + 2, f);
    }
  }

  lemma {:induction false} SameFrom(a: seq<bool>, b: seq<bool>, from: nat)
    requires |a| == |b| && from % 2 == 0 && forall f :: from <= f < |a| ==> a[f] == b[f]
    ensures FreeFrom(a, from) == FreeFrom(b, from)
    decreases |a| - from
  {
    if from < |a| {
      FreeStep(a, from);
      FreeStep(b, from);
      SameFrom(a, b, from + 2);
    }
  }

  /** Releasing n owned pages makes n more frames free. */
  lemma {:induction false} ReleaseFrees(used: seq<bool>, tables: seq<seq<Pte>>, j: nat, s: nat, n: nat)
    requires Owned(used, tables) && j < |tables|
    requires PAG_LOG_INIT_DATA <= s && Present(tables[j], s, n)
    ensures |FreeFrames(Release(used, tables[j], s, n))| == |FreeFrames(used)| + n
  {
    var pt := tables[j];
    if n == 0 {
      assert Release(used, pt, s, 0) == used;
    } else {
      ReleaseFrees(used, tables, j, s, n - 1);
      var mid, p := Release(used, pt, s, n - 1), s + n - 1;
      var f := pt[p].base;
      assert Holds(tables, j, p, f);
      assert Held(tables, f);
      assert !Names(pt, s, n - 1, f) by {
        forall r | s <= r < s + (n - 1) && r < |pt| ensures pt[r].base != f {
          assert Holds(tables, j, r, pt[r].base);
        }
      }
      ReleaseOneMore(used, pt, s, n - 1);
      assert Release(used, pt, s, n) == mid[f := false];
      FreeingOne(mid, NUM_PAG_KERNEL, f);
    }
  }

  function ClaimedPages(claims: seq<Claim>): nat {
    if claims == [] then 0 else ClaimedPages(claims[..|claims| - 1]) + Max(claims[|claims| - 1].pages, 0)
  }

  function Processes(kinds: seq<Kind>): nat {
    if kinds == [] then 0 else Processes(kinds[..|kinds| - 1]) + if kinds[|kinds| - 1].Process? then 1 else 0
  }

  /** Frames that are free, or held by the data pages of a process, or by a claim. */
  function Balance(m: Mem): nat {
    |FreeFrames(m.used)| + NUM_PAG_DATA * Processes(m.kinds) + ClaimedPages(m.claims)
  }

  lemma {:induction false} ClaimedUpdate(claims: seq<Claim>, k: nat, c: Claim)
    requires k < |claims|
    ensures ClaimedPages(claims[k := c]) + Max(claims[k].pages, 0) == ClaimedPages(claims) + Max(c.pages, 0)
  {
    var last := |claims| - 1;
    if k == last {
      assert claims[k := c][..last] == claims[..last];
    } else {
      ClaimedUpdate(claims[..last], k, c);
      assert claims[k := c][..last] == claims[..last][k := c];
    }
  }

  lemma {:induction false} ClaimedOrphaned(claims: seq<Claim>, t: nat)
    ensures ClaimedPages(Orphaned(claims, t)) == ClaimedPages(claims)
  {
    if claims != [] {
      var last := |claims| - 1;
      ClaimedOrphaned(claims[..last], t);
      assert Orphaned(claims, t)[..last] == Orphaned(claims[..last], t);
    }
  }

  lemma {:induction false} ProcessesUpdate(kinds: seq<Kind>, t: nat, x: Kind)
    requires t < |kinds|
    ensures Processes(kinds[t := x]) + (if kinds[t].Process? then 1 else 0)
         == Processes(kinds) + (if x.Process? then 1 else 0)
  {
    var last := |kinds| - 1;
    if t == last {
      assert kinds[t := x][..last] == kinds[..last];
    } else {
      ProcessesUpdate(kinds[..last], t, x);
      assert kinds[t := x][..last] == kinds[..last][t := x];
    }
  }

  lemma ClaimedAppend(claims: seq<Claim>, c: Claim)
    ensures ClaimedPages(claims + [c]) == ClaimedPages(claims) + Max(c.pages, 0)
  {
  }

  // ---------------------------------------------------------------- conservation

  lemma DataOfOneMore(n: nat)
    ensures NUM_PAG_DATA * (n + 1) == NUM_PAG_DATA * n + NUM_PAG_DATA
  {
  }

  lemma MapBalance(m: Mem, j: nat, s: nat, n: int)
    requires Inv(m) && j < |m.kinds| && FIRST_FREE_PAGE <= s && Gap(m.tables[j], s, n)
    ensures var a := TryMap(m.used, m.tables[j], s, n);
      |FreeFrames(a.used)| + (if a.ok then Max(n, 0) else 0) == |FreeFrames(m.used)|
  {
    MapGap(m, j, s, n);
    if 0 < n <= |FreeFrames(m.used)| { TakeLeaves(m.used, n); }
  }

  lemma GetBalance(m: Mem, t: nat, pages: int)
    requires Inv(m) && t < |m.kinds|
    ensures Balance(GetStep(m, t, pages)) == Balance(m)
  {
    var j, n := TableOf(m, t), pages + 1;
    var s := FirstFit(m.tables[j], FIRST_FREE_PAGE, n);
    if pages >= 0 && s >= 0 {
      MapBalance(m, j, s, n);
      ClaimedAppend(m.claims, Claim(j, s, n, Region(t)));
    }
  }

  lemma NewThreadBalance(m: Mem, t: nat, c: nat, n: int)
    requires Inv(m) && Live(m, t) && c < |m.kinds| && m.kinds[c] == FreeSlot
    ensures Balance(NewThreadStep(m, t, c, n)) == Balance(m)
  {
    var j := TableOf(m, t);
    var s := FirstFit(m.tables[j], FIRST_FREE_PAGE, n);
    if n < TOTAL_PAGES - FIRST_FREE_PAGE && s >= 0 {
      MapBalance(m, j, s, n);
      ClaimedAppend(m.claims, Claim(j, s, n, Stack(c)));
      var kinds := m.kinds;
      if m.kinds[t].Process? {
        kinds := m.kinds[t := m.kinds[t].(threaded := true)];
        ProcessesUpdate(m.kinds, t, m.kinds[t].(threaded := true));
      }
      ProcessesUpdate(kinds, c, Thread(j, s, n, |m.claims|));
    }
  }

  lemma UnmapBalance(m: Mem, k: nat)
    requires Inv(m) && k < |m.claims|
    ensures var c := m.claims[k];
      && c.table < |m.kinds|
      && |FreeFrames(Unmap(m, c.table, c.start, c.pages).used)| + ClaimedPages(Spent(m.claims, k))
         == |FreeFrames(m.used)| + ClaimedPages(m.claims)
  {
    var c := m.claims[k];
    assert ClaimOk(m.tables, c);
    ClaimedUpdate(m.claims, k, c.(pages := 0, use := Orphan));
    if c.pages > 0 {
      ReleaseFrees(m.used, m.tables, c.table, c.start, c.pages);
    } else {
      assert Release(m.used, m.tables[c.table], c.start, c.pages) == m.used;
    }
  }

  lemma ExitBalance(m: Mem, t: nat)
    requires Inv(m) && Enabled(m, Exit(t))
    ensures KindOk(m, t) && Balance(ExitStep(m, t)) == Balance(m)
  {
    hide Owned, LowPagesOk, FreeFrames, Processes, ClaimedPages;
    assert KindOk(m, t);
    ProcessesUpdate(m.kinds, t, FreeSlot);
    if m.kinds[t].Process? { DataOfOneMore(Processes(m.kinds[t := FreeSlot])); }
    if m.kinds[t].Thread? {
      UnmapBalance(m, m.kinds[t].claim);
      ClaimedOrphaned(Spent(m.claims, m.kinds[t].claim), t);
    } else {
      ReleaseFrees(m.used, m.tables, t, PAG_LOG_INIT_DATA, NUM_PAG_DATA);
      ClaimedOrphaned(m.claims, t);
    }
  }

  lemma ForkBalance(m: Mem, p: nat, c: nat)
    requires Inv(m) && Enabled(m, Fork(p, c))
    ensures Balance(ForkStep(m, p, c)) == Balance(m)
  {
    hide Owned, LowPagesOk, FreeFrames, Processes, ClaimedPages, KindOk, WindowClear;
    if NUM_PAG_DATA <= |FreeFrames(m.used)| {
      ForkTables(m, p, c);
      TakeLeaves(m.used, NUM_PAG_DATA);
      ProcessesUpdate(m.kinds, c, Process(false, false));
      DataOfOneMore(Processes(m.kinds));
    } else {
      FailedFork(m, p, c);
    }
  }

  /** No step creates or loses a frame. */
  lemma StepBalances(m: Mem, e: Event)
    requires Inv(m) && Enabled(m, e)
    ensures Balance(Next(m, e)) == Balance(m)
  {
    match e
    case Fork(p, c) => ForkBalance(m, p, c);
    case NewThread(t, c, n) => NewThreadBalance(m, t, c, n);
    case Exit(t) => ExitBalance(m, t);
    case Get(t, n) => GetBalance(m, t, n);
    case Del(t, k) => UnmapBalance(m, k);
  }

  lemma {:induction false} RunBalances(m: Mem, es: seq<Event>)
    requires Inv(m) && Runs(m, es)
    ensures Balance(After(m, es)) == Balance(m)
    decreases |es|
  {
    hide Next, Inv, Balance;
    if es != [] {
      StepKeepsInv(m, es[0]);
      StepBalances(m, es[0]);
      RunBalances(Next(m, es[0]), es[1..]);
    }
  }
}
