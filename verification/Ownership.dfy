/** Who owns which physical frame: one frame map against all the page tables. */
module Ownership {
  import opened Layout
  import opened Frames
  import opened Paging

  /** The frames of the user code, shared by all processes: the first ones ever handed out. */
  predicate CodeFrame(f: int) {
    NUM_PAG_KERNEL <= f < NUM_PAG_KERNEL + 2 * NUM_PAG_CODE && f % 2 == 0
  }

  predicate WellShaped(used: seq<bool>, tables: seq<seq<Pte>>) {
    |used| == TOTAL_PAGES && forall j :: 0 <= j < |tables| ==> |tables[j]| == TOTAL_PAGES
  }

  /** Page p of table j is a present data, stack or region page that maps frame f. */
  predicate Holds(tables: seq<seq<Pte>>, j: nat, p: nat, f: int) {
    && j < |tables| && PAG_LOG_INIT_DATA <= p < |tables[j]|
    && tables[j][p].present && tables[j][p].base == f
  }

  ghost predicate Held(tables: seq<seq<Pte>>, f: int) {
    exists j, p :: Holds(tables, j, p, f)
  }

  /** A frame is in use exactly when it is a kernel frame, a code frame, or mapped by a data, stack
      or region page; never by two; such pages are open to the user, for writing too; and pages that are
      not present are wholly zero. */
  ghost predicate Owned(used: seq<bool>, tables: seq<seq<Pte>>) {
    && WellShaped(used, tables)
    && (forall f :: 0 <= f < TOTAL_PAGES ==> used[f] == (f < NUM_PAG_KERNEL || CodeFrame(f) || Held(tables, f)))
    && (forall j, p, f :: Holds(tables, j, p, f) ==> Candidate(f, TOTAL_PAGES) && !CodeFrame(f))
    && (forall j, p, j', p', f :: Holds(tables, j, p, f) && Holds(tables, j', p', f) ==> j == j' && p == p')
    && (forall j, p :: 0 <= j < |tables| && PAG_LOG_INIT_DATA <= p < TOTAL_PAGES ==>
          if tables[j][p].present then tables[j][p].user && tables[j][p].rw else tables[j][p] == ZERO)
  }

  predicate Absent(pt: seq<Pte>, s: nat, n: int) {
    s + n <= |pt| && forall p :: s <= p < s + n ==> !pt[p].present
  }

  predicate Present(pt: seq<Pte>, s: nat, n: int) {
    s + n <= |pt| && forall p :: s <= p < s + n ==> pt[p].present
  }

  // ---------------------------------------------------------------- mapping

  lemma HoldsAfterMap(tables: seq<seq<Pte>>, j: nat, s: nat, fs: seq<nat>, k: nat, p: nat, f: int)
    requires j < |tables| && PAG_LOG_INIT_DATA <= s && Absent(tables[j], s, |fs|)
    ensures Holds(tables[j := MapPages(tables[j], s, fs)], k, p, f)
       <==> Holds(tables, k, p, f) || (k == j && s <= p < s + |fs| && fs[p - s] == f)
  {
  }

  lemma HeldAfterMap(tables: seq<seq<Pte>>, j: nat, s: nat, fs: seq<nat>, f: int)
    requires j < |tables| && PAG_LOG_INIT_DATA <= s && Absent(tables[j], s, |fs|)
    ensures Held(tables[j := MapPages(tables[j], s, fs)], f) <==> Held(tables, f) || f in fs
  {
    var tables' := tables[j := MapPages(tables[j], s, fs)];
    if Held(tables', f) {
      var k, p :| Holds(tables', k, p, f);
      HoldsAfterMap(tables, j, s, fs, k, p, f);
    }
    if Held(tables, f) {
      var k, p :| Holds(tables, k, p, f);
      HoldsAfterMap(tables, j, s, fs, k, p, f);
    }
    if f in fs {
      var i :| 0 <= i < |fs| && fs[i] == f;
      HoldsAfterMap(tables, j, s, fs, j, s + i, f);
    }
  }

  /** The frames that mapping hands out: free ones, so nobody holds them yet, each once. */
  lemma FreshFrames(used: seq<bool>, tables: seq<seq<Pte>>, n: nat, i: nat)
    requires Owned(used, tables) && n <= |FreeFrames(used)| && i < n
    ensures var fs := FreeFrames(used)[..n];
      && Candidate(fs[i], TOTAL_PAGES) && !CodeFrame(fs[i]) && !used[fs[i]] && !Held(tables, fs[i])
      && forall k :: 0 <= k < n && fs[k] == fs[i] ==> k == i
  {
    assert FreeFrames(used)[i] in FreeFrames(used);
  }

  /** No frame gets a second owner. */
  lemma MapKeepsUnique(used: seq<bool>, tables: seq<seq<Pte>>, j: nat, s: nat, n: nat,
                       k: nat, p: nat, k': nat, p': nat, f: int)
    requires Owned(used, tables) && j < |tables| && n <= |FreeFrames(used)|
    requires PAG_LOG_INIT_DATA <= s && Absent(tables[j], s, n)
    requires var tables' := tables[j := MapPages(tables[j], s, FreeFrames(used)[..n])];
      Holds(tables', k, p, f) && Holds(tables', k', p', f)
    ensures k == k' && p == p' && Candidate(f, TOTAL_PAGES) && !CodeFrame(f)
  {
    hide FreeFrames, MapPages;
    var fs := FreeFrames(used)[..n];
    HoldsAfterMap(tables, j, s, fs, k, p, f);
    HoldsAfterMap(tables, j, s, fs, k', p', f);
    if !Holds(tables, k, p, f) { FreshFrames(used, tables, n, p - s); }
    if !Holds(tables, k', p', f) { FreshFrames(used, tables, n, p' - s); }
    assert Holds(tables, k, p, f) || Holds(tables, k', p', f) ==> Held(tables, f);
  }

  /** Mapping absent pages to the lowest free frames keeps ownership. */
  lemma MapKeepsOwned(used: seq<bool>, tables: seq<seq<Pte>>, j: nat, s: nat, n: nat)
    requires Owned(used, tables) && j < |tables| && n <= |FreeFrames(used)|
    requires PAG_LOG_INIT_DATA <= s && Absent(tables[j], s, n)
    ensures var fs := FreeFrames(used)[..n];
      Owned(Take(used, fs), tables[j := MapPages(tables[j], s, fs)])
  {
    hide FreeFrames, Holds, Held, CodeFrame, Candidate;
    var fs := FreeFrames(used)[..n];
    var tables' := tables[j := MapPages(tables[j], s, fs)];
    forall f | 0 <= f < TOTAL_PAGES ensures Held(tables', f) <==> Held(tables, f) || f in fs {
      HeldAfterMap(tables, j, s, fs, f);
    }
    forall k, p, k', p', f | Holds(tables', k, p, f) && Holds(tables', k', p', f)
      ensures k == k' && p == p' && Candidate(f, TOTAL_PAGES) && !CodeFrame(f)
    {
      MapKeepsUnique(used, tables, j, s, n, k, p, k', p', f);
    }
  }

  // ---------------------------------------------------------------- unmapping

  lemma HoldsAfterClear(tables: seq<seq<Pte>>, j: nat, s: nat, n: int, k: nat, p: nat, f: int)
    requires j < |tables|
    ensures Holds(tables[j := ClearPages(tables[j], s, n)], k, p, f)
       <==> Holds(tables, k, p, f) && !(k == j && s <= p < s + n)
  {
  }

  /** Releasing present pages keeps ownership. */
  lemma ReleaseKeepsOwned(used: seq<bool>, tables: seq<seq<Pte>>, j: nat, s: nat, n: int)
    requires Owned(used, tables) && j < |tables|
    requires PAG_LOG_INIT_DATA <= s && Present(tables[j], s, n)
    ensures Owned(Release(used, tables[j], s, n), tables[j := ClearPages(tables[j], s, n)])
  {
    var pt := tables[j];
    var used', tables' := Release(used, pt, s, n), tables[j := ClearPages(pt, s, n)];
    forall k: nat, p: nat, f
      ensures Holds(tables', k, p, f) <==> Holds(tables, k, p, f) && !(k == j && s <= p < s + n)
    {
      HoldsAfterClear(tables, j, s, n, k, p, f);
    }
    forall f | 0 <= f < TOTAL_PAGES
      ensures used'[f] == (f < NUM_PAG_KERNEL || CodeFrame(f) || Held(tables', f))
    {
      ReleasedFrame(used, tables, j, s, n, f);
    }
  }

  lemma ReleasedFrame(used: seq<bool>, tables: seq<seq<Pte>>, j: nat, s: nat, n: int, f: nat)
    requires Owned(used, tables) && j < |tables| && f < TOTAL_PAGES
    requires PAG_LOG_INIT_DATA <= s && Present(tables[j], s, n)
    ensures Release(used, tables[j], s, n)[f]
         == (f < NUM_PAG_KERNEL || CodeFrame(f) || Held(tables[j := ClearPages(tables[j], s, n)], f))
  {
    var tables' := tables[j := ClearPages(tables[j], s, n)];
    if Names(tables[j], s, n, f) {
      var p :| s <= p < s + n && p < |tables[j]| && tables[j][p].base == f;
      assert Holds(tables, j, p, f);
      if Held(tables', f) {
        var k, r :| Holds(tables', k, r, f);
        HoldsAfterClear(tables, j, s, n, k, r, f);
        assert false;
      }
    } else if Held(tables, f) {
      var k, p :| Holds(tables, k, p, f);
      HoldsAfterClear(tables, j, s, n, k, p, f);
      assert Holds(tables', k, p, f);
    } else if Held(tables', f) {
      var k, r :| Holds(tables', k, r, f);
      HoldsAfterClear(tables, j, s, n, k, r, f);
      assert false;
    }
  }
}
