/** The memory system calls, in place on the frame map, the page tables and physical memory. */
module MemoryManager {
  import opened Layout
  import opened Frames
  import opened Paging
  import opened Ownership
  import opened Memory
  import opened MemoryInv
  import MB = MemoryBoot
  import opened Utils
  import opened Errno

  /** What the counter of process identifiers starts from. */
  const FIRST_PID := 1000

  /** Bytes of a region's header: its list links and its size. */
  const HEADER := 2 * 4 + 4

  /** The address memRegGet returns for a region that starts at page s, and back. */
  function RegionAddress(s: nat): nat { s * PAGE_SIZE + HEADER }
  function RegionPage(m: int): int { (m - HEADER) / PAGE_SIZE }

  /** The address is right after the header, in the first page of the region; as many pages as were
      asked for fit between it and the end of the region; and it gives the first page back. */
  lemma RegionFits(s: nat, pages: nat)
    ensures RegionAddress(s) == 4096 * s + 12 && RegionPage(RegionAddress(s)) == s
    ensures s * PAGE_SIZE + HEADER <= RegionAddress(s)
    ensures RegionAddress(s) + pages * PAGE_SIZE <= (s + pages + 1) * PAGE_SIZE
  {
  }

  /** Every task there is has an identifier of its own; unused slots have none. */
  predicate PidsOk(pid: seq<int>, kinds: seq<Kind>, last: int) {
    && |pid| == |kinds| && last >= FIRST_PID
    && (forall t :: 0 <= t < |pid| ==> if kinds[t] == FreeSlot then pid[t] == -1 else 0 <= pid[t] <= last)
    && (forall t, u :: 0 <= t < u < |pid| && kinds[t] != FreeSlot && kinds[u] != FreeSlot ==> pid[t] != pid[u])
  }

  /** A new task in slot c gets the next identifier, which nobody has. */
  lemma PidGiven(pid: seq<int>, kinds: seq<Kind>, last: int, c: nat, kinds': seq<Kind>)
    requires PidsOk(pid, kinds, last) && c < |kinds| == |kinds'| && kinds'[c] != FreeSlot
    requires forall t :: 0 <= t < |kinds| && t != c ==> (kinds'[t] == FreeSlot <==> kinds[t] == FreeSlot)
    ensures |pid| == |kinds| && PidsOk(pid[c := last + 1], kinds', last + 1) && last + 1 !in pid && last > 0
  {
  }

  lemma PidReturned(pid: seq<int>, kinds: seq<Kind>, last: int, t: nat)
    requires PidsOk(pid, kinds, last) && t < |kinds|
    ensures |pid| == |kinds| && PidsOk(pid[t := -1], kinds[t := FreeSlot], last)
  {
  }

  /** The contents of frame f. */
  function PageAt(ram: seq<byte>, f: nat): seq<byte> {
    if (f + 1) * PAGE_SIZE <= |ram| then ram[f * PAGE_SIZE..(f + 1) * PAGE_SIZE] else []
  }

  /** init_table_pages, for one table. */
  method InitTablePages(guards: set<nat>) returns (pt: array<Pte>)
    ensures fresh(pt) && pt.Length == TOTAL_PAGES && pt[..] == MB.InitTable(guards)
  {
    pt := new Pte[TOTAL_PAGES];
    for i := 0 to TOTAL_PAGES
      invariant forall p :: 0 <= p < i ==> pt[p] == ZERO
    {
      pt[i] := ZERO;
    }
    for i := 1 to NUM_PAG_KERNEL
      invariant forall p :: 0 <= p < TOTAL_PAGES ==> pt[p] == if 1 <= p < i then MB.InitEntry(p, guards) else ZERO
    {
      pt[i] := Pte(i, false, true, i !in guards);
    }
  }

  /** One more page of code or data. */
  lemma UserTableNext(table: seq<Pte>, fs: seq<nat>, k: nat)
    requires k < |fs| && PAG_LOG_INIT_CODE + |fs| <= |table|
    ensures var p := PAG_LOG_INIT_CODE + k;
      MB.UserTable(table, fs[..k + 1]) == MB.UserTable(table, fs[..k])[p := MB.UserEntry(p, fs[k])]
  {
  }

  /** set_user_pages, at boot. */
  method SetUserPages(physMem: array<bool>, pt: array<Pte>)
    requires MB.KernelOnly(physMem[..]) && pt.Length == TOTAL_PAGES
    modifies physMem, pt
    ensures physMem[..] == Take(old(physMem[..]), MB.UserFrames(old(physMem[..])))
    ensures pt[..] == MB.UserTable(old(pt[..]), MB.UserFrames(old(physMem[..])))
  {
    hide FreeFrames, FreeFrom, MB.UserFrames, MB.UserTable, Take;
    ghost var used, table := physMem[..], pt[..];
    ghost var fs := MB.UserFrames(used);
    assert Take(used, fs[..0]) == used && MB.UserTable(table, fs[..0]) == table;
    for pag := 0 to NUM_PAG_CODE
      invariant physMem[..] == Take(used, fs[..pag]) && pt[..] == MB.UserTable(table, fs[..pag])
    {
      SetUserPage(physMem, pt, PAG_LOG_INIT_CODE + pag, false, used, table, pag);
    }
    for pag := 0 to NUM_PAG_DATA
      invariant physMem[..] == Take(used, fs[..NUM_PAG_CODE + pag])
      invariant pt[..] == MB.UserTable(table, fs[..NUM_PAG_CODE + pag])
    {
      SetUserPage(physMem, pt, PAG_LOG_INIT_DATA + pag, true, used, table, NUM_PAG_CODE + pag);
    }
    assert fs[..NUM_PAG_CODE + NUM_PAG_DATA] == fs;
  }

  /** One turn of its loops: page p gets the k-th frame. */
  method SetUserPage(physMem: array<bool>, pt: array<Pte>, p: nat, rw: bool,
                     ghost used: seq<bool>, ghost table: seq<Pte>, ghost k: nat)
    requires MB.KernelOnly(used) && k < NUM_PAG_CODE + NUM_PAG_DATA && pt.Length == |table| == TOTAL_PAGES
    requires p == PAG_LOG_INIT_CODE + k && rw == (p >= PAG_LOG_INIT_DATA)
    requires physMem[..] == Take(used, MB.UserFrames(used)[..k])
    requires pt[..] == MB.UserTable(table, MB.UserFrames(used)[..k])
    modifies physMem, pt
    ensures physMem[..] == Take(used, MB.UserFrames(used)[..k + 1])
    ensures pt[..] == MB.UserTable(table, MB.UserFrames(used)[..k + 1])
  {
    hide FreeFrames, FreeFrom, MB.UserFrames, MB.UserTable, Take;
    var frame := NextUserFrame(physMem, used, k);
    pt[p] := Pte(frame, true, rw, true);
    UserTableNext(table, MB.UserFrames(used), k);
  }

  method NextUserFrame(physMem: array<bool>, ghost used: seq<bool>, ghost k: nat) returns (frame: nat)
    requires MB.KernelOnly(used) && k < NUM_PAG_CODE + NUM_PAG_DATA
    requires physMem[..] == Take(used, MB.UserFrames(used)[..k])
    modifies physMem
    ensures frame == MB.UserFrames(used)[k] && physMem[..] == Take(used, MB.UserFrames(used)[..k + 1])
  {
    hide FreeFrames, FreeFrom, MB.UserFrames;
    ghost var fs, all := MB.UserFrames(used), FreeFrames(used);
    TakeLeaves(used, k);
    assert fs[..k] == all[..k] && fs[k] == all[k];
    var f := AllocFrame(physMem);
    frame := f;
    assert fs[..k + 1] == fs[..k] + [fs[k]];
    assert Take(Take(used, fs[..k]), [frame]) == Take(used, fs[..k + 1]);
  }

  /** A page keeps its bytes when only another page is written. */
  lemma PageKept(was: seq<byte>, now: seq<byte>, to: nat, f: nat)
    requires |was| == |now| && f != to
    requires forall i :: 0 <= i < |was| && !(to * PAGE_SIZE <= i < (to + 1) * PAGE_SIZE) ==> now[i] == was[i]
    ensures PageAt(now, f) == PageAt(was, f)
  {
    assert f < to ==> (f + 1) * PAGE_SIZE <= to * PAGE_SIZE;
    assert f > to ==> (to + 1) * PAGE_SIZE <= f * PAGE_SIZE;
  }

  lemma PageMoved(was: seq<byte>, now: seq<byte>, from: nat, to: nat)
    requires |was| == |now| && (from + 1) * PAGE_SIZE <= |was| && (to + 1) * PAGE_SIZE <= |was|
    requires forall i :: to * PAGE_SIZE <= i < (to + 1) * PAGE_SIZE ==>
      now[i] == was[from * PAGE_SIZE + (i - to * PAGE_SIZE)]
    ensures PageAt(now, to) == PageAt(was, from)
  {
  }

  /** Moves one page, the way fork reaches it: through the logical pages of one table. */
  method CopyPage(ram: array<byte>, from: nat, to: nat)
    requires from < TOTAL_PAGES && to < TOTAL_PAGES && from != to && ram.Length == TOTAL_PAGES * PAGE_SIZE
    modifies ram
    ensures PageAt(ram[..], to) == old(PageAt(ram[..], from))
    ensures forall f :: 0 <= f < TOTAL_PAGES && f != to ==> PageAt(ram[..], f) == old(PageAt(ram[..], f))
  {
    hide PageAt;
    ghost var was := ram[..];
    CopyData(ram, from * PAGE_SIZE, to * PAGE_SIZE, PAGE_SIZE);
    PageMoved(was, ram[..], from, to);
    forall f | 0 <= f < TOTAL_PAGES && f != to
      ensures PageAt(ram[..], f) == PageAt(was, f)
    {
      PageKept(was, ram[..], to, f);
    }
  }

  /** The two sharing loops of sys_fork: kernel pages, then code pages. */
  method ShareLow(child: array<Pte>, parent: array<Pte>)
    requires child != parent && child.Length == TOTAL_PAGES && parent.Length == TOTAL_PAGES
    modifies child
    ensures child[..] == ShareLowPages(old(child[..]), parent[..])
  {
    for pag := 0 to NUM_PAG_KERNEL
      invariant forall p :: 0 <= p < TOTAL_PAGES ==>
        child[p] == if p < pag then Mapped(parent[p].base) else old(child[p])
    {
      child[pag] := Mapped(parent[pag].base);
    }
    for pag := 0 to NUM_PAG_CODE
      invariant forall p :: 0 <= p < TOTAL_PAGES ==>
        child[p] == if p < PAG_LOG_INIT_CODE + pag then Mapped(parent[p].base) else old(child[p])
    {
      child[PAG_LOG_INIT_CODE + pag] := Mapped(parent[PAG_LOG_INIT_CODE + pag].base);
    }
  }

  /** The data pages of the child map frames of their own, none of them a data frame of the parent. */
  predicate OwnFrames(child: seq<Pte>, parent: seq<Pte>) {
    && |child| == |parent| == TOTAL_PAGES
    && (forall i :: PAG_LOG_INIT_DATA <= i < FIRST_FREE_PAGE ==>
          child[i].base < TOTAL_PAGES && parent[i].base < TOTAL_PAGES)
    && (forall i, k :: PAG_LOG_INIT_DATA <= i < FIRST_FREE_PAGE && PAG_LOG_INIT_DATA <= k < FIRST_FREE_PAGE ==>
          child[i].base != parent[k].base && (i != k ==> child[i].base != child[k].base))
  }

  /** What the child's table maps before the copying: fresh data pages, and the parent's low pages. */
  function ChildTable(used: seq<bool>, child: seq<Pte>, parent: seq<Pte>): seq<Pte>
    requires |child| == |parent|
  {
    ShareLowPages(TryMap(used, child, PAG_LOG_INIT_DATA, NUM_PAG_DATA).pt, parent)
  }

  /** A free slot is not the slot of a live task's table. */
  lemma ParentElsewhere(m: Mem, p: nat, c: nat)
    requires Inv(m) && Live(m, p) && c < |m.kinds| && m.kinds[c] == FreeSlot
    ensures c != TableOf(m, p)
  {
    assert KindOk(m, p);
  }

  /** Fresh frames are such frames. */
  lemma FreshFramesOwn(m: Mem, p: nat, c: nat)
    requires Inv(m) && Live(m, p) && c < |m.kinds| && m.kinds[c] == FreeSlot && NUM_PAG_DATA <= |FreeFrames(m.used)|
    ensures var parent := m.tables[TableOf(m, p)];
      var child := ChildTable(m.used, m.tables[c], parent);
      && OwnFrames(child, parent)
      && forall f :: 0 <= f < TOTAL_PAGES && m.used[f] ==> !Names(child, PAG_LOG_INIT_DATA, NUM_PAG_DATA, f)
  {
    hide FreeFrames, Owned, ClaimsOk, LowPagesOk, MapPages, ShareLowPages, Take;
    var j, fs := TableOf(m, p), FreeFrames(m.used)[..NUM_PAG_DATA];
    assert forall i :: 0 <= i < |fs| ==> fs[i] in FreeFrames(m.used);
    forall k | PAG_LOG_INIT_DATA <= k < FIRST_FREE_PAGE
      ensures m.tables[j][k].base < TOTAL_PAGES && m.used[m.tables[j][k].base]
    {
      DataFrameUsed(m, p, k);
    }
  }

  /** The data pages of a live task's table map frames in use. */
  lemma DataFrameUsed(m: Mem, p: nat, k: nat)
    requires Inv(m) && Live(m, p) && PAG_LOG_INIT_DATA <= k < FIRST_FREE_PAGE
    ensures var f := m.tables[TableOf(m, p)][k].base; f < TOTAL_PAGES && m.used[f]
  {
    hide ClaimsOk, LowPagesOk;
    var j := TableOf(m, p);
    assert KindOk(m, p) && KindOk(m, j);
    assert Holds(m.tables, j, k, m.tables[j][k].base);
    assert Held(m.tables, m.tables[j][k].base);
  }

  /** One turn of the copying loop of sys_fork: data page pag of the child is mapped at page temp of the
      parent's table, the parent's page is copied there, and the mapping is wiped. */
  method CopyThrough(ram: array<byte>, child: array<Pte>, parent: array<Pte>, temp: nat, pag: nat)
    requires child != parent && child.Length == TOTAL_PAGES && parent.Length == TOTAL_PAGES
    requires ram.Length == TOTAL_PAGES * PAGE_SIZE && pag < temp < TOTAL_PAGES
    requires child[pag].base < TOTAL_PAGES && parent[pag].base < TOTAL_PAGES && child[pag].base != parent[pag].base
    modifies ram, parent
    ensures parent[..] == old(parent[..])[temp := ZERO]
    ensures PageAt(ram[..], child[pag].base) == old(PageAt(ram[..], parent[pag].base))
    ensures forall f :: 0 <= f < TOTAL_PAGES && f != child[pag].base ==> PageAt(ram[..], f) == old(PageAt(ram[..], f))
  {
    hide PageAt;
    parent[temp] := Mapped(child[pag].base);
    CopyPage(ram, parent[pag].base, parent[temp].base);
    parent[temp] := ZERO;
  }

  /** The frame of a page of the child is no other page's. */
  lemma OwnAt(child: seq<Pte>, parent: seq<Pte>, p: nat)
    requires OwnFrames(child, parent) && PAG_LOG_INIT_DATA <= p < FIRST_FREE_PAGE
    ensures |child| == |parent| == TOTAL_PAGES && child[p].base < TOTAL_PAGES && parent[p].base < TOTAL_PAGES
    ensures forall k :: PAG_LOG_INIT_DATA <= k < FIRST_FREE_PAGE ==>
      parent[k].base != child[p].base && (k != p ==> child[k].base != child[p].base)
    ensures forall k :: PAG_LOG_INIT_DATA <= k < FIRST_FREE_PAGE ==>
      child[k].base < TOTAL_PAGES && parent[k].base < TOTAL_PAGES
  {
  }

  lemma NamesOwn(pt: seq<Pte>, p: nat)
    requires PAG_LOG_INIT_DATA <= p < FIRST_FREE_PAGE && p < |pt|
    ensures Names(pt, PAG_LOG_INIT_DATA, NUM_PAG_DATA, pt[p].base)
  {
  }

  lemma ClearNext(pt: seq<Pte>, s: nat, n: nat)
    requires s + n < |pt|
    ensures ClearPages(pt, s, n + 1) == ClearPages(pt, s, n)[s + n := ZERO]
  {
  }

  /** The copying loop of sys_fork: map each data page of the child into the parent's table, copy
      the parent's page there, unmap it again.  `s` is the gap that was found; the pages used are
      WINDOW further on. */
  method CopyDataPages(ram: array<byte>, child: array<Pte>, parent: array<Pte>, s: nat)
    requires child != parent && child.Length == TOTAL_PAGES && parent.Length == TOTAL_PAGES
    requires ram.Length == TOTAL_PAGES * PAGE_SIZE
    requires FIRST_FREE_PAGE <= s && s + WINDOW + NUM_PAG_DATA <= TOTAL_PAGES
    requires OwnFrames(child[..], parent[..])
    modifies ram, parent
    ensures parent[..] == ClearPages(old(parent[..]), s + WINDOW, NUM_PAG_DATA)
    ensures forall i :: PAG_LOG_INIT_DATA <= i < FIRST_FREE_PAGE ==>
      PageAt(ram[..], child[i].base) == old(PageAt(ram[..], parent[i].base))
    ensures forall f :: 0 <= f < TOTAL_PAGES && !Names(child[..], PAG_LOG_INIT_DATA, NUM_PAG_DATA, f) ==>
      PageAt(ram[..], f) == old(PageAt(ram[..], f))
  {
    hide PageAt, ClearPages, Names, OwnFrames;
    ghost var was := parent[..];
    for pag := NUM_PAG_KERNEL + NUM_PAG_CODE to NUM_PAG_KERNEL + NUM_PAG_CODE + NUM_PAG_DATA
      invariant parent[..] == ClearPages(old(parent[..]), s + WINDOW, pag - PAG_LOG_INIT_DATA)
      invariant forall i :: PAG_LOG_INIT_DATA <= i < FIRST_FREE_PAGE ==> parent[i] == old(parent[i])
      invariant forall i :: PAG_LOG_INIT_DATA <= i < pag ==>
        PageAt(ram[..], child[i].base) == old(PageAt(ram[..], parent[i].base))
      invariant forall i :: PAG_LOG_INIT_DATA <= i < FIRST_FREE_PAGE ==>
        PageAt(ram[..], parent[i].base) == old(PageAt(ram[..], parent[i].base))
      invariant forall f :: 0 <= f < TOTAL_PAGES && !Names(child[..], PAG_LOG_INIT_DATA, NUM_PAG_DATA, f) ==>
        PageAt(ram[..], f) == old(PageAt(ram[..], f))
    {
      NamesOwn(child[..], pag);
      OwnAt(child[..], was, pag);
      CopyThrough(ram, child, parent, s + (pag - NUM_PAG_KERNEL + NUM_PAG_CODE), pag);
      ClearNext(old(parent[..]), s + WINDOW, pag - PAG_LOG_INIT_DATA);
    }
  }

  /** The part of sys_fork after the allocation: the child shares the low pages of the parent and gets
      a copy of its data pages. */
  method FillChild(ram: array<byte>, child: array<Pte>, parent: array<Pte>)
    requires child != parent && child.Length == TOTAL_PAGES && parent.Length == TOTAL_PAGES
    requires ram.Length == TOTAL_PAGES * PAGE_SIZE
    requires OwnFrames(ShareLowPages(child[..], parent[..]), parent[..])
    requires ForkGap(parent[..]) >= 0 && ForkGap(parent[..]) + WINDOW + NUM_PAG_DATA <= TOTAL_PAGES
    modifies ram, child, parent
    ensures child[..] == ShareLowPages(old(child[..]), old(parent[..]))
    ensures parent[..] == ClearPages(old(parent[..]), ForkGap(old(parent[..])) + WINDOW, NUM_PAG_DATA)
    ensures forall i :: PAG_LOG_INIT_DATA <= i < FIRST_FREE_PAGE ==>
      PageAt(ram[..], child[i].base) == old(PageAt(ram[..], parent[i].base))
    ensures forall f :: 0 <= f < TOTAL_PAGES && !Names(child[..], PAG_LOG_INIT_DATA, NUM_PAG_DATA, f) ==>
      PageAt(ram[..], f) == old(PageAt(ram[..], f))
  {
    hide FirstFit, PageAt, OwnFrames, Names;
    ShareLow(child, parent);
    var s := FindGap(parent, FIRST_FREE_PAGE, NUM_PAG_DATA);
    CopyDataPages(ram, child, parent, s);
  }

  /** The loops of sys_fork, on the tables of child and parent: allocation with its rollback, sharing,
      copying. */
  method ForkPages(physMem: array<bool>, ram: array<byte>, child: array<Pte>, parent: array<Pte>) returns (ok: bool)
    requires child != parent && child.Length == TOTAL_PAGES && parent.Length == TOTAL_PAGES
    requires ram.Length == TOTAL_PAGES * PAGE_SIZE
    requires NUM_PAG_DATA <= |FreeFrames(physMem[..])| ==>
      && OwnFrames(ChildTable(physMem[..], child[..], parent[..]), parent[..])
      && ForkGap(parent[..]) >= 0 && ForkGap(parent[..]) + WINDOW + NUM_PAG_DATA <= TOTAL_PAGES
    modifies physMem, ram, child, parent
    ensures var a := TryMap(old(physMem[..]), old(child[..]), PAG_LOG_INIT_DATA, NUM_PAG_DATA);
      && ok == a.ok == (NUM_PAG_DATA <= |FreeFrames(old(physMem[..]))|) && physMem[..] == a.used
      && (!ok ==> child[..] == a.pt && parent[..] == old(parent[..]) && ram[..] == old(ram[..]))
    ensures ok ==>
      && child[..] == ChildTable(old(physMem[..]), old(child[..]), old(parent[..]))
      && parent[..] == ClearPages(old(parent[..]), ForkGap(old(parent[..])) + WINDOW, NUM_PAG_DATA)
    ensures ok ==> forall i :: PAG_LOG_INIT_DATA <= i < FIRST_FREE_PAGE ==>
      PageAt(ram[..], child[i].base) == old(PageAt(ram[..], parent[i].base))
    ensures ok ==> forall f :: 0 <= f < TOTAL_PAGES && !Names(child[..], PAG_LOG_INIT_DATA, NUM_PAG_DATA, f) ==>
      PageAt(ram[..], f) == old(PageAt(ram[..], f))
  {
    hide FreeFrames, FirstFit, PageAt, OwnFrames, Names, Take, MapPages, ShareLowPages, ClearPages, GivenBack;
    ok := AllocPages(physMem, child, PAG_LOG_INIT_DATA, NUM_PAG_DATA);
    if ok {
      FillChild(ram, child, parent);
    }
  }

  /** The pieces put together make up the machine's step. */
  lemma ForkAssembled(m: Mem, r: Mem, p: nat, c: nat, ok: bool)
    requires Inv(m) && Live(m, p) && c < |m.kinds| && m.kinds[c] == FreeSlot && c != TableOf(m, p)
    requires ok == (NUM_PAG_DATA <= |FreeFrames(m.used)|) && (ok ==> ForkGap(m.tables[TableOf(m, p)]) >= 0)
    requires r.claims == m.claims && r.kinds == if ok then m.kinds[c := Process(false, false)] else m.kinds
    requires |r.tables| == |m.tables| && forall k :: 0 <= k < |m.tables| && k != c && k != TableOf(m, p) ==>
      r.tables[k] == m.tables[k]
    requires var a := TryMap(m.used, m.tables[c], PAG_LOG_INIT_DATA, NUM_PAG_DATA);
      var parent := m.tables[TableOf(m, p)];
      && ok == a.ok && r.used == a.used
      && r.tables[c] == (if ok then ChildTable(m.used, m.tables[c], parent) else a.pt)
      && r.tables[TableOf(m, p)]
         == (if ok then ClearPages(parent, ForkGap(parent) + WINDOW, NUM_PAG_DATA) else parent)
    ensures r == ForkStep(m, p, c)
  {
    hide Owned, LowPagesOk, ClaimsOk, KindOk, TryMap, ClearPages, ShareLowPages, ForkGap, FreeFrames;
    var j := TableOf(m, p);
    if ok {
      assert r.tables == m.tables[c := r.tables[c]][j := r.tables[j]];
    } else {
      assert r.tables == m.tables[c := r.tables[c]];
    }
  }

  function Enrolled(kinds: seq<Kind>, t: nat, c: nat, x: Kind): seq<Kind>
    requires t < |kinds| && c < |kinds|
  {
    (if kinds[t].Process? then kinds[t := kinds[t].(threaded := true)] else kinds)[c := x]
  }

  lemma NoThread(m: Mem, t: nat, c: nat, n: int)
    requires Shape(m) && t < |m.kinds| && c < |m.kinds|
    requires n >= TOTAL_PAGES - FIRST_FREE_PAGE || FirstFit(m.tables[TableOf(m, t)], FIRST_FREE_PAGE, n) == -1
    ensures NewThreadStep(m, t, c, n) == m
  {
    hide FirstFit;
  }

  lemma ThreadAssembled(m: Mem, r: Mem, t: nat, c: nat, n: int, s: int, ok: bool)
    requires Shape(m) && t < |m.kinds| && c < |m.kinds| && n < TOTAL_PAGES - FIRST_FREE_PAGE
    requires s == FirstFit(m.tables[TableOf(m, t)], FIRST_FREE_PAGE, n) && s >= 0
    requires var j := TableOf(m, t);
      var a := TryMap(m.used, m.tables[j], s, n);
      && ok == a.ok && r.used == a.used && r.tables == m.tables[j := a.pt]
      && r.kinds == (if ok then Enrolled(m.kinds, t, c, Thread(j, s, n, |m.claims|)) else m.kinds)
      && r.claims == (if ok then m.claims + [Claim(j, s, n, Stack(c))] else m.claims)
    ensures r == NewThreadStep(m, t, c, n)
  {
    hide FirstFit, TryMap;
  }

  class Manager {
    const physMem: array<bool>
    const tables: seq<array<Pte>>
    const ram: array<byte>
    var kinds: seq<Kind>
    var claims: seq<Claim>
    var globalPid: int
    var pid: seq<int>

    /** init_mm and init_task1: no frame but the kernel's is taken, every table maps the kernel, and
        slot 1 gets code and data pages. */
    constructor (n: nat, guards: set<nat>)
      requires n >= 2
      ensures Valid() && globalPid == 1000 && |pid| == n && pid[0] == 0 && pid[1] == 1
      ensures forall used :: MB.KernelOnly(used) ==> M() == MB.Booted(n, guards, used)
    {
      hide MB.UserFrames, FreeFrames, FreeFrom;
      var frames := new bool[TOTAL_PAGES];
      InitFrames(frames);
      ghost var used := frames[..];
      var pts: seq<array<Pte>> := [];
      for j := 0 to n
        invariant |pts| == j && frames[..] == used
        invariant forall k :: 0 <= k < j ==>
          fresh(pts[k]) && pts[k].Length == TOTAL_PAGES && pts[k][..] == MB.InitTable(guards)
        invariant forall k, l :: 0 <= k < l < j ==> pts[k] != pts[l]
      {
        var pt := InitTablePages(guards);
        pts := pts + [pt];
      }
      SetUserPages(frames, pts[1]);
      physMem, tables := frames, pts;
      ram := new byte[TOTAL_PAGES * PAGE_SIZE];
      kinds := seq(n, j => if j == 0 then Idle else if j == 1 then Process(false, true) else FreeSlot);
      claims, globalPid := [], FIRST_PID;
      pid := seq(n, j => if j < 2 then j else -1);
      new;
      forall u | MB.KernelOnly(u) ensures M() == MB.Booted(n, guards, u) {
        assert u == used;
        assert M().tables == MB.Booted(n, guards, u).tables;
      }
    }

    ghost predicate Valid()
      reads this
    {
      && physMem.Length == TOTAL_PAGES && ram.Length == TOTAL_PAGES * PAGE_SIZE
      && |tables| == |kinds|
      && (forall j :: 0 <= j < |tables| ==> tables[j].Length == TOTAL_PAGES)
      && (forall j, k :: 0 <= j < k < |tables| ==> tables[j] != tables[k])
      && (forall t :: 0 <= t < |kinds| && kinds[t].Thread? ==> kinds[t].table < |kinds|)
      && PidsOk(pid, kinds, globalPid)
    }

    ghost function M(): (m: Mem)
      requires Valid()
      reads this, physMem, tables
      ensures Shape(m) && |m.kinds| == |tables|
      ensures m.used == physMem[..] && m.kinds == kinds && m.claims == claims
      ensures forall j :: 0 <= j < |tables| ==> m.tables[j] == tables[j][..]
    {
      Mem(physMem[..], seq(|tables|, j requires 0 <= j < |tables| reads tables => tables[j][..]), kinds, claims)
    }

    /** get_PT. */
    function PT(t: nat): (j: nat)
      requires Valid() && t < |kinds|
      reads this, physMem, tables
      ensures j == TableOf(M(), t)
    {
      if kinds[t].Thread? then kinds[t].table else t
    }

    /** sys_memRegGet, called by task t: the address of the new region, or a negative error. */
    method MemRegGet(t: nat, pages: int) returns (r: int)
      requires Valid() && t < |kinds|
      modifies this`claims, physMem, tables[PT(t)]
      ensures Valid() && M() == GetStep(old(M()), t, pages)
      ensures pages < 0 ==> r == -EINVAL
      ensures pages >= 0 && |claims| == |old(claims)| ==> r == -EAGAIN
      ensures |claims| > |old(claims)| ==>
        && r == RegionAddress(FirstFit(old(M()).tables[old(PT(t))], FIRST_FREE_PAGE, pages + 1))
        && r == 4096 * claims[|old(claims)|].start + 12
    {
      hide FreeFrames, FreeFrom, FirstFit, TryMap;
      var j := PT(t);
      if pages < 0 { return -EINVAL; }
      var n := pages + 1;
      var s := FindGap(tables[j], FIRST_FREE_PAGE, n);
      if s == -1 { return -EAGAIN; }
      var ok := AllocPages(physMem, tables[j], s, n);
      if !ok {
        assert M().tables == old(M().tables)[j := tables[j][..]];
        return -EAGAIN;
      }
      claims := claims + [Claim(j, s, n, Region(t))];
      assert M().tables == old(M().tables)[j := tables[j][..]];
      return RegionAddress(s);
    }

    /** sys_memRegDel, called by task t, of the region recorded as claim k: the address gives back
        its first page, and an intact header its size. */
    method MemRegDel(t: nat, addr: int, numPag: int, k: nat)
      requires Valid() && t < |kinds| && k < |claims|
      requires claims[k].table == PT(t) && addr == RegionAddress(claims[k].start) && numPag == claims[k].pages
      requires claims[k].start + numPag <= TOTAL_PAGES
      modifies this`claims, physMem, tables[PT(t)]
      ensures Valid() && M() == DelStep(old(M()), k)
    {
      var j := PT(t);
      var pag := RegionPage(addr);
      assert pag == claims[k].start;
      ReleasePages(physMem, tables[j], pag, numPag);
      claims := Spent(claims, k);
      assert M().tables == old(M().tables)[j := tables[j][..]];
    }

    /** The memory side of sys_threadCreateWithStack: task t gives slot c a stack of n pages.  Returns
        the new task's PID or a negative error. */
    method ThreadCreate(t: nat, c: nat, n: int) returns (r: int)
      requires Valid() && t < |kinds| && c < |kinds|
      modifies this, physMem, tables[PT(t)]
      ensures Valid() && M() == NewThreadStep(old(M()), t, c, n)
      ensures n >= TOTAL_PAGES - FIRST_FREE_PAGE ==> r == -EINVAL
      ensures n < TOTAL_PAGES - FIRST_FREE_PAGE ==> r == if |claims| > |old(claims)| then globalPid else -EAGAIN
      ensures globalPid == old(globalPid) + if |claims| > |old(claims)| then 1 else 0
      ensures pid == (if |claims| > |old(claims)| then old(pid)[c := r] else old(pid)) && (r > 0 ==> r !in old(pid))
    {
      hide FreeFrames, FirstFit, TryMap, PidsOk, NewThreadStep;
      var j := PT(t);
      if n >= TOTAL_PAGES - FIRST_FREE_PAGE {
        NoThread(M(), t, c, n);
        return -EINVAL;
      }
      var s := FindGap(tables[j], FIRST_FREE_PAGE, n);
      if s == -1 {
        NoThread(M(), t, c, n);
        return -EAGAIN;
      }
      var ok := AllocPages(physMem, tables[j], s, n);
      assert M().tables == old(M().tables)[j := tables[j][..]];
      if ok { Enroll(t, c, j, s, n); }
      ThreadAssembled(old(M()), M(), t, c, n, s, ok);
      return if ok then globalPid else -EAGAIN;
    }

    /** The rest of sys_threadCreateWithStack: the new task is a thread with that stack and a new PID, and
        its creator, if it is a process, has threads now. */
    method Enroll(t: nat, c: nat, j: nat, s: nat, n: int)
      requires Valid() && t < |kinds| && c < |kinds| && j < |kinds|
      modifies this
      ensures Valid() && kinds == Enrolled(old(kinds), t, c, Thread(j, s, n, |old(claims)|))
      ensures claims == old(claims) + [Claim(j, s, n, Stack(c))]
      ensures globalPid == old(globalPid) + 1 > 0 && pid == old(pid)[c := globalPid] && globalPid !in old(pid)
    {
      hide PidsOk;
      if kinds[t].Process? {
        kinds := kinds[t := kinds[t].(threaded := true)];
      }
      kinds := kinds[c := Thread(j, s, n, |claims|)];
      claims := claims + [Claim(j, s, n, Stack(c))];
      PidGiven(pid, old(kinds), globalPid, c, kinds);
      globalPid := globalPid + 1;
      pid := pid[c := globalPid];
    }

    /** The memory side of sys_exit and terminate_thread. */
    method Exit(t: nat)
      requires Valid() && t < |kinds|
      requires kinds[t].Thread? ==> kinds[t].claim < |claims| && kinds[t].base + kinds[t].pages <= TOTAL_PAGES
      modifies this`kinds, this`claims, this`pid, physMem, tables[PT(t)]
      ensures Valid() && M() == ExitStep(old(M()), t) && pid == old(pid)[t := -1]
    {
      hide PidsOk;
      PidReturned(pid, kinds, globalPid, t);
      var j := PT(t);
      if kinds[t].Thread? {
        ReleasePages(physMem, tables[j], kinds[t].base, kinds[t].pages);
        claims := Orphaned(Spent(claims, kinds[t].claim), t);
      } else {
        ReleasePages(physMem, tables[j], PAG_LOG_INIT_DATA, NUM_PAG_DATA);
        claims := Orphaned(claims, t);
      }
      kinds, pid := kinds[t := FreeSlot], pid[t := -1];
      assert M().tables == old(M().tables)[j := tables[j][..]];
    }

    /** The memory side of sys_fork, called by task p for the free slot c: the new process gets its
        own frames with a copy of the caller's data, and shares its kernel and code pages.  Returns the
        new task's PID or a negative error. */
    method Fork(p: nat, c: nat) returns (r: int)
      requires Valid() && Inv(M()) && Live(M(), p) && c < |kinds| && kinds[c] == FreeSlot
      requires NUM_PAG_DATA <= |FreeFrames(physMem[..])| ==>
        var g := ForkGap(tables[PT(p)][..]); g >= 0 && g + WINDOW + NUM_PAG_DATA <= TOTAL_PAGES
      modifies this, physMem, ram, tables[PT(p)], tables[c]
      ensures Valid() && M() == ForkStep(old(M()), p, c)
      ensures r == if NUM_PAG_DATA <= |FreeFrames(old(physMem[..]))| then globalPid else -EAGAIN
      ensures globalPid == old(globalPid) + if NUM_PAG_DATA <= |FreeFrames(old(physMem[..]))| then 1 else 0
      ensures pid == (if r > 0 then old(pid)[c := r] else old(pid)) && (r > 0 ==> r !in old(pid))
      ensures NUM_PAG_DATA <= |FreeFrames(old(physMem[..]))| ==>
        forall i :: PAG_LOG_INIT_DATA <= i < FIRST_FREE_PAGE ==>
          PageAt(ram[..], tables[c][i].base) == old(PageAt(ram[..], tables[PT(p)][i].base))
      ensures forall f :: 0 <= f < TOTAL_PAGES && old(physMem[f]) ==> PageAt(ram[..], f) == old(PageAt(ram[..], f))
    {
      hide FreeFrames, Owned, LowPagesOk, ClaimsOk, KindOk, ForkGap, PageAt, OwnFrames, Names, TryMap, ClearPages,
        ChildTable, ForkStep, PidsOk;
      var j := PT(p);
      ParentElsewhere(M(), p, c);
      if NUM_PAG_DATA <= |FreeFrames(M().used)| {
        FreshFramesOwn(M(), p, c);
      }
      var ok := ForkPages(physMem, ram, tables[c], tables[j]);
      if ok {
        PidGiven(pid, kinds, globalPid, c, kinds[c := Process(false, false)]);
        kinds := kinds[c := Process(false, false)];
        globalPid := globalPid + 1;
        pid := pid[c := globalPid];
      }
      ForkAssembled(old(M()), M(), p, c, ok);
      return if ok then globalPid else -EAGAIN;
    }

    /** Any memory call, in place, takes exactly the step of the machine and keeps its invariant. */
    method Handle(e: Event)
      requires Valid() && Inv(M()) && Enabled(M(), e)
      modifies this, physMem, ram, tables
      ensures Valid() && M() == Next(old(M()), e) && Inv(M())
    {
      hide FreeFrames, FreeFrom, FirstFit, Owned, LowPagesOk, ForkStep, NewThreadStep, ExitStep, GetStep, DelStep;
      StepKeepsInv(M(), e);
      match e
      case Fork(p, c) => var r := Fork(p, c);
      case NewThread(t, c, n) => var r := ThreadCreate(t, c, n);
      case Exit(t) =>
        assert KindOk(M(), t);
        assert kinds[t].Thread? ==> ClaimOk(M().tables, claims[kinds[t].claim]);
        Exit(t);
      case Get(t, n) => var r := MemRegGet(t, n);
      case Del(t, k) =>
        assert ClaimOk(M().tables, claims[k]);
        MemRegDel(t, RegionAddress(claims[k].start), claims[k].pages, k);
    }
  }
}
