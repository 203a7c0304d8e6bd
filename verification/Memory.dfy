/** The kernel's memory as a state machine: fork, thread creation, exit, and dynamic regions. */
module Memory {
  import opened Layout
  import opened Frames
  import opened Paging
  import opened Ownership

  /** What a task slot is used for.  A process remembers whether it has created threads and whether
      its region list was initialised; a thread remembers its stack (and, as history, the claim it
      is recorded under). */
  datatype Kind =
    | FreeSlot
    | Idle
    | Process(threaded: bool, listReady: bool)
    | Thread(table: nat, base: nat, pages: int, claim: nat)

  datatype Use = Stack(thread: nat) | Region(owner: nat) | Orphan

  /** A run of pages mapped for a thread stack or a region.  Spent claims keep 0 pages; the regions
      of a task that exits stay mapped and become orphans. */
  datatype Claim = Claim(table: nat, start: nat, pages: int, use: Use)

  datatype Mem = Mem(used: seq<bool>, tables: seq<seq<Pte>>, kinds: seq<Kind>, claims: seq<Claim>)

  datatype Event =
    | Fork(parent: nat, child: nat)
    | NewThread(creator: nat, child: nat, pages: int)
    | Exit(t: nat)
    | Get(t: nat, pages: int)
    | Del(t: nat, k: nat)

  // ---------------------------------------------------------------- steps

  predicate Shape(m: Mem) {
    && WellShaped(m.used, m.tables) && |m.tables| == |m.kinds|
    && forall t :: 0 <= t < |m.kinds| && m.kinds[t].Thread? ==> m.kinds[t].table < |m.kinds|
  }

  predicate Live(m: Mem, t: nat) {
    t < |m.kinds| && (m.kinds[t].Process? || m.kinds[t].Thread?)
  }

  /** get_PT: a thread uses the page table of the process it belongs to. */
  function TableOf(m: Mem, t: nat): (j: nat)
    requires Shape(m) && t < |m.kinds|
    ensures j < |m.kinds|
  {
    if m.kinds[t].Thread? then m.kinds[t].table else t
  }

  /** The child's kernel and code pages map what the parent's do. */
  function ShareLowPages(child: seq<Pte>, parent: seq<Pte>): (r: seq<Pte>)
    requires |child| == |parent|
    ensures |r| == |child|
    ensures forall p :: 0 <= p < |r| ==> r[p] == if p < PAG_LOG_INIT_DATA then Mapped(parent[p].base) else child[p]
  {
    seq(|child|, p requires 0 <= p < |child| => if p < PAG_LOG_INIT_DATA then Mapped(parent[p].base) else child[p])
  }

  /** Where fork temporarily maps the child's data pages, relative to the gap it found: its offset
      adds the number of code pages where it should subtract it. */
  const WINDOW := PAG_LOG_INIT_DATA - NUM_PAG_KERNEL + NUM_PAG_CODE

  function ForkGap(parent: seq<Pte>): int {
    FirstFit(parent, FIRST_FREE_PAGE, NUM_PAG_DATA)
  }

  /** The temporary mappings fall on absent pages of the parent's table. */
  predicate WindowClear(parent: seq<Pte>) {
    ForkGap(parent) >= 0 && Absent(parent, ForkGap(parent) + WINDOW, NUM_PAG_DATA)
  }

  function ForkStep(m: Mem, p: nat, c: nat): Mem
    requires Shape(m) && p < |m.kinds| && c < |m.kinds|
    requires NUM_PAG_DATA <= |FreeFrames(m.used)| ==> ForkGap(m.tables[TableOf(m, p)]) >= 0
  {
    var j := TableOf(m, p);
    var a := TryMap(m.used, m.tables[c], PAG_LOG_INIT_DATA, NUM_PAG_DATA);
    if !a.ok then m.(used := a.used, tables := m.tables[c := a.pt])
    else
      var child := ShareLowPages(a.pt, m.tables[j]);
      var parent := ClearPages(m.tables[j], ForkGap(m.tables[j]) + WINDOW, NUM_PAG_DATA);
      m.(used := a.used, tables := m.tables[c := child][j := parent],
         kinds := m.kinds[c := Process(false, false)])
  }

  function NewThreadStep(m: Mem, t: nat, c: nat, n: int): Mem
    requires Shape(m) && t < |m.kinds| && c < |m.kinds|
  {
    var j := TableOf(m, t);
    var s := FirstFit(m.tables[j], FIRST_FREE_PAGE, n);
    if n >= TOTAL_PAGES - FIRST_FREE_PAGE || s < 0 then m
    else
      var a := TryMap(m.used, m.tables[j], s, n);
      var m1 := m.(used := a.used, tables := m.tables[j := a.pt]);
      if !a.ok then m1
      else
        var kinds := if m.kinds[t].Process? then m.kinds[t := m.kinds[t].(threaded := true)] else m.kinds;
        m1.(kinds := kinds[c := Thread(j, s, n, |m.claims|)],
            claims := m.claims + [Claim(j, s, n, Stack(c))])
  }

  function Unmap(m: Mem, j: nat, s: nat, n: int): Mem
    requires Shape(m) && j < |m.kinds|
  {
    m.(used := Release(m.used, m.tables[j], s, n), tables := m.tables[j := ClearPages(m.tables[j], s, n)])
  }

  function Orphaned(claims: seq<Claim>, t: nat): (r: seq<Claim>)
    ensures |r| == |claims|
    ensures forall k :: 0 <= k < |r| ==>
      r[k] == if claims[k].use == Region(t) then claims[k].(use := Orphan) else claims[k]
  {
    seq(|claims|, k requires 0 <= k < |claims| =>
      if claims[k].use == Region(t) then claims[k].(use := Orphan) else claims[k])
  }

  function Spent(claims: seq<Claim>, k: nat): seq<Claim>
    requires k < |claims|
  {
    claims[k := claims[k].(pages := 0, use := Orphan)]
  }

  function ExitStep(m: Mem, t: nat): Mem
    requires Shape(m) && t < |m.kinds| && (m.kinds[t].Thread? ==> m.kinds[t].claim < |m.claims|)
  {
    var kinds := m.kinds[t := FreeSlot];
    match m.kinds[t]
    case Thread(j, b, n, k) =>
      Unmap(m, j, b, n).(kinds := kinds, claims := Orphaned(Spent(m.claims, k), t))
    case _ =>
      Unmap(m, t, PAG_LOG_INIT_DATA, NUM_PAG_DATA).(kinds := kinds, claims := Orphaned(m.claims, t))
  }

  /** One page more than asked for holds the region's header. */
  function GetStep(m: Mem, t: nat, pages: int): Mem
    requires Shape(m) && t < |m.kinds|
  {
    var j, n := TableOf(m, t), pages + 1;
    var s := FirstFit(m.tables[j], FIRST_FREE_PAGE, n);
    if pages < 0 || s < 0 then m
    else
      var a := TryMap(m.used, m.tables[j], s, n);
      var m1 := m.(used := a.used, tables := m.tables[j := a.pt]);
      if !a.ok then m1 else m1.(claims := m.claims + [Claim(j, s, n, Region(t))])
  }

  function DelStep(m: Mem, k: nat): Mem
    requires Shape(m) && k < |m.claims| && m.claims[k].table < |m.kinds|
  {
    Unmap(m, m.claims[k].table, m.claims[k].start, m.claims[k].pages).(claims := Spent(m.claims, k))
  }

  /** Calls come from live tasks; new tasks take free slots; fork finds its temporary window clear;
      a process that has created threads does not exit; regions are asked for by tasks whose region
      list was initialised.  A region that is still mapped can be deleted by any task that shares the
      table, whoever asked for it and whether or not that task still exists. */
  predicate Enabled(m: Mem, e: Event)
    requires Shape(m)
  {
    match e
    case Fork(p, c) =>
      && Live(m, p) && c < |m.kinds| && m.kinds[c] == FreeSlot
      && (NUM_PAG_DATA <= |FreeFrames(m.used)| ==> WindowClear(m.tables[TableOf(m, p)]))
    case NewThread(t, c, n) => Live(m, t) && c < |m.kinds| && m.kinds[c] == FreeSlot
    case Exit(t) => Live(m, t) && (m.kinds[t].Process? ==> !m.kinds[t].threaded)
    case Get(t, n) => Live(m, t) && (m.kinds[t].Process? ==> m.kinds[t].listReady)
    case Del(t, k) =>
      && Live(m, t) && k < |m.claims| && m.claims[k].table == TableOf(m, t)
      && !m.claims[k].use.Stack? && m.claims[k].pages > 0
  }

  // ---------------------------------------------------------------- invariant

  /** The claimed pages are present, above the process image and below the last page. */
  predicate ClaimOk(tables: seq<seq<Pte>>, c: Claim) {
    && c.table < |tables| && FIRST_FREE_PAGE <= c.start && c.start + Max(c.pages, 0) < TOTAL_PAGES
    && Present(tables[c.table], c.start, c.pages)
  }

  predicate Apart(a: Claim, b: Claim) {
    a.table != b.table || a.pages <= 0 || b.pages <= 0 || a.start + a.pages <= b.start || b.start + b.pages <= a.start
  }

  predicate ClaimsOk(tables: seq<seq<Pte>>, claims: seq<Claim>) {
    && (forall k :: 0 <= k < |claims| ==> ClaimOk(tables, claims[k]))
    && (forall k, l :: 0 <= k < l < |claims| ==> Apart(claims[k], claims[l]))
  }

  predicate LowPageOk(e: Pte, p: int) {
    if p < NUM_PAG_KERNEL then e.base == p
    else e == ZERO || e.base == NUM_PAG_KERNEL + 2 * (p - PAG_LOG_INIT_CODE)
  }

  /** Every table maps the kernel's pages to themselves, and code pages, if at all, to the code frames in
      order. */
  predicate LowPagesOk(tables: seq<seq<Pte>>) {
    forall j, p :: 0 <= j < |tables| && 0 <= p < PAG_LOG_INIT_DATA && p < |tables[j]| ==> LowPageOk(tables[j][p], p)
  }

  /** The code pages are there for the user, each on its frame. */
  predicate CodeMapped(pt: seq<Pte>) {
    forall i :: PAG_LOG_INIT_CODE <= i < PAG_LOG_INIT_DATA && i < |pt| ==>
      pt[i].present && pt[i].user && pt[i].base == NUM_PAG_KERNEL + 2 * (i - PAG_LOG_INIT_CODE)
  }

  predicate KindOk(m: Mem, t: nat)
    requires Shape(m) && t < |m.kinds|
  {
    match m.kinds[t]
    case Process(_, _) => CodeMapped(m.tables[t]) && Present(m.tables[t], PAG_LOG_INIT_DATA, NUM_PAG_DATA)
    case Thread(j, b, n, k) =>
      && Absent(m.tables[t], PAG_LOG_INIT_DATA, NUM_PAG_DATA)
      && m.kinds[j].Process? && m.kinds[j].threaded
      && k < |m.claims| && m.claims[k] == Claim(j, b, n, Stack(t))
    case _ => Absent(m.tables[t], PAG_LOG_INIT_DATA, NUM_PAG_DATA)
  }

  ghost predicate Inv(m: Mem) {
    && Shape(m)
    && Owned(m.used, m.tables)
    && ClaimsOk(m.tables, m.claims)
    && LowPagesOk(m.tables)
    && (forall t :: 0 <= t < |m.kinds| ==> KindOk(m, t))
  }

  function Next(m: Mem, e: Event): Mem
    requires Inv(m) && Enabled(m, e)
  {
    match e
    case Fork(p, c) => ForkStep(m, p, c)
    case NewThread(t, c, n) => NewThreadStep(m, t, c, n)
    case Exit(t) => assert KindOk(m, t); ExitStep(m, t)
    case Get(t, n) => GetStep(m, t, n)
    case Del(t, k) => assert ClaimOk(m.tables, m.claims[k]); DelStep(m, k)
  }
}
