/** Page tables: the search for free logical pages, and mapping and unmapping runs of pages
    (mm.c and the loops of sys.c). */
module Paging {
  import opened Layout
  import opened Frames

  /** The bits of a page table entry the kernel sets. */
  datatype Pte = Pte(base: nat, user: bool, rw: bool, present: bool)

  const ZERO := Pte(0, false, false, false)

  function Mapped(frame: nat): Pte { Pte(frame, true, true, true) }

  function Max(a: int, b: int): int { if a > b then a else b }

  // ---------------------------------------------------------------- first fit

  /** Pages start .. start+n-1 are absent, and start+n is still a page of the table. */
  predicate Gap(pt: seq<Pte>, start: nat, n: int) {
    start + Max(n, 0) < |pt| && forall p :: start <= p < start + n ==> !pt[p].present
  }

  /** Naive first fit: try every start in turn. */
  function FirstFit(pt: seq<Pte>, first: nat, n: int): (r: int)
    ensures r == -1 ==> forall s :: first <= s ==> !Gap(pt, s, n)
    ensures r != -1 ==> first <= r && Gap(pt, r, n) && forall s :: first <= s < r ==> !Gap(pt, s, n)
    decreases |pt| - first
  {
    if first >= |pt| then -1
    else if Gap(pt, first, n) then first
    else FirstFit(pt, first + 1, n)
  }

  lemma FirstFitSkips(pt: seq<Pte>, first: nat, next: nat, n: int)
    requires first <= next
    requires forall s :: first <= s < next ==> !Gap(pt, s, n)
    ensures FirstFit(pt, first, n) == FirstFit(pt, next, n)
    decreases next - first
  {
  }

  /** The skip-ahead search of sys_memRegGet, sys_threadCreateWithStack and sys_fork. */
  method FindGap(pt: array<Pte>, first: nat, n: int) returns (start: int)
    ensures start == FirstFit(pt[..], first, n)
  {
    var found, next := false, first;
    while !found
      invariant first <= next && FirstFit(pt[..], first, n) == FirstFit(pt[..], next, n)
      invariant found ==> Gap(pt[..], next, n)
      decreases !found, pt.Length - next
    {
      var pag, innerError := next, false;
      ghost var before := next;
      while pag < pt.Length && pag < next + n
        invariant next == before <= pag && (pag <= next + n || pag == next)
        invariant forall p :: next <= p < pag && p < pt.Length ==> !pt[p].present
        invariant !innerError
      {
        if pt[pag].present {
          var temp := pag;
          while temp < pt.Length && pt[temp].present
            invariant pag <= temp <= pt.Length
            invariant forall p :: pag <= p < temp ==> pt[p].present
          {
            temp := temp + 1;
          }
          assert forall s :: before <= s < temp && Gap(pt[..], s, n) ==> s <= pag ==> pt[..][pag].present;
          assert forall s :: before <= s < temp && Gap(pt[..], s, n) ==> pag < s ==> pt[..][s].present;
          FirstFitSkips(pt[..], before, temp, n);
          if temp >= pt.Length {
            innerError := true;
            break;
          }
          next := temp;
          break;
        }
        pag := pag + 1;
      }
      if pag >= pt.Length || innerError {
        return -1;
      }
      if pag >= next + n {
        found := true;
      }
    }
    return next;
  }

  // ---------------------------------------------------------------- runs of pages

  /** Pages s, s+1, ... now map the frames `fs`, in order. */
  function MapPages(pt: seq<Pte>, s: nat, fs: seq<nat>): (r: seq<Pte>)
    ensures |r| == |pt|
    ensures forall p :: 0 <= p < |r| ==> r[p] == if s <= p < s + |fs| then Mapped(fs[p - s]) else pt[p]
  {
    seq(|pt|, p requires 0 <= p < |pt| => if s <= p < s + |fs| then Mapped(fs[p - s]) else pt[p])
  }

  /** Pages s .. s+n-1 are wiped. */
  function ClearPages(pt: seq<Pte>, s: nat, n: int): (r: seq<Pte>)
    ensures |r| == |pt|
    ensures forall p :: 0 <= p < |r| ==> r[p] == if s <= p < s + n then ZERO else pt[p]
  {
    seq(|pt|, p requires 0 <= p < |pt| => if s <= p < s + n then ZERO else pt[p])
  }

  /** Some page of s .. s+n-1 names frame f. */
  predicate Names(pt: seq<Pte>, s: nat, n: int, f: int) {
    exists p :: s <= p < s + n && p < |pt| && pt[p].base == f
  }

  /** The frame map after passing the frame of each page s .. s+n-1 to free_frame. */
  function Release(used: seq<bool>, pt: seq<Pte>, s: nat, n: int): (r: seq<bool>)
    ensures |r| == |used|
    ensures forall f :: 0 <= f < |r| ==> r[f] == (used[f] && !(f > NUM_PAG_KERNEL && Names(pt, s, n, f)))
  {
    seq(|used|, f requires 0 <= f < |used| => used[f] && !(f > NUM_PAG_KERNEL && Names(pt, s, n, f)))
  }

  method ReleasePages(physMem: array<bool>, pt: array<Pte>, s: nat, n: int)
    requires s + n <= pt.Length
    modifies physMem, pt
    ensures physMem[..] == Release(old(physMem[..]), old(pt[..]), s, n)
    ensures pt[..] == ClearPages(old(pt[..]), s, n)
  {
    var i := 0;
    while i < n
      invariant 0 <= i <= Max(n, 0)
      invariant physMem[..] == Release(old(physMem[..]), old(pt[..]), s, i)
      invariant pt[..] == ClearPages(old(pt[..]), s, i)
    {
      assert pt[s + i] == old(pt[..])[s + i];
      FreeFrame(physMem, pt[s + i].base);
      pt[s + i] := ZERO;
      ReleaseOneMore(old(physMem[..]), old(pt[..]), s, i);
      assert physMem[..] == Release(old(physMem[..]), old(pt[..]), s, i + 1);
      assert pt[..] == ClearPages(old(pt[..]), s, i + 1);
      i := i + 1;
    }
    if n <= 0 {
      assert physMem[..] == Release(old(physMem[..]), old(pt[..]), s, n);
      assert pt[..] == ClearPages(old(pt[..]), s, n);
    }
  }

  lemma ReleaseOneMore(used: seq<bool>, pt: seq<Pte>, s: nat, i: nat)
    requires s + i < |pt|
    ensures forall f :: Names(pt, s, i + 1, f) <==> Names(pt, s, i, f) || pt[s + i].base == f
  {
  }

  lemma NamesMapped(pt: seq<Pte>, s: nat, fs: seq<nat>, f: nat)
    requires s + |fs| <= |pt|
    ensures Names(MapPages(pt, s, fs), s, |fs|, f) <==> f in fs
  {
    var r := MapPages(pt, s, fs);
    if f in fs {
      var i :| 0 <= i < |fs| && fs[i] == f;
      assert r[s + i].base == f;
    }
  }

  /** The frame map that is left when a run of pages is mapped to `fs` and unmapped again: what it
      was, except that the first frame after the kernel (256) cannot be given back. */
  function GivenBack(used: seq<bool>, fs: seq<nat>): seq<bool> {
    if NUM_PAG_KERNEL in fs && NUM_PAG_KERNEL < |used| then used[NUM_PAG_KERNEL := true] else used
  }

  /** Mapping and then releasing a run of pages. */
  lemma MapThenRelease(used: seq<bool>, pt: seq<Pte>, s: nat, fs: seq<nat>)
    requires s + |fs| <= |pt|
    requires forall f :: f in fs ==> Candidate(f, |used|) && !used[f]
    ensures Release(Take(used, fs), MapPages(pt, s, fs), s, |fs|) == GivenBack(used, fs)
    ensures ClearPages(MapPages(pt, s, fs), s, |fs|) == ClearPages(pt, s, |fs|)
  {
    var r := Release(Take(used, fs), MapPages(pt, s, fs), s, |fs|);
    forall f | 0 <= f < |used| ensures r[f] == GivenBack(used, fs)[f] {
      NamesMapped(pt, s, fs, f);
    }
  }

  /** The round trip is the identity exactly when the run was wholly zero and frame 256 was not
      among the frames handed out. */
  lemma RoundTripIff(used: seq<bool>, pt: seq<Pte>, s: nat, fs: seq<nat>)
    requires s + |fs| <= |pt|
    requires forall f :: f in fs ==> Candidate(f, |used|) && !used[f]
    ensures (&& Release(Take(used, fs), MapPages(pt, s, fs), s, |fs|) == used
             && ClearPages(MapPages(pt, s, fs), s, |fs|) == pt)
       <==> (NUM_PAG_KERNEL !in fs && forall p :: s <= p < s + |fs| ==> pt[p] == ZERO)
  {
    MapThenRelease(used, pt, s, fs);
    var cleared := ClearPages(pt, s, |fs|);
    assert cleared == pt <==> forall p :: s <= p < s + |fs| ==> pt[p] == cleared[p];
  }

  /** The outcome of trying to map n pages from s on. */
  datatype Attempt = Attempt(ok: bool, used: seq<bool>, pt: seq<Pte>)

  /** All n lowest free frames, or a rollback when there are not enough. */
  function TryMap(used: seq<bool>, pt: seq<Pte>, s: nat, n: int): Attempt {
    var fs := FreeFrames(used);
    if n <= 0 then Attempt(true, used, pt)
    else if n <= |fs| then Attempt(true, Take(used, fs[..n]), MapPages(pt, s, fs[..n]))
    else Attempt(false, GivenBack(used, fs), ClearPages(pt, s, |fs|))
  }

  /** All or nothing: when frames run out, nothing has changed, because frame 256 is taken and
      absent entries are wholly zero. */
  lemma FailedMapChangesNothing(used: seq<bool>, pt: seq<Pte>, s: nat, n: int)
    requires NUM_PAG_KERNEL < |used| && used[NUM_PAG_KERNEL]
    requires s + n <= |pt| && forall p :: s <= p < s + n ==> pt[p] == ZERO
    requires !TryMap(used, pt, s, n).ok
    ensures TryMap(used, pt, s, n) == Attempt(false, used, pt)
  {
  }

  /** The allocation loop shared by sys_fork, sys_threadCreateWithStack and sys_memRegGet, with its
      rollback: it takes the n lowest free frames, or none at all if there are not enough. */
  method AllocPages(physMem: array<bool>, pt: array<Pte>, s: nat, n: int) returns (ok: bool)
    requires s + n <= pt.Length
    modifies physMem, pt
    ensures Attempt(ok, physMem[..], pt[..]) == TryMap(old(physMem[..]), old(pt[..]), s, n)
  {
    hide FreeFrames, FreeFrom;
    ghost var used, table := physMem[..], pt[..];
    ghost var fs := FreeFrames(used);
    var pag := 0;
    assert Take(used, fs[..0]) == used && MapPages(table, s, fs[..0]) == table;
    while pag < n
      invariant 0 <= pag <= Max(n, 0) && pag <= |fs|
      invariant physMem[..] == Take(used, fs[..pag])
      invariant pt[..] == MapPages(table, s, fs[..pag])
    {
      TakeLeaves(used, pag);
      var frame := AllocFrame(physMem);
      if frame != -1 {
        pt[s + pag] := Mapped(frame);
        assert fs[..pag + 1] == fs[..pag] + [frame];
        assert Take(Take(used, fs[..pag]), [frame]) == Take(used, fs[..pag + 1]);
        assert pt[..] == MapPages(table, s, fs[..pag + 1]);
      } else {
        assert fs[..pag] == fs;
        ReleasePages(physMem, pt, s, pag);
        MapThenRelease(used, table, s, fs);
        return false;
      }
      pag := pag + 1;
    }
    return true;
  }
}
