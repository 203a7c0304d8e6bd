/** The byte map of physical frames (mm.c). */
module Frames {

  import opened Layout

  /** The frames alloc_frame looks at: every second one, starting right after the kernel. */
  predicate Candidate(f: int, n: int) {
    NUM_PAG_KERNEL <= f < n && f % 2 == 0
  }

  /** The free candidate frames from `from` on, in increasing order. */
  function FreeFrom(used: seq<bool>, from: nat): (r: seq<nat>)
    requires from % 2 == 0
    ensures forall f :: f in r <==> from <= f < |used| && f % 2 == 0 && !used[f]
    ensures forall i, j :: 0 <= i < j < |r| ==> r[i] < r[j]
    decreases |used| - from
  {
    if from >= |used| then []
    else
      var rest := FreeFrom(used, from + 2);
      assert forall i :: 0 <= i < |rest| ==> rest[i] in rest;
      if used[from] then rest else [from] + rest
  }

  function FreeFrames(used: seq<bool>): (r: seq<nat>)
    ensures forall f :: f in r <==> Candidate(f, |used|) && !used[f]
    ensures forall i, j :: 0 <= i < j < |r| ==> r[i] < r[j]
  {
    FreeFrom(used, NUM_PAG_KERNEL)
  }

  /** The frame map after handing out the frames `fs`. */
  function Take(used: seq<bool>, fs: seq<nat>): (r: seq<bool>)
    ensures |r| == |used|
    ensures forall f :: 0 <= f < |r| ==> r[f] == (used[f] || f in fs)
  {
    seq(|used|, f requires 0 <= f < |used| => used[f] || f in fs)
  }

  /** Two strictly increasing sequences with the same elements are equal. */
  lemma {:induction false} SortedUnique(a: seq<nat>, b: seq<nat>)
    requires forall i, j :: 0 <= i < j < |a| ==> a[i] < a[j]
    requires forall i, j :: 0 <= i < j < |b| ==> b[i] < b[j]
    requires forall x :: x in a <==> x in b
    ensures a == b
  {
    if a == [] {
      assert forall i :: 0 <= i < |b| ==> b[i] !in b;
    } else {
      assert a[0] in b && b[0] in a;
      var i :| 0 <= i < |b| && b[i] == a[0];
      var j :| 0 <= j < |a| && a[j] == b[0];
      assert a[0] == b[0];
      forall x ensures x in a[1..] <==> x in b[1..] {
        assert x in a <==> x == a[0] || x in a[1..];
        assert x in b <==> x == b[0] || x in b[1..];
      }
      SortedUnique(a[1..], b[1..]);
      assert a == [a[0]] + a[1..] && b == [b[0]] + b[1..];
    }
  }

  lemma SplitMember(fs: seq<nat>, n: nat, f: nat)
    requires forall i, j :: 0 <= i < j < |fs| ==> fs[i] < fs[j]
    requires n <= |fs|
    ensures f in fs[n..] <==> f in fs && f !in fs[..n]
  {
  }

  /** Handing out the first n free frames leaves the others free, in the same order. */
  lemma TakeLeaves(used: seq<bool>, n: nat)
    requires n <= |FreeFrames(used)|
    ensures FreeFrames(Take(used, FreeFrames(used)[..n])) == FreeFrames(used)[n..]
  {
    var fs := FreeFrames(used);
    var left := FreeFrames(Take(used, fs[..n]));
    forall f ensures f in left <==> f in fs[n..] {
      SplitMember(fs, n, f);
    }
    SortedUnique(left, fs[n..]);
  }

  // ---------------------------------------------------------------- the code

  /** init_frames. */
  method InitFrames(physMem: array<bool>)
    requires NUM_PAG_KERNEL <= physMem.Length
    modifies physMem
    ensures forall f :: 0 <= f < physMem.Length ==> physMem[f] == (f < NUM_PAG_KERNEL)
  {
    for i := 0 to physMem.Length
      invariant forall f :: 0 <= f < i ==> !physMem[f]
    {
      physMem[i] := false;
    }
    for i := 0 to NUM_PAG_KERNEL
      invariant forall f :: 0 <= f < physMem.Length ==> physMem[f] == (f < i)
    {
      physMem[i] := true;
    }
  }

  lemma {:induction false} FirstFree(used: seq<bool>, from: nat, i: nat)
    requires from % 2 == 0 && i % 2 == 0 && from <= i
    requires forall f :: from <= f < i && f < |used| && f % 2 == 0 ==> used[f]
    ensures i < |used| && !used[i] ==> FreeFrom(used, from) != [] && FreeFrom(used, from)[0] == i
    ensures i >= |used| ==> FreeFrom(used, from) == []
    decreases i - from
  {
    if from < i { FirstFree(used, from + 2, i); }
  }

  /** alloc_frame: hands out the lowest free candidate, and fails exactly when there is none. */
  method AllocFrame(physMem: array<bool>) returns (frame: int)
    modifies physMem
    ensures frame == -1 <==> FreeFrames(old(physMem[..])) == []
    ensures frame == -1 ==> physMem[..] == old(physMem[..])
    ensures frame != -1 ==> frame == FreeFrames(old(physMem[..]))[0]
    ensures frame != -1 ==> physMem[..] == Take(old(physMem[..]), [frame])
  {
    var i := NUM_PAG_KERNEL;
    while i < physMem.Length
      invariant NUM_PAG_KERNEL <= i && i % 2 == 0
      invariant forall f :: NUM_PAG_KERNEL <= f < i && f < physMem.Length && f % 2 == 0 ==> physMem[f]
      invariant physMem[..] == old(physMem[..])
      decreases physMem.Length - i
    {
      if !physMem[i] {
        FirstFree(physMem[..], NUM_PAG_KERNEL, i);
        physMem[i] := true;
        return i;
      }
      i := i + 2;
    }
    FirstFree(physMem[..], NUM_PAG_KERNEL, i);
    return -1;
  }

  /** free_frame: the first frame after the kernel (256), and anything out of range, is silently left alone. */
  method FreeFrame(physMem: array<bool>, frame: nat)
    modifies physMem
    ensures forall f :: 0 <= f < physMem.Length ==>
              physMem[f] == (old(physMem[f]) && !(f == frame && frame > NUM_PAG_KERNEL))
  {
    if frame > NUM_PAG_KERNEL && frame < physMem.Length {
      physMem[frame] := false;
    }
  }
}
