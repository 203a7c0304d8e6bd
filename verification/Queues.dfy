/** All the kernel's task queues at once: each task has one list entry, each queue one anchor. */
module Queues {
  import opened Lists
  import opened Ranges

  ghost predicate InBounds(q: seq<seq<nat>>, n: nat) {
    forall a, i :: 0 <= a < |q| && 0 <= i < |q[a]| ==> q[a][i] < n
  }

  /** No task is in two places. */
  ghost predicate OnePlace(q: seq<seq<nat>>) {
    && (forall a, i, j :: 0 <= a < |q| && 0 <= i < j < |q[a]| ==> q[a][i] != q[a][j])
    && (forall a, b, i, j :: 0 <= a < b < |q| && 0 <= i < |q[a]| && 0 <= j < |q[b]| ==> q[a][i] != q[b][j])
  }

  lemma AppendOnePlace(q: seq<seq<nat>>, n: nat, a: nat, t: nat)
    requires InBounds(q, n) && OnePlace(q) && a < |q| && t < n && forall b :: 0 <= b < |q| ==> t !in q[b]
    ensures InBounds(q[a := q[a] + [t]], n) && OnePlace(q[a := q[a] + [t]])
  {
  }

  lemma RemoveOnePlace(q: seq<seq<nat>>, n: nat, a: nat, k: nat)
    requires InBounds(q, n) && OnePlace(q) && a < |q| && k < |q[a]|
    ensures var q' := q[a := Without(q[a], k)];
      InBounds(q', n) && OnePlace(q') && forall b :: 0 <= b < |q'| ==> q[a][k] !in q'[b]
  {
  }

  class QueueSet {
    const node: seq<ListHead>
    const anchor: seq<ListHead>
    /** The tasks in each queue, front first. */
    ghost var q: seq<seq<nat>>

    /** Every list entry unlinked, every anchor initialised. */
    constructor (n: nat, m: nat)
      ensures Valid() && |node| == n && |anchor| == m && q == seq(m, i => [])
      ensures forall i :: 0 <= i < n ==> fresh(node[i])
      ensures forall a :: 0 <= a < m ==> fresh(anchor[a])
    {
      var ns: seq<ListHead> := [];
      for i := 0 to n
        invariant |ns| == i && forall k :: 0 <= k < i ==> fresh(ns[k]) && ns[k].owner == k
      {
        var h := new ListHead(i);
        ns := ns + [h];
      }
      var hs: seq<ListHead> := [];
      for a := 0 to m
        invariant |hs| == a && forall k :: 0 <= k < a ==> fresh(hs[k]) && hs[k].owner == -1
        invariant forall k, l :: 0 <= k < l < a ==> hs[k] != hs[l]
        invariant forall k :: 0 <= k < a ==> Ring(hs[k], [])
      {
        var h := new ListHead(-1);
        InitListHead(h);
        hs := hs + [h];
      }
      node, anchor := ns, hs;
      q := seq(m, i => []);
      new;
      assert forall a :: 0 <= a < m ==> Nodes(q[a]) == [];
    }

    ghost function Nodes(ts: seq<nat>): (s: seq<ListHead>)
      requires forall i :: 0 <= i < |ts| ==> ts[i] < |node|
      ensures |s| == |ts| && forall i :: 0 <= i < |s| ==> s[i] == node[ts[i]]
    {
      seq(|ts|, i requires 0 <= i < |ts| => node[ts[i]])
    }

    ghost predicate Layout() {
      && (forall i :: 0 <= i < |node| ==> node[i].owner == i)
      && (forall a :: 0 <= a < |anchor| ==> anchor[a].owner == -1)
      && (forall a, b :: 0 <= a < b < |anchor| ==> anchor[a] != anchor[b])
    }

    ghost predicate InPlace()
      reads this
    {
      |q| == |anchor| && InBounds(q, |node|) && OnePlace(q)
    }

    ghost predicate Valid()
      reads this, node, anchor
    {
      Layout() && InPlace() && forall a :: 0 <= a < |q| ==> Ring(anchor[a], Nodes(q[a]))
    }

    ghost predicate Unlinked(t: nat)
      reads this
    {
      forall a :: 0 <= a < |q| ==> t !in q[a]
    }

    /** x is neither the anchor nor an entry of queue b. */
    ghost predicate Outside(x: ListHead, b: nat)
      requires InPlace() && b < |q|
      reads this
    {
      x != anchor[b] && x !in Nodes(q[b])
    }

    /** The entries of one queue, and its anchor, are outside every other queue. */
    lemma EntryOutside(a: nat, i: nat, b: nat)
      requires Layout() && InPlace() && a < |q| && b < |q| && a != b
      ensures Outside(At(anchor[a], Nodes(q[a]), i), b)
    {
      var x := At(anchor[a], Nodes(q[a]), i);
      forall j | 0 <= j < |q[b]| ensures x != node[q[b][j]] {
        if 0 < i <= |q[a]| { assert x.owner == q[a][i - 1] != q[b][j]; }
      }
      if 0 < i <= |q[a]| { assert x.owner != -1; }
    }

    method AddTail(t: nat, a: nat)
      requires Valid() && t < |node| && a < |anchor| && Unlinked(t)
      modifies this, node, anchor
      ensures Valid() && q == old(q)[a := old(q)[a] + [t]]
    {
      hide Ring, OnePlace;
      ghost var s := Nodes(q[a]);
      AppendOnePlace(q, |node|, a, t);
      forall b | 0 <= b < |q| && b != a
        ensures Outside(anchor[a], b) && Outside(At(anchor[a], s, |s|), b) && Outside(node[t], b)
      {
        EntryOutside(a, 0, b);
        EntryOutside(a, |s|, b);
      }
      ListAddTail(node[t], anchor[a], s);
      forall b | 0 <= b < |q| && b != a ensures Ring(anchor[b], Nodes(q[b])) {
        assert old(Ring(anchor[b], Nodes(q[b]))) && Outside(node[t], b);
      }
      q := q[a := q[a] + [t]];
      assert Nodes(q[a]) == s + [node[t]];
    }

    method Del(t: nat, ghost a: nat, ghost k: nat)
      requires Valid() && t < |node| && a < |q| && k < |q[a]| && q[a][k] == t
      modifies this, node, anchor
      ensures Valid() && q == old(q)[a := Without(old(q)[a], k)] && Unlinked(t)
    {
      hide Ring, OnePlace;
      ghost var s := Nodes(q[a]);
      RemoveOnePlace(q, |node|, a, k);
      forall b | 0 <= b < |q| && b != a
        ensures Outside(At(anchor[a], s, k), b) && Outside(node[t], b) && Outside(At(anchor[a], s, k + 2), b)
      {
        EntryOutside(a, k, b);
        EntryOutside(a, k + 1, b);
        EntryOutside(a, k + 2, b);
      }
      ListDel(node[t], anchor[a], s, k);
      forall b | 0 <= b < |q| && b != a ensures Ring(anchor[b], Nodes(q[b])) {
        assert old(Ring(anchor[b], Nodes(q[b]))) && Outside(node[t], b);
      }
      q := q[a := Without(q[a], k)];
      assert Nodes(q[a]) == Without(s, k);
    }

    /** A signal at a semaphore nobody waits at that takes the wake branch nevertheless: the anchor of
        queue a becomes the last entry of queue b, although it belongs to no task, and queue a is
        broken. */
    method WakeNobody(a: nat, b: nat)
      requires Valid() && a < |anchor| && b < |anchor| && a != b && q[a] == []
      modifies node, anchor
      ensures Ring(anchor[b], Nodes(q[b]) + [anchor[a]]) && anchor[a].owner == -1
      ensures Ring(anchor[a], [anchor[b]] + Nodes(q[b])) && !Valid()
    {
      hide OnePlace;
      ghost var s := Nodes(q[b]);
      assert Nodes(q[a]) == [];
      EntryOutside(a, 0, b);
      Lists.WakeNobody(anchor[a], anchor[b], s);
      assert Linked(At(anchor[a], [anchor[b]] + s, 0), At(anchor[a], [anchor[b]] + s, 1));
      assert Ring(anchor[a], []) ==> Linked(At(anchor[a], [], 0), At(anchor[a], [], 1));
    }

    /** init_freequeue: every task joins the empty queue a, in slot order. */
    method AddAll(a: nat)
      requires Valid() && a < |anchor| && forall b :: 0 <= b < |q| ==> q[b] == []
      modifies this, node, anchor
      ensures Valid() && q == old(q)[a := From(0, |node|)]
    {
      hide Ring, OnePlace;
      for t := 0 to |node|
        invariant Valid() && q == old(q)[a := From(0, t)]
      {
        AddTail(t, a);
        assert From(0, t) + [t] == From(0, t + 1);
      }
    }

    /** Fill the free queue and take the idle task and the first process out of it. */
    method Boot(a: nat)
      requires Valid() && a < |anchor| && |node| >= 2 && forall b :: 0 <= b < |q| ==> q[b] == []
      modifies this, node, anchor
      ensures Valid() && q == old(q)[a := From(2, |node|)]
    {
      hide OnePlace, Ring;
      AddAll(a);
      var idle := TakeFirst(a);
      var init := TakeFirst(a);
      assert From(0, |node|)[1..][1..] == From(2, |node|);
    }

    method Empty(a: nat) returns (b: bool)
      requires Valid() && a < |anchor|
      ensures b <==> q[a] == []
    {
      b := ListEmpty(anchor[a], Nodes(q[a]));
    }

    /** list_head_to_task_struct(list_first(...)). */
    method First(a: nat) returns (t: nat)
      requires Valid() && a < |anchor| && q[a] != []
      ensures t == q[a][0] && t < |node|
    {
      var e := ListFirst(anchor[a], Nodes(q[a]));
      t := e.owner;
    }

    /** INIT_LIST_HEAD of an anchor nobody is queued at. */
    method Reset(a: nat)
      requires Valid() && a < |anchor| && q[a] == []
      modifies anchor[a]
      ensures Valid()
    {
      InitListHead(anchor[a]);
      assert Nodes(q[a]) == [];
    }

    /** `e->next`, for the i-th entry of queue a; entry 0, and the one after the last, is the anchor. */
    method Following(e: ListHead, ghost a: nat, ghost i: nat) returns (n: ListHead)
      requires Valid() && a < |anchor| && i <= |q[a]| && e == At(anchor[a], Nodes(q[a]), i)
      ensures n == At(anchor[a], Nodes(q[a]), i + 1)
    {
      assert Linked(At(anchor[a], Nodes(q[a]), i), At(anchor[a], Nodes(q[a]), i + 1));
      n := e.next;
    }

    /** list_first followed by list_del. */
    method TakeFirst(a: nat) returns (t: nat)
      requires Valid() && a < |anchor| && q[a] != []
      modifies this, node, anchor
      ensures Valid() && t < |node| && t == old(q)[a][0] && Unlinked(t)
      ensures q == old(q)[a := old(q)[a][1..]]
    {
      hide OnePlace, Ring;
      t := First(a);
      Del(t, a, 0);
      assert Without(old(q)[a], 0) == old(q)[a][1..];
    }
  }
}
