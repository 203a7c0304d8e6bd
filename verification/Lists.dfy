/** Intrusive circular doubly linked lists (list.c, list.h). */
module Lists {

  /** `owner` says which structure the links are embedded in: a task slot, or -1 for an anchor. */
  class ListHead {
    var next: ListHead?
    var prev: ListHead?
    const owner: int
    constructor (owner: int)
      ensures this.owner == owner
    {
      this.owner := owner;
    }
  }

  /** Going round the list: the anchor, the entries in order, the anchor again. */
  ghost function At(head: ListHead, s: seq<ListHead>, i: nat): ListHead {
    if 0 < i <= |s| then s[i - 1] else head
  }

  ghost predicate Linked(a: ListHead, b: ListHead)
    reads a, b
  {
    a.next == b && b.prev == a
  }

  /** `head` anchors the list of entries `s`: going round from the anchor along `next` meets exactly
      the entries of `s` in order, each once, and `prev` is the way back. */
  ghost predicate Ring(head: ListHead, s: seq<ListHead>)
    reads head, s
  {
    && (forall i :: 0 <= i < |s| ==> s[i] != head)
    && (forall i, j :: 0 <= i < j < |s| ==> s[i] != s[j])
    && (forall i :: 0 <= i <= |s| ==> Linked(At(head, s, i), At(head, s, i + 1)))
  }

  /** A list none of whose links were written is the list it was. */
  twostate lemma RingFrame(head: ListHead, s: seq<ListHead>)
    requires old(Ring(head, s))
    requires head.next == old(head.next) && head.prev == old(head.prev)
    requires forall i :: 0 <= i < |s| ==> s[i].next == old(s[i].next) && s[i].prev == old(s[i].prev)
    ensures Ring(head, s)
  {
    forall i | 0 <= i <= |s| ensures Linked(At(head, s, i), At(head, s, i + 1)) {
      assert old(Linked(At(head, s, i), At(head, s, i + 1)));
    }
  }

  /** INIT_LIST_HEAD. */
  method InitListHead(list: ListHead)
    modifies list
    ensures Ring(list, [])
  {
    list.next := list;
    list.prev := list;
  }

  /** __list_add, at place k of the list. */
  method ListAddBetween(entry: ListHead, prev: ListHead, next: ListHead,
                        ghost head: ListHead, ghost s: seq<ListHead>, ghost k: nat)
    requires Ring(head, s) && k <= |s| && entry != head && entry !in s
    requires prev == At(head, s, k) && next == At(head, s, k + 1)
    modifies entry, prev, next
    ensures Ring(head, s[..k] + [entry] + s[k..])
  {
    ghost var s' := s[..k] + [entry] + s[k..];
    next.prev := entry;
    entry.next := next;
    entry.prev := prev;
    prev.next := entry;
    forall i | 0 <= i <= |s'| ensures Linked(At(head, s', i), At(head, s', i + 1)) {
      if i < k {
        assert At(head, s', i) == At(head, s, i) && At(head, s', i + 1) == At(head, s, i + 1);
        assert old(Linked(At(head, s, i), At(head, s, i + 1)));
      } else if i > k + 1 {
        assert At(head, s', i) == At(head, s, i - 1) && At(head, s', i + 1) == At(head, s, i);
        assert old(Linked(At(head, s, i - 1), At(head, s, i - 1 + 1)));
      }
    }
  }

  /** list_add: the new entry comes first. */
  method ListAdd(entry: ListHead, head: ListHead, ghost s: seq<ListHead>)
    requires Ring(head, s) && entry != head && entry !in s
    modifies entry, head, At(head, s, 1)
    ensures Ring(head, [entry] + s)
  {
    assert Linked(At(head, s, 0), At(head, s, 1));
    ListAddBetween(entry, head, head.next, head, s, 0);
    assert s[..0] + [entry] + s[0..] == [entry] + s;
  }

  /** list_add_tail: the new entry comes last. */
  method ListAddTail(entry: ListHead, head: ListHead, ghost s: seq<ListHead>)
    requires Ring(head, s) && entry != head && entry !in s
    modifies entry, head, At(head, s, |s|)
    ensures Ring(head, s + [entry])
  {
    assert Linked(At(head, s, |s|), At(head, s, |s| + 1));
    ListAddBetween(entry, head.prev, head, head, s, |s|);
    assert s[..|s|] + [entry] + s[|s|..] == s + [entry];
  }

  function Without<T>(s: seq<T>, k: nat): seq<T>
    requires k < |s|
  {
    s[..k] + s[k + 1..]
  }

  /** The writes of list_del, whatever its neighbours are: they become neighbours of each other, and the
      links of the entry itself are cleared. */
  method Unlink(entry: ListHead)
    requires entry.next != null && entry.prev != null
    modifies entry, entry.next, entry.prev
    ensures entry.next == null && entry.prev == null
    ensures var n, p := old(entry.next), old(entry.prev);
      && (n != entry ==> n.prev == p && (n != p ==> n.next == old(n.next)))
      && (p != entry ==> p.next == n && (n != p ==> p.prev == old(p.prev)))
  {
    var prev, next := entry.prev, entry.next;
    next.prev := prev;
    prev.next := next;
    entry.next := null;
    entry.prev := null;
  }

  /** list_del of entry k: the others close up, and the entry's own links are cleared. */
  method ListDel(entry: ListHead, ghost head: ListHead, ghost s: seq<ListHead>, ghost k: nat)
    requires Ring(head, s) && k < |s| && s[k] == entry
    modifies entry, At(head, s, k), At(head, s, k + 2)
    ensures Ring(head, Without(s, k)) && entry.next == null && entry.prev == null
  {
    assert Linked(At(head, s, k), At(head, s, k + 1)) && Linked(At(head, s, k + 1), At(head, s, k + 2));
    ghost var s' := Without(s, k);
    Unlink(entry);
    forall i | 0 <= i <= |s'| ensures Linked(At(head, s', i), At(head, s', i + 1)) {
      if i < k {
        assert At(head, s', i) == At(head, s, i) && At(head, s', i + 1) == At(head, s, i + 1);
        assert old(Linked(At(head, s, i), At(head, s, i + 1)));
      } else if i > k {
        assert At(head, s', i) == At(head, s, i + 1) && At(head, s', i + 1) == At(head, s, i + 2);
        assert old(Linked(At(head, s, i + 1), At(head, s, i + 1 + 1)));
      }
    }
  }

  /** list_empty. */
  method ListEmpty(head: ListHead, ghost s: seq<ListHead>) returns (b: bool)
    requires Ring(head, s)
    ensures b <==> s == []
  {
    assert Linked(At(head, s, 0), At(head, s, 1));
    b := head.next == head;
  }

  /** list_first: the first entry, or the anchor itself if there is none. */
  method ListFirst(head: ListHead, ghost s: seq<ListHead>) returns (e: ListHead)
    requires Ring(head, s)
    ensures e == At(head, s, 1)
  {
    assert Linked(At(head, s, 0), At(head, s, 1));
    e := head.next;
  }

  /** Seen from its last entry, a list is the list of the anchor and the other entries. */
  lemma RingRotates(head: ListHead, s: seq<ListHead>, x: ListHead)
    requires Ring(head, s + [x])
    ensures Ring(x, [head] + s)
  {
    var r, q := s + [x], [head] + s;
    assert forall i :: 0 <= i < |s| ==> s[i] == r[i];
    assert x == r[|s|];
    forall i | 0 <= i <= |q| ensures Linked(At(x, q, i), At(x, q, i + 1)) {
      var j := if i == 0 then |r| else i - 1;
      assert Linked(At(head, r, j), At(head, r, j + 1));
      assert At(x, q, i) == At(head, r, j) && At(x, q, i + 1) == At(head, r, j + 1);
    }
  }

  /** The wake branch of sys_semSignal when nobody waits: list_first gives the anchor of the semaphore's
      queue, which is unlinked and appended to the ready queue as if it were a task.  The two lists have
      become one: the anchor is the last ready entry, and everything ready appears to wait. */
  method WakeNobody(blocked: ListHead, ready: ListHead, ghost s: seq<ListHead>)
    requires Ring(blocked, []) && Ring(ready, s) && blocked != ready && blocked !in s
    modifies blocked, ready, At(ready, s, |s|)
    ensures Ring(ready, s + [blocked]) && Ring(blocked, [ready] + s)
  {
    var l := ListFirst(blocked, []);
    assert Linked(At(blocked, [], 0), At(blocked, [], 1));
    Unlink(l);
    ListAddTail(l, ready, s);
    RingRotates(ready, s, blocked);
  }
}
