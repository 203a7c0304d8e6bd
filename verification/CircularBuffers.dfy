/** The keyboard's ring buffer (circular_buffer.c), for any capacity. */
module CircularBuffers {

  /** The ring holds `n` elements from `head` on, wrapping round. */
  ghost function Window(buffer: seq<int>, head: nat, n: nat): (s: seq<int>)
    requires head < |buffer| && n <= |buffer|
    ensures |s| == n && forall i :: 0 <= i < n ==> s[i] == buffer[Wrap(head + i, |buffer|)]
  {
    seq(n, i requires 0 <= i < n => buffer[Wrap(head + i, |buffer|)])
  }

  /** Going round a ring of n places: i modulo n. */
  function Wrap(i: nat, n: nat): (r: nat)
    requires i < 2 * n
    ensures r < n
  {
    if i < n then i else i - n
  }

  lemma WrapIsMod(i: nat, n: nat)
    requires i < 2 * n
    ensures Wrap(i, n) == i % n
  {
  }

  class CircularBuffer {
    var head: int
    var tail: int
    var numElem: int
    const buffer: array<int>

    /** One past the tail is one past the last element, also in the initial state with tail -1. */
    ghost predicate Valid()
      reads this
    {
      && 0 < buffer.Length
      && 0 <= head < buffer.Length && -1 <= tail < buffer.Length && 0 <= numElem <= buffer.Length
      && Wrap(tail + 1, buffer.Length) == Wrap(head + numElem, buffer.Length)
    }

    ghost function Contents(): (s: seq<int>)
      requires Valid()
      reads this, buffer
      ensures |s| == numElem
    {
      Window(buffer[..], head, numElem)
    }

    /** In the source's terms: the place after the tail is num_elem places after the head. */
    lemma TailFollows()
      requires Valid()
      ensures (tail + 1) % buffer.Length == (head + numElem) % buffer.Length
    {
      WrapIsMod(tail + 1, buffer.Length);
      WrapIsMod(head + numElem, buffer.Length);
    }

    /** INIT_CIRCULAR_BUFFER. */
    constructor (capacity: nat)
      requires capacity > 0
      ensures Valid() && Contents() == [] && buffer.Length == capacity && fresh(buffer)
    {
      buffer := new int[capacity];
      head := 0;
      tail := -1;
      numElem := 0;
    }

    predicate Full()
      reads this
    {
      numElem >= buffer.Length
    }

    predicate Empty()
      reads this
    {
      numElem == 0
    }

    method Push(c: int) returns (r: int)
      requires Valid()
      modifies this, buffer
      ensures Valid()
      ensures r == if |old(Contents())| < buffer.Length then 0 else -1
      ensures Contents() == if r == 0 then old(Contents()) + [c] else old(Contents())
    {
      if Full() { return -1; }
      ghost var at := Wrap(head + numElem, buffer.Length);
      PushedWindow(buffer[..], head, numElem, c);
      if tail < buffer.Length - 1 {
        buffer[tail + 1] := c;
        tail := tail + 1;
      } else {
        tail := 0;
        buffer[0] := c;
      }
      numElem := numElem + 1;
      assert buffer[..] == old(buffer[..])[at := c];
      return 0;
    }

    /** Takes the oldest element, or returns -1 when there is none. */
    method Pop() returns (c: int)
      requires Valid()
      modifies this
      ensures Valid()
      ensures old(Contents()) == [] ==> c == -1 && Contents() == []
      ensures old(Contents()) != [] ==> old(Contents()) == [c] + Contents()
    {
      if Empty() { return -1; }
      var lastHead := head;
      if head < buffer.Length - 1 {
        head := head + 1;
      } else {
        head := 0;
      }
      numElem := numElem - 1;
      c := buffer[lastHead];
      PoppedWindow(buffer[..], lastHead, numElem + 1);
    }
  }

  lemma PushedWindow(b: seq<int>, head: nat, n: nat, c: int)
    requires head < |b| && n < |b|
    ensures var at := Wrap(head + n, |b|);
      Window(b[at := c], head, n + 1) == Window(b, head, n) + [c]
  {
  }

  lemma PoppedWindow(b: seq<int>, head: nat, n: nat)
    requires head < |b| && 0 < n <= |b|
    ensures Window(b, head, n) == [b[head]] + Window(b, if head < |b| - 1 then head + 1 else 0, n - 1)
  {
  }
}
