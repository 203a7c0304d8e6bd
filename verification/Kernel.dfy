/** The scheduler, the interrupt handlers and the blocking system calls, on the kernel's linked
    queues.  Each handler is shown to do, in place, what its step of the Scheduler machine says. */
module Kernel {
  import opened Semaphores
  import opened Scheduler
  import opened Partition
  import opened Reachable
  import opened Lists
  import opened Queues
  import opened CircularBuffers
  import opened Boot
  import opened Ranges
  import opened Errno
  import R = Reachable

  /** The anchors: the four task queues, then one per semaphore. */
  const READY := 0
  const BLOCKED := 1
  const KEYQ := 2
  const FREE := 3
  const SEMS := 4

  // ---------------------------------------------------------------- the timeout sweep, step by step

  lemma {:induction false} SelectSnoc(tcb: seq<Tcb>, q: seq<Slot>, t: Slot, expiring: bool)
    requires InRange(q, |tcb|) && t < |tcb|
    ensures InRange(q + [t], |tcb|)
    ensures Select(tcb, q + [t], expiring)
         == Select(tcb, q, expiring) + if Expiring(tcb[t]) == expiring then [t] else []
  {
    if q != [] {
      assert (q + [t])[1..] == q[1..] + [t];
      SelectSnoc(tcb, q[1..], t, expiring);
    }
  }

  /** The task array once the first i readers of q have been visited. */
  ghost function Aged(tcb: seq<Tcb>, q: seq<Slot>, i: nat): (r: seq<Tcb>)
    requires i <= |q|
    ensures |r| == |tcb|
    ensures forall t :: 0 <= t < |tcb| ==> r[t] == if t in q[..i] then Age(tcb[t]) else tcb[t]
  {
    seq(|tcb|, t requires 0 <= t < |tcb| => if t in q[..i] then Age(tcb[t]) else tcb[t])
  }

  lemma AgedNext(tcb: seq<Tcb>, q: seq<Slot>, i: nat)
    requires InRange(q, |tcb|) && i < |q| && q[i] !in q[..i]
    ensures Aged(tcb, q, i)[q[i]] == tcb[q[i]]
    ensures Aged(tcb, q, i + 1) == Aged(tcb, q, i)[q[i] := Age(tcb[q[i]])]
  {
  }

  /** The key queue once the first i readers have been visited: survivors, then the rest. */
  ghost function Rest(tcb: seq<Tcb>, q: seq<Slot>, i: nat): seq<Slot>
    requires InRange(q, |tcb|) && i <= |q|
  {
    Select(tcb, q[..i], false) + q[i..]
  }

  lemma RestNext(tcb: seq<Tcb>, q: seq<Slot>, i: nat)
    requires InRange(q, |tcb|) && i < |q|
    ensures var k := |Select(tcb, q[..i], false)|;
      && k < |Rest(tcb, q, i)| && Rest(tcb, q, i)[k] == q[i]
      && Rest(tcb, q, i + 1) == (if Expiring(tcb[q[i]]) then Without(Rest(tcb, q, i), k) else Rest(tcb, q, i))
      && |Select(tcb, q[..i + 1], false)| == (if Expiring(tcb[q[i]]) then k else k + 1)
    ensures Select(tcb, q[..i + 1], true)
         == Select(tcb, q[..i], true) + if Expiring(tcb[q[i]]) then [q[i]] else []
  {
    hide Select;
    var a := Select(tcb, q[..i], false);
    assert q[..i + 1] == q[..i] + [q[i]];
    SelectSnoc(tcb, q[..i], q[i], false);
    SelectSnoc(tcb, q[..i], q[i], true);
    assert q[i..] == [q[i]] + q[i + 1..];
    assert Rest(tcb, q, i) == a + ([q[i]] + q[i + 1..]);
    assert Without(Rest(tcb, q, i), |a|) == a + q[i + 1..];
  }

  /** All the queues once the first i readers have been visited. */
  ghost function Visited(q0: seq<seq<Slot>>, tcb: seq<Tcb>, i: nat): (r: seq<seq<Slot>>)
    requires |q0| >= SEMS && InRange(q0[KEYQ], |tcb|) && i <= |q0[KEYQ]|
    ensures |r| == |q0| && r[KEYQ] == Rest(tcb, q0[KEYQ], i)
  {
    q0[READY := q0[READY] + Select(tcb, q0[KEYQ][..i], true)][KEYQ := Rest(tcb, q0[KEYQ], i)]
  }

  /** A reader that expires moves from place k of the key queue to the end of the ready queue. */
  ghost function Moved(q: seq<seq<Slot>>, t: Slot, k: nat, expires: bool): seq<seq<Slot>>
    requires |q| >= SEMS && k < |q[KEYQ]|
  {
    if expires then q[KEYQ := Without(q[KEYQ], k)][READY := q[READY] + [t]] else q
  }

  lemma VisitedNext(q0: seq<seq<Slot>>, tcb: seq<Tcb>, i: nat, k: nat)
    requires |q0| >= SEMS && InRange(q0[KEYQ], |tcb|) && i < |q0[KEYQ]|
    requires k == |Select(tcb, q0[KEYQ][..i], false)|
    ensures var q, t := Visited(q0, tcb, i), q0[KEYQ][i];
      && k < |q[KEYQ]| && q[KEYQ][k] == t
      && Visited(q0, tcb, i + 1) == Moved(q, t, k, Expiring(tcb[t]))
      && |Select(tcb, q0[KEYQ][..i + 1], false)| == (if Expiring(tcb[t]) then k else k + 1)
  {
    hide Select, Rest;
    RestNext(tcb, q0[KEYQ], i);
    var q, q', t := Visited(q0, tcb, i), Visited(q0, tcb, i + 1), q0[KEYQ][i];
    var e := Moved(q, t, k, Expiring(tcb[t]));
    assert q'[READY] == e[READY];
    assert q' == e;
  }

  lemma VisitedNone(q0: seq<seq<Slot>>, tcb: seq<Tcb>)
    requires |q0| >= SEMS && InRange(q0[KEYQ], |tcb|)
    ensures Visited(q0, tcb, 0) == q0 && Aged(tcb, q0[KEYQ], 0) == tcb
    ensures |Select(tcb, q0[KEYQ][..0], false)| == 0 && StandAt(q0[KEYQ], q0[KEYQ], 0, 0)
  {
    var q := q0[KEYQ];
    assert q[..0] == [] && q0[READY] + [] == q0[READY] && Rest(tcb, q, 0) == q;
  }

  lemma VisitedAll(q0: seq<seq<Slot>>, tcb: seq<Tcb>)
    requires |q0| >= SEMS && InRange(q0[KEYQ], |tcb|)
    ensures var n, q := |q0[KEYQ]|, q0[KEYQ];
      Visited(q0, tcb, n) == q0[READY := q0[READY] + Select(tcb, q, true)][KEYQ := Select(tcb, q, false)]
  {
    var q := q0[KEYQ];
    assert q[..|q|] == q;
    assert Rest(tcb, q, |q|) == Select(tcb, q, false) + [] == Select(tcb, q, false);
  }

  lemma AllAged(s: Sched)
    requires WellFormed(s)
    ensures Aged(s.tcb, s.keyq, |s.keyq|) == Sweep(s).tcb
  {
  }

  /** The readers from the i-th on stand at place k and onwards of what is left of the queue. */
  ghost predicate StandAt(q: seq<Slot>, readers: seq<Slot>, i: nat, k: nat) {
    i <= |readers| && k + (|readers| - i) == |q| && q[k..] == readers[i..]
  }

  lemma RestStands(tcb: seq<Tcb>, q: seq<Slot>, i: nat, k: nat)
    requires InRange(q, |tcb|) && i <= |q| && k == |Select(tcb, q[..i], false)|
    ensures StandAt(Rest(tcb, q, i), q, i, k)
  {
  }

  /** The semaphores' counts and queues are those of the history. */
  ghost predicate Matching(sems: seq<Sem>, count: seq<int>, freesem: seq<nat>, q: seq<seq<Slot>>) {
    && |sems| == |count| && |q| == SEMS + |count|
    && (forall i :: 0 <= i < |count| ==> sems[i].count == count[i] && sems[i].queue == q[SEMS + i])
    && (forall i :: 0 <= i < |freesem| ==> freesem[i] < |count|)
  }

  /** The other queues have no part in that. */
  lemma StillMatching(sems: seq<Sem>, count: seq<int>, freesem: seq<nat>, q: seq<seq<Slot>>, a: nat, x: seq<Slot>)
    requires Matching(sems, count, freesem, q) && a < SEMS
    ensures Matching(sems, count, freesem, q[a := x])
  {
  }

  /** A signal counts up and takes the first waiter out of its queue, if it wakes one. */
  lemma SignalMatching(sems: seq<Sem>, count: seq<int>, freesem: seq<nat>, q: seq<seq<Slot>>, i: nat)
    requires Matching(sems, count, freesem, q) && i < |count| && SignalSafe(sems[i])
    ensures sems[i].count == count[i] && sems[i].queue == q[SEMS + i] && |q| == SEMS + |count| && |sems| == |count|
    ensures var q' := if count[i] + 1 <= 0 then q[SEMS + i := q[SEMS + i][1..]] else q;
      Matching(sems[i := Signal(sems[i])], count[i := count[i] + 1], freesem, q')
  {
  }

  /** A wait counts down and queues the caller, if it blocks. */
  lemma WaitMatching(sems: seq<Sem>, count: seq<int>, freesem: seq<nat>, q: seq<seq<Slot>>, i: nat, t: Slot)
    requires Matching(sems, count, freesem, q) && i < |count|
    ensures sems[i].count == count[i] && |q| == SEMS + |count| && |sems| == |count|
    ensures var q' := if count[i] - 1 < 0 then q[SEMS + i := q[SEMS + i] + [t]] else q;
      Matching(sems[i := Wait(sems[i], t)], count[i := count[i] - 1], freesem, q')
  {
  }

  class Kernel {
    const qs: QueueSet
    const buffer: CircularBuffer
    const idle: nat
    var tcb: seq<Tcb>
    var current: nat
    var remaining: int
    var count: seq<int>
    var freesem: seq<nat>
    var makeFlag: bool
    var pending: int
    ghost var sems: seq<Sem>
    ghost var accepted: seq<int>
    ghost var taken: seq<int>
    ghost var delivered: seq<int>

    ghost predicate Valid()
      reads this, qs, qs.node, qs.anchor, buffer, buffer.buffer
    {
      && qs.Valid() && |qs.node| == |tcb| && |qs.anchor| == |qs.q| == SEMS + |count|
      && current < |tcb| && idle < |tcb|
      && buffer.Valid()
      && SemsMatch()
    }

    ghost predicate SemsMatch()
      reads this`sems, this`count, this`freesem, qs
    {
      Matching(sems, count, freesem, qs.q)
    }

    ghost function S(): (s: Sched)
      requires Valid()
      reads this, qs, qs.node, qs.anchor, buffer, buffer.buffer
    {
      Sched(tcb, idle, current, remaining, qs.q[READY], qs.q[BLOCKED], qs.q[KEYQ], qs.q[FREE], sems, freesem,
            Keyboard(buffer.buffer.Length, buffer.Contents(), makeFlag, pending, accepted, taken, delivered))
    }

    lemma StateWellFormed()
      requires Valid()
      ensures WellFormed(S())
    {
    }

    /** init_sched, init_idle and init_task1: slot 0 is idle, slot 1 runs, the rest are free. */
    constructor (n: nat, q: int, capacity: nat, m: nat)
      requires n >= 2 && capacity > 0
      ensures Valid() && S() == Booted(n, q, capacity, m)
    {
      hide QueueSet.Valid, KeepsShape;
      qs := new QueueSet(n, SEMS + m);
      buffer := new CircularBuffer(capacity);
      idle, current, remaining := 0, 1, q;
      tcb := seq(n, i => Tcb(Run, q, 0, 0, NoCall));
      count, freesem := seq(m, i => 0), From(0, m);
      makeFlag, pending := true, 0;
      sems, accepted, taken, delivered := seq(m, i => Create(0)), [], [], [];
      new;
      qs.Boot(FREE);
      assert qs.q[FREE] == From(2, n);
    }

    /** update_process_state_rr: a task that is not marked Run is unlinked from where it is (place k
        of queue a) before it joins queue dst. */
    method UpdateProcessState(t: nat, dst: nat, ghost a: nat, ghost k: nat)
      requires Valid() && t < |tcb| && dst < SEMS
      requires tcb[t].state == Run ==> qs.Unlinked(t)
      requires tcb[t].state != Run ==> a < SEMS && k < |qs.q[a]| && qs.q[a][k] == t
      modifies this`tcb, qs, qs.node, qs.anchor
      ensures Valid()
      ensures var q := if old(tcb)[t].state != Run then old(qs.q)[a := Without(old(qs.q)[a], k)] else old(qs.q);
        qs.q == q[dst := q[dst] + [t]]
      ensures tcb == old(tcb)[t := old(tcb)[t].(state := if dst == READY then Ready else Blocked)]
    {
      hide QueueSet.Valid, CircularBuffer.Valid, KeepsShape, Matching;
      if tcb[t].state != Run {
        StillMatching(sems, count, freesem, qs.q, a, Without(qs.q[a], k));
        qs.Del(t, a, k);
      }
      StillMatching(sems, count, freesem, qs.q, dst, qs.q[dst] + [t]);
      qs.AddTail(t, dst);
      if dst != READY {
        tcb := tcb[t := tcb[t].(state := Blocked)];
      } else {
        tcb := tcb[t := tcb[t].(state := Ready)];
      }
    }

    /** sched_next_rr. */
    method SchedNext()
      requires Valid()
      modifies this`tcb, this`remaining, this`current, qs, qs.node, qs.anchor
      ensures Valid() && WellFormed(old(S())) && S() == Dispatch(old(S()))
    {
      hide QueueSet.Valid, CircularBuffer.Valid, KeepsShape, Window, Matching;
      StateWellFormed();
      var empty := qs.Empty(READY);
      var t := idle;
      if !empty {
        StillMatching(sems, count, freesem, qs.q, READY, qs.q[READY][1..]);
        t := qs.TakeFirst(READY);
      }
      tcb := tcb[t := tcb[t].(state := Run)];
      remaining := tcb[t].quantum;
      current := t;
    }

    /** The running task is in no queue. */
    lemma CurrentUnlinked()
      requires Valid() && OnePlaceEach(S())
      ensures qs.Unlinked(current)
    {
      hide QueueSet.Valid, KeepsShape;
      var s := S();
      Apart(s);
      OnceAtMost(s, current);
      forall a | 0 <= a < |qs.q| ensures current !in qs.q[a] {
        if a >= SEMS {
          SemUpdate(s.sems, a - SEMS, s.sems[a - SEMS]);
          assert multiset(qs.q[a])[current] <= SemQueued(s.sems)[current] <= Parked(s)[current];
          assert Population(s)[current] >= 1 + Parked(s)[current];
        }
      }
    }

    /** schedule. */
    method Reschedule()
      requires Valid() && OnePlaceEach(S()) && tcb[current].state == Run
      modifies this`tcb, this`remaining, this`current, qs, qs.node, qs.anchor
      ensures Valid() && S() == Schedule(old(S()))
    {
      hide QueueSet.Valid, CircularBuffer.Valid, Matching, KeepsShape, OnePlaceEach;
      StateWellFormed();
      CurrentUnlinked();
      remaining := remaining - 1;
      var empty := qs.Empty(READY);
      if remaining == 0 && !empty {
        ghost var s := S();
        UpdateProcessState(current, READY, 0, 0);
        assert S() == Preempt(s);
        SchedNext();
      } else if remaining == 0 {
        remaining := tcb[current].quantum;
      }
    }

    /** sys_yield. */
    method Yield()
      requires Valid() && OnePlaceEach(S()) && tcb[current].state == Run
      modifies this`tcb, this`remaining, this`current, qs, qs.node, qs.anchor
      ensures Valid() && S() == Dispatch(Preempt(old(S())))
    {
      hide QueueSet.Valid, CircularBuffer.Valid, Matching, KeepsShape, OnePlaceEach;
      StateWellFormed();
      CurrentUnlinked();
      UpdateProcessState(current, READY, 0, 0);
      assert S() == Preempt(old(S()));
      SchedNext();
    }

    /** sys_block. */
    method Block()
      requires Valid() && OnePlaceEach(S()) && tcb[current].state == Run
      modifies this`tcb, this`remaining, this`current, qs, qs.node, qs.anchor
      ensures Valid() && S() == BlockStep(old(S()))
    {
      hide QueueSet.Valid, CircularBuffer.Valid, Matching, KeepsShape, OnePlaceEach;
      StateWellFormed();
      CurrentUnlinked();
      if tcb[current].pendingUnblocks == 0 {
        UpdateProcessState(current, BLOCKED, 0, 0);
        assert S() == Leave(old(S()), Blocked).(blocked := old(S()).blocked + [current]);
        SchedNext();
      } else if tcb[current].pendingUnblocks > 0 {
        tcb := tcb[current := tcb[current].(pendingUnblocks := tcb[current].pendingUnblocks - 1)];
      }
    }

    /** The queue side of sys_exit. */
    method Exit()
      requires Valid() && OnePlaceEach(S())
      modifies this`tcb, this`remaining, this`current, qs, qs.node, qs.anchor
      ensures Valid() && S() == ExitStep(old(S()))
    {
      hide QueueSet.Valid, CircularBuffer.Valid, KeepsShape, OnePlaceEach, Matching;
      StateWellFormed();
      CurrentUnlinked();
      StillMatching(sems, count, freesem, qs.q, FREE, qs.q[FREE] + [current]);
      qs.AddTail(current, FREE);
      assert S() == old(S()).(free := old(S()).free + [current]);
      SchedNext();
    }

    /** The queue side of sys_fork and sys_threadCreateWithStack. */
    method Spawn(ok: bool) returns (done: bool)
      requires Valid()
      modifies this`tcb, qs, qs.node, qs.anchor
      ensures Valid() && WellFormed(old(S())) && S() == SpawnStep(old(S()), ok)
      ensures done <==> ok && old(S()).free != []
    {
      hide QueueSet.Valid, CircularBuffer.Valid, KeepsShape, Window, Matching;
      StateWellFormed();
      var empty := qs.Empty(FREE);
      if empty { return false; }
      StillMatching(sems, count, freesem, qs.q, FREE, qs.q[FREE][1..]);
      var c := qs.TakeFirst(FREE);
      tcb := tcb[c := tcb[current]];
      ghost var dst := if ok then READY else FREE;
      StillMatching(sems, count, freesem, qs.q, dst, qs.q[dst] + [c]);
      qs.AddTail(c, if ok then READY else FREE);
      if ok {
        tcb := tcb[c := tcb[c].(state := Ready, pendingUnblocks := 0)];
      }
      assert S().free == old(S()).free[1..] + (if ok then [] else [c]);
      assert S().ready == old(S()).ready + (if ok then [c] else []);
      return ok;
    }

    lemma ReadersDistinct()
      requires Valid()
      ensures InRange(qs.q[KEYQ], |tcb|) && forall i :: 0 <= i < |qs.q[KEYQ]| ==> qs.q[KEYQ][i] !in qs.q[KEYQ][..i]
      ensures forall t :: 0 <= t < |tcb| ==> qs.node[t].owner == t
      ensures forall t :: 0 <= t < |tcb| ==> qs.node[t] != qs.anchor[KEYQ]
    {
    }

    /** What the sweep does with one reader, at place k of the key queue. */
    method VisitReader(t: nat, ghost k: nat)
      requires Valid() && t < |tcb| && tcb[t].state != Run && k < |qs.q[KEYQ]| && qs.q[KEYQ][k] == t
      modifies this`tcb, qs, qs.node, qs.anchor
      ensures Valid() && tcb == old(tcb)[t := Age(old(tcb)[t])]
      ensures qs.q == Moved(old(qs.q), t, k, Expiring(old(tcb)[t]))
    {
      hide QueueSet.Valid, CircularBuffer.Valid, Matching, KeepsShape;
      if tcb[t].keyTimeout > 0 {
        tcb := tcb[t := tcb[t].(keyTimeout := tcb[t].keyTimeout - 1)];
        if tcb[t].keyTimeout == 0 {
          UpdateProcessState(t, READY, KEYQ, k);
          if tcb[t].call.Call? {
            tcb := tcb[t := tcb[t].(call := tcb[t].call.(wake := BySweep))];
          }
        }
      }
    }

    /** The cursor's successor in the key queue; the cursor is the i-th reader, or the anchor. */
    method NextReader(cursor: ListHead, ghost readers: seq<Slot>, ghost i: nat, ghost k: nat) returns (next: ListHead)
      requires Valid() && StandAt(qs.q[KEYQ], readers, i, k) && InRange(readers, |tcb|)
      requires cursor == if i < |readers| then qs.node[readers[i]] else qs.anchor[KEYQ]
      ensures i < |readers| ==> next == if i + 1 < |readers| then qs.node[readers[i + 1]] else qs.anchor[KEYQ]
    {
      hide QueueSet.Valid, CircularBuffer.Valid, Matching, KeepsShape;
      ghost var q := qs.q[KEYQ];
      assert i < |readers| ==> q[k..][0] == readers[i..][0];
      assert i + 1 < |readers| ==> q[k..][1] == readers[i..][1];
      next := qs.Following(cursor, KEYQ, if i < |readers| then k + 1 else 0);
    }

    /** The body of the sweep's loop, for the i-th reader, of which k before it stayed. */
    method SweepOne(t: nat, ghost tcb0: seq<Tcb>, ghost q0: seq<seq<Slot>>, ghost i: nat, ghost k: nat)
        returns (ghost k': nat)
      requires Valid() && |q0| >= SEMS && InRange(q0[KEYQ], |tcb0|) && i < |q0[KEYQ]| && q0[KEYQ][i] == t
      requires q0[KEYQ][i] !in q0[KEYQ][..i] && tcb0[t].state != Run
      requires k == |Select(tcb0, q0[KEYQ][..i], false)|
      requires tcb == Aged(tcb0, q0[KEYQ], i) && qs.q == Visited(q0, tcb0, i)
      modifies this`tcb, qs, qs.node, qs.anchor
      ensures Valid() && tcb == Aged(tcb0, q0[KEYQ], i + 1) && qs.q == Visited(q0, tcb0, i + 1)
      ensures k' == |Select(tcb0, q0[KEYQ][..i + 1], false)| && StandAt(qs.q[KEYQ], q0[KEYQ], i + 1, k')
    {
      hide QueueSet.Valid, CircularBuffer.Valid, Matching, KeepsShape, Select, Rest, Visited, Moved, Aged, Age, StandAt;
      AgedNext(tcb0, q0[KEYQ], i);
      VisitedNext(q0, tcb0, i, k);
      VisitReader(t, k);
      k' := if Expiring(tcb0[t]) then k else k + 1;
      RestStands(tcb0, q0[KEYQ], i + 1, k');
    }

    /** The sweep's loop: list_for_each_safe over the key queue, while unlinking from it. */
    method WalkReaders()
      requires Valid() && forall i :: 0 <= i < |qs.q[KEYQ]| ==> qs.q[KEYQ][i] < |tcb| && tcb[qs.q[KEYQ][i]].state != Run
      modifies this`tcb, qs, qs.node, qs.anchor
      ensures Valid() && tcb == Aged(old(tcb), old(qs.q)[KEYQ], |old(qs.q)[KEYQ]|)
      ensures qs.q == Visited(old(qs.q), old(tcb), |old(qs.q)[KEYQ]|)
    {
      hide QueueSet.Valid, CircularBuffer.Valid, Matching, KeepsShape, Select, Rest, Visited, Aged, StandAt, Age;
      ghost var tcb0, q0, readers := tcb, qs.q, qs.q[KEYQ];
      ReadersDistinct();
      VisitedNone(q0, tcb0);
      var head := qs.anchor[KEYQ];
      var cursor := qs.Following(head, KEYQ, 0);
      var next := NextReader(cursor, readers, 0, 0);
      ghost var i, k := 0, 0;
      while cursor != head
        invariant Valid() && 0 <= i <= |readers| && k == |Select(tcb0, readers[..i], false)|
        invariant tcb == Aged(tcb0, readers, i) && qs.q == Visited(q0, tcb0, i)
        invariant cursor == if i < |readers| then qs.node[readers[i]] else head
        invariant i < |readers| ==> next == if i + 1 < |readers| then qs.node[readers[i + 1]] else head
        decreases |readers| - i
      {
        k := SweepOne(cursor.owner, tcb0, q0, i, k);
        cursor := next;
        i := i + 1;
        next := NextReader(cursor, readers, i, k);
      }
    }

    /** key_timout_system. */
    method KeyTimeoutSweep()
      requires Valid() && StatesOk(S())
      modifies this`tcb, qs, qs.node, qs.anchor
      ensures Valid() && S() == Sweep(old(S()))
    {
      hide QueueSet.Valid, CircularBuffer.Valid, Matching, KeepsShape, Select, Rest, Visited, Aged, Age;
      AllAged(S());
      VisitedAll(qs.q, tcb);
      forall i | 0 <= i < |qs.q[KEYQ]| ensures tcb[qs.q[KEYQ][i]].state != Run {
        assert qs.q[KEYQ][i] in S().keyq;
      }
      WalkReaders();
    }

    /** clock_routine. */
    method ClockRoutine()
      requires Valid() && OnePlaceEach(S()) && StatesOk(S())
      modifies this`tcb, this`remaining, this`current, qs, qs.node, qs.anchor
      ensures Valid() && S() == Schedule(Sweep(old(S())))
    {
      hide QueueSet.Valid, CircularBuffer.Valid, Matching, KeepsShape, OnePlaceEach, Select, Sweep, Schedule;
      SweepPlaces(S());
      SweepStates(S());
      KeyTimeoutSweep();
      Reschedule();
    }

    /** The first blocked reader, if any, is not marked Run. */
    lemma FirstReader()
      requires Valid() && StatesOk(S())
      ensures qs.q[KEYQ] != [] ==> qs.q[KEYQ][0] < |tcb| && tcb[qs.q[KEYQ][0]].state != Run
    {
    }

    method WakeReader()
      requires Valid() && qs.q[KEYQ] != [] && qs.q[KEYQ][0] < |tcb| && tcb[qs.q[KEYQ][0]].state != Run
      modifies this`tcb, qs, qs.node, qs.anchor
      ensures Valid() && WellFormed(old(S())) && S() == WakeFirst(old(S()))
    {
      hide QueueSet.Valid, KeepsShape, Window;
      StateWellFormed();
      var t := qs.First(KEYQ);
      UpdateProcessState(t, READY, KEYQ, 0);
      assert Without(old(qs.q)[KEYQ], 0) == old(qs.q)[KEYQ][1..];
      if tcb[t].call.Call? {
        tcb := tcb[t := tcb[t].(call := tcb[t].call.(wake := ByKey))];
      }
    }

    method PushKey(c: int)
      requires Valid()
      modifies this`accepted, buffer, buffer.buffer
      ensures Valid() && S() == old(S()).(kb := Push(old(S()).kb, c))
    {
      hide QueueSet.Valid, KeepsShape, Window;
      if !buffer.Full() {
        var r := buffer.Push(c);
        accepted := accepted + [c];
      }
    }

    /** keyboard_routine, for the character c the scan code maps to. */
    method KeyboardRoutine(c: int)
      requires Valid() && StatesOk(S())
      modifies this, qs, qs.node, qs.anchor, buffer, buffer.buffer
      ensures Valid() && S() == KeyStep(old(S()), c)
    {
      hide QueueSet.Valid, KeepsShape, Window;
      FirstReader();
      if makeFlag {
        PushKey(c);
        var empty := qs.Empty(KEYQ);
        if !empty {
          WakeReader();
          pending := pending + 1;
        }
        makeFlag := false;
      } else {
        makeFlag := true;
      }
    }

    /** sys_getKey, up to where the caller has the CPU (again). */
    method GetKey(timeout: int)
      requires Valid() && OnePlaceEach(S()) && tcb[current].state == Run
      modifies this`tcb, this`remaining, this`current, qs, qs.node, qs.anchor
      ensures Valid() && S() == GetKeyStep(old(S()), timeout)
    {
      hide QueueSet.Valid, CircularBuffer.Valid, KeepsShape, OnePlaceEach, Window;
      StateWellFormed();
      CurrentUnlinked();
      tcb := tcb[current := tcb[current].(keyTimeout := timeout)];
      var idleQueue := qs.Empty(KEYQ);
      if pending > 0 || buffer.Empty() || !idleQueue {
        UpdateProcessState(current, KEYQ, 0, 0);
        tcb := tcb[current := tcb[current].(call := Call(timeout, Waiting))];
        ghost var b := old(tcb)[current].(keyTimeout := timeout, state := Blocked, call := Call(timeout, Waiting));
        assert S() == old(S()).(tcb := old(tcb)[current := b], keyq := old(S()).keyq + [current]);
        SchedNext();
      } else {
        tcb := tcb[current := tcb[current].(call := Call(timeout, NotBlocked))];
      }
    }

    /** The rest of sys_getKey. */
    method ResumeGetKey() returns (r: int, c: int)
      requires Valid()
      modifies this, buffer
      ensures Valid() && WellFormed(old(S())) && S() == ResumeStep(old(S()))
      ensures match ResumeResult(old(S()))
        case TimedOut => r == -ETIME
        case TryAgain => r == -EAGAIN
        case Got(x) => r == 0 && c == x
      ensures r == 0 <==> delivered == old(delivered) + [c]
      ensures r != 0 ==> delivered == old(delivered)
    {
      hide QueueSet.Valid, KeepsShape, Window, Matching;
      StateWellFormed();
      tcb := tcb[current := tcb[current].(call := NoCall)];
      c := -1;
      if tcb[current].keyTimeout <= 0 { return -ETIME, c; }
      pending := pending - 1;
      ghost var k := buffer.Contents();
      c := buffer.Pop();
      assert k != [] ==> buffer.Contents() == k[1..] && c == k[0];
      if k != [] {
        taken := taken + [c];
        if c != -1 { delivered := delivered + [c]; }
      }
      if c == -1 { return -EAGAIN, c; }
      return 0, c;
    }

    /** sys_sem_create: the semaphore's number, or -EINVAL when all are taken. */
    method SemCreate(v: int) returns (i: int)
      requires Valid() && SemsOk(S())
      modifies this`count, this`freesem, this`sems, qs.anchor
      ensures Valid() && S() == SemCreateStep(old(S()), v)
      ensures i == if old(freesem) == [] then -EINVAL else old(freesem)[0]
    {
      hide QueueSet.Valid, CircularBuffer.Valid, KeepsShape, Window, Fair;
      if freesem == [] { return -EINVAL; }
      i := freesem[0];
      freesem := freesem[1..];
      count := count[i := v];
      qs.Reset(SEMS + i);
      sems := sems[i := Create(v)];
    }

    /** sys_semWait. */
    method SemWait(i: nat)
      requires Valid() && OnePlaceEach(S()) && i < |count|
      modifies this`tcb, this`remaining, this`current, this`count, this`sems, qs, qs.node, qs.anchor
      ensures Valid() && S() == SemWaitStep(old(S()), i)
    {
      hide QueueSet.Valid, CircularBuffer.Valid, KeepsShape, OnePlaceEach, Window, Matching;
      StateWellFormed();
      CurrentUnlinked();
      WaitMatching(sems, count, freesem, qs.q, i, current);
      count := count[i := count[i] - 1];
      sems := sems[i := Wait(sems[i], current)];
      if count[i] < 0 {
        qs.AddTail(current, SEMS + i);
        SchedNext();
      }
    }

    /** sys_semSignal. */
    method SemSignal(i: nat)
      requires Valid() && i < |count| && SignalSafe(sems[i])
      modifies this`count, this`sems, qs, qs.node, qs.anchor
      ensures Valid() && WellFormed(old(S())) && S() == SemSignalStep(old(S()), i)
    {
      hide QueueSet.Valid, CircularBuffer.Valid, KeepsShape, Window, Matching;
      StateWellFormed();
      SignalMatching(sems, count, freesem, qs.q, i);
      count := count[i := count[i] + 1];
      sems := sems[i := Signal(sems[i])];
      if count[i] <= 0 {
        var t := qs.TakeFirst(SEMS + i);
        StillMatching(sems, count, freesem, qs.q, READY, qs.q[READY] + [t]);
        qs.AddTail(t, READY);
      }
    }

    /** The same code on a signal that is not safe: the queue's anchor goes to the end of the ready queue
        in place of a task, and what is linked no longer is a set of task queues. */
    method UnsafeSignal(i: nat)
      requires Valid() && i < |count| && !SignalSafe(sems[i])
      modifies this`count, qs.node, qs.anchor
      ensures count == old(count)[i := old(count)[i] + 1] && qs.q == old(qs.q)
      ensures i < |count| && |qs.anchor| == SEMS + |count| && qs.InPlace() && !qs.Valid()
      ensures Ring(qs.anchor[READY], qs.Nodes(qs.q[READY]) + [qs.anchor[SEMS + i]]) && qs.anchor[SEMS + i].owner == -1
    {
      hide OnePlace, Ring, CircularBuffer.Valid;
      count := count[i := count[i] + 1];
      if count[i] <= 0 {
        qs.WakeNobody(SEMS + i, READY);
      }
    }

    /** Any interrupt or system call: the kernel's linked queues take exactly the step of the machine,
        and are ready for the next one.  So every run of the kernel is a run of the machine, and every
        list_del in it finds its entry linked, every list_add_tail its entry unlinked. */
    method Handle(e: Event, ghost q: int)
      requires Valid() && Inv(S(), q) && Enabled(S(), e)
      modifies this, qs, qs.node, qs.anchor, buffer, buffer.buffer
      ensures Valid() && S() == Next(old(S()), e) && Inv(S(), q)
    {
      hide QueueSet.Valid, KeepsShape, OnePlaceEach, Dispatch, Preempt, Schedule, Sweep, KeyStep, BlockStep, ExitStep,
        SpawnStep, GetKeyStep, ResumeStep, SemCreateStep, SemWaitStep, SemSignalStep, CallsOk, QuantaOk, KeyboardOk;
      R.StepKeepsInv(S(), e, q);
      match e
      case Tick => ClockRoutine();
      case Key(c) => KeyboardRoutine(c);
      case Yield => Yield();
      case Block => Block();
      case Exit => Exit();
      case Spawn(ok) => var done := Spawn(ok);
      case GetKey(timeout) => GetKey(timeout);
      case Resume => var r, c := ResumeGetKey();
      case SemCreate(v) => var i := SemCreate(v);
      case SemWait(i) => SemWait(i);
      case SemSignal(i) => SemSignal(i);
    }
  }
}
