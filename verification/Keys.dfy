/** From key presses to the characters getKey returns, over whole runs. */
module Keys {
  import opened Scheduler
  import opened Partition
  import opened Reachable
  import opened Waiting
  import opened Boot

  // ---------------------------------------------------------------- what getKey returns

  /** A returning call succeeds with a character exactly if that character is handed to the process. */
  lemma ResumeDelivers(s: Sched, x: int)
    requires WellFormed(s) && Enabled(s, Resume)
    ensures var k, k' := s.kb, Next(s, Resume).kb;
      && (ResumeResult(s) == Got(x) <==> k'.delivered == k.delivered + [x])
      && (!ResumeResult(s).Got? ==> k'.delivered == k.delivered)
  {
    var k, k' := s.kb, Next(s, Resume).kb;
    if k'.delivered == k.delivered + [x] { assert k'.delivered[|k.delivered|] == x; }
  }

  /** It takes the oldest character, or nothing if it timed out or there is none. */
  lemma ResumeTakes(s: Sched)
    requires WellFormed(s) && Enabled(s, Resume)
    ensures var k, k' := s.kb, Next(s, Resume).kb;
      if ResumeResult(s) == TimedOut || k.buffer == [] then k'.buffer == k.buffer && k'.taken == k.taken
      else k.buffer == [k'.taken[|k.taken|]] + k'.buffer && k'.taken == k.taken + [k.buffer[0]]
  {
  }

  /** The characters the successful calls of a run return, in order. */
  ghost function Returned(s: Sched, es: seq<Event>): seq<int>
    requires WellFormed(s) && Runs(s, es)
    decreases |es|
  {
    if es == [] then []
    else
      (if es[0].Resume? && ResumeResult(s).Got? then [ResumeResult(s).c] else [])
      + Returned(Next(s, es[0]), es[1..])
  }

  lemma OnlyResumeDelivers(s: Sched, e: Event)
    requires WellFormed(s) && Enabled(s, e) && !e.Resume?
    ensures Next(s, e).kb.delivered == s.kb.delivered
  {
    if !e.Key? { KeyboardFrame(s, e); }
  }

  lemma {:induction false} RunReturns(s: Sched, es: seq<Event>)
    requires WellFormed(s) && Runs(s, es)
    ensures After(s, es).kb.delivered == s.kb.delivered + Returned(s, es)
    decreases |es|
  {
    hide Next, ResumeResult;
    if es != [] {
      var r := Next(s, es[0]);
      RunReturns(r, es[1..]);
      if es[0].Resume? {
        ResumeDelivers(s, if ResumeResult(s).Got? then ResumeResult(s).c else 0);
      } else {
        OnlyResumeDelivers(s, es[0]);
      }
      var now := if es[0].Resume? && ResumeResult(s).Got? then [ResumeResult(s).c] else [];
      assert s.kb.delivered + (now + Returned(r, es[1..])) == (s.kb.delivered + now) + Returned(r, es[1..]);
    }
  }

  // ---------------------------------------------------------------- what the keyboard accepts

  /** The characters of the keys that go down in a run while there is room for them, in order. */
  ghost function Pressed(s: Sched, es: seq<Event>): seq<int>
    requires WellFormed(s) && Runs(s, es)
    decreases |es|
  {
    if es == [] then []
    else
      (if es[0].Key? && s.kb.makeFlag && |s.kb.buffer| < s.kb.capacity then [es[0].c] else [])
      + Pressed(Next(s, es[0]), es[1..])
  }

  lemma StepAccepts(s: Sched, e: Event)
    requires WellFormed(s) && Enabled(s, e)
    ensures Next(s, e).kb.accepted
         == s.kb.accepted + if e.Key? && s.kb.makeFlag && |s.kb.buffer| < s.kb.capacity then [e.c] else []
    ensures Next(s, e).kb.makeFlag == (if e.Key? then !s.kb.makeFlag else s.kb.makeFlag)
  {
    hide Sweep, Schedule, Dispatch, KeepsShape;
    if !e.Key? && !e.Resume? { KeyboardFrame(s, e); }
  }

  lemma {:induction false} RunAccepts(s: Sched, es: seq<Event>)
    requires WellFormed(s) && Runs(s, es)
    ensures After(s, es).kb.accepted == s.kb.accepted + Pressed(s, es)
    decreases |es|
  {
    hide Next;
    if es != [] {
      StepAccepts(s, es[0]);
      RunAccepts(Next(s, es[0]), es[1..]);
      var now := if es[0].Key? && s.kb.makeFlag && |s.kb.buffer| < s.kb.capacity then [es[0].c] else [];
      var rest := Pressed(Next(s, es[0]), es[1..]);
      assert s.kb.accepted + (now + rest) == (s.kb.accepted + now) + rest;
    }
  }

  function Interrupts(es: seq<Event>): nat {
    if es == [] then 0 else (if es[0].Key? then 1 else 0) + Interrupts(es[1..])
  }

  /** Keyboard interrupts take turns: one for a key that goes down, one for a key that goes up. */
  lemma {:induction false} TakeTurns(s: Sched, es: seq<Event>)
    requires WellFormed(s) && Runs(s, es)
    ensures After(s, es).kb.makeFlag == (if Interrupts(es) % 2 == 0 then s.kb.makeFlag else !s.kb.makeFlag)
    decreases |es|
  {
    hide Next;
    if es != [] {
      StepAccepts(s, es[0]);
      TakeTurns(Next(s, es[0]), es[1..]);
    }
  }

  // ---------------------------------------------------------------- end to end

  lemma {:induction false} NonErrorConcat(a: seq<int>, b: seq<int>)
    ensures NonError(a + b) == NonError(a) + NonError(b)
    decreases |b|
  {
    if b == [] {
      assert a + b == a;
    } else {
      var last := |b| - 1;
      var x := if b[last] == -1 then [] else [b[last]];
      assert (a + b)[..|a + b| - 1] == a + b[..last] && (a + b)[|a + b| - 1] == b[last];
      NonErrorConcat(a, b[..last]);
      assert NonError(a) + (NonError(b[..last]) + x) == (NonError(a) + NonError(b[..last])) + x;
    }
  }

  /** In every run from boot: the characters getKey has returned, followed by those still buffered, are
      the characters of the keys pressed while there was room, in order, but for the error value; none
      is lost, duplicated or changed on the way. */
  lemma EndToEnd(n: nat, q: int, capacity: nat, sems: nat, es: seq<Event>)
    requires n >= 2 && q >= 1 && Runs(Booted(n, q, capacity, sems), es)
    ensures var s := Booted(n, q, capacity, sems);
      && WellFormed(s)
      && Returned(s, es) + NonError(After(s, es).kb.buffer) == NonError(Pressed(s, es))
      && (After(s, es).kb.makeFlag <==> Interrupts(es) % 2 == 0)
  {
    hide Next, Runs, After, Inv, NonError;
    var s := Booted(n, q, capacity, sems);
    BootedInv(n, q, capacity, sems);
    KeyboardEveryRun(n, q, capacity, sems, es);
    RunReturns(s, es);
    RunAccepts(s, es);
    TakeTurns(s, es);
    var k := After(s, es).kb;
    NonErrorConcat(k.taken, k.buffer);
    assert [] + Returned(s, es) == Returned(s, es) && [] + Pressed(s, es) == Pressed(s, es);
  }

  // ---------------------------------------------------------------- the timeout that was asked for

  /** A call records the timeout it was made with. */
  lemma GetKeyRecords(s: Sched, timeout: int)
    requires WellFormed(s) && Enabled(s, GetKey(timeout))
    ensures var b := Next(s, GetKey(timeout)).tcb[s.current];
      && b.keyTimeout == timeout
      && b.call == Call(timeout, if s.kb.pending > 0 || s.kb.buffer == [] || s.keyq != [] then Waiting else NotBlocked)
  {
  }

  /** A reader without a timeout waits until a key releases it. */
  lemma UntimedWaits(s: Sched, e: Event, q: int, t: Slot)
    requires Inv(s, q) && Enabled(s, e) && t in s.keyq && s.tcb[t].keyTimeout <= 0
    ensures var r := Next(s, e);
      && SameTimeout(s, r, t)
      && (t in r.keyq || (e.Key? && Released(r, t, ByKey)))
  {
    hide QuantaOk, KeyboardOk, SemsOk;
    Apart(s);
    if e.Tick? {
      var w := Sweep(s);
      assert w.tcb[t] == s.tcb[t] && t in w.keyq;
      ScheduleFrame(w, t);
    } else if e.Key? {
      UntimedKey(s, e.c, q, t);
    } else {
      OtherCallsFrame(s, e, t);
      KeyqGrows(s, e);
    }
  }

  /** The timeout counter, and what was asked for. */
  ghost predicate SameTimeout(s: Sched, r: Sched, t: Slot)
    requires WellFormed(s) && WellFormed(r) && t < |s.tcb| == |r.tcb|
  {
    && r.tcb[t].keyTimeout == s.tcb[t].keyTimeout
    && s.tcb[t].call.Call? && r.tcb[t].call.Call? && r.tcb[t].call.asked == s.tcb[t].call.asked
  }

  lemma UntimedKey(s: Sched, c: int, q: int, t: Slot)
    requires Inv(s, q) && t in s.keyq
    ensures var r := KeyStep(s, c); SameTimeout(s, r, t) && (t in r.keyq || Released(r, t, ByKey))
  {
    hide QuantaOk, KeyboardOk, SemsOk;
    var r := KeyStep(s, c);
    if s.kb.makeFlag {
      if s.keyq[0] == t {
        FirstReaderOnce(s);
        assert r.ready[|s.ready|] == t;
      } else {
        assert t in s.keyq[1..];
      }
    }
  }

  /** What a call asked for stays on record until it returns. */
  lemma AskedStays(s: Sched, e: Event, q: int, t: Slot)
    requires Inv(s, q) && Enabled(s, e) && t in s.keyq
    ensures var r := Next(s, e);
      && s.tcb[t].call.Call? && r.tcb[t].call.Call? && r.tcb[t].call.asked == s.tcb[t].call.asked
      && (t in r.keyq || t in r.ready || t == r.current)
  {
    if s.tcb[t].keyTimeout > 0 {
      StepAwaits(s, e, q, t, s.tcb[t].keyTimeout);
      AskedFrame(s, e, t);
    } else {
      UntimedWaits(s, e, q, t);
    }
  }

  lemma AskedFrame(s: Sched, e: Event, t: Slot)
    requires OnePlaceEach(s) && CallsOk(s) && Enabled(s, e) && t in s.keyq
    ensures var r := Next(s, e); r.tcb[t].call.Call? && r.tcb[t].call.asked == s.tcb[t].call.asked
  {
    hide OnePlaceEach, Select, KeepsShape;
    Apart(s);
    if !e.Tick? && !e.Key? { OtherCallsFrame(s, e, t); }
  }

  lemma {:induction false} AskedUntilRun(s: Sched, es: seq<Event>, q: int, t: Slot)
    requires Inv(s, q) && Runs(s, es) && t in s.keyq && FirstRun(s, es, t)
    ensures t < |s.tcb| && After(s, es).current == t
    ensures var a, b := s.tcb[t].call, After(s, es).tcb[t].call; a.Call? && b.Call? && b.asked == a.asked
    decreases |es|
  {
    hide Next, OnePlaceEach, StatesOk, KeyboardOk, SemsOk, QuantaOk;
    assert s.current != t by { Apart(s); }
    var r := Next(s, es[0]);
    AskedStays(s, es[0], q, t);
    StepKeepsInv(s, es[0], q);
    if t in r.keyq {
      AskedUntilRun(r, es[1..], q, t);
    } else {
      ReleasedStays(r, es[1..], q, t);
    }
  }

  /** A getKey(timeout) that does not block reports a timeout exactly for timeout <= 0. */
  lemma DirectCallTimesOutIff(s: Sched, timeout: int, q: int)
    requires Inv(s, q) && Enabled(s, GetKey(timeout)) && !MustBlock(s)
    ensures var r := Next(s, GetKey(timeout));
      WellFormed(r) && r.current == s.current && (ResumeResult(r) == TimedOut <==> timeout <= 0)
  {
  }

  /** A getKey(timeout) that blocks reports a timeout, when it has the CPU again, exactly if timeout <= 0
      or a clock tick, and not a key, took it out of the queue. */
  lemma BlockedCallTimesOutIff(s: Sched, timeout: int, es: seq<Event>, q: int)
    requires Inv(s, q) && Enabled(s, GetKey(timeout)) && MustBlock(s)
    requires Runs(Next(s, GetKey(timeout)), es) && FirstRun(Next(s, GetKey(timeout)), es, s.current)
    ensures var r := Next(s, GetKey(timeout));
      ResumeResult(After(r, es)) == TimedOut <==> timeout <= 0 || SweptOut(r, es, s.current)
  {
    hide Next, OnePlaceEach, StatesOk, KeyboardOk, SemsOk, QuantaOk, Runs, After, FirstRun, SweptOut, KeyedOut;
    var r, t := Next(s, GetKey(timeout)), s.current;
    StepKeepsInv(s, GetKey(timeout), q);
    GetKeyRecords(s, timeout);
    assert t in r.keyq;
    AskedUntilRun(r, es, q, t);
    RunKeepsInv(r, es, q);
    if timeout > 0 {
      TimeoutIffSwept(r, es, q, t, timeout);
    } else {
      NoTimeNoResult(After(r, es), q);
    }
  }

  lemma NoTimeNoResult(s: Sched, q: int)
    requires Inv(s, q) && s.tcb[s.current].call.Call? && s.tcb[s.current].call.asked <= 0
    ensures ResumeResult(s) == TimedOut
  {
    Apart(s);
    assert CallOk(s.tcb[s.current]);
  }
}
