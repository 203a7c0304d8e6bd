/** Two runs from boot in which a reader released by a key press goes without a character. */
module ReaderRuns {
  import opened Scheduler
  import opened Partition
  import opened Reachable
  import opened Boot
  import opened Ranges
  import opened Pending
  import opened Readers

  /** The task that has the CPU is a reader released by a key, with time left, and finds nothing. */
  ghost predicate GoesWithout(s: Sched)
    requires WellFormed(s)
  {
    Enabled(s, Resume) && IsOwed(s.tcb[s.current]) && s.kb.buffer == [] && ResumeResult(s) == TryAgain
  }

  // ---------------------------------------------------------------- views

  /** What matters of a state here: who runs, and whether inside a getKey that did not block; who is
      in which queue; which readers were released by a key and are not back yet; the keyboard; and the credit. */
  datatype View = View(
    current: Slot, taking: bool, ready: seq<Slot>, keyq: seq<Slot>, woken: seq<Slot>, free: seq<Slot>,
    capacity: nat, buffered: nat, pending: int, makeFlag: bool, credit: int)

  /** Every reader asks for `timeout` ticks. */
  function CallIn(v: View, timeout: int, t: Slot): KeyCall {
    if t == v.current && v.taking then Call(timeout, NotBlocked)
    else if t in v.keyq then Call(timeout, Waiting)
    else if t in v.woken then Call(timeout, ByKey)
    else NoCall
  }

  ghost predicate Looks(s: Sched, q: int, timeout: int, v: View) {
    && Inv(s, q) && FreeIdle(s) && timeout > 0 && s.idle == 0 != v.current
    && s.current == v.current && s.ready == v.ready && s.keyq == v.keyq && s.free == v.free
    && s.kb.capacity == v.capacity && |s.kb.buffer| == v.buffered
    && s.kb.pending == v.pending && s.kb.makeFlag == v.makeFlag && Credit(s) == v.credit
    && forall t :: 0 <= t < |s.tcb| ==> s.tcb[t].call == CallIn(v, timeout, t)
  }

  /** The running task is not inside getKey. */
  predicate AtWork(v: View) { !v.taking && v.current !in v.keyq && v.current !in v.woken }

  predicate Blocks(v: View) { v.pending > 0 || v.buffered == 0 || v.keyq != [] }

  /** The events used here, where they can happen. */
  predicate Can(v: View, e: Event, timeout: int) {
    && (AtWork(v) <==> !e.Resume?)
    && match e
       case Spawn(ok) => ok && v.free != [] && v.keyq == [] && v.woken == []
       case GetKey(m) => m == timeout && (Blocks(v) ==> v.ready != [] && v.ready[0] != 0)
       case Key(_) => true
       case Yield => v.ready != [] && v.ready[0] != 0
       case Resume =>
         && v.buffered > 0 && v.current !in v.keyq
         && if v.taking then v.current !in v.woken
            else v.woken != [] && v.woken[0] == v.current && v.current !in v.woken[1..]
       case _ => false
  }

  /** What they do. */
  function See(v: View, e: Event, timeout: int): View
    requires Can(v, e, timeout)
  {
    match e
    case Spawn(_) => v.(free := v.free[1..], ready := v.ready + [v.free[0]])
    case GetKey(_) =>
      if Blocks(v) then v.(current := v.ready[0], ready := v.ready[1..], keyq := v.keyq + [v.current])
      else v.(taking := true)
    case Key(_) =>
      if !v.makeFlag then v.(makeFlag := true)
      else
        var more := One(v.buffered < v.capacity);
        var v1 := v.(makeFlag := false, buffered := v.buffered + more, credit := v.credit + more);
        if v.keyq == [] then v1
        else v1.(pending := v.pending + 1, keyq := v.keyq[1..], credit := v1.credit - 1,
                 ready := v.ready + [v.keyq[0]], woken := v.woken + [v.keyq[0]])
    case Yield => v.(current := v.ready[0], ready := v.ready[1..] + [v.current])
    case Resume =>
      v.(taking := false, woken := if v.taking then v.woken else v.woken[1..],
         credit := if v.taking then v.credit - 1 else v.credit, buffered := v.buffered - 1, pending := v.pending - 1)
  }

  predicate Steals(v: View, e: Event) { e.Resume? && v.taking && v.credit <= 0 }

  predicate Drops(v: View, e: Event) {
    e.Key? && v.makeFlag && v.keyq != [] && v.buffered >= v.capacity && v.credit <= 0
  }

  /** The view machine follows the kernel. */
  ghost predicate Follows(s: Sched, q: int, timeout: int, v: View, e: Event)
    requires WellFormed(s) && Can(v, e, timeout)
  {
    && Enabled(s, e) && Looks(Next(s, e), q, timeout, See(v, e, timeout))
    && TallyOf(s, e).stolen == One(Steals(v, e)) && TallyOf(s, e).dropped == One(Drops(v, e))
  }

  lemma SpawnFollows(s: Sched, q: int, timeout: int, v: View, e: Event)
    requires Looks(s, q, timeout, v) && Can(v, e, timeout) && e.Spawn?
    ensures Follows(s, q, timeout, v, e)
  {
    hide OnePlaceEach, QuantaOk, CallsOk, KeyboardOk, SemsOk, Credit;
    StepKeepsInv(s, e, q);
    FreeStaysIdle(s, e, q);
    StepCredit(s, e, q);
  }

  lemma GetKeyFollows(s: Sched, q: int, timeout: int, v: View, e: Event)
    requires Looks(s, q, timeout, v) && Can(v, e, timeout) && e.GetKey?
    ensures Follows(s, q, timeout, v, e)
  {
    hide OnePlaceEach, QuantaOk, CallsOk, KeyboardOk, SemsOk, Credit;
    StepKeepsInv(s, e, q);
    FreeStaysIdle(s, e, q);
    StepCredit(s, e, q);
  }

  lemma KeyFollows(s: Sched, q: int, timeout: int, v: View, e: Event)
    requires Looks(s, q, timeout, v) && Can(v, e, timeout) && e.Key?
    ensures Follows(s, q, timeout, v, e)
  {
    hide OnePlaceEach, QuantaOk, CallsOk, KeyboardOk, SemsOk, Credit;
    StepKeepsInv(s, e, q);
    FreeStaysIdle(s, e, q);
    StepCredit(s, e, q);
    if s.keyq != [] {
      FirstReaderOnce(s);
      assert s.keyq[0] in s.keyq;
    }
  }

  lemma YieldFollows(s: Sched, q: int, timeout: int, v: View, e: Event)
    requires Looks(s, q, timeout, v) && Can(v, e, timeout) && e.Yield?
    ensures Follows(s, q, timeout, v, e)
  {
    hide OnePlaceEach, QuantaOk, CallsOk, KeyboardOk, SemsOk, Credit;
    StepKeepsInv(s, e, q);
    FreeStaysIdle(s, e, q);
    StepCredit(s, e, q);
  }

  lemma ResumeFollows(s: Sched, q: int, timeout: int, v: View, e: Event)
    requires Looks(s, q, timeout, v) && Can(v, e, timeout) && e.Resume?
    ensures Follows(s, q, timeout, v, e)
  {
    hide OnePlaceEach, QuantaOk, KeyboardOk, SemsOk, Credit;
    assert CallOk(s.tcb[s.current]);
    StepKeepsInv(s, e, q);
    FreeStaysIdle(s, e, q);
    StepCredit(s, e, q);
    assert !v.taking ==> forall t :: t in v.woken <==> t == v.current || t in v.woken[1..];
  }

  // ---------------------------------------------------------------- runs of views

  /** `es` can happen from `v`, with so many stolen and dropped characters, and ends with a released
      reader on the CPU and nothing in the buffer. */
  predicate EndsShort(v: View, es: seq<Event>, timeout: int, stolen: int, dropped: int)
    decreases |es|
  {
    if es == [] then
      v.buffered == 0 && v.current in v.woken && v.current !in v.keyq && !v.taking && stolen == 0 && dropped == 0
    else
      && Can(v, es[0], timeout)
      && EndsShort(See(v, es[0], timeout), es[1..], timeout,
                   stolen - One(Steals(v, es[0])), dropped - One(Drops(v, es[0])))
  }

  lemma {:induction false} ShortRun(s: Sched, es: seq<Event>, q: int, timeout: int, v: View, stolen: int, dropped: int)
    requires Looks(s, q, timeout, v) && EndsShort(v, es, timeout, stolen, dropped)
    ensures WellFormed(s) && Runs(s, es) && GoesWithout(After(s, es))
    ensures Tallies(s, es).stolen == stolen && Tallies(s, es).dropped == dropped
    decreases |es|
  {
    hide Next, Can, See, Steals, Drops, TallyOf, OnePlaceEach, QuantaOk, KeyboardOk, SemsOk;
    if es == [] {
      assert CallOk(s.tcb[s.current]);
    } else {
      StepFollows(s, q, timeout, v, es[0]);
      ShortRun(Next(s, es[0]), es[1..], q, timeout, See(v, es[0], timeout),
               stolen - One(Steals(v, es[0])), dropped - One(Drops(v, es[0])));
    }
  }

  lemma StepFollows(s: Sched, q: int, timeout: int, v: View, e: Event)
    requires Looks(s, q, timeout, v) && Can(v, e, timeout)
    ensures WellFormed(s) && Follows(s, q, timeout, v, e)
  {
    hide Follows, See;
    match e
    case Spawn(_) => SpawnFollows(s, q, timeout, v, e);
    case GetKey(_) => GetKeyFollows(s, q, timeout, v, e);
    case Key(_) => KeyFollows(s, q, timeout, v, e);
    case Yield => YieldFollows(s, q, timeout, v, e);
    case Resume => ResumeFollows(s, q, timeout, v, e);
    case _ =>
  }

  lemma Prepend(v: View, e: Event, v': View, rest: seq<Event>, timeout: int, stolen: int, dropped: int)
      returns (es: seq<Event>)
    requires Can(v, e, timeout) && See(v, e, timeout) == v' && EndsShort(v', rest, timeout, stolen, dropped)
    ensures es == [e] + rest
    ensures EndsShort(v, es, timeout, stolen + One(Steals(v, e)), dropped + One(Drops(v, e)))
  {
    hide Can, See, Steals, Drops;
    es := [e] + rest;
    assert es[1..] == rest;
  }

  /** The last step: the reader that will go without gets the CPU. */
  lemma LastYield(v: View, v': View, timeout: int) returns (es: seq<Event>)
    requires Can(v, Yield, timeout) && See(v, Yield, timeout) == v'
    requires v'.buffered == 0 && v'.current in v'.woken && v'.current !in v'.keyq && !v'.taking
    ensures es == [Yield] && EndsShort(v, es, timeout, 0, 0)
  {
    assert EndsShort(v', [], timeout, 0, 0);
    es := Prepend(v, Yield, v', [], timeout, 0, 0);
  }

  function BootView(n: nat, capacity: nat): View
    requires n >= 2
  {
    View(1, false, [], [], [], From(2, n), capacity, 0, 0, true, 0)
  }

  lemma BootLooks(n: nat, q: int, capacity: nat, sems: nat, timeout: int)
    requires n >= 2 && q >= 1 && timeout > 0
    ensures Looks(Booted(n, q, capacity, sems), q, timeout, BootView(n, capacity))
  {
    BootedInv(n, q, capacity, sems);
    BootedQuiet(n, q, capacity, sems);
  }

  // ---------------------------------------------------------------- a stolen character

  /** The first process takes a character without blocking, which leaves the counter at -1; then it
      blocks, and is released by a key; but the counter is 0, so its child takes that character. */
  function StealRun(c: int, timeout: int): seq<Event> {
    [Key(c), GetKey(timeout), Resume, Spawn(true), GetKey(timeout), Key(c), Key(c), GetKey(timeout), Resume, Yield]
  }

  lemma StolenFromBoot(n: nat, q: int, capacity: nat, sems: nat, c: int, timeout: int)
    requires n >= 3 && q >= 1 && capacity >= 1 && timeout > 0
    ensures var s, es := Booted(n, q, capacity, sems), StealRun(c, timeout);
      && WellFormed(s) && Runs(s, es) && GoesWithout(After(s, es))
      && Tallies(s, es).stolen == 1 && Tallies(s, es).dropped == 0
  {
    hide Booted, Next, Looks, Runs, After, Tallies, GoesWithout;
    var es, v := StealRun(c, timeout), BootView(n, capacity);
    BootLooks(n, q, capacity, sems, timeout);
    StealViews(n, capacity, c, timeout);
    ShortRun(Booted(n, q, capacity, sems), es, q, timeout, v, 1, 0);
  }

  lemma StealViews(n: nat, capacity: nat, c: int, timeout: int)
    requires n >= 3 && capacity >= 1
    ensures EndsShort(BootView(n, capacity), StealRun(c, timeout), timeout, 1, 0)
  {
    hide EndsShort;
    var v0 := BootView(n, capacity);
    var v1, v3 := v0.(makeFlag := false, buffered := 1, credit := 1), v0.(makeFlag := false, pending := -1);
    var v5 := v3.(free := v0.free[1..], current := 2, keyq := [1]);
    var es := StealEnd(v5, c, timeout);
    es := Prepend(v3.(free := v0.free[1..], ready := [2]), GetKey(timeout), v5, es, timeout, 1, 0);
    es := Prepend(v3, Spawn(true), v3.(free := v0.free[1..], ready := [2]), es, timeout, 1, 0);
    es := Prepend(v1.(taking := true), Resume, v3, es, timeout, 1, 0);
    es := Prepend(v1, GetKey(timeout), v1.(taking := true), es, timeout, 1, 0);
    es := Prepend(v0, Key(c), v1, es, timeout, 1, 0);
    assert es == StealRun(c, timeout);
  }

  /** The second half of that run. */
  lemma StealEnd(v: View, c: int, timeout: int) returns (es: seq<Event>)
    requires v.current == 2 && v.keyq == [1] && v.ready == [] && v.woken == [] && v.pending == -1
    requires !v.taking && !v.makeFlag && v.buffered == 0 < v.capacity && v.credit == 0
    ensures es == [Key(c), Key(c), GetKey(timeout), Resume, Yield] && EndsShort(v, es, timeout, 1, 0)
  {
    hide EndsShort;
    var v2 := v.(keyq := [], ready := [1], woken := [1], pending := 0, buffered := 1);
    var v4 := v.(keyq := [], ready := [1], woken := [1], credit := -1);
    es := LastYield(v4, v4.(current := 1, ready := [2]), timeout);
    es := Prepend(v2.(taking := true), Resume, v4, es, timeout, 0, 0);
    es := Prepend(v2, GetKey(timeout), v2.(taking := true), es, timeout, 1, 0);
    es := Prepend(v.(makeFlag := true), Key(c), v2, es, timeout, 1, 0);
    es := Prepend(v, Key(c), v.(makeFlag := true), es, timeout, 1, 0);
  }

  // ---------------------------------------------------------------- a dropped character

  /** Different tasks, idle not among them. */
  predicate Distinct(q: seq<Slot>) {
    (forall i :: 0 <= i < |q| ==> q[i] != 0) && (forall i, j :: 0 <= i < j < |q| ==> q[i] != q[j])
  }

  /** The released readers are first in line, one more of them than there are characters: they take
      their turns, and the last one goes without. */
  lemma {:induction false} ServeAll(v: View, rest: seq<Slot>, timeout: int) returns (es: seq<Event>)
    requires AtWork(v) && v.keyq == [] && v.ready == v.woken + rest && Distinct(v.woken) && |v.woken| == v.buffered + 1
    ensures EndsShort(v, es, timeout, 0, 0)
    decreases v.buffered
  {
    hide EndsShort;
    var v1 := v.(current := v.woken[0], ready := v.woken[1..] + (rest + [v.current]));
    assert See(v, Yield, timeout) == v1;
    if v.buffered == 0 {
      es := LastYield(v, v1, timeout);
    } else {
      var v2 := v1.(woken := v.woken[1..], buffered := v.buffered - 1, pending := v.pending - 1);
      es := ServeAll(v2, rest + [v.current], timeout);
      es := Prepend(v1, Resume, v2, es, timeout, 0, 0);
      es := Prepend(v, Yield, v1, es, timeout, 0, 0);
    }
  }

  /** One more reader waits than fit the buffer, and a key is pressed for each. */
  lemma {:induction false} PressAll(v: View, c: int, timeout: int) returns (es: seq<Event>)
    requires AtWork(v) && v.ready == v.woken && Distinct(v.woken + v.keyq)
    requires |v.woken| + |v.keyq| == v.capacity + 1 && v.credit == v.buffered - |v.woken|
    requires v.buffered == if |v.woken| <= v.capacity then |v.woken| else v.capacity
    ensures EndsShort(v, es, timeout, 0, if v.keyq == [] then 0 else 1)
    decreases |v.keyq|, !v.makeFlag
  {
    hide EndsShort;
    if v.keyq == [] {
      assert v.ready == v.woken + [] && v.woken + v.keyq == v.woken;
      es := ServeAll(v, [], timeout);
    } else {
      var v' := See(v, Key(c), timeout);
      assert v.makeFlag ==> v'.woken + v'.keyq == v.woken + v.keyq;
      es := PressAll(v', c, timeout);
      es := Prepend(v, Key(c), v', es, timeout, 0, if v'.keyq == [] then 0 else 1);
    }
  }

  /** All but one of the tasks block in getKey. */
  lemma {:induction false} BlockAll(v: View, c: int, timeout: int) returns (es: seq<Event>)
    requires AtWork(v) && v.woken == [] && v.buffered == v.credit == 0 && Distinct(v.keyq + [v.current] + v.ready)
    requires |v.keyq| + |v.ready| == v.capacity + 1
    ensures EndsShort(v, es, timeout, 0, 1)
    decreases |v.ready|
  {
    hide EndsShort;
    if v.ready == [] {
      assert Distinct(v.woken + v.keyq) by {
        assert forall i :: 0 <= i < |v.keyq| ==> (v.woken + v.keyq)[i] == (v.keyq + [v.current] + v.ready)[i];
      }
      es := PressAll(v, c, timeout);
    } else {
      var line := v.keyq + [v.current] + v.ready;
      assert line[|v.keyq| + 1] == v.ready[0];
      var v' := See(v, GetKey(timeout), timeout);
      assert v'.keyq + [v'.current] + v'.ready == line;
      assert forall i :: 0 <= i < |v'.keyq| ==> line[i] == v'.keyq[i];
      es := BlockAll(v', c, timeout);
      es := Prepend(v, GetKey(timeout), v', es, timeout, 0, 1);
    }
  }

  /** The first process creates the others. */
  lemma {:induction false} SpawnAll(v: View, c: int, timeout: int) returns (es: seq<Event>)
    requires AtWork(v) && v.keyq == [] && v.woken == [] && Distinct([v.current] + v.ready + v.free)
    requires v.buffered == v.credit == 0
    requires |v.ready| <= v.capacity + 1 <= |v.ready| + |v.free|
    ensures EndsShort(v, es, timeout, 0, 1)
    decreases |v.free|
  {
    hide EndsShort;
    var line := [v.current] + v.ready + v.free;
    if |v.ready| == v.capacity + 1 {
      assert v.keyq + [v.current] + v.ready == line[..|v.ready| + 1];
      es := BlockAll(v, c, timeout);
    } else {
      var v' := See(v, Spawn(true), timeout);
      assert [v'.current] + v'.ready + v'.free == line;
      es := SpawnAll(v', c, timeout);
      es := Prepend(v, Spawn(true), v', es, timeout, 0, 1);
    }
  }

  /** With one more reader waiting than fit the buffer, and a key pressed for each, the last character
      is dropped and one reader, though released by a key, goes without. */
  lemma DroppedFromBoot(n: nat, q: int, capacity: nat, sems: nat, c: int, timeout: int) returns (es: seq<Event>)
    requires n >= capacity + 3 && q >= 1 && timeout > 0
    ensures var s := Booted(n, q, capacity, sems);
      && WellFormed(s) && Runs(s, es) && GoesWithout(After(s, es))
      && Tallies(s, es).stolen == 0 && Tallies(s, es).dropped == 1
  {
    hide Booted, Next, Looks, Runs, After, Tallies, GoesWithout, EndsShort;
    var v := BootView(n, capacity);
    BootLooks(n, q, capacity, sems, timeout);
    es := SpawnAll(v, c, timeout);
    ShortRun(Booted(n, q, capacity, sems), es, q, timeout, v, 0, 1);
  }
}
