/** Counting semaphores of sched.c, with the call history needed to state fairness. */
module Semaphores {

  /** `count` and `queue` are the kernel's fields.  The others record the history: the initial
      value, every wait call in call order, every wait call in the order it was let through, and the
      number of signals. */
  datatype Sem = Sem(count: int, queue: seq<nat>, initial: int, calls: seq<nat>, released: seq<nat>, signals: nat)

  function Create(v: int): Sem {
    Sem(v, [], v, [], [], 0)
  }

  function Wait(s: Sem, t: nat): Sem {
    var s1 := s.(count := s.count - 1, calls := s.calls + [t]);
    if s1.count < 0 then s1.(queue := s.queue + [t])
    else s1.(released := s.released + [t])
  }

  /** `list_first` of an empty queue is the anchor itself, so a signal that takes the wake branch
      is only meaningful when somebody waits. */
  predicate SignalSafe(s: Sem) {
    s.count + 1 <= 0 ==> s.queue != []
  }

  function Signal(s: Sem): Sem
    requires SignalSafe(s)
  {
    var s1 := s.(count := s.count + 1, signals := s.signals + 1);
    if s1.count <= 0 then s1.(queue := s.queue[1..], released := s.released + [s.queue[0]])
    else s1
  }

  function Min(a: int, b: int): int { if a < b then a else b }

  /** How many of w wait calls get through with n signals and the initial value v: the first
      min(w, v + n), where a negative initial value lets nobody through by itself. */
  function Passing(v: int, w: nat, n: nat): (g: nat)
    ensures g <= w
  {
    Min(w, (if v < 0 then 0 else v) + n)
  }

  function Granted(s: Sem): nat { Passing(s.initial, |s.calls|, s.signals) }

  /** The books of a semaphore with any initial value.  Below 0, every signal so far has woken
      somebody. */
  ghost predicate Fair(s: Sem) {
    && s.count == s.initial + s.signals - |s.calls|
    && s.released == s.calls[..Granted(s)]
    && s.queue == s.calls[Granted(s)..]
    && (s.initial < 0 ==> s.signals <= |s.calls|)
  }

  lemma CreateFair(v: int)
    ensures Fair(Create(v))
  {
  }

  lemma WaitFair(s: Sem, t: nat)
    requires Fair(s)
    ensures Fair(Wait(s, t))
  {
  }

  lemma SignalFair(s: Sem)
    requires Fair(s) && SignalSafe(s)
    ensures Fair(Signal(s))
  {
    var s' := Signal(s);
    var g := Granted(s);
    if s.count + 1 <= 0 {
      assert Granted(s') == g + 1 && s.queue[0] == s.calls[g];
      assert s.calls[..g + 1] == s.calls[..g] + [s.calls[g]];
      assert s.calls[g + 1..] == s.calls[g..][1..];
    }
  }

  /** After any history of waits and safe signals, the next signal is safe exactly if the initial
      value was at least 0 or more waits than signals were made. */
  lemma SignalSafeIff(s: Sem)
    requires Fair(s)
    ensures SignalSafe(s) <==> s.initial >= 0 || |s.calls| > s.signals
    ensures s.initial >= 0 || |s.calls| >= s.signals
  {
  }

  /** As many tasks queue as the count is below 0 exactly if the initial value was not negative;
      a negative one makes the count too low by that much for ever. */
  lemma QueueLengthIff(s: Sem)
    requires Fair(s)
    ensures |s.queue| == (if s.count < 0 then -s.count else 0) <==> s.initial >= 0
    ensures s.initial < 0 ==> s.count < 0 && |s.queue| == s.initial - s.count
  {
  }

  // ---------------------------------------------------------------- histories

  datatype Op = WaitBy(t: nat) | SignalBy(t: nat)

  /** Every signal of the history `ops`, made one by one on `s`, is safe. */
  predicate AllSafe(s: Sem, ops: seq<Op>)
    decreases |ops|
  {
    ops == [] || (
      match ops[0]
      case WaitBy(t) => AllSafe(Wait(s, t), ops[1..])
      case SignalBy(_) => SignalSafe(s) && AllSafe(Signal(s), ops[1..]))
  }

  /** The semaphore after the history. */
  function Play(s: Sem, ops: seq<Op>): Sem
    requires AllSafe(s, ops)
    decreases |ops|
  {
    if ops == [] then s
    else
      match ops[0]
      case WaitBy(t) => Play(Wait(s, t), ops[1..])
      case SignalBy(_) => Play(Signal(s), ops[1..])
  }

  /** Who waited, and who signalled, in call order. */
  function Waits(ops: seq<Op>): seq<nat> {
    if ops == [] then []
    else if ops[0].WaitBy? then [ops[0].t] + Waits(ops[1..])
    else Waits(ops[1..])
  }

  function Signals(ops: seq<Op>): seq<nat> {
    if ops == [] then []
    else if ops[0].SignalBy? then [ops[0].t] + Signals(ops[1..])
    else Signals(ops[1..])
  }

  /** Every prefix has at least as many waits as signals, counting from `balance`. */
  predicate Matched(ops: seq<Op>, balance: int)
    decreases |ops|
  {
    balance >= 0 && (ops == [] || Matched(ops[1..], if ops[0].WaitBy? then balance + 1 else balance - 1))
  }

  lemma OpCounts(s: Sem, t: nat)
    ensures var w := Wait(s, t); w.initial == s.initial && w.signals == s.signals && w.calls == s.calls + [t]
    ensures SignalSafe(s) ==>
      var g := Signal(s); g.initial == s.initial && g.signals == s.signals + 1 && g.calls == s.calls
  {
  }

  /** A whole history is safe exactly if the semaphore was created with a value of at least 0, or no
      prefix of the history has more signals than waits. */
  lemma {:induction false} HistorySafeIff(s: Sem, ops: seq<Op>)
    requires Fair(s)
    ensures AllSafe(s, ops) <==> s.initial >= 0 || Matched(ops, |s.calls| - s.signals)
    decreases |ops|
  {
    hide Fair, SignalSafe, Wait, Signal;
    SignalSafeIff(s);
    if ops != [] {
      OpCounts(s, ops[0].t);
      match ops[0]
      case WaitBy(t) => WaitFair(s, t); HistorySafeIff(Wait(s, t), ops[1..]);
      case SignalBy(_) =>
        if SignalSafe(s) {
          SignalFair(s);
          HistorySafeIff(Signal(s), ops[1..]);
        }
    }
  }

  /** The shortest unsafe history: a signal on a semaphore created with a negative value. */
  lemma UnsafeHistory(v: int, t: nat)
    ensures AllSafe(Create(v), [SignalBy(t)]) <==> v >= 0
  {
    CreateFair(v);
    HistorySafeIff(Create(v), [SignalBy(t)]);
  }

  lemma {:induction false} PlayBooks(s: Sem, ops: seq<Op>)
    requires Fair(s) && AllSafe(s, ops)
    ensures var r := Play(s, ops);
      && Fair(r) && r.initial == s.initial
      && r.calls == s.calls + Waits(ops) && r.signals == s.signals + |Signals(ops)|
    decreases |ops|
  {
    hide Fair, SignalSafe, Wait, Signal;
    if ops != [] {
      OpCounts(s, ops[0].t);
      match ops[0]
      case WaitBy(t) =>
        WaitFair(s, t);
        PlayBooks(Wait(s, t), ops[1..]);
        assert s.calls + [t] + Waits(ops[1..]) == s.calls + ([t] + Waits(ops[1..]));
      case SignalBy(_) =>
        SignalFair(s);
        PlayBooks(Signal(s), ops[1..]);
    }
  }

  /** A semaphore created with the value v, after any safe history: the count, who got through and who
      queues, in terms of v and of who called what. */
  lemma ByHistory(v: int, ops: seq<Op>)
    requires AllSafe(Create(v), ops)
    ensures var r, w, n := Play(Create(v), ops), Waits(ops), |Signals(ops)|;
      && r.count == v + n - |w|
      && r.released == w[..Passing(v, |w|, n)] && r.queue == w[Passing(v, |w|, n)..]
  {
    hide AllSafe, Play, Waits, Signals, Fair;
    CreateFair(v);
    FromFresh(Create(v), ops);
  }

  lemma FromFresh(s: Sem, ops: seq<Op>)
    requires Fair(s) && AllSafe(s, ops) && s.calls == [] && s.signals == 0
    ensures var r, w, n := Play(s, ops), Waits(ops), |Signals(ops)|;
      && r.count == s.initial + n - |w|
      && r.released == w[..Passing(s.initial, |w|, n)] && r.queue == w[Passing(s.initial, |w|, n)..]
  {
    hide AllSafe, Play, Waits, Signals, Passing;
    PlayBooks(s, ops);
    assert s.calls + Waits(ops) == Waits(ops);
  }

  // ---------------------------------------------------------------- critical sections

  /** The tasks that got through and have not signalled since. */
  function Holders(v: int, ops: seq<Op>): multiset<nat> {
    multiset(Waits(ops)[..Passing(v, |Waits(ops)|, |Signals(ops)|)]) - multiset(Signals(ops))
  }

  /** Every signal comes from a task that got through and has not signalled since. */
  predicate Bracketed(v: int, ops: seq<Op>) {
    forall i :: 0 <= i < |ops| && ops[i].SignalBy? ==> ops[i].t in Holders(v, ops[..i])
  }

  lemma {:induction false} HistoryAppend(a: seq<Op>, x: Op)
    ensures Waits(a + [x]) == (if x.WaitBy? then Waits(a) + [x.t] else Waits(a))
    ensures Signals(a + [x]) == (if x.SignalBy? then Signals(a) + [x.t] else Signals(a))
  {
    if a == [] {
      assert a + [x] == [x] && [x][1..] == [];
    } else {
      assert (a + [x])[1..] == a[1..] + [x];
      HistoryAppend(a[1..], x);
    }
  }

  /** Those who signalled are among those who got through. */
  lemma {:induction false} SignallersPassed(v: int, ops: seq<Op>)
    requires Bracketed(v, ops)
    ensures multiset(Signals(ops)) <= multiset(Waits(ops)[..Passing(v, |Waits(ops)|, |Signals(ops)|)])
    ensures |Signals(ops)| <= Passing(v, |Waits(ops)|, |Signals(ops)|)
    decreases |ops|
  {
    hide Waits, Signals;
    if ops == [] {
      assert Waits([]) == [] && Signals([]) == [] by { NoHistory(); }
    } else {
      var last := |ops| - 1;
      var a, x := ops[..last], ops[last];
      assert ops == a + [x];
      assert forall i :: 0 <= i < last ==> a[i] == ops[i] && a[..i] == ops[..i];
      SignallersPassed(v, a);
      HistoryAppend(a, x);
      if x.SignalBy? { assert x.t in Holders(v, a); }
      MorePass(v, Waits(a), |Signals(a)|, Waits(ops), |Signals(ops)|);
    }
    SizeOfSubset(multiset(Signals(ops)), multiset(Waits(ops)[..Passing(v, |Waits(ops)|, |Signals(ops)|)]));
  }

  lemma NoHistory()
    ensures Waits([]) == [] && Signals([]) == []
  {
  }

  /** Nobody who got through is ever put back. */
  lemma MorePass(v: int, w: seq<nat>, n: nat, w': seq<nat>, n': nat)
    requires w <= w' && n <= n'
    ensures multiset(w[..Passing(v, |w|, n)]) <= multiset(w'[..Passing(v, |w'|, n')])
  {
    var g, g' := Passing(v, |w|, n), Passing(v, |w'|, n');
    assert w'[..g'] == w[..g] + w'[g..g'];
  }

  lemma SizeOfSubset(a: multiset<nat>, b: multiset<nat>)
    requires a <= b
    ensures |a| <= |b|
  {
    assert b == a + (b - a);
  }

  /** At most `v` bracketed holders at a time: mutual exclusion when v is 1. */
  lemma BracketedHolders(v: int, ops: seq<Op>, a: nat, b: nat)
    requires Bracketed(v, ops)
    ensures |Holders(v, ops)| <= (if v < 0 then 0 else v)
    ensures v == 1 && a in Holders(v, ops) && b in Holders(v, ops) ==> a == b && Holders(v, ops)[a] == 1
  {
    hide Waits, Signals;
    SignallersPassed(v, ops);
    var passed, done := multiset(Waits(ops)[..Passing(v, |Waits(ops)|, |Signals(ops)|)]), multiset(Signals(ops));
    var h := Holders(v, ops);
    assert passed == h + done;
    if v == 1 && a in h && b in h {
      var rest := h - multiset{a};
      assert h == rest + multiset{a};
      assert |rest| == 0;
    }
  }
}
