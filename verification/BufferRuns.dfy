/** What holds of the bounded buffer in every reachable state: mutual exclusion, no lost wakeup, no
    deadlock, and one FIFO queue over every interleaving. */
module BufferRuns {
  import opened Options
  import opened BoundedBuffer
  import R = Ring

  /** Mutual exclusion: at most one thread is between taking the mutex and giving it up. */
  lemma OneInside(s: State, i: nat, j: nat)
    requires Reachable(s) && i < |s.threads| && j < |s.threads|
    requires InCritical(s.threads[i].pc) && InCritical(s.threads[j].pc)
    ensures i == j && s.mutex == Some(i)
  {
    ReachableInv(s);
  }

  /** The threads that stand for a unit of what role r waits for. */
  function Creditors(ts: seq<Thread>, r: Role): set<nat> {
    set k: nat | k < |ts| && Credit(ts[k], r) == 1
  }

  lemma {:induction false} CreditsCountCreditors(ts: seq<Thread>, r: Role)
    ensures Credits(ts, r) == |Creditors(ts, r)|
  {
    if ts != [] {
      var n := |ts| - 1;
      CreditsCountCreditors(ts[..n], r);
      CreditsUpdate(ts, n, Thread(r, Outside, 0, []), r);
      CreditsSnoc(ts[..n], ts[n], r);
      assert ts == ts[..n] + [ts[n]];
      assert Creditors(ts, r) == Creditors(ts[..n], r) + if Credit(ts[n], r) == 1 then {n} else {};
    }
  }

  lemma {:induction false} CreditsSnoc(ts: seq<Thread>, t: Thread, r: Role)
    ensures Credits(ts + [t], r) == Credits(ts, r) + Credit(t, r)
  {
    if ts == [] {
      assert [t][1..] == [];
    } else {
      assert (ts + [t])[1..] == ts[1..] + [t];
      CreditsSnoc(ts[1..], t, r);
    }
  }

  /** In every reachable state, while a thread of role r waits, each unit it could use belongs to a
      thread of its role that is awake to take it, or to one of the other role about to signal. */
  lemma NoLostWakeup(s: State, r: Role)
    requires Reachable(s) && AnyWaiting(s, r)
    ensures Avail(s, r) <= |Creditors(s.threads, r)|
    ensures s.mutex == None ==> Avail(s, r) <= |set k: nat | k < |s.threads| && At(s, k, r, Woken)|
  {
    ReachableInv(s);
    CreditsCountCreditors(s.threads, r);
    if s.mutex == None {
      forall k: nat | k < |s.threads|
        ensures Credit(s.threads[k], r) == 1 <==> At(s, k, r, Woken)
      {
        assert !InCritical(s.threads[k].pc);
      }
      assert Creditors(s.threads, r) == set k: nat | k < |s.threads| && At(s, k, r, Woken);
    }
  }

  predicate HasRole(s: State, r: Role) {
    exists k: nat | k < |s.threads| :: s.threads[k].role == r
  }

  /** If all wait, nothing is available to those of role r. */
  lemma NothingAvailable(s: State, r: Role)
    requires Reachable(s) && AnyWaiting(s, r) && forall k: nat | k < |s.threads| :: s.threads[k].pc == Waiting
    ensures Avail(s, r) <= 0
  {
    NoLostWakeup(s, r);
    assert Creditors(s.threads, r) == {};
  }

  lemma SomethingAvailable(s: State)
    requires Reachable(s)
    ensures Avail(s, Producer) > 0 || Avail(s, Consumer) > 0
  {
    ReachableInv(s);
  }

  /** With a producer and a consumer, the threads are never all waiting. */
  lemma NotAllWaiting(s: State) returns (i: nat)
    requires Reachable(s) && HasRole(s, Producer) && HasRole(s, Consumer)
    ensures i < |s.threads| && s.threads[i].pc != Waiting
  {
    SomethingAvailable(s);
    if i' : nat :| i' < |s.threads| && s.threads[i'].pc != Waiting {
      i := i';
    } else {
      var p: nat :| p < |s.threads| && s.threads[p].role == Producer;
      var c: nat :| c < |s.threads| && s.threads[c].role == Consumer;
      assert At(s, p, Producer, Waiting) && At(s, c, Consumer, Waiting);
      NothingAvailable(s, Producer);
      NothingAvailable(s, Consumer);
      assert false;
    }
  }

  /** No deadlock: some thread can always run its next statement, without a spurious wakeup. */
  lemma SomeoneCanGo(s: State) returns (a: Action)
    requires Reachable(s) && HasRole(s, Producer) && HasRole(s, Consumer)
    ensures Enabled(s, a) && !a.Spurious?
  {
    ReachableInv(s);
    var i := match s.mutex case Some(h) => h case None => 0;
    if s.mutex == None {
      i := NotAllWaiting(s);
    }
    assert InCritical(s.threads[i].pc) <==> s.mutex == Some(i);
    match s.threads[i].pc
    case Outside => a := Begin(i, 0);
    case Signalling =>
      var q := Other(s.threads[i].role);
      a := Signal(i, set k: nat | k < |s.threads| && At(s, k, q, Waiting));
      if AnyWaiting(s, q) {
        var k: nat :| k < |s.threads| && At(s, k, q, Waiting);
        assert k in a.woken;
      }
    case _ => a := Go(i);
  }

  function Values(log: seq<Entry>): seq<int> {
    seq(|log|, k requires 0 <= k < |log| => log[k].value)
  }

  /** The queue that the program maintains, at every moment. */
  function Queue(s: State): seq<int>
    requires |s.removed| <= |s.inserted|
  {
    Values(s.inserted)[|s.removed|..]
  }

  /** What has been removed, followed by the queue, is what has been inserted; and whenever the
      mutex is free the queue is what the ring holds. */
  lemma RingIsQueue(s: State)
    requires Reachable(s)
    ensures |s.removed| <= |s.inserted| <= |s.removed| + |s.ring.item|
    ensures Values(s.inserted) == Values(s.removed) + Queue(s)
    ensures s.mutex == None ==> R.Valid(s.ring) && R.Contents(s.ring) == Queue(s)
  {
    ReachableInv(s);
    InsertedSplits(s.ring, s.inserted, s.removed, Active(s));
    if s.mutex == None {
      SettledRing(s.ring, s.inserted, s.removed);
    }
  }

  lemma InsertedSplits(r: R.Fields, inserted: seq<Entry>, removed: seq<Entry>, t: Option<Thread>)
    requires RingOk(r, inserted, removed, t)
    ensures Values(inserted) == Values(removed) + Values(inserted)[|removed|..]
  {
  }

  lemma CountMovesQueue(r: R.Fields, inserted: seq<Entry>, removed: seq<Entry>, t: Thread, i: nat)
    requires RingOk(r, inserted, removed, Some(t)) && t.pc == Counting
    ensures var q := Values(inserted)[|removed|..];
            if t.role == Producer
            then |q| < |r.item| && Values(inserted + [Entry(i, t.item)])[|removed|..] == q + [t.item]
            else q != [] && q[0] == t.item && Values(inserted)[|removed| + 1..] == q[1..]
  {
  }

  lemma SettledRing(r: R.Fields, inserted: seq<Entry>, removed: seq<Entry>)
    requires RingOk(r, inserted, removed, None)
    ensures R.Valid(r) && R.Contents(r) == Values(inserted)[|removed|..]
  {
    var n, b := |r.item|, |removed|;
    TotalAhead(b, r.totalitems, n);
    assert b + r.totalitems == |inserted|;
    var queue := Values(inserted)[b..];
    forall k: nat | k < r.totalitems
      ensures R.Contents(r)[k] == queue[k]
    {
      TotalAhead(b, k, n);
    }
  }

  lemma TotalAhead(b: nat, k: nat, n: nat)
    requires n > 0 && k <= n
    ensures R.Slot(R.Slot(b, n) + k, n) == R.Slot(b + k, n)
  {
    if k < n {
      R.SlotAhead(b, k, n);
      R.SlotAhead(R.Slot(b, n), k, n);
    } else {
      R.SlotAhead(b, n - 1, n);
      R.SlotAhead(R.Slot(b, n), n - 1, n);
      R.SlotStep(b + (n - 1), n);
      R.SlotStep(R.Slot(b, n) + (n - 1), n);
    }
  }

  /** Refinement: an action leaves the queue alone, or appends the item of a producer to a queue with
      room, or hands the oldest item to a consumer. */
  lemma QueueStep(s: State, a: Action)
    requires Reachable(s) && Enabled(s, a)
    ensures |s.removed| <= |s.inserted| && |Apply(s, a).removed| <= |Apply(s, a).inserted|
    ensures var q, q', t, t' := Queue(s), Queue(Apply(s, a)), s.threads[a.i], Apply(s, a).threads[a.i];
            || (q' == q && (t.role == Consumer ==> t'.trace == t.trace))
            || (t.role == Producer && |q| < |s.ring.item| && q' == q + [t.item])
            || (t.role == Consumer && q != [] && q' == q[1..] && t'.trace == t.trace + [q[0]])
  {
    RingIsQueue(s);
    if s.threads[a.i].role == Consumer {
      ConsumerTrace(s, a);
    }
    if a.Go? && s.threads[a.i].pc == Counting {
      CountActive(s, a);
      CountMovesQueue(s.ring, s.inserted, s.removed, s.threads[a.i], a.i);
      CountLogs(s, a);
    } else {
      LogsStay(s, a);
    }
  }

  lemma CountActive(s: State, a: Action)
    requires Reachable(s) && Enabled(s, a) && a.Go? && s.threads[a.i].pc == Counting
    ensures RingOk(s.ring, s.inserted, s.removed, Some(s.threads[a.i]))
  {
    ReachableInv(s);
    ActiveStep(s, a);
  }

  lemma CountLogs(s: State, a: Action)
    requires Enabled(s, a) && a.Go? && s.threads[a.i].pc == Counting
    ensures var t, s' := s.threads[a.i], Apply(s, a);
            && s'.inserted == s.inserted + (if t.role == Producer then [Entry(a.i, t.item)] else [])
            && s'.removed == s.removed + (if t.role == Consumer then [Entry(a.i, t.item)] else [])
  {
  }

  lemma LogsStay(s: State, a: Action)
    requires Enabled(s, a) && !(a.Go? && s.threads[a.i].pc == Counting)
    ensures Apply(s, a).inserted == s.inserted && Apply(s, a).removed == s.removed
  {
  }

  /** A consumer's trace grows exactly when it finishes an update. */
  lemma ConsumerTrace(s: State, a: Action)
    requires Enabled(s, a) && s.threads[a.i].role == Consumer
    ensures var t, t' := s.threads[a.i], Apply(s, a).threads[a.i];
            t'.trace == if a.Go? && t.pc == Counting then t.trace + [t.item] else t.trace
  {
  }

  lemma {:induction false} OfPrefix(log: seq<Entry>, n: nat, i: nat)
    requires n <= |log|
    ensures Of(log[..n], i) <= Of(log, i)
    decreases |log|
  {
    if n < |log| {
      OfPrefix(log[..|log| - 1], n, i);
      assert log[..|log| - 1][..n] == log[..n];
    } else {
      assert log[..n] == log;
    }
  }

  /** The k-th removal takes the k-th insertion, so nothing is removed twice or made up. */
  lemma ValuesKept(s: State)
    requires Reachable(s)
    ensures |s.removed| <= |s.inserted|
    ensures forall k | 0 <= k < |s.removed| :: s.removed[k].value == s.inserted[k].value
  {
    ReachableInv(s);
  }

  /** The items that thread i sets out to produce in a run, read off the schedule alone. */
  function Offered(acts: seq<Action>, i: nat): seq<int> {
    if acts == [] then []
    else (if acts[0].Begin? && acts[0].i == i then [acts[0].x] else []) + Offered(acts[1..], i)
  }

  predicate Producing(s: State, i: nat, trace: seq<int>) {
    i < |s.threads| && s.threads[i].role == Producer && s.threads[i].trace == trace
  }

  lemma OfferedStep(s: State, a: Action, i: nat, trace: seq<int>)
    requires Enabled(s, a) && Producing(s, i, trace)
    ensures Producing(Apply(s, a), i, trace + if a.Begin? && a.i == i then [a.x] else [])
  {
    ThreadsStep(s, a);
  }

  lemma Append3(a: seq<int>, b: seq<int>, c: seq<int>)
    ensures a + b + c == a + (b + c)
  {
  }

  /** A producer has produced exactly what the schedule had it produce. */
  lemma {:induction false} TraceIsOffered(s: State, acts: seq<Action>, i: nat, trace: seq<int>)
    requires IsRun(s, acts) && Producing(s, i, trace)
    ensures Producing(After(s, acts), i, trace + Offered(acts, i))
    decreases |acts|
  {
    if acts == [] {
      assert trace + [] == trace;
    } else {
      var a := acts[0];
      var more := if a.Begin? && a.i == i then [a.x] else [];
      OfferedStep(s, a, i, trace);
      TraceIsOffered(Apply(s, a), acts[1..], i, trace + more);
      Append3(trace, more, Offered(acts[1..], i));
    }
  }

  lemma {:induction false} RolesStay(s: State, acts: seq<Action>)
    requires IsRun(s, acts)
    ensures var t := After(s, acts);
            |t.threads| == |s.threads| && forall k | 0 <= k < |s.threads| :: t.threads[k].role == s.threads[k].role
    decreases |acts|
  {
    if acts != [] {
      ThreadsStep(s, acts[0]);
      RolesStay(Apply(s, acts[0]), acts[1..]);
    }
  }

  lemma ProducerLog(s: State, i: nat)
    requires Reachable(s) && i < |s.threads| && s.threads[i].role == Producer
    ensures |s.removed| <= |s.inserted|
    ensures Of(s.inserted[..|s.removed|], i) <= Of(s.inserted, i) <= s.threads[i].trace
    ensures |s.threads[i].trace| <= |Of(s.inserted, i)| + 1
  {
    ReachableInv(s);
    assert Logged(s.threads[i], Of(LogOf(s, Producer), i));
    OfPrefix(s.inserted, |s.removed|, i);
  }

  lemma ConsumerLog(s: State, i: nat)
    requires Reachable(s) && i < |s.threads| && s.threads[i].role == Consumer
    ensures s.threads[i].trace == Of(s.removed, i)
  {
    ReachableInv(s);
    assert Logged(s.threads[i], Of(LogOf(s, Consumer), i));
  }

  /** Over every run: what producer i has inserted are the items the schedule had it produce, in order,
      but for one that it may still carry; and those of them that have left did so in that order. */
  lemma OrderKept(s0: State, acts: seq<Action>, i: nat)
    requires Init(s0) && IsRun(s0, acts) && i < |s0.threads| && s0.threads[i].role == Producer
    ensures var s := After(s0, acts);
            && |s.removed| <= |s.inserted|
            && Of(s.inserted[..|s.removed|], i) <= Of(s.inserted, i) <= Offered(acts, i)
            && |Offered(acts, i)| <= |Of(s.inserted, i)| + 1
  {
    TraceIsOffered(s0, acts, i, []);
    assert [] + Offered(acts, i) == Offered(acts, i);
    ProducerLog(After(s0, acts), i);
  }

  /** A consumer has exactly the removals it made. */
  lemma ConsumedIsRemoved(s0: State, acts: seq<Action>, i: nat)
    requires Init(s0) && IsRun(s0, acts) && i < |s0.threads| && s0.threads[i].role == Consumer
    ensures var s := After(s0, acts); i < |s.threads| && s.threads[i].trace == Of(s.removed, i)
  {
    RolesStay(s0, acts);
    ConsumerLog(After(s0, acts), i);
  }

  lemma {:induction false} OfAlone(log: seq<Entry>, i: nat)
    requires forall k | 0 <= k < |log| :: log[k].thread == i
    ensures Of(log, i) == Values(log)
  {
    if log != [] {
      OfAlone(log[..|log| - 1], i);
      assert Values(log) == Values(log[..|log| - 1]) + [log[|log| - 1].value];
    }
  }

  /** When only one thread has a role, the log of that role is all its own. */
  lemma LogOfOne(s: State, r: Role, i: nat)
    requires LogInv(s) && i < |s.threads| && s.threads[i].role == r
    requires forall k | 0 <= k < |s.threads| && k != i :: s.threads[k].role != r
    ensures Logged(s.threads[i], Values(LogOf(s, r)))
  {
    var log := LogOf(s, r);
    assert Written(s, r);
    forall k | 0 <= k < |log|
      ensures log[k].thread == i
    {
      assert LogOf(s, r)[k].thread < |s.threads|;
    }
    OfAlone(log, i);
  }

  lemma LogsOfTwo(s: State)
    requires Reachable(s) && |s.threads| == 2
    requires s.threads[0].role == Producer && s.threads[1].role == Consumer
    ensures Logged(s.threads[0], Values(s.inserted)) && s.threads[1].trace == Values(s.removed)
  {
    ReachableInv(s);
    LogOfOne(s, Producer, 0);
    LogOfOne(s, Consumer, 1);
  }

  lemma TracesOfTwo(p: Thread, produced: seq<int>, consumed: seq<int>, queue: seq<int>)
    requires Logged(p, produced) && produced == consumed + queue
    ensures consumed <= p.trace && |p.trace| <= |consumed| + |queue| + 1
  {
  }

  lemma TwoTraces(s: State)
    requires Reachable(s) && |s.threads| == 2
    requires s.threads[0].role == Producer && s.threads[1].role == Consumer
    ensures s.threads[1].trace <= s.threads[0].trace
    ensures |s.threads[0].trace| <= |s.threads[1].trace| + |s.ring.item| + 1
  {
    RingIsQueue(s);
    LogsOfTwo(s);
    TracesOfTwo(s.threads[0], Values(s.inserted), Values(s.removed), Queue(s));
  }

  /** One producer and one consumer (lab3/2/boundedbuffer.c): over every run, what is consumed is a
      prefix of the items the schedule had the producer produce, at most a buffer and one item behind. */
  lemma ConsumedPrefixOfProduced(s0: State, acts: seq<Action>)
    requires Init(s0) && IsRun(s0, acts) && |s0.threads| == 2
    requires s0.threads[0].role == Producer && s0.threads[1].role == Consumer
    ensures var s := After(s0, acts);
            && |s.threads| == 2 && s.threads[1].trace <= Offered(acts, 0)
            && |Offered(acts, 0)| <= |s.threads[1].trace| + |s.ring.item| + 1
  {
    RolesStay(s0, acts);
    TraceIsOffered(s0, acts, 0, []);
    assert [] + Offered(acts, 0) == Offered(acts, 0);
    TwoTraces(After(s0, acts));
  }

  // ---------- nothing is excluded ----------

  /** There are starts with any threads and any size of buffer. */
  lemma AnyStart(roles: seq<Role>, size: nat) returns (s: State)
    requires size > 0
    ensures Init(s) && Reachable(s) && |s.ring.item| == size && |s.threads| == |roles|
    ensures forall k | 0 <= k < |roles| :: s.threads[k].role == roles[k]
  {
    var idle := seq(|roles|, k requires 0 <= k < |roles| => Thread(roles[k], Outside, 0, []));
    s := State(idle, None, R.Fields(seq(size, _ => 0), 0, 0, 0), [], []);
    assert s.ring.item[0] == 0;
    assert IsRun(s, []) && After(s, []) == s;
  }

  /** At every reachable moment an idle thread may set out with any item, a waiter may wake by itself,
      and a signal may wake any of the waiters, if there are some at least one. */
  lemma AnythingGoes(s: State, i: nat, x: int, woken: set<nat>)
    requires Reachable(s) && i < |s.threads|
    ensures s.threads[i].pc == Outside ==> Enabled(s, Begin(i, x))
    ensures s.threads[i].pc == Waiting ==> Enabled(s, Spurious(i))
    ensures s.threads[i].pc == Signalling && (forall k | k in woken :: At(s, k, Other(s.threads[i].role), Waiting)) ==>
              (Enabled(s, Signal(i, woken)) <==> AnyWaiting(s, Other(s.threads[i].role)) ==> woken != {})
  {
    ReachableInv(s);
  }
}
