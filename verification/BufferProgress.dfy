/** The buffer never stops: with a producer and a consumer, under every fair schedule in which waiters
    wake only by signals, items go on being inserted and removed for ever. */
module BufferProgress {
  import opened BoundedBuffer
  import opened BufferRuns
  import R = Ring

  /** An endless schedule from a state s0; an action that is not possible when its turn comes does nothing. */
  function StateAt(s0: State, sched: nat -> Action, n: nat): State {
    if n == 0 then s0 else Tick(StateAt(s0, sched, n - 1), sched(n - 1))
  }

  predicate Steps(s: State, a: Action) {
    Enabled(s, a) && !a.Spurious?
  }

  function Tick(s: State, a: Action): State {
    if Steps(s, a) then Apply(s, a) else s
  }

  ghost predicate CanRun(s: State, i: nat) {
    exists a :: Steps(s, a) && a.i == i
  }

  /** Weak fairness: no thread is able to run from some moment on and never chosen. */
  ghost predicate Fair(s0: State, sched: nat -> Action) {
    forall i: nat, n: nat :: Served(s0, sched, i, n)
  }

  ghost predicate Served(s0: State, sched: nat -> Action, i: nat, n: nat) {
    exists m: nat :: n <= m && ServedAt(s0, sched, i, m)
  }

  ghost predicate ServedAt(s0: State, sched: nat -> Action, i: nat, m: nat) {
    var s := StateAt(s0, sched, m);
    CanRun(s, i) ==> Steps(s, sched(m)) && sched(m).i == i
  }

  // ---------- every moment of a schedule is reachable ----------

  lemma {:induction false} RunThenStep(s: State, acts: seq<Action>, a: Action)
    requires IsRun(s, acts) && Enabled(After(s, acts), a)
    ensures IsRun(s, acts + [a]) && After(s, acts + [a]) == Apply(After(s, acts), a)
    decreases |acts|
  {
    if acts == [] {
      assert acts + [a] == [a] && [a][1..] == [];
    } else {
      assert (acts + [a])[1..] == acts[1..] + [a];
      RunThenStep(Apply(s, acts[0]), acts[1..], a);
    }
  }

  lemma ReachableStep(s: State, a: Action)
    requires Reachable(s) && Enabled(s, a)
    ensures Reachable(Apply(s, a))
  {
    var s0: State, acts: seq<Action> :| Init(s0) && IsRun(s0, acts) && After(s0, acts) == s;
    RunThenStep(s0, acts, a);
  }

  predicate BothRoles(s: State) {
    HasRole(s, Producer) && HasRole(s, Consumer)
  }

  lemma RoleStays(s: State, a: Action, r: Role)
    requires Enabled(s, a) && HasRole(s, r)
    ensures HasRole(Apply(s, a), r)
  {
    ThreadsStep(s, a);
    var k: nat :| k < |s.threads| && s.threads[k].role == r;
    assert Apply(s, a).threads[k].role == r;
  }

  lemma SizeStays(s: State, a: Action)
    requires Enabled(s, a)
    ensures |Apply(s, a).ring.item| == |s.ring.item|
  {
  }

  lemma {:induction false} MomentReachable(s0: State, sched: nat -> Action, n: nat)
    requires Reachable(s0) && BothRoles(s0)
    ensures var s := StateAt(s0, sched, n); Reachable(s) && BothRoles(s) && |s.ring.item| == |s0.ring.item|
  {
    if n > 0 {
      MomentReachable(s0, sched, n - 1);
      var s, a := StateAt(s0, sched, n - 1), sched(n - 1);
      if Steps(s, a) {
        ReachableStep(s, a);
        RoleStays(s, a, Producer);
        RoleStays(s, a, Consumer);
        SizeStays(s, a);
      }
    }
  }

  // ---------- the statements left before the next update is complete ----------

  /** A bound on the statements a thread can run before some update is completed; n threads can be
      woken by one signal, and each then runs at most five. */
  function Weight(t: Thread, n: nat): nat {
    match t.pc
    case Waiting => 0
    case Counting => 1
    case Advancing => 2
    case Transferring => 3
    case Checking => 4
    case Rechecking => 4
    case Locking => 5
    case Woken => 5
    case Outside => 6
    case Unlocking => 7
    case Signalling => 8 + 5 * n
  }

  function Total(ts: seq<Thread>, n: nat): nat {
    if ts == [] then 0 else Weight(ts[0], n) + Total(ts[1..], n)
  }

  lemma {:induction false} TotalUpdate(ts: seq<Thread>, i: nat, t: Thread, n: nat)
    requires i < |ts|
    ensures Total(ts[i := t], n) == Total(ts, n) - Weight(ts[i], n) + Weight(t, n)
  {
    if i == 0 {
      assert ts[i := t][1..] == ts[1..];
    } else {
      assert ts[i := t][1..] == ts[1..][i - 1 := t];
      TotalUpdate(ts[1..], i - 1, t, n);
    }
  }

  lemma {:induction false} TotalGrowsBy(ts: seq<Thread>, us: seq<Thread>, n: nat)
    requires |ts| == |us| && forall k | 0 <= k < |ts| :: Weight(us[k], n) <= Weight(ts[k], n) + 5
    ensures Total(us, n) <= Total(ts, n) + 5 * |ts|
  {
    if ts != [] {
      TotalGrowsBy(ts[1..], us[1..], n);
    }
  }

  function Rank(s: State): nat {
    Total(s.threads, |s.threads|)
  }

  function Done(s: State): nat {
    |s.inserted| + |s.removed|
  }

  lemma RunnerLighter(s: State, a: Action, n: nat)
    requires Steps(s, a) && !(a.Go? && s.threads[a.i].pc == Counting)
    ensures Weight(Runner(s, a), n) + (if a.Signal? then 5 * n else 0) < Weight(s.threads[a.i], n)
  {
  }

  lemma WokenWeight(ts: seq<Thread>, woken: set<nat>, n: nat)
    ensures Total(Wake(ts, woken), n) <= Total(ts, n) + 5 * |ts|
  {
    TotalGrowsBy(ts, Wake(ts, woken), n);
  }

  /** Every statement either completes an update or brings one nearer. */
  lemma StepLowersRank(s: State, a: Action)
    requires Steps(s, a)
    ensures Done(Apply(s, a)) > Done(s) || (Done(Apply(s, a)) == Done(s) && Rank(Apply(s, a)) < Rank(s))
  {
    if !(a.Go? && s.threads[a.i].pc == Counting) {
      var n, moved := |s.threads|, s.threads[a.i := Runner(s, a)];
      RunnerLighter(s, a, n);
      TotalUpdate(s.threads, a.i, Runner(s, a), n);
      if a.Signal? {
        WokenWeight(moved, a.woken, n);
      }
    }
  }

  // ---------- progress ----------

  /** A thread able to run at n and served at m: some step is taken by m, the first in the state of n. */
  lemma FirstStep(s0: State, sched: nat -> Action, n: nat, m: nat, i: nat) returns (k: nat)
    requires n <= m && CanRun(StateAt(s0, sched, n), i) && ServedAt(s0, sched, i, m)
    ensures n <= k && StateAt(s0, sched, k) == StateAt(s0, sched, n) && Steps(StateAt(s0, sched, k), sched(k))
  {
    k := n;
    while !Steps(StateAt(s0, sched, k), sched(k))
      invariant n <= k <= m && StateAt(s0, sched, k) == StateAt(s0, sched, n)
      decreases m - k
    {
      k := k + 1;
    }
  }

  /** Under a fair schedule some thread runs. */
  lemma NextStep(s0: State, sched: nat -> Action, n: nat) returns (k: nat)
    requires Reachable(s0) && BothRoles(s0) && Fair(s0, sched)
    ensures n <= k && StateAt(s0, sched, k) == StateAt(s0, sched, n) && Steps(StateAt(s0, sched, k), sched(k))
  {
    MomentReachable(s0, sched, n);
    var a := SomeoneCanGo(StateAt(s0, sched, n));
    assert Steps(StateAt(s0, sched, n), a);
    assert Served(s0, sched, a.i, n);
    var f: nat :| n <= f && ServedAt(s0, sched, a.i, f);
    k := FirstStep(s0, sched, n, f, a.i);
  }

  lemma NextLower(s0: State, sched: nat -> Action, n: nat) returns (m: nat)
    requires Reachable(s0) && BothRoles(s0) && Fair(s0, sched)
    ensures var s, s' := StateAt(s0, sched, n), StateAt(s0, sched, m);
            Done(s') > Done(s) || (Done(s') == Done(s) && Rank(s') < Rank(s))
  {
    var k := NextStep(s0, sched, n);
    StepLowersRank(StateAt(s0, sched, n), sched(k));
    m := k + 1;
  }

  /** Under a fair schedule another insertion or removal is always completed. */
  lemma {:induction false} NextUpdate(s0: State, sched: nat -> Action, n: nat) returns (m: nat)
    requires Reachable(s0) && BothRoles(s0) && Fair(s0, sched)
    ensures Done(StateAt(s0, sched, m)) > Done(StateAt(s0, sched, n))
    decreases Rank(StateAt(s0, sched, n))
  {
    m := NextLower(s0, sched, n);
    if Done(StateAt(s0, sched, m)) == Done(StateAt(s0, sched, n)) {
      m := NextUpdate(s0, sched, m);
    }
  }

  lemma {:induction false} UpdatesGoOn(s0: State, sched: nat -> Action, count: nat) returns (m: nat)
    requires Reachable(s0) && BothRoles(s0) && Fair(s0, sched)
    ensures Done(StateAt(s0, sched, m)) >= count
  {
    m := 0;
    if count > 0 {
      m := UpdatesGoOn(s0, sched, count - 1);
      m := NextUpdate(s0, sched, m);
    }
  }

  /** No lost wakeup ever stops the program: from every reachable state, so also after spurious wakeups,
      under every fair schedule, any number of items is eventually removed, in the order in which they
      were inserted. */
  lemma ItemsFlowForever(s0: State, sched: nat -> Action, count: nat) returns (m: nat)
    requires Reachable(s0) && BothRoles(s0) && Fair(s0, sched)
    ensures var s := StateAt(s0, sched, m);
            && count <= |s.removed| <= |s.inserted|
            && forall k | 0 <= k < |s.removed| :: s.removed[k].value == s.inserted[k].value
  {
    m := UpdatesGoOn(s0, sched, count + count + |s0.ring.item|);
    MomentReachable(s0, sched, m);
    RingIsQueue(StateAt(s0, sched, m));
    ValuesKept(StateAt(s0, sched, m));
  }

  // ---------- there are fair schedules ----------

  /** The next statement of thread i; a signal wakes every waiter. */
  function Pick(s: State, i: nat, x: int): Action {
    if i >= |s.threads| then Go(i)
    else match s.threads[i].pc
      case Outside => Begin(i, x)
      case Signalling => Signal(i, Waiters(s, Other(s.threads[i].role)))
      case _ => Go(i)
  }

  function Waiters(s: State, r: Role): set<nat> {
    set k: nat | k < |s.threads| && At(s, k, r, Waiting)
  }

  lemma PickRuns(s: State, i: nat, x: int)
    requires CanRun(s, i)
    ensures Steps(s, Pick(s, i, x)) && Pick(s, i, x).i == i
  {
  }

  /** The threads take turns, each offering the given items. */
  function TurnState(s0: State, items: nat -> int, n: nat): State
    decreases n, 0
  {
    if n == 0 then s0 else Tick(TurnState(s0, items, n - 1), TurnAction(s0, items, n - 1))
  }

  function TurnAction(s0: State, items: nat -> int, n: nat): Action
    decreases n, 1
  {
    Pick(TurnState(s0, items, n), if s0.threads == [] then 0 else R.Slot(n, |s0.threads|), items(n))
  }

  /** A moment at or after q when it is the turn of thread i. */
  function TurnOf(i: nat, n: nat, q: nat): (m: nat)
    requires i < n
    ensures q <= m && R.Slot(m, n) == i
  {
    if q == 0 then i else TurnOf(i, n, q - 1) + n
  }

  lemma {:induction false} TurnsFollowed(s0: State, items: nat -> int, sched: nat -> Action, n: nat)
    requires forall k :: sched(k) == TurnAction(s0, items, k)
    ensures StateAt(s0, sched, n) == TurnState(s0, items, n) && |StateAt(s0, sched, n).threads| == |s0.threads|
  {
    if n > 0 {
      TurnsFollowed(s0, items, sched, n - 1);
    }
  }

  /** Taking turns is fair, whatever the items. */
  lemma TurnsAreFair(s0: State, items: nat -> int) returns (sched: nat -> Action)
    ensures Fair(s0, sched)
  {
    sched := (n: nat) => TurnAction(s0, items, n);
    forall i: nat, n: nat
      ensures Served(s0, sched, i, n)
    {
      var m := if i < |s0.threads| then TurnOf(i, |s0.threads|, n) else n;
      TurnsFollowed(s0, items, sched, m);
      if CanRun(StateAt(s0, sched, m), i) {
        PickRuns(StateAt(s0, sched, m), i, items(m));
      }
      assert ServedAt(s0, sched, i, m);
    }
  }
}
