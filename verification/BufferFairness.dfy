/** Waiters may also wake without a signal. Then the buffer never stops either, provided the schedule is
    strongly fair: a thread that is able to run again and again does run. */
module BufferFairness {
  import opened Options
  import opened BoundedBuffer
  import opened BufferRuns
  import opened Scheduling
  import P = BufferProgress
  import R = Ring
  import Registry

  /** An endless schedule from s0, spurious wakeups included; an action that is not possible when its
      turn comes does nothing. */
  function StateAt(s0: State, sched: nat -> Action, n: nat): State {
    if n == 0 then s0 else Tick(StateAt(s0, sched, n - 1), sched(n - 1))
  }

  function Tick(s: State, a: Action): State {
    if Enabled(s, a) then Apply(s, a) else s
  }

  predicate RunsAt(s0: State, sched: nat -> Action, i: nat, m: nat) {
    P.Steps(StateAt(s0, sched, m), sched(m)) && sched(m).i == i
  }

  ghost predicate AbleAt(s0: State, sched: nat -> Action, i: nat, m: nat) {
    P.CanRun(StateAt(s0, sched, m), i)
  }

  ghost function Runs(s0: State, sched: nat -> Action, i: nat): nat -> bool {
    (m: nat) => RunsAt(s0, sched, i, m)
  }

  ghost function Able(s0: State, sched: nat -> Action, i: nat): nat -> bool {
    (m: nat) => AbleAt(s0, sched, i, m)
  }

  /** Strong fairness: from every moment on, a thread runs once more or is at last never able to. */
  ghost predicate Fair(s0: State, sched: nat -> Action) {
    forall i: nat, n: nat :: TreatedFrom(s0, sched, i, n)
  }

  ghost predicate TreatedFrom(s0: State, sched: nat -> Action, i: nat, n: nat) {
    Treated(Able(s0, sched, i), Runs(s0, sched, i), n)
  }

  lemma {:induction false} MomentReachable(s0: State, sched: nat -> Action, n: nat)
    requires Reachable(s0)
    ensures Reachable(StateAt(s0, sched, n)) && |StateAt(s0, sched, n).threads| == |s0.threads|
    ensures |StateAt(s0, sched, n).ring.item| == |s0.ring.item|
  {
    if n > 0 {
      var s, a := StateAt(s0, sched, n - 1), sched(n - 1);
      MomentReachable(s0, sched, n - 1);
      if Enabled(s, a) {
        P.ReachableStep(s, a);
        P.SizeStays(s, a);
      }
    }
  }

  lemma {:induction false} RoleAt(s0: State, sched: nat -> Action, i: nat, n: nat)
    requires i < |s0.threads|
    ensures var s := StateAt(s0, sched, n);
            |s.threads| == |s0.threads| && s.threads[i].role == s0.threads[i].role
  {
    if n > 0 {
      RoleAt(s0, sched, i, n - 1);
      if Enabled(StateAt(s0, sched, n - 1), sched(n - 1)) {
        ThreadsStep(StateAt(s0, sched, n - 1), sched(n - 1));
      }
    }
  }

  function ThreadAt(s0: State, sched: nat -> Action, i: nat, n: nat): Thread
    requires i < |s0.threads|
  {
    RoleAt(s0, sched, i, n);
    StateAt(s0, sched, n).threads[i]
  }

  // ---------- a thread that does not wait runs in the end ----------

  lemma Undisturbed(s: State, a: Action, i: nat)
    requires i < |s.threads| && s.threads[i].pc != Waiting && !(P.Steps(s, a) && a.i == i)
    ensures i < |Tick(s, a).threads| && Tick(s, a).threads[i] == s.threads[i]
  {
    if Enabled(s, a) {
      ThreadsStep(s, a);
    }
  }

  /** Until it runs, a thread that does not wait stays as it is. */
  lemma {:induction false} Kept(s0: State, sched: nat -> Action, i: nat, n: nat, m: nat)
    requires i < |s0.threads| && n <= m && ThreadAt(s0, sched, i, n).pc != Waiting
    requires forall k | n <= k < m :: !RunsAt(s0, sched, i, k)
    ensures ThreadAt(s0, sched, i, m) == ThreadAt(s0, sched, i, n)
    decreases m - n
  {
    if n < m {
      Kept(s0, sched, i, n, m - 1);
      RoleAt(s0, sched, i, m - 1);
      assert !RunsAt(s0, sched, i, m - 1);
      Undisturbed(StateAt(s0, sched, m - 1), sched(m - 1), i);
    }
  }

  /** The first time from n on that the thread runs, if it does by m. */
  lemma FirstRun(s0: State, sched: nat -> Action, i: nat, n: nat, m: nat) returns (k: nat)
    requires i < |s0.threads| && n <= m && ThreadAt(s0, sched, i, n).pc != Waiting && RunsAt(s0, sched, i, m)
    ensures n <= k <= m && RunsAt(s0, sched, i, k) && ThreadAt(s0, sched, i, k) == ThreadAt(s0, sched, i, n)
  {
    k := n;
    while !RunsAt(s0, sched, i, k)
      invariant n <= k <= m && forall j | n <= j < k :: !RunsAt(s0, sched, i, j)
      decreases m - k
    {
      k := k + 1;
    }
    Kept(s0, sched, i, n, k);
  }

  /** If the thread would be able to run at m as it is at n, it runs some time. */
  lemma RunsIfAble(s0: State, sched: nat -> Action, i: nat, n: nat, m: nat) returns (k: nat)
    requires i < |s0.threads| && n <= m && ThreadAt(s0, sched, i, n).pc != Waiting
    requires ThreadAt(s0, sched, i, m) == ThreadAt(s0, sched, i, n) ==> AbleAt(s0, sched, i, m)
    requires Again(Runs(s0, sched, i), n) || Never(Able(s0, sched, i), m)
    ensures n <= k && RunsAt(s0, sched, i, k) && ThreadAt(s0, sched, i, k) == ThreadAt(s0, sched, i, n)
  {
    assert Able(s0, sched, i)(m) == AbleAt(s0, sched, i, m);
    if !Again(Runs(s0, sched, i), n) {
      forall j | n <= j < m
        ensures !RunsAt(s0, sched, i, j)
      {
        assert !Runs(s0, sched, i)(j);
      }
      Kept(s0, sched, i, n, m);
      assert false;
    }
    var j: nat :| n <= j && Runs(s0, sched, i)(j);
    k := FirstRun(s0, sched, i, n, j);
  }

  /** When the thread is never able to run any more, and from when. */
  lemma NeverFrom(s0: State, sched: nat -> Action, i: nat, n: nat) returns (m: nat)
    requires Fair(s0, sched)
    ensures n <= m && (Again(Runs(s0, sched, i), n) || Never(Able(s0, sched, i), m))
  {
    assert TreatedFrom(s0, sched, i, n);
    m := n;
    if m': nat :| n <= m' && Never(Able(s0, sched, i), m') {
      m := m';
    }
  }

  predicate Inside(pc: Pc) {
    pc == Outside || InCritical(pc)
  }

  lemma AbleInside(s: State, i: nat)
    requires Reachable(s) && i < |s.threads|
    requires Inside(s.threads[i].pc) || (s.threads[i].pc != Waiting && s.mutex == None)
    ensures P.CanRun(s, i)
  {
    ShapedThen(s);
    if s.threads[i].pc == Signalling {
      var q := Other(s.threads[i].role);
      if AnyWaiting(s, q) {
        var k: nat :| k < |s.threads| && At(s, k, q, Waiting);
        assert k in P.Waiters(s, q);
      }
    }
    assert P.Steps(s, P.Pick(s, i, 0));
  }

  lemma ShapedThen(s: State)
    requires Reachable(s)
    ensures R.Shaped(s.ring) && MutexInv(s)
  {
    ReachableInv(s);
  }

  lemma RunsInside(s0: State, sched: nat -> Action, i: nat, n: nat) returns (k: nat)
    requires Reachable(s0) && Fair(s0, sched) && i < |s0.threads| && Inside(ThreadAt(s0, sched, i, n).pc)
    ensures n <= k && RunsAt(s0, sched, i, k) && ThreadAt(s0, sched, i, k) == ThreadAt(s0, sched, i, n)
  {
    var m := NeverFrom(s0, sched, i, n);
    MomentReachable(s0, sched, m);
    if ThreadAt(s0, sched, i, m) == ThreadAt(s0, sched, i, n) {
      AbleInside(StateAt(s0, sched, m), i);
    }
    k := RunsIfAble(s0, sched, i, n, m);
  }

  /** The statements a thread has left before it gives up the mutex. */
  function ToUnlock(pc: Pc): nat {
    match pc
    case Checking => 6
    case Rechecking => 6
    case Transferring => 5
    case Advancing => 4
    case Counting => 3
    case Signalling => 2
    case Unlocking => 1
    case _ => 0
  }

  /** The mutex is free again and again. */
  lemma {:induction false} MutexFreed(s0: State, sched: nat -> Action, n: nat) returns (m: nat)
    requires Reachable(s0) && Fair(s0, sched)
    ensures n <= m && StateAt(s0, sched, m).mutex == None
  {
    var s := StateAt(s0, sched, n);
    if s.mutex == None {
      m := n;
    } else {
      MomentReachable(s0, sched, n);
      ShapedThen(s);
      m := HolderLeaves(s0, sched, s.mutex.value, n);
    }
  }

  lemma AfterInside(s: State, a: Action)
    requires P.Steps(s, a) && InCritical(s.threads[a.i].pc)
    ensures var t, t' := s.threads[a.i], Apply(s, a).threads[a.i];
            Apply(s, a).mutex == None || (InCritical(t'.pc) && ToUnlock(t'.pc) < ToUnlock(t.pc))
  {
  }

  lemma HolderStep(s0: State, sched: nat -> Action, i: nat, n: nat) returns (m: nat)
    requires Reachable(s0) && Fair(s0, sched) && i < |s0.threads| && InCritical(ThreadAt(s0, sched, i, n).pc)
    ensures n <= m
    ensures StateAt(s0, sched, m).mutex != None ==>
              && InCritical(ThreadAt(s0, sched, i, m).pc)
              && ToUnlock(ThreadAt(s0, sched, i, m).pc) < ToUnlock(ThreadAt(s0, sched, i, n).pc)
  {
    var k := RunsInside(s0, sched, i, n);
    AfterInside(StateAt(s0, sched, k), sched(k));
    m := k + 1;
  }

  lemma {:induction false} HolderLeaves(s0: State, sched: nat -> Action, i: nat, n: nat) returns (m: nat)
    requires Reachable(s0) && Fair(s0, sched) && i < |s0.threads| && InCritical(ThreadAt(s0, sched, i, n).pc)
    ensures n <= m && StateAt(s0, sched, m).mutex == None
    decreases ToUnlock(ThreadAt(s0, sched, i, n).pc)
  {
    m := HolderStep(s0, sched, i, n);
    if StateAt(s0, sched, m).mutex != None {
      m := HolderLeaves(s0, sched, i, m);
    }
  }

  lemma RunsSometime(s0: State, sched: nat -> Action, i: nat, n: nat) returns (k: nat)
    requires Reachable(s0) && Fair(s0, sched) && i < |s0.threads| && ThreadAt(s0, sched, i, n).pc != Waiting
    ensures n <= k && RunsAt(s0, sched, i, k) && ThreadAt(s0, sched, i, k) == ThreadAt(s0, sched, i, n)
  {
    if Inside(ThreadAt(s0, sched, i, n).pc) {
      k := RunsInside(s0, sched, i, n);
    } else {
      var m := NeverFrom(s0, sched, i, n);
      var free := MutexFreed(s0, sched, m);
      MomentReachable(s0, sched, free);
      if ThreadAt(s0, sched, i, free) == ThreadAt(s0, sched, i, n) {
        AbleInside(StateAt(s0, sched, free), i);
      }
      k := RunsIfAble(s0, sched, i, n, free);
    }
  }

  // ---------- nothing stops ----------

  function DoneAt(s0: State, sched: nat -> Action, n: nat): nat {
    P.Done(StateAt(s0, sched, n))
  }

  lemma DoneStep(s: State, a: Action, r: Role)
    requires Enabled(s, a)
    ensures P.Done(Apply(s, a)) >= P.Done(s)
    ensures P.Done(Apply(s, a)) == P.Done(s) ==> Avail(Apply(s, a), r) == Avail(s, r)
    ensures a.Go? && s.threads[a.i].pc == Counting ==> P.Done(Apply(s, a)) > P.Done(s)
  {
  }

  lemma {:induction false} DoneGrows(s0: State, sched: nat -> Action, n: nat, m: nat, r: Role)
    requires n <= m
    ensures DoneAt(s0, sched, n) <= DoneAt(s0, sched, m)
    ensures DoneAt(s0, sched, n) == DoneAt(s0, sched, m) ==>
              Avail(StateAt(s0, sched, m), r) == Avail(StateAt(s0, sched, n), r)
    decreases m - n
  {
    if n < m {
      DoneGrows(s0, sched, n, m - 1, r);
      if Enabled(StateAt(s0, sched, m - 1), sched(m - 1)) {
        DoneStep(StateAt(s0, sched, m - 1), sched(m - 1), r);
      }
    }
  }

  /** The statements a thread has left before it completes an update, if it need not wait. */
  function ToDone(pc: Pc): nat {
    match pc
    case Signalling => 10
    case Unlocking => 9
    case Outside => 8
    case Locking => 7
    case Woken => 7
    case Checking => 6
    case Rechecking => 6
    case Transferring => 5
    case Advancing => 4
    case Counting => 3
    case Waiting => 0
  }

  lemma TowardsDone(s: State, a: Action)
    requires P.Steps(s, a) && Avail(s, s.threads[a.i].role) > 0
    ensures var t, t' := s.threads[a.i], Apply(s, a).threads[a.i];
            || P.Done(Apply(s, a)) > P.Done(s)
            || (t'.role == t.role && t'.pc != Waiting && ToDone(t'.pc) < ToDone(t.pc))
  {
  }

  /** Thread i does not wait and has what it needs. */
  predicate Awake(s0: State, sched: nat -> Action, i: nat, n: nat)
    requires i < |s0.threads|
  {
    ThreadAt(s0, sched, i, n).pc != Waiting && Avail(StateAt(s0, sched, n), s0.threads[i].role) > 0
  }

  lemma RunsTowardsDone(s0: State, sched: nat -> Action, i: nat, k: nat)
    requires i < |s0.threads| && RunsAt(s0, sched, i, k) && Avail(StateAt(s0, sched, k), s0.threads[i].role) > 0
    ensures var t, t' := ThreadAt(s0, sched, i, k), ThreadAt(s0, sched, i, k + 1);
            || DoneAt(s0, sched, k + 1) > DoneAt(s0, sched, k)
            || (t'.pc != Waiting && ToDone(t'.pc) < ToDone(t.pc))
  {
    RoleAt(s0, sched, i, k);
    TowardsDone(StateAt(s0, sched, k), sched(k));
  }

  lemma DoneBetween(s0: State, sched: nat -> Action, n: nat, k: nat, r: Role)
    requires n <= k
    ensures DoneAt(s0, sched, n) <= DoneAt(s0, sched, k) <= DoneAt(s0, sched, k + 1)
    ensures DoneAt(s0, sched, n) == DoneAt(s0, sched, k + 1) ==>
              && Avail(StateAt(s0, sched, k), r) == Avail(StateAt(s0, sched, n), r)
              && Avail(StateAt(s0, sched, k + 1), r) == Avail(StateAt(s0, sched, n), r)
  {
    DoneGrows(s0, sched, n, k, r);
    DoneGrows(s0, sched, k, k + 1, r);
  }

  lemma AwakeStep(s0: State, sched: nat -> Action, i: nat, n: nat) returns (m: nat)
    requires Reachable(s0) && Fair(s0, sched) && i < |s0.threads| && Awake(s0, sched, i, n)
    ensures n <= m && DoneAt(s0, sched, m) >= DoneAt(s0, sched, n)
    ensures DoneAt(s0, sched, m) == DoneAt(s0, sched, n) ==>
              && Awake(s0, sched, i, m)
              && ToDone(ThreadAt(s0, sched, i, m).pc) < ToDone(ThreadAt(s0, sched, i, n).pc)
  {
    var k := RunsSometime(s0, sched, i, n);
    var r := s0.threads[i].role;
    m := k + 1;
    DoneBetween(s0, sched, n, k, r);
    if DoneAt(s0, sched, m) == DoneAt(s0, sched, n) {
      RunsTowardsDone(s0, sched, i, k);
    }
  }

  /** Such a thread completes an update, if no other does. */
  lemma {:induction false} AwakeCompletes(s0: State, sched: nat -> Action, i: nat, n: nat) returns (m: nat)
    requires Reachable(s0) && Fair(s0, sched) && i < |s0.threads| && Awake(s0, sched, i, n)
    ensures n <= m && DoneAt(s0, sched, m) > DoneAt(s0, sched, n)
    decreases ToDone(ThreadAt(s0, sched, i, n).pc)
  {
    m := AwakeStep(s0, sched, i, n);
    if DoneAt(s0, sched, m) == DoneAt(s0, sched, n) {
      m := AwakeCompletes(s0, sched, i, m);
    }
  }

  lemma SomeCreditor(s: State, r: Role) returns (k: nat)
    requires Reachable(s) && AnyWaiting(s, r) && Avail(s, r) > 0
    ensures k < |s.threads| && Credit(s.threads[k], r) == 1
  {
    NoLostWakeup(s, r);
    k :| k in Creditors(s.threads, r);
  }

  /** Somebody waits, but a thread of the other role is about to signal. */
  lemma SignalCompletes(s0: State, sched: nat -> Action, i: nat, k: nat, n: nat) returns (m: nat)
    requires Reachable(s0) && Fair(s0, sched) && i < |s0.threads| && k < |s0.threads|
    requires Avail(StateAt(s0, sched, n), s0.threads[i].role) > 0
    requires s0.threads[k].role != s0.threads[i].role && ThreadAt(s0, sched, k, n).pc == Signalling
    ensures n <= m && DoneAt(s0, sched, m) > DoneAt(s0, sched, n)
  {
    m := RunsSometime(s0, sched, k, n);
    var w, m' := SomeoneAwake(s0, sched, i, k, m);
    DoneGrows(s0, sched, n, m', s0.threads[i].role);
    m := m';
    if DoneAt(s0, sched, m) == DoneAt(s0, sched, n) {
      m := AwakeCompletes(s0, sched, w, m);
    }
  }

  lemma SomeoneAwake(s0: State, sched: nat -> Action, i: nat, k: nat, m: nat) returns (w: nat, m': nat)
    requires i < |s0.threads| && k < |s0.threads| && s0.threads[k].role != s0.threads[i].role
    requires RunsAt(s0, sched, k, m) && ThreadAt(s0, sched, k, m).pc == Signalling
    ensures m <= m' && w < |s0.threads| && s0.threads[w].role == s0.threads[i].role
    ensures ThreadAt(s0, sched, w, m').pc != Waiting
  {
    RoleAt(s0, sched, i, m);
    RoleAt(s0, sched, k, m);
    if ThreadAt(s0, sched, i, m).pc == Waiting {
      m' := m + 1;
      w := WakesOne(StateAt(s0, sched, m), sched(m), i);
      RoleAt(s0, sched, w, m + 1);
    } else {
      w, m' := i, m;
    }
  }

  /** While thread i waits, a signal from the other role wakes a thread of its role. */
  lemma WakesOne(s: State, a: Action, i: nat) returns (w: nat)
    requires P.Steps(s, a) && s.threads[a.i].pc == Signalling
    requires i < |s.threads| && s.threads[i].pc == Waiting && s.threads[a.i].role != s.threads[i].role
    ensures w < |s.threads| && w < |Apply(s, a).threads|
    ensures Apply(s, a).threads[w].pc == Woken && Apply(s, a).threads[w].role == s.threads[i].role
  {
    assert At(s, i, Other(s.threads[a.i].role), Waiting);
    w :| w in a.woken;
    assert At(s, w, s.threads[i].role, Waiting);
  }

  /** With spurious wakeups, too, another insertion or removal is always completed. */
  lemma NextUpdate(s0: State, sched: nat -> Action, n: nat) returns (m: nat)
    requires Reachable(s0) && P.BothRoles(s0) && Fair(s0, sched)
    ensures n <= m && DoneAt(s0, sched, m) > DoneAt(s0, sched, n)
  {
    var s := StateAt(s0, sched, n);
    MomentReachable(s0, sched, n);
    SomethingAvailable(s);
    var r := if Avail(s, Producer) > 0 then Producer else Consumer;
    var i: nat :| i < |s0.threads| && s0.threads[i].role == r;
    RoleAt(s0, sched, i, n);
    if s.threads[i].pc != Waiting {
      m := AwakeCompletes(s0, sched, i, n);
    } else {
      assert At(s, i, r, Waiting);
      var k := SomeCreditor(s, r);
      RoleAt(s0, sched, k, n);
      if s.threads[k].role == r {
        m := AwakeCompletes(s0, sched, k, n);
      } else {
        m := SignalCompletes(s0, sched, i, k, n);
      }
    }
  }

  lemma {:induction false} UpdatesGoOn(s0: State, sched: nat -> Action, count: nat) returns (m: nat)
    requires Reachable(s0) && P.BothRoles(s0) && Fair(s0, sched)
    ensures DoneAt(s0, sched, m) >= count
  {
    m := 0;
    if count > 0 {
      m := UpdatesGoOn(s0, sched, count - 1);
      m := NextUpdate(s0, sched, m);
    }
  }

  /** From every reachable state, under every strongly fair schedule, whatever spurious wakeups it
      holds, any number of items is eventually removed, in the order in which they were inserted. */
  lemma ItemsFlowForever(s0: State, sched: nat -> Action, count: nat) returns (m: nat)
    requires Reachable(s0) && P.BothRoles(s0) && Fair(s0, sched)
    ensures var s := StateAt(s0, sched, m);
            && count <= |s.removed| <= |s.inserted|
            && forall k | 0 <= k < |s.removed| :: s.removed[k].value == s.inserted[k].value
  {
    m := UpdatesGoOn(s0, sched, count + count + |s0.ring.item|);
    MomentReachable(s0, sched, m);
    RingIsQueue(StateAt(s0, sched, m));
    ValuesKept(StateAt(s0, sched, m));
  }

  // ---------- there are strongly fair schedules ----------

  /** The threads stand in line; the first that can run does, and goes to the end of the line. */
  datatype Line = Line(s: State, queue: seq<nat>)

  predicate Ready(s: State, i: nat, x: int) {
    P.Steps(s, P.Pick(s, i, x)) && P.Pick(s, i, x).i == i
  }

  /** The place of the first in line, from k on, that can run, or the length. */
  function FirstReady(l: Line, k: nat, x: int): (p: nat)
    requires k <= |l.queue|
    ensures k <= p <= |l.queue| && (p < |l.queue| ==> Ready(l.s, l.queue[p], x))
    ensures forall j | k <= j < p :: !Ready(l.s, l.queue[j], x)
    decreases |l.queue| - k
  {
    if k == |l.queue| || Ready(l.s, l.queue[k], x) then k else FirstReady(l, k + 1, x)
  }

  function Chosen(l: Line, x: int): Action {
    var p := FirstReady(l, 0, x);
    if p < |l.queue| then P.Pick(l.s, l.queue[p], x) else Go(0)
  }

  function Requeued(l: Line, x: int): seq<nat> {
    var p := FirstReady(l, 0, x);
    if p < |l.queue| then l.queue[..p] + l.queue[p + 1..] + [l.queue[p]] else l.queue
  }

  function LineAt(s0: State, items: nat -> int, n: nat): Line {
    if n == 0 then Line(s0, seq(|s0.threads|, k requires 0 <= k < |s0.threads| => k))
    else
      var l := LineAt(s0, items, n - 1);
      Line(Tick(l.s, Chosen(l, items(n - 1))), Requeued(l, items(n - 1)))
  }

  predicate FollowsAt(s0: State, items: nat -> int, sched: nat -> Action, n: nat) {
    sched(n) == Chosen(LineAt(s0, items, n), items(n))
  }

  ghost predicate Follows(s0: State, items: nat -> int, sched: nat -> Action) {
    forall n: nat :: FollowsAt(s0, items, sched, n)
  }

  lemma NextState(s0: State, sched: nat -> Action, n: nat)
    ensures StateAt(s0, sched, n + 1) == Tick(StateAt(s0, sched, n), sched(n))
  {
  }

  lemma NextLine(s0: State, items: nat -> int, n: nat)
    ensures var l := LineAt(s0, items, n);
            LineAt(s0, items, n + 1) == Line(Tick(l.s, Chosen(l, items(n))), Requeued(l, items(n)))
  {
  }

  predicate InStep(s0: State, items: nat -> int, sched: nat -> Action, n: nat) {
    StateAt(s0, sched, n) == LineAt(s0, items, n).s
  }

  lemma KeepsStep(s0: State, items: nat -> int, sched: nat -> Action, n: nat)
    requires InStep(s0, items, sched, n) && FollowsAt(s0, items, sched, n)
    ensures InStep(s0, items, sched, n + 1)
  {
    NextState(s0, sched, n);
    NextLine(s0, items, n);
  }

  lemma LineFollowed(s0: State, items: nat -> int, sched: nat -> Action, n: nat)
    requires Follows(s0, items, sched)
    ensures InStep(s0, items, sched, n)
  {
    var ok := (k: nat) => InStep(s0, items, sched, k);
    forall k: nat
      ensures GoesOn(ok, k)
    {
      assert FollowsAt(s0, items, sched, k);
      if InStep(s0, items, sched, k) {
        KeepsStep(s0, items, sched, k);
      }
    }
    Always(ok, n);
  }

  function Place(l: Line, i: nat): nat {
    Registry.Position(l.queue, i)
  }

  /** In one step a thread in line runs, or moves up, or stays because it was not able to run. */
  lemma MovesUp(l: Line, x: int, i: nat)
    requires Place(l, i) < |l.queue|
    ensures var p, q, queue := FirstReady(l, 0, x), Place(l, i), Requeued(l, x);
            && |queue| == |l.queue| && Registry.Position(queue, i) < |queue|
            && (p != q ==> Registry.Position(queue, i) == (if p < q then q - 1 else q))
            && (q < p ==> !Ready(l.s, i, x))
  {
    var p, q, queue := FirstReady(l, 0, x), Place(l, i), Requeued(l, x);
    if p == q {
      Registry.InPosition(queue, i);
    } else {
      Registry.PositionIs(queue, i, if p < q then q - 1 else q);
    }
  }

  lemma ServedOrMoved(l: Line, x: int, i: nat)
    requires Place(l, i) < |l.queue| && !(P.Steps(l.s, Chosen(l, x)) && Chosen(l, x).i == i)
    ensures var q := Registry.Position(Requeued(l, x), i);
            q <= Place(l, i) && (P.CanRun(l.s, i) ==> q < Place(l, i))
  {
    MovesUp(l, x, i);
    if P.CanRun(l.s, i) {
      P.PickRuns(l.s, i, x);
    }
  }

  predicate Listed(s0: State, items: nat -> int, i: nat, n: nat) {
    Place(LineAt(s0, items, n), i) < |LineAt(s0, items, n).queue|
  }

  lemma StaysListed(s0: State, items: nat -> int, i: nat, n: nat)
    requires Listed(s0, items, i, n)
    ensures Listed(s0, items, i, n + 1)
  {
    MovesUp(LineAt(s0, items, n), items(n), i);
    NextLine(s0, items, n);
  }

  lemma EveryoneInLine(s0: State, items: nat -> int, i: nat, n: nat)
    requires i < |s0.threads|
    ensures Listed(s0, items, i, n)
  {
    assert LineAt(s0, items, 0).queue[i] == i;
    Registry.InPosition(LineAt(s0, items, 0).queue, i);
    var ok := (k: nat) => Listed(s0, items, i, k);
    forall k: nat
      ensures GoesOn(ok, k)
    {
      if Listed(s0, items, i, k) {
        StaysListed(s0, items, i, k);
      }
    }
    Always(ok, n);
  }

  ghost function Places(s0: State, items: nat -> int, i: nat): nat -> nat {
    (m: nat) => Place(LineAt(s0, items, m), i)
  }

  lemma LineAdvances(s0: State, items: nat -> int, sched: nat -> Action, i: nat, m: nat)
    requires Follows(s0, items, sched) && i < |s0.threads|
    ensures Advances(Able(s0, sched, i), Runs(s0, sched, i), Places(s0, items, i), m)
  {
    if !RunsAt(s0, sched, i, m) {
      PlaceMoves(s0, items, sched, i, m);
    }
    var places := Places(s0, items, i);
    assert places(m) == Place(LineAt(s0, items, m), i) && places(m + 1) == Place(LineAt(s0, items, m + 1), i);
    assert Runs(s0, sched, i)(m) == RunsAt(s0, sched, i, m) && Able(s0, sched, i)(m) == AbleAt(s0, sched, i, m);
  }

  lemma PlaceMoves(s0: State, items: nat -> int, sched: nat -> Action, i: nat, m: nat)
    requires Follows(s0, items, sched) && i < |s0.threads| && !RunsAt(s0, sched, i, m)
    ensures var now, next := Place(LineAt(s0, items, m), i), Place(LineAt(s0, items, m + 1), i);
            next <= now && (AbleAt(s0, sched, i, m) ==> next < now)
  {
    LineFollowed(s0, items, sched, m);
    assert FollowsAt(s0, items, sched, m);
    EveryoneInLine(s0, items, i, m);
    ServedOrMoved(LineAt(s0, items, m), items(m), i);
    NextLine(s0, items, m);
  }

  lemma {:induction false} ThreadCount(s0: State, sched: nat -> Action, n: nat)
    ensures |StateAt(s0, sched, n).threads| == |s0.threads|
  {
    if n > 0 {
      ThreadCount(s0, sched, n - 1);
    }
  }

  /** Standing in line is strongly fair, whatever the items. */
  lemma LineIsFair(s0: State, items: nat -> int) returns (sched: nat -> Action)
    ensures Fair(s0, sched)
  {
    sched := (n: nat) => Chosen(LineAt(s0, items, n), items(n));
    assert forall n: nat :: FollowsAt(s0, items, sched, n);
    forall i: nat, n: nat
      ensures TreatedFrom(s0, sched, i, n)
    {
      if i < |s0.threads| {
        forall m: nat
          ensures Advances(Able(s0, sched, i), Runs(s0, sched, i), Places(s0, items, i), m)
        {
          LineAdvances(s0, items, sched, i, m);
        }
        PlacesTreat(Able(s0, sched, i), Runs(s0, sched, i), Places(s0, items, i), n);
      } else {
        NobodyThere(s0, sched, i, n);
      }
    }
  }

  lemma NobodyThere(s0: State, sched: nat -> Action, i: nat, n: nat)
    requires i >= |s0.threads|
    ensures TreatedFrom(s0, sched, i, n)
  {
    forall k: nat | n <= k
      ensures !Able(s0, sched, i)(k)
    {
      ThreadCount(s0, sched, k);
    }
    assert Never(Able(s0, sched, i), n);
  }
}
