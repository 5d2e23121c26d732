/** Any number of producers and consumers around one ring buffer: lab3/3/boundedbuffer.c.
    A thread is at one statement at a time, and a run is any interleaving of statements.
    pthread_cond_signal wakes one or more waiters if there are any, and a waiter may also wake
    on its own (IEEE Std 1003.1-2017, System Interfaces, pthread_cond_wait). */
module BoundedBuffer {
  import opened Options
  import R = Ring

  datatype Role = Producer | Consumer

  /** Where a thread is. `Checking` is the first test of the wait loop, `Rechecking` a later one. */
  datatype Pc =
    | Outside | Locking | Checking | Waiting | Woken | Rechecking
    | Transferring | Advancing | Counting | Signalling | Unlocking

  /** `trace` is what the thread has produced or consumed so far, oldest first. */
  datatype Thread = Thread(role: Role, pc: Pc, item: int, trace: seq<int>)

  datatype Entry = Entry(thread: nat, value: int)

  /** `inserted` and `removed` record the completed operations, in order. */
  datatype State = State(
    threads: seq<Thread>, mutex: Option<nat>, ring: R.Fields,
    inserted: seq<Entry>, removed: seq<Entry>)

  datatype Action =
    | Begin(i: nat, x: int)
    | Go(i: nat)
    | Signal(i: nat, woken: set<nat>)
    | Spurious(i: nat)

  function Other(r: Role): Role {
    if r == Producer then Consumer else Producer
  }

  /** What a thread of role r waits for: items, or free slots. */
  function Avail(s: State, r: Role): int {
    if r == Consumer then s.ring.totalitems else |s.ring.item| - s.ring.totalitems
  }

  function LogOf(s: State, r: Role): seq<Entry> {
    if r == Producer then s.inserted else s.removed
  }

  predicate At(s: State, i: nat, r: Role, pc: Pc) {
    i < |s.threads| && s.threads[i].role == r && s.threads[i].pc == pc
  }

  predicate AnyWaiting(s: State, r: Role) {
    exists i: nat | i < |s.threads| :: At(s, i, r, Waiting)
  }

  predicate Enabled(s: State, a: Action) {
    && a.i < |s.threads|
    && R.Shaped(s.ring)
    && var t := s.threads[a.i];
       match a
       case Begin(_, _) => t.pc == Outside
       case Go(_) => if t.pc.Locking? || t.pc.Woken? then s.mutex.None? else InCritical(t.pc) && t.pc != Signalling
       case Signal(_, woken) =>
         && t.pc == Signalling
         && (forall k | k in woken :: At(s, k, Other(t.role), Waiting))
         && (AnyWaiting(s, Other(t.role)) ==> woken != {})
       case Spurious(_) => t.pc == Waiting
  }

  /** The next statement of insert_item or remove_item. */
  function NextPc(pc: Pc, avail: int): Pc {
    match pc
    case Locking => Checking
    case Woken => Rechecking
    case Checking => if avail <= 0 then Waiting else Transferring
    case Rechecking => if avail <= 0 then Waiting else Transferring
    case Transferring => Advancing
    case Advancing => Counting
    case Counting => Signalling
    case Signalling => Unlocking
    case Unlocking => Outside
    case _ => pc
  }

  /** The thread that runs: a producer makes an item first, a consumer reads the slot at `out`. */
  function Runner(s: State, a: Action): Thread
    requires Enabled(s, a)
  {
    var t := s.threads[a.i];
    match a
    case Begin(_, x) =>
      if t.role == Producer then t.(pc := Locking, item := x, trace := t.trace + [x]) else t.(pc := Locking)
    case Spurious(_) => t.(pc := Woken)
    case _ =>
      var t' := t.(pc := NextPc(t.pc, Avail(s, t.role)));
      if t.role == Consumer && t.pc == Transferring then t'.(item := R.Fetch(s.ring))
      else if t.role == Consumer && t.pc == Counting then t'.(trace := t.trace + [t.item])
      else t'
  }

  function Wake(ts: seq<Thread>, woken: set<nat>): seq<Thread> {
    seq(|ts|, k requires 0 <= k < |ts| => if k in woken then ts[k].(pc := Woken) else ts[k])
  }

  function Threads(s: State, a: Action): (ts: seq<Thread>)
    requires Enabled(s, a)
    ensures |ts| == |s.threads|
  {
    var ts := s.threads[a.i := Runner(s, a)];
    if a.Signal? then Wake(ts, a.woken) else ts
  }

  /** Locking, or returning from the wait, takes the mutex; waiting and unlocking release it. */
  function Mutex(s: State, a: Action): Option<nat>
    requires Enabled(s, a)
  {
    var t := s.threads[a.i];
    if a.Go? && (t.pc.Locking? || t.pc.Woken?) then Some(a.i)
    else if a.Go? && t.pc == Unlocking then None
    else if a.Go? && (t.pc.Checking? || t.pc.Rechecking?) && Avail(s, t.role) <= 0 then None
    else s.mutex
  }

  /** The three assignments of an update, one at a time. */
  function Ring(s: State, a: Action): R.Fields
    requires Enabled(s, a)
  {
    var t := s.threads[a.i];
    if !a.Go? then s.ring
    else match t.pc
      case Transferring => if t.role == Producer then R.Store(s.ring, t.item) else s.ring
      case Advancing => if t.role == Producer then R.AdvanceIn(s.ring) else R.AdvanceOut(s.ring)
      case Counting => if t.role == Producer then R.CountUp(s.ring) else R.CountDown(s.ring)
      case _ => s.ring
  }

  /** A log gains an entry when a thread of its role finishes an update. */
  function Log(s: State, a: Action, r: Role): seq<Entry>
    requires Enabled(s, a)
  {
    var t := s.threads[a.i];
    if a.Go? && t.pc == Counting && t.role == r then LogOf(s, r) + [Entry(a.i, t.item)] else LogOf(s, r)
  }

  function Apply(s: State, a: Action): State
    requires Enabled(s, a)
  {
    State(Threads(s, a), Mutex(s, a), Ring(s, a), Log(s, a, Producer), Log(s, a, Consumer))
  }

  /** The given threads, none of which has started, around an empty buffer of the given size. */
  predicate Init(s: State) {
    && s.ring.item != [] && s.ring.inn == s.ring.out == s.ring.totalitems == 0
    && s.mutex == None && s.inserted == [] && s.removed == []
    && forall i | 0 <= i < |s.threads| :: s.threads[i].pc == Outside && s.threads[i].trace == []
  }

  /** A schedule is a run when each action is possible when its turn comes. */
  predicate IsRun(s: State, acts: seq<Action>)
    decreases |acts|
  {
    acts == [] || (Enabled(s, acts[0]) && IsRun(Apply(s, acts[0]), acts[1..]))
  }

  function After(s: State, acts: seq<Action>): State
    requires IsRun(s, acts)
    decreases |acts|
  {
    if acts == [] then s else After(Apply(s, acts[0]), acts[1..])
  }

  ghost predicate Reachable(s: State) {
    exists s0: State, acts: seq<Action> :: Init(s0) && IsRun(s0, acts) && After(s0, acts) == s
  }

  // ---------- the mutex ----------

  predicate InCritical(pc: Pc) {
    pc.Checking? || pc.Rechecking? || Updating(pc) || pc.Signalling? || pc.Unlocking?
  }

  predicate MutexInv(s: State) {
    && (s.mutex.Some? ==> s.mutex.value < |s.threads|)
    && forall i: nat | i < |s.threads| :: InCritical(s.threads[i].pc) <==> s.mutex == Some(i)
  }

  lemma MutexStep(s: State, a: Action)
    requires MutexInv(s) && Enabled(s, a)
    ensures MutexInv(Apply(s, a))
  {
  }

  // ---------- the ring as a queue ----------

  predicate Updating(pc: Pc) {
    pc.Transferring? || pc.Advancing? || pc.Counting?
  }

  /** The thread in the middle of an update, if there is one. */
  function Active(s: State): Option<Thread> {
    if s.mutex.Some? && s.mutex.value < |s.threads| && Updating(s.threads[s.mutex.value].pc)
    then Some(s.threads[s.mutex.value]) else None
  }

  predicate Ahead(t: Option<Thread>, r: Role) {
    t.Some? && t.value.role == r && t.value.pc == Counting
  }

  predicate Carrying(t: Option<Thread>, r: Role) {
    t.Some? && t.value.role == r && t.value.pc != Transferring
  }

  /** Both indices count completed operations; between two statements an index may be one ahead. */
  predicate RingOk(r: R.Fields, inserted: seq<Entry>, removed: seq<Entry>, t: Option<Thread>) {
    var n, a, b := |r.item|, |inserted|, |removed|;
    && n > 0 && b <= a <= b + n && r.totalitems == a - b
    && r.inn == R.Slot(if Ahead(t, Producer) then a + 1 else a, n)
    && r.out == R.Slot(if Ahead(t, Consumer) then b + 1 else b, n)
    && (forall k | b <= k < a :: r.item[R.Slot(k, n)] == inserted[k].value)
    && (forall k | 0 <= k < b :: removed[k].value == inserted[k].value)
    && (t.Some? && t.value.role == Producer ==> a < b + n)
    && (t.Some? && t.value.role == Consumer ==> b < a)
    && (Carrying(t, Producer) ==> r.item[R.Slot(a, n)] == t.value.item)
    && (Carrying(t, Consumer) ==> inserted[b].value == t.value.item)
  }

  predicate RingInv(s: State) {
    RingOk(s.ring, s.inserted, s.removed, Active(s))
  }

  lemma StoreOk(r: R.Fields, ins: seq<Entry>, rem: seq<Entry>, t: Thread)
    requires RingOk(r, ins, rem, Some(t)) && t.role == Producer && t.pc == Transferring
    ensures RingOk(R.Store(r, t.item), ins, rem, Some(t.(pc := Advancing)))
  {
    forall k: nat | |rem| <= k < |ins|
      ensures R.Slot(k, |r.item|) != r.inn
    {
      R.SlotAhead(k, |ins| - k, |r.item|);
    }
  }

  lemma AdvanceOk(r: R.Fields, ins: seq<Entry>, rem: seq<Entry>, t: Thread)
    requires RingOk(r, ins, rem, Some(t)) && t.pc == Advancing
    ensures RingOk(if t.role == Producer then R.AdvanceIn(r) else R.AdvanceOut(r), ins, rem, Some(t.(pc := Counting)))
  {
    R.SlotStep(|ins|, |r.item|);
    R.SlotStep(|rem|, |r.item|);
    assert R.Slot(0, |r.item|) == 0;
  }

  lemma CountOk(r: R.Fields, ins: seq<Entry>, rem: seq<Entry>, t: Thread, i: nat)
    requires RingOk(r, ins, rem, Some(t)) && t.pc == Counting
    ensures t.role == Producer ==> RingOk(R.CountUp(r), ins + [Entry(i, t.item)], rem, None)
    ensures t.role == Consumer ==> RingOk(R.CountDown(r), ins, rem + [Entry(i, t.item)], None)
  {
  }

  /** Only the thread that runs can enter, advance or leave an update. */
  lemma ActiveStep(s: State, a: Action)
    requires MutexInv(s) && Enabled(s, a)
    ensures var t, s' := s.threads[a.i], Apply(s, a);
            if a.Go? && Updating(t.pc) then
              Active(s) == Some(t) && Active(s') == if t.pc == Counting then None else Some(s'.threads[a.i])
            else if a.Go? && (t.pc.Checking? || t.pc.Rechecking?) && Avail(s, t.role) > 0 then
              Active(s) == None && Active(s') == Some(t.(pc := Transferring))
            else Active(s') == Active(s)
  {
  }

  lemma RingUpdateStep(s: State, a: Action)
    requires MutexInv(s) && RingInv(s) && Enabled(s, a) && a.Go? && Updating(s.threads[a.i].pc)
    ensures RingInv(Apply(s, a))
  {
    ActiveStep(s, a);
    var t := s.threads[a.i];
    if t.pc == Advancing {
      AdvanceOk(s.ring, s.inserted, s.removed, t);
    } else if t.pc == Counting {
      CountOk(s.ring, s.inserted, s.removed, t, a.i);
    } else if t.role == Producer {
      StoreOk(s.ring, s.inserted, s.removed, t);
    }
  }

  lemma RingStep(s: State, a: Action)
    requires MutexInv(s) && RingInv(s) && Enabled(s, a)
    ensures RingInv(Apply(s, a))
  {
    if a.Go? && Updating(s.threads[a.i].pc) {
      RingUpdateStep(s, a);
    } else {
      ActiveStep(s, a);
      assert Ring(s, a) == s.ring;
    }
  }

  // ---------- the logs ----------

  /** The values a thread put into a log, in order. */
  function Of(log: seq<Entry>, i: nat): seq<int> {
    if log == [] then [] else
      var front := Of(log[..|log| - 1], i);
      if log[|log| - 1].thread == i then front + [log[|log| - 1].value] else front
  }

  /** What the log must hold of a thread: all of its trace, less the item a producer still carries. */
  predicate Logged(t: Thread, log: seq<int>) {
    if t.role == Producer && !t.pc.Outside? && !t.pc.Signalling? && !t.pc.Unlocking?
    then t.trace == log + [t.item]
    else t.trace == log
  }

  predicate LogInv(s: State) {
    && (forall i: nat | i < |s.threads| :: Logged(s.threads[i], Of(LogOf(s, s.threads[i].role), i)))
    && Written(s, Producer) && Written(s, Consumer)
  }

  /** Every entry of a log comes from a thread of the right role. */
  predicate Written(s: State, r: Role) {
    forall k | 0 <= k < |LogOf(s, r)| ::
      LogOf(s, r)[k].thread < |s.threads| && s.threads[LogOf(s, r)[k].thread].role == r
  }

  lemma WrittenStep(s: State, s': State, i: nat, x: int, r: Role)
    requires Written(s, r) && i < |s.threads| == |s'.threads|
    requires forall k: nat | k < |s.threads| :: s'.threads[k].role == s.threads[k].role
    requires LogOf(s', r) == LogOf(s, r)
             || (s.threads[i].role == r && LogOf(s', r) == LogOf(s, r) + [Entry(i, x)])
    ensures Written(s', r)
  {
  }

  /** An action changes the thread that runs; a signal may also wake waiters; roles never change. */
  lemma ThreadsStep(s: State, a: Action)
    requires Enabled(s, a)
    ensures var s' := Apply(s, a);
            && |s'.threads| == |s.threads|
            && forall k: nat | k < |s.threads| ::
                 && s'.threads[k].role == s.threads[k].role
                 && (k != a.i ==> s'.threads[k] == s.threads[k]
                                  || (a.Signal? && At(s, k, Other(s.threads[a.i].role), Waiting)
                                      && s'.threads[k] == s.threads[k].(pc := Woken)))
    ensures !a.Signal? ==> Apply(s, a).threads == s.threads[a.i := Apply(s, a).threads[a.i]]
  {
  }

  lemma RunnerLogged(s: State, a: Action, log: seq<int>)
    requires Enabled(s, a) && Logged(s.threads[a.i], log)
    ensures var t := s.threads[a.i];
            Logged(Runner(s, a), if a.Go? && t.pc == Counting then log + [t.item] else log)
  {
  }

  lemma OwnLogStep(s: State, a: Action)
    requires LogInv(s) && Enabled(s, a)
    ensures Logged(Runner(s, a), Of(Log(s, a, s.threads[a.i].role), a.i))
  {
    var t := s.threads[a.i];
    RunnerLogged(s, a, Of(LogOf(s, t.role), a.i));
  }

  lemma LogStep(s: State, a: Action)
    requires LogInv(s) && Enabled(s, a)
    ensures LogInv(Apply(s, a))
  {
    var s', t := Apply(s, a), s.threads[a.i];
    ThreadsStep(s, a);
    OwnLogStep(s, a);
    WrittenStep(s, s', a.i, t.item, Producer);
    WrittenStep(s, s', a.i, t.item, Consumer);
    forall i: nat | i < |s'.threads|
      ensures Logged(s'.threads[i], Of(LogOf(s', s'.threads[i].role), i))
    {
      if i != a.i {
        OtherLogStep(s, a, i);
      }
    }
  }

  lemma OtherLogStep(s: State, a: Action, i: nat)
    requires LogInv(s) && Enabled(s, a) && i < |s.threads| && i != a.i
    ensures var s' := Apply(s, a);
            i < |s'.threads| && Logged(s'.threads[i], Of(LogOf(s', s'.threads[i].role), i))
  {
  }

  // ---------- wakeups ----------

  /** Threads of role r that will look at the condition again, or hold one unit of it already,
      and threads of the other role that still owe a signal. */
  function Credit(t: Thread, r: Role): nat {
    if t.role == r
    then if t.pc.Woken? || t.pc.Rechecking? || Updating(t.pc) then 1 else 0
    else if t.pc == Signalling then 1 else 0
  }

  function Credits(ts: seq<Thread>, r: Role): nat {
    if ts == [] then 0 else Credit(ts[0], r) + Credits(ts[1..], r)
  }

  lemma {:induction false} CreditsUpdate(ts: seq<Thread>, i: nat, t: Thread, r: Role)
    requires i < |ts|
    ensures Credits(ts[i := t], r) == Credits(ts, r) - Credit(ts[i], r) + Credit(t, r)
  {
    if i == 0 {
      assert ts[i := t][1..] == ts[1..];
    } else {
      assert ts[i := t][1..] == ts[1..][i - 1 := t];
      CreditsUpdate(ts[1..], i - 1, t, r);
    }
  }

  lemma {:induction false} CreditsGrow(ts: seq<Thread>, us: seq<Thread>, r: Role)
    requires |ts| == |us| && forall k | 0 <= k < |ts| :: Credit(ts[k], r) <= Credit(us[k], r)
    ensures Credits(ts, r) <= Credits(us, r)
    ensures (exists k | 0 <= k < |ts| :: Credit(ts[k], r) < Credit(us[k], r)) ==> Credits(ts, r) < Credits(us, r)
  {
    if ts != [] {
      CreditsGrow(ts[1..], us[1..], r);
      if k :| 1 <= k < |ts| && Credit(ts[k], r) < Credit(us[k], r) {
        assert Credit(ts[1..][k - 1], r) < Credit(us[1..][k - 1], r);
      }
    }
  }

  /** No lost wakeup: while a thread of role r waits, everything it could wait for is spoken for. */
  predicate WakeInv(s: State, r: Role) {
    AnyWaiting(s, r) ==> Avail(s, r) <= Credits(s.threads, r)
  }

  /** A signal turns a waiter into a creditor of its role and costs the other threads nothing. */
  lemma SignalCredit(s: State, a: Action, r: Role, k: nat)
    requires Enabled(s, a) && a.Signal? && k < |s.threads|
    ensures var c, c' := Credit(s.threads[a.i := Runner(s, a)][k], r), Credit(Threads(s, a)[k], r);
            c <= c' && (k in a.woken && r == Other(s.threads[a.i].role) ==> c < c')
  {
  }

  /** A signal takes one credit from the thread that gives it, and adds one if anybody waits for it. */
  lemma SignalCredits(s: State, a: Action, r: Role)
    requires Enabled(s, a) && a.Signal?
    ensures Credits(Threads(s, a), r) >= Credits(s.threads, r) - Credit(s.threads[a.i], r)
    ensures r == Other(s.threads[a.i].role) && AnyWaiting(s, r) ==>
              Credits(Threads(s, a), r) >= Credits(s.threads, r)
  {
    var moved, ts := s.threads[a.i := Runner(s, a)], Threads(s, a);
    CreditsUpdate(s.threads, a.i, Runner(s, a), r);
    forall k: nat | k < |moved|
      ensures Credit(moved[k], r) <= Credit(ts[k], r)
    {
      SignalCredit(s, a, r, k);
    }
    CreditsGrow(moved, ts, r);
    if r == Other(s.threads[a.i].role) && AnyWaiting(s, r) {
      var k :| k in a.woken;
      assert At(s, k, r, Waiting);
      SignalCredit(s, a, r, k);
    }
  }

  lemma WakeSignal(s: State, a: Action, r: Role)
    requires WakeInv(s, r) && Enabled(s, a) && a.Signal?
    ensures WakeInv(Apply(s, a), r)
  {
    var s' := Apply(s, a);
    SignalCredits(s, a, r);
    ThreadsStep(s, a);
    if i: nat :| i < |s'.threads| && At(s', i, r, Waiting) {
      assert At(s, i, r, Waiting);
    }
  }

  /** What one action other than a signal does to the quantities in the invariant. */
  lemma CreditStep(s: State, a: Action, r: Role)
    requires Enabled(s, a) && !a.Signal?
    ensures var s', t := Apply(s, a), s.threads[a.i];
            var t' := s'.threads[a.i];
            || (Avail(s', r) - Avail(s, r) <= Credit(t', r) - Credit(t, r) && t'.pc != Waiting)
            || (t'.pc == Waiting && t'.role != r && Avail(s', r) == Avail(s, r) && Credit(t', r) == Credit(t, r))
            || (t'.pc == Waiting && t'.role == r && Avail(s', r) <= 0)
  {
  }

  lemma WakeStep(s: State, a: Action, r: Role)
    requires WakeInv(s, r) && Enabled(s, a)
    ensures WakeInv(Apply(s, a), r)
  {
    if a.Signal? {
      WakeSignal(s, a, r);
    } else {
      var s' := Apply(s, a);
      ThreadsStep(s, a);
      CreditsUpdate(s.threads, a.i, s'.threads[a.i], r);
      CreditStep(s, a, r);
      if i: nat :| i < |s'.threads| && At(s', i, r, Waiting) {
        if Avail(s', r) > 0 {
          assert At(s, i, r, Waiting);
        }
      }
    }
  }

  // ---------- every run ----------

  predicate Inv(s: State) {
    MutexInv(s) && RingInv(s) && LogInv(s) && WakeInv(s, Producer) && WakeInv(s, Consumer)
  }

  lemma StepKeepsInv(s: State, a: Action)
    requires Inv(s) && Enabled(s, a)
    ensures Inv(Apply(s, a))
  {
    MutexStep(s, a);
    RingStep(s, a);
    LogStep(s, a);
    WakeStep(s, a, Producer);
    WakeStep(s, a, Consumer);
  }

  lemma {:induction false} RunKeepsInv(s: State, acts: seq<Action>)
    requires Inv(s) && IsRun(s, acts)
    ensures Inv(After(s, acts))
    decreases |acts|
  {
    if acts != [] {
      StepKeepsInv(s, acts[0]);
      RunKeepsInv(Apply(s, acts[0]), acts[1..]);
    }
  }

  lemma InitInv(s: State)
    requires Init(s)
    ensures Inv(s)
  {
  }

  lemma InvAfter(s0: State, acts: seq<Action>)
    requires Init(s0) && IsRun(s0, acts)
    ensures Inv(After(s0, acts))
  {
    InitInv(s0);
    RunKeepsInv(s0, acts);
  }

  lemma ReachableInv(s: State)
    requires Reachable(s)
    ensures Inv(s)
  {
    var s0: State, acts: seq<Action> :| Init(s0) && IsRun(s0, acts) && After(s0, acts) == s;
    InvAfter(s0, acts);
  }
}
