/** The two threads of lab3/4/hellothread.c when waiters may also wake without a signal: under every
    strongly fair schedule the turns go on for ever. */
module TurnFairness {
  import opened Options
  import opened TurnTaking
  import opened Scheduling

  /** An endless schedule, spurious wakeups included; an action that is not possible does nothing. */
  function StateAt(sched: nat -> Action, n: nat): State {
    if n == 0 then INIT else Next(StateAt(sched, n - 1), sched(n - 1))
  }

  function Next(s: State, a: Action): State {
    if Enabled(s, a) then Apply(s, a) else s
  }

  predicate AbleAt(sched: nat -> Action, w: Who, m: nat) {
    Enabled(StateAt(sched, m), Go(w))
  }

  predicate RunsAt(sched: nat -> Action, w: Who, m: nat) {
    AbleAt(sched, w, m) && sched(m) == Go(w)
  }

  ghost function Runs(sched: nat -> Action, w: Who): nat -> bool {
    (m: nat) => RunsAt(sched, w, m)
  }

  ghost function Able(sched: nat -> Action, w: Who): nat -> bool {
    (m: nat) => AbleAt(sched, w, m)
  }

  /** Strong fairness: from every moment on, a thread runs once more or is at last never able to. */
  ghost predicate StronglyFair(sched: nat -> Action) {
    forall w: Who, n: nat :: TreatedFrom(sched, w, n)
  }

  ghost predicate TreatedFrom(sched: nat -> Action, w: Who, n: nat) {
    Treated(Able(sched, w), Runs(sched, w), n)
  }

  lemma {:induction false} MomentInv(sched: nat -> Action, n: nat)
    ensures Inv(StateAt(sched, n))
  {
    if n > 0 {
      MomentInv(sched, n - 1);
      if Enabled(StateAt(sched, n - 1), sched(n - 1)) {
        StepKeepsInv(StateAt(sched, n - 1), sched(n - 1));
      }
    }
  }

  function PcAt(sched: nat -> Action, w: Who, n: nat): Pc {
    PcOf(StateAt(sched, n), w)
  }

  function TurnAt(sched: nat -> Action, n: nat): Who {
    StateAt(sched, n).turn
  }

  // ---------- a thread that does not wait runs in the end ----------

  /** Until it runs, a thread that does not wait stays where it is, and keeps its turn. */
  lemma {:induction false} Kept(sched: nat -> Action, w: Who, n: nat, m: nat)
    requires n <= m && PcAt(sched, w, n) != Waiting && forall k | n <= k < m :: !RunsAt(sched, w, k)
    ensures PcAt(sched, w, m) == PcAt(sched, w, n) && (TurnAt(sched, n) == w ==> TurnAt(sched, m) == w)
    decreases m - n
  {
    if n < m {
      Kept(sched, w, n, m - 1);
      MomentInv(sched, m - 1);
      assert !RunsAt(sched, w, m - 1);
    }
  }

  /** The thread runs at k, and until then has stayed where it was at n. */
  predicate FirstAt(sched: nat -> Action, w: Who, n: nat, k: nat) {
    && n <= k && RunsAt(sched, w, k) && PcAt(sched, w, k) == PcAt(sched, w, n)
    && (TurnAt(sched, n) == w ==> TurnAt(sched, k) == w)
  }

  lemma FirstRun(sched: nat -> Action, w: Who, n: nat, m: nat) returns (k: nat)
    requires n <= m && PcAt(sched, w, n) != Waiting && RunsAt(sched, w, m)
    ensures FirstAt(sched, w, n, k)
  {
    k := n;
    while !RunsAt(sched, w, k)
      invariant n <= k <= m && forall j | n <= j < k :: !RunsAt(sched, w, j)
      decreases m - k
    {
      k := k + 1;
    }
    Kept(sched, w, n, k);
  }

  lemma NeverFrom(sched: nat -> Action, w: Who, n: nat) returns (m: nat)
    requires StronglyFair(sched)
    ensures n <= m && (Again(Runs(sched, w), n) || Never(Able(sched, w), m))
  {
    assert TreatedFrom(sched, w, n);
    m := n;
    if m': nat :| n <= m' && Never(Able(sched, w), m') {
      m := m';
    }
  }

  lemma RunsIfAble(sched: nat -> Action, w: Who, n: nat, m: nat) returns (k: nat)
    requires n <= m && PcAt(sched, w, n) != Waiting
    requires PcAt(sched, w, m) == PcAt(sched, w, n) ==> AbleAt(sched, w, m)
    requires Again(Runs(sched, w), n) || Never(Able(sched, w), m)
    ensures FirstAt(sched, w, n, k)
  {
    assert Able(sched, w)(m) == AbleAt(sched, w, m);
    if !Again(Runs(sched, w), n) {
      forall j | n <= j < m
        ensures !RunsAt(sched, w, j)
      {
        assert !Runs(sched, w)(j);
      }
      Kept(sched, w, n, m);
      assert false;
    }
    var j: nat :| n <= j && Runs(sched, w)(j);
    k := FirstRun(sched, w, n, j);
  }

  lemma RunsInside(sched: nat -> Action, w: Who, n: nat) returns (k: nat)
    requires StronglyFair(sched) && InCritical(PcAt(sched, w, n))
    ensures FirstAt(sched, w, n, k)
  {
    var m := NeverFrom(sched, w, n);
    k := RunsIfAble(sched, w, n, m);
  }

  /** The statements a thread has left before it gives up the mutex. */
  function ToUnlock(pc: Pc): nat {
    match pc
    case Checking => 5
    case Printing => 4
    case Setting => 3
    case Signalling => 2
    case Unlocking => 1
    case _ => 0
  }

  lemma {:induction false} HolderLeaves(sched: nat -> Action, w: Who, n: nat) returns (m: nat)
    requires StronglyFair(sched) && InCritical(PcAt(sched, w, n))
    ensures n <= m && StateAt(sched, m).mutex == None
    decreases ToUnlock(PcAt(sched, w, n))
  {
    var k := RunsInside(sched, w, n);
    MomentInv(sched, k);
    m := k + 1;
    if StateAt(sched, m).mutex != None {
      m := HolderLeaves(sched, w, m);
    }
  }

  /** The mutex is free again and again. */
  lemma MutexFreed(sched: nat -> Action, n: nat) returns (m: nat)
    requires StronglyFair(sched)
    ensures n <= m && StateAt(sched, m).mutex == None
  {
    m := n;
    MomentInv(sched, n);
    if StateAt(sched, n).mutex != None {
      m := HolderLeaves(sched, StateAt(sched, n).mutex.value, n);
    }
  }

  lemma RunsSometime(sched: nat -> Action, w: Who, n: nat) returns (k: nat)
    requires StronglyFair(sched) && PcAt(sched, w, n) != Waiting
    ensures FirstAt(sched, w, n, k)
  {
    if InCritical(PcAt(sched, w, n)) {
      k := RunsInside(sched, w, n);
    } else {
      var m := NeverFrom(sched, w, n);
      var free := MutexFreed(sched, m);
      k := RunsIfAble(sched, w, n, free);
    }
  }

  // ---------- another line ----------

  function LinesAt(sched: nat -> Action, n: nat): nat {
    |StateAt(sched, n).log|
  }

  lemma {:induction false} LinesGrow(sched: nat -> Action, n: nat, m: nat)
    requires n <= m
    ensures LinesAt(sched, n) <= LinesAt(sched, m)
    decreases m - n
  {
    if n < m {
      LinesGrow(sched, n, m - 1);
    }
  }

  function ToPrint(pc: Pc): nat {
    match pc
    case Printing => 1
    case Checking => 2
    case _ => 3
  }

  /** A thread whose turn it is, and that does not wait, prints. */
  lemma {:induction false} AwakePrints(sched: nat -> Action, w: Who, n: nat) returns (m: nat)
    requires StronglyFair(sched) && TurnAt(sched, n) == w
    requires PcAt(sched, w, n) != Setting && PcAt(sched, w, n) != Waiting
    ensures n <= m && LinesAt(sched, m) > LinesAt(sched, n)
    decreases ToPrint(PcAt(sched, w, n))
  {
    var k := RunsSometime(sched, w, n);
    MomentInv(sched, k);
    LinesGrow(sched, n, k);
    m := k + 1;
    if LinesAt(sched, m) == LinesAt(sched, k) {
      m := AwakePrints(sched, w, k + 1);
    }
  }

  /** A thread that waits on its own turn is woken, by the signal or before it. */
  lemma WaiterPrints(sched: nat -> Action, w: Who, n: nat) returns (m: nat)
    requires StronglyFair(sched) && TurnAt(sched, n) == w && PcAt(sched, w, n) == Waiting
    ensures n <= m && LinesAt(sched, m) > LinesAt(sched, n)
  {
    MomentInv(sched, n);
    var k := RunsSometime(sched, Other(w), n);
    var j := n;
    while j < k && PcAt(sched, w, j) == Waiting
      invariant n <= j <= k && TurnAt(sched, j) == w
      invariant PcAt(sched, w, j) == Waiting || PcAt(sched, w, j) == Woken
    {
      MomentInv(sched, j);
      j := j + 1;
    }
    if PcAt(sched, w, j) == Waiting {
      MomentInv(sched, j);
      j := j + 1;
    }
    m := AwakePrints(sched, w, j);
    LinesGrow(sched, n, j);
  }

  /** From a moment at which nobody is about to pass on the turn. */
  lemma HolderPrints(sched: nat -> Action, w: Who, n: nat) returns (m: nat)
    requires StronglyFair(sched) && TurnAt(sched, n) == w && PcAt(sched, w, n) != Setting
    ensures n <= m && LinesAt(sched, m) > LinesAt(sched, n)
  {
    if PcAt(sched, w, n) == Waiting {
      m := WaiterPrints(sched, w, n);
    } else {
      m := AwakePrints(sched, w, n);
    }
  }

  /** With spurious wakeups, too, another line is always printed. */
  lemma NextLine(sched: nat -> Action, n: nat) returns (m: nat)
    requires StronglyFair(sched)
    ensures n <= m && LinesAt(sched, m) > LinesAt(sched, n)
  {
    var w := TurnAt(sched, n);
    if PcAt(sched, w, n) == Setting {
      var k := RunsSometime(sched, w, n);
      MomentInv(sched, k);
      m := HolderPrints(sched, Other(w), k + 1);
      LinesGrow(sched, n, k + 1);
    } else {
      m := HolderPrints(sched, w, n);
    }
  }

  /** Under every strongly fair schedule, whatever spurious wakeups it holds, the two threads print in
      alternation for ever. */
  lemma {:induction false} AlternatesForever(sched: nat -> Action, lines: nat) returns (m: nat)
    requires StronglyFair(sched)
    ensures LinesAt(sched, m) >= lines
    ensures forall k | 0 <= k < LinesAt(sched, m) :: StateAt(sched, m).log[k] == Expected(k)
  {
    m := 0;
    if lines > 0 {
      m := AlternatesForever(sched, lines - 1);
      m := NextLine(sched, m);
    }
    MomentInv(sched, m);
  }

  // ---------- there are strongly fair schedules ----------

  /** One thread has precedence; whoever runs gives it to the other. */
  datatype Pair = Pair(s: State, first: Who)

  function Chosen(p: Pair): Who {
    if Enabled(p.s, Go(p.first)) then p.first else Other(p.first)
  }

  function PairAt(n: nat): Pair {
    if n == 0 then Pair(INIT, Child)
    else
      var p := PairAt(n - 1);
      Pair(Next(p.s, Go(Chosen(p))), if Enabled(p.s, Go(Chosen(p))) then Other(Chosen(p)) else p.first)
  }

  predicate FollowsAt(sched: nat -> Action, n: nat) {
    sched(n) == Go(Chosen(PairAt(n)))
  }

  ghost predicate Follows(sched: nat -> Action) {
    forall n: nat :: FollowsAt(sched, n)
  }

  lemma {:induction false} PairFollowed(sched: nat -> Action, n: nat)
    requires Follows(sched)
    ensures StateAt(sched, n) == PairAt(n).s
  {
    if n > 0 {
      PairFollowed(sched, n - 1);
      assert FollowsAt(sched, n - 1);
    }
  }

  /** A thread that is able and does not run has precedence next; one with precedence keeps it till then. */
  lemma GetsPrecedence(sched: nat -> Action, w: Who, n: nat)
    requires Follows(sched) && !RunsAt(sched, w, n)
    ensures AbleAt(sched, w, n) ==> PairAt(n).first != w && PairAt(n + 1).first == w
    ensures PairAt(n).first == w ==> PairAt(n + 1).first == w
  {
    PairFollowed(sched, n);
    assert FollowsAt(sched, n);
  }

  ghost function Places(w: Who): nat -> nat {
    (m: nat) => if PairAt(m).first == w then 0 else 1
  }

  lemma PairAdvances(sched: nat -> Action, w: Who, m: nat)
    requires Follows(sched)
    ensures Advances(Able(sched, w), Runs(sched, w), Places(w), m)
  {
    if !RunsAt(sched, w, m) {
      GetsPrecedence(sched, w, m);
    }
    assert Runs(sched, w)(m) == RunsAt(sched, w, m) && Able(sched, w)(m) == AbleAt(sched, w, m);
  }

  lemma PairIsFair() returns (sched: nat -> Action)
    ensures StronglyFair(sched)
  {
    sched := (n: nat) => Go(Chosen(PairAt(n)));
    assert forall n: nat :: FollowsAt(sched, n);
    forall w: Who, n: nat
      ensures TreatedFrom(sched, w, n)
    {
      forall m: nat
        ensures Advances(Able(sched, w), Runs(sched, w), Places(w), m)
      {
        PairAdvances(sched, w, m);
      }
      PlacesTreat(Able(sched, w), Runs(sched, w), Places(w), n);
    }
  }
}
