/** Two threads that take turns through one mutex and one condition variable: lab3/4/hellothread.c. */
module TurnTaking {
  import opened Options

  datatype Who = Child | Parent

  datatype Pc = Locking | Checking | Waiting | Woken | Printing | Setting | Signalling | Unlocking

  datatype State = State(turn: Who, mutex: Option<Who>, child: Pc, parent: Pc, log: seq<Who>)

  /** `Go` runs the next statement of a thread; a waiter may also wake without a signal. */
  datatype Action = Go(w: Who) | Spurious(w: Who)

  const INIT := State(Child, None, Locking, Locking, [])

  function Other(w: Who): Who {
    if w == Child then Parent else Child
  }

  function PcOf(s: State, w: Who): Pc {
    if w == Child then s.child else s.parent
  }

  function Move(s: State, w: Who, pc: Pc): State {
    if w == Child then s.(child := pc) else s.(parent := pc)
  }

  predicate Enabled(s: State, a: Action) {
    match a
    case Spurious(w) => PcOf(s, w) == Waiting
    case Go(w) =>
      match PcOf(s, w)
      case Locking => s.mutex == None
      case Woken => s.mutex == None
      case Waiting => false
      case _ => true
  }

  function Apply(s: State, a: Action): State
    requires Enabled(s, a)
  {
    match a
    case Spurious(w) => Move(s, w, Woken)
    case Go(w) =>
      match PcOf(s, w)
      case Checking => if s.turn != w then Move(s, w, Waiting).(mutex := None) else Move(s, w, Printing)
      case Printing => Move(s, w, Setting).(log := s.log + [w])
      case Setting => Move(s, w, Signalling).(turn := Other(w))
      case Signalling => // the only thread that can be waiting is the other one
        var s' := Move(s, w, Unlocking);
        if PcOf(s, Other(w)) == Waiting then Move(s', Other(w), Woken) else s'
      case Unlocking => Move(s, w, Locking).(mutex := None)
      case _ => Move(s, w, Checking).(mutex := Some(w))
  }

  predicate IsRun(s: State, acts: seq<Action>)
    decreases |acts|
  {
    acts == [] || (Enabled(s, acts[0]) && IsRun(Apply(s, acts[0]), acts[1..]))
  }

  function After(s: State, acts: seq<Action>): State
    requires IsRun(s, acts)
    decreases |acts|
  {
    if acts == [] then s else After(Apply(s, acts[0]), acts[1..])
  }

  // ---------- what every step keeps ----------

  /** Whose line comes at position k of the output: child, parent, child, parent, ... */
  function Expected(k: nat): Who {
    if k % 2 == 0 then Child else Parent
  }

  predicate InCritical(pc: Pc) {
    !pc.Locking? && !pc.Waiting? && !pc.Woken?
  }

  predicate ThreadOk(s: State, w: Who) {
    var pc := PcOf(s, w);
    && (InCritical(pc) <==> s.mutex == Some(w))
    && (pc == Printing || pc == Setting ==> s.turn == w)
    && (pc == Signalling || pc == Unlocking ==> s.turn != w)
    && (pc == Waiting && s.turn == w ==> PcOf(s, Other(w)) == Signalling)
    && (pc == Setting ==> Expected(|s.log|) != w)
  }

  predicate Inv(s: State) {
    && ThreadOk(s, Child) && ThreadOk(s, Parent)
    && (s.child != Setting && s.parent != Setting ==> s.turn == Expected(|s.log|))
    && forall k | 0 <= k < |s.log| :: s.log[k] == Expected(k)
  }

  lemma StepKeepsInv(s: State, a: Action)
    requires Inv(s) && Enabled(s, a)
    ensures Inv(Apply(s, a)) && s.log <= Apply(s, a).log
  {
  }

  lemma {:induction false} RunKeepsInv(s: State, acts: seq<Action>)
    requires Inv(s) && IsRun(s, acts)
    ensures Inv(After(s, acts)) && s.log <= After(s, acts).log
    decreases |acts|
  {
    if acts != [] {
      StepKeepsInv(s, acts[0]);
      RunKeepsInv(Apply(s, acts[0]), acts[1..]);
    }
  }

  /** In every run the output is child, parent, child, parent, ... */
  lemma StrictAlternation(acts: seq<Action>)
    requires IsRun(INIT, acts)
    ensures forall k | 0 <= k < |After(INIT, acts).log| :: After(INIT, acts).log[k] == Expected(k)
  {
    RunKeepsInv(INIT, acts);
  }

  /** A thread waits on its own turn only while the other has set `turn` and not yet signalled. */
  lemma WaitsOnOwnTurnBriefly(acts: seq<Action>, w: Who)
    requires IsRun(INIT, acts)
    requires PcOf(After(INIT, acts), w) == Waiting && After(INIT, acts).turn == w
    ensures PcOf(After(INIT, acts), Other(w)) == Signalling
  {
    RunKeepsInv(INIT, acts);
  }

  /** The thread that can run: whoever is inside, or else whoever's turn it is. */
  function Mover(s: State): Who {
    match s.mutex case Some(w) => w case None => s.turn
  }

  lemma MoverCanGo(s: State)
    requires Inv(s)
    ensures Enabled(s, Go(Mover(s)))
  {
  }

  /** No deadlock, although both directions share one condition variable. */
  lemma SomeoneCanGo(acts: seq<Action>)
    requires IsRun(INIT, acts)
    ensures Enabled(After(INIT, acts), Go(Child)) || Enabled(After(INIT, acts), Go(Parent))
  {
    RunKeepsInv(INIT, acts);
    MoverCanGo(After(INIT, acts));
  }

  // ---------- the turns go on for ever ----------

  /** An endless schedule; a thread that cannot run when chosen does nothing. */
  function At(sched: nat -> Who, n: nat): State {
    if n == 0 then INIT else Tick(At(sched, n - 1), sched(n - 1))
  }

  function Tick(s: State, w: Who): State {
    if Enabled(s, Go(w)) then Apply(s, Go(w)) else s
  }

  ghost predicate Fair(sched: nat -> Who) {
    forall w: Who, n: nat :: ChosenAgain(sched, w, n)
  }

  ghost predicate ChosenAgain(sched: nat -> Who, w: Who, n: nat) {
    exists m: nat :: ChosenAt(sched, w, n, m)
  }

  predicate ChosenAt(sched: nat -> Who, w: Who, n: nat, m: nat) {
    n <= m && sched(m) == w
  }

  /** The most statements the two threads can run before the next line is printed. */
  function Rank(s: State): nat {
    var t, n := PcOf(s, s.turn), PcOf(s, Other(s.turn));
    if t == Setting then 12 else RankTurn(t) + RankOther(n)
  }

  function RankTurn(pc: Pc): nat {
    match pc
    case Waiting => 4
    case Checking => 2
    case Printing => 1
    case _ => 3
  }

  function RankOther(pc: Pc): nat {
    match pc
    case Signalling => 7
    case Unlocking => 6
    case Locking => 5
    case Woken => 5
    case Checking => 4
    case _ => 0
  }

  lemma StepLowersRank(s: State, w: Who)
    requires Inv(s) && Enabled(s, Go(w))
    ensures |Apply(s, Go(w)).log| > |s.log| || Rank(Apply(s, Go(w))) < Rank(s)
    ensures |Apply(s, Go(w)).log| >= |s.log|
  {
  }

  lemma {:induction false} AtInv(sched: nat -> Who, n: nat)
    ensures Inv(At(sched, n))
  {
    if n > 0 {
      AtInv(sched, n - 1);
      if Enabled(At(sched, n - 1), Go(sched(n - 1))) {
        StepKeepsInv(At(sched, n - 1), Go(sched(n - 1)));
      }
    }
  }

  /** Either a step is taken between n and m, or the state at m is still the one at n. */
  lemma {:induction false} FirstStep(sched: nat -> Who, n: nat, m: nat) returns (k: nat)
    requires n <= m && (Enabled(At(sched, m), Go(sched(m))) || At(sched, m) != At(sched, n))
    ensures n <= k <= m && At(sched, k) == At(sched, n) && Enabled(At(sched, k), Go(sched(k)))
  {
    k := n;
    while !Enabled(At(sched, k), Go(sched(k)))
      invariant n <= k <= m && At(sched, k) == At(sched, n)
      decreases m - k
    {
      k := k + 1;
    }
  }

  /** Under a fair schedule another line is always printed. */
  lemma {:induction false} NextLine(sched: nat -> Who, n: nat) returns (m: nat)
    requires Fair(sched)
    ensures m >= n && |At(sched, m).log| > |At(sched, n).log|
    decreases Rank(At(sched, n))
  {
    var s := At(sched, n);
    AtInv(sched, n);
    MoverCanGo(s);
    assert ChosenAgain(sched, Mover(s), n);
    var f: nat :| ChosenAt(sched, Mover(s), n, f);
    var k := FirstStep(sched, n, f);
    StepLowersRank(s, sched(k));
    if |At(sched, k + 1).log| > |s.log| {
      m := k + 1;
    } else {
      m := NextLine(sched, k + 1);
    }
  }

  /** Under every fair schedule the two threads print in alternation for ever. */
  lemma {:induction false} AlternatesForever(sched: nat -> Who, lines: nat) returns (m: nat)
    requires Fair(sched)
    ensures |At(sched, m).log| >= lines
    ensures forall k | 0 <= k < |At(sched, m).log| :: At(sched, m).log[k] == Expected(k)
  {
    if lines == 0 {
      m := 0;
    } else {
      m := AlternatesForever(sched, lines - 1);
      m := NextLine(sched, m);
    }
    AtInv(sched, m);
  }
}
