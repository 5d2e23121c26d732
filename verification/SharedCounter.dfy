/** A writer and a reader on one mapped word, with no mutual exclusion: lab2/memorymapfile.c.
    Parent and child share one open file description, so neither flock ever blocks the other;
    the locks are therefore left out and every read and write of the word is one step. */
module SharedCounter {

  /** The reader's initial `last`, (uint64_t)-1. */
  const NEVER: nat := 0xFFFF_FFFF_FFFF_FFFF

  datatype Writer = Zeroing | Writing(i: nat) | Joining | Finished

  datatype Reader = Reading | Comparing(v: nat) | Exited

  /** `bound` is the last value written (50 in the program); `printed` is the reader's output. */
  datatype State = State(bound: nat, counter: nat, writer: Writer, reader: Reader, last: nat, printed: seq<nat>)

  datatype Who = Parent | Child

  function Init(bound: nat): State {
    State(bound, 0, Zeroing, Reading, NEVER, [])
  }

  predicate Enabled(s: State, w: Who) {
    match w
    case Parent => s.writer != Finished && (s.writer == Joining ==> s.reader == Exited)
    case Child => s.reader != Exited
  }

  function Apply(s: State, w: Who): State
    requires Enabled(s, w)
  {
    match w
    case Parent => (
      match s.writer
      case Zeroing => s.(counter := 0, writer := Writing(0))
      case Writing(i) => s.(counter := i, writer := if i < s.bound then Writing(i + 1) else Joining)
      case _ => s.(writer := Finished))
    case Child =>
      match s.reader
      case Reading => s.(reader := Comparing(s.counter))
      case Comparing(v) =>
        if v == s.last then s.(reader := Reading)
        else s.(printed := s.printed + [v], last := v, reader := if v >= s.bound then Exited else Reading)
  }

  predicate IsRun(s: State, acts: seq<Who>)
    decreases |acts|
  {
    acts == [] || (Enabled(s, acts[0]) && IsRun(Apply(s, acts[0]), acts[1..]))
  }

  function After(s: State, acts: seq<Who>): State
    requires IsRun(s, acts)
    decreases |acts|
  {
    if acts == [] then s else After(Apply(s, acts[0]), acts[1..])
  }

  // ---------- what every step keeps ----------

  predicate Increasing(xs: seq<nat>) {
    forall i, j | 0 <= i < j < |xs| :: xs[i] < xs[j]
  }

  predicate Inv(s: State) {
    && s.bound < NEVER && s.counter <= s.bound
    && (match s.writer
        case Zeroing => s.counter == 0
        case Writing(i) => i <= s.bound && s.counter == (if i == 0 then 0 else i - 1)
        case _ => s.counter == s.bound)
    && Increasing(s.printed)
    && (forall k | 0 <= k < |s.printed| :: s.printed[k] <= s.last)
    && (if s.printed == [] then s.last == NEVER else s.last == s.printed[|s.printed| - 1] <= s.counter)
    && (s.reader.Comparing? ==> s.reader.v <= s.counter && (s.printed != [] ==> s.last <= s.reader.v))
    && (s.reader == Exited <==> s.last == s.bound)
    && (s.writer == Finished ==> s.reader == Exited)
  }

  lemma StepKeepsInv(s: State, w: Who)
    requires Inv(s) && Enabled(s, w)
    ensures Inv(Apply(s, w))
    ensures s.counter <= Apply(s, w).counter
  {
  }

  lemma {:induction false} RunKeepsInv(s: State, acts: seq<Who>)
    requires Inv(s) && IsRun(s, acts)
    ensures Inv(After(s, acts)) && After(s, acts).bound == s.bound
    ensures s.counter <= After(s, acts).counter
    decreases |acts|
  {
    if acts != [] {
      StepKeepsInv(s, acts[0]);
      RunKeepsInv(Apply(s, acts[0]), acts[1..]);
    }
  }

  /** In every interleaving the reader prints ever larger values, none above the bound or above what
      has been written; it exits exactly on printing the bound, and the parent finishes after it. */
  lemma ObservesInOrder(bound: nat, acts: seq<Who>)
    requires bound < NEVER && IsRun(Init(bound), acts)
    ensures var s := After(Init(bound), acts);
            && Increasing(s.printed)
            && (forall k | 0 <= k < |s.printed| :: s.printed[k] <= s.counter <= bound)
            && (s.reader == Exited <==> s.printed != [] && s.printed[|s.printed| - 1] == bound)
            && (s.writer == Finished ==> s.reader == Exited)
  {
    RunKeepsInv(Init(bound), acts);
  }

  /** The counter never decreases between two moments of a run. */
  lemma CounterNeverDecreases(bound: nat, acts: seq<Who>, more: seq<Who>)
    requires bound < NEVER && IsRun(Init(bound), acts) && IsRun(After(Init(bound), acts), more)
    ensures After(Init(bound), acts).counter <= After(After(Init(bound), acts), more).counter
  {
    RunKeepsInv(Init(bound), acts);
    RunKeepsInv(After(Init(bound), acts), more);
  }

  // ---------- what the schedule says ----------

  function ParentSteps(acts: seq<Who>): nat {
    if acts == [] then 0 else (if acts[0] == Parent then 1 else 0) + ParentSteps(acts[1..])
  }

  /** How many statements the writer has run. */
  function Progress(s: State): nat {
    match s.writer
    case Zeroing => 0
    case Writing(i) => i + 1
    case Joining => s.bound + 2
    case Finished => s.bound + 3
  }

  lemma {:induction false} ProgressFollows(s: State, acts: seq<Who>)
    requires Inv(s) && IsRun(s, acts)
    ensures Progress(After(s, acts)) == Progress(s) + ParentSteps(acts)
    decreases |acts|
  {
    if acts != [] {
      StepKeepsInv(s, acts[0]);
      ProgressFollows(Apply(s, acts[0]), acts[1..]);
    }
  }

  /** The writer stores 0, and then every value 0, 1, ... up to the bound in turn: what the word holds
      follows from the number of its statements alone. */
  lemma EveryValueWritten(bound: nat, acts: seq<Who>)
    requires bound < NEVER && IsRun(Init(bound), acts)
    ensures var n := ParentSteps(acts);
            After(Init(bound), acts).counter == if n < 2 then 0 else if n - 2 <= bound then n - 2 else bound
  {
    RunKeepsInv(Init(bound), acts);
    ProgressFollows(Init(bound), acts);
  }

  /** The reader reads the word as it is, and prints what it has read unless it printed the same last;
      it stops at the bound. */
  lemma PrintsWhatItReads(s: State)
    requires Inv(s) && s.reader != Exited
    ensures s.reader == Reading ==> Apply(s, Child) == s.(reader := Comparing(s.counter))
    ensures s.reader.Comparing? ==>
              var s', v, n := Apply(s, Child), s.reader.v, |s.printed|;
              && s'.printed == (if n > 0 && s.printed[n - 1] == v then s.printed else s.printed + [v])
              && s'.counter == s.counter && s'.writer == s.writer
              && s'.reader == (if v == s.bound then Exited else Reading)
  {
  }

  // ---------- both loops finish ----------

  /** An endless schedule; a process that cannot run when chosen does nothing. */
  function At(bound: nat, sched: nat -> Who, n: nat): State {
    if n == 0 then Init(bound) else Tick(At(bound, sched, n - 1), sched(n - 1))
  }

  function Tick(s: State, w: Who): State {
    if Enabled(s, w) then Apply(s, w) else s
  }

  predicate ChosenAt(sched: nat -> Who, w: Who, n: nat, m: nat) {
    n <= m && sched(m) == w
  }

  ghost predicate ChosenAgain(sched: nat -> Who, w: Who, n: nat) {
    exists m: nat :: ChosenAt(sched, w, n, m)
  }

  ghost predicate Fair(sched: nat -> Who) {
    forall w: Who, n: nat :: ChosenAgain(sched, w, n)
  }

  /** Statements left: first the writer's, then, once the bound is stored, the reader's. */
  function Rank(s: State): int {
    match s.writer
    case Zeroing => s.bound + 8
    case Writing(i) => s.bound + 7 - i
    case Finished => 0
    case Joining =>
      match s.reader
      case Exited => 1
      case Comparing(v) => if v == s.bound then 2 else 4
      case Reading => 3
  }

  /** The process whose next step lowers the rank. */
  function Helper(s: State): Who {
    if s.writer == Joining && s.reader != Exited then Child else Parent
  }

  lemma {:induction false} AtInv(bound: nat, sched: nat -> Who, n: nat)
    requires bound < NEVER
    ensures Inv(At(bound, sched, n)) && At(bound, sched, n).bound == bound
  {
    if n > 0 {
      AtInv(bound, sched, n - 1);
      if Enabled(At(bound, sched, n - 1), sched(n - 1)) {
        StepKeepsInv(At(bound, sched, n - 1), sched(n - 1));
      }
    }
  }

  /** If the helper is chosen at m, the rank falls at some step up to m. */
  lemma {:induction false} RankFalls(bound: nat, sched: nat -> Who, n: nat, m: nat) returns (k: nat)
    requires bound < NEVER && n <= m && At(bound, sched, n).writer != Finished
    requires sched(m) == Helper(At(bound, sched, n))
    ensures 0 <= Rank(At(bound, sched, k)) < Rank(At(bound, sched, n))
    decreases m - n
  {
    AtInv(bound, sched, n);
    k := n + 1;
    if Rank(At(bound, sched, k)) == Rank(At(bound, sched, n)) {
      k := RankFalls(bound, sched, k, m);
    }
  }

  /** Under every fair schedule both loops finish, whatever the bound, and the last line is the bound. */
  lemma {:induction false} BothFinish(bound: nat, sched: nat -> Who, n: nat) returns (m: nat)
    requires bound < NEVER && Fair(sched)
    ensures At(bound, sched, m).writer == Finished && At(bound, sched, m).reader == Exited
    ensures var out := At(bound, sched, m).printed; out != [] && out[|out| - 1] == bound
    decreases Rank(At(bound, sched, n))
  {
    var s := At(bound, sched, n);
    AtInv(bound, sched, n);
    if s.writer == Finished {
      m := n;
    } else {
      assert ChosenAgain(sched, Helper(s), n);
      var f: nat :| ChosenAt(sched, Helper(s), n, f);
      var k := RankFalls(bound, sched, n, f);
      m := BothFinish(bound, sched, k);
    }
  }
}
