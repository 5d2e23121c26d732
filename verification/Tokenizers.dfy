/** The two in-place tokenizers: parse_args of project1/myshell.c and getargs of lab2/ch8/simplesh.c.
    A pointer into a buffer is an offset; NULL is `None`. */
module Tokenizers {
  import opened Options
  import opened Text

  predicate Gap(c: char) {
    Blank(SpaceTab, c)
  }

  function Tokens(line: string): seq<string> {
    Words(SpaceTab, line)
  }

  /** A NULL-terminated pointer array whose entries, read as C strings, are the given words. */
  predicate Holds(buf: string, args: seq<Option<nat>>, ws: seq<string>) {
    && |ws| < |args| && args[|ws|] == None
    && forall k | 0 <= k < |ws| ::
         args[k].Some? && args[k].value <= |buf| && CString(buf, args[k].value) == ws[k]
  }

  /** The pointers are exactly the given positions, and NULL ends them. */
  predicate PointsAt(args: seq<Option<nat>>, ps: seq<nat>) {
    && |ps| < |args| && args[|ps|] == None
    && forall k | 0 <= k < |ps| :: args[k] == Some(ps[k])
  }

  // ---------- where words begin ----------

  predicate Begins(line: string, i: nat) {
    i < |line| && !Gap(line[i]) && (i > 0 ==> Gap(line[i - 1]))
  }

  /** The places before i where a word begins. */
  function Starts(line: string, i: nat): (ps: seq<nat>)
    requires i <= |line|
    ensures |ps| <= i && forall k | 0 <= k < |ps| :: ps[k] < i
  {
    if i == 0 then [] else if Begins(line, i - 1) then Starts(line, i - 1) + [i - 1] else Starts(line, i - 1)
  }

  lemma {:induction false} NoStartInside(line: string, i: nat, j: nat)
    requires i <= j <= |line| && forall k | i <= k < j :: !Begins(line, k)
    ensures Starts(line, i) == Starts(line, j)
    decreases j - i
  {
    if i < j {
      NoStartInside(line, i, j - 1);
    }
  }

  lemma {:induction false} FewerStarts(line: string, i: nat, j: nat)
    requires i <= j <= |line|
    ensures |Starts(line, i)| <= |Starts(line, j)|
    decreases j - i
  {
    if i < j {
      FewerStarts(line, i, j - 1);
    }
  }

  /** The maximal run that begins at p. */
  function RunAt(line: string, p: nat): string
    requires p <= |line|
  {
    line[p..WordEnd(line, p)]
  }

  function WordEnd(line: string, p: nat): nat
    requires p <= |line|
  {
    RunEnd(SpaceTab, line, p)
  }

  function RunsAt(line: string, ps: seq<nat>): seq<string>
    requires forall k | 0 <= k < |ps| :: ps[k] <= |line|
  {
    seq(|ps|, k requires 0 <= k < |ps| => RunAt(line, ps[k]))
  }

  /** The words are the maximal runs at the places where a word begins. */
  lemma WordsAreRuns(line: string)
    ensures Tokens(line) == RunsAt(line, Starts(line, |line|))
  {
    RunsThenWords(line, 0);
  }

  lemma {:induction false} RunsThenWords(line: string, i: nat)
    requires i <= |line| && AtEdge(line, i)
    ensures RunsAt(line, Starts(line, i)) + WordsFrom(SpaceTab, line, i) == RunsAt(line, Starts(line, |line|))
    decreases |line| - i
  {
    if i < |line| {
      var e := WordEnd(line, i);
      if Gap(line[i]) {
        RunsThenWords(line, i + 1);
      } else {
        StartsSkipRun(line, i);
        RunsThenWords(line, e);
        assert RunsAt(line, Starts(line, e)) == RunsAt(line, Starts(line, i)) + [RunAt(line, i)];
      }
    }
  }

  lemma StartsSkipRun(line: string, i: nat)
    requires i < |line| && Begins(line, i)
    ensures Starts(line, WordEnd(line, i)) == Starts(line, i) + [i]
  {
    forall k | i < k < WordEnd(line, i)
      ensures !Begins(line, k)
    {
      RunSolid(SpaceTab, line, i, k - 1);
    }
    NoStartInside(line, i + 1, WordEnd(line, i));
  }

  /** A position where no word is under way. */
  predicate AtEdge(line: string, p: nat) {
    p == 0 || p >= |line| || Gap(line[p]) || Gap(line[p - 1])
  }

  // ---------- what the buffers look like afterwards ----------

  /** Words are intact and each is followed by a NUL; other blanks may or may not be kept. */
  predicate Cut(buf: string, line: string) {
    && |line| < |buf| && buf[|line|] == NUL
    && forall j | 0 <= j < |line| ::
         && (!Gap(line[j]) ==> buf[j] == line[j])
         && (j > 0 && Gap(line[j]) && !Gap(line[j - 1]) ==> buf[j] == NUL)
  }

  /** parse_args overwrites the first blank after each word, getargs overwrites every blank. */
  datatype Style = AfterWords | AllBlanks

  predicate CutsAt(style: Style, line: string, j: nat) {
    j < |line| && Gap(line[j]) && (style == AfterWords ==> j > 0 && !Gap(line[j - 1]))
  }

  function CutLine(style: Style, line: string): string {
    seq(|line|, j requires 0 <= j < |line| => if CutsAt(style, line, j) then NUL else line[j])
  }

  lemma CutGivesRun(buf: string, line: string, p: nat)
    requires Cut(buf, line) && NUL !in line && p < |line| && !Gap(line[p])
    ensures CString(buf, p) == RunAt(line, p)
  {
    var e := WordEnd(line, p);
    forall i | p <= i < e
      ensures buf[i] == line[i] && line[i] != NUL
    {
      RunSolid(SpaceTab, line, p, i);
      assert line[i] in line;
    }
    if e < |line| {
      RunSolid(SpaceTab, line, p, e - 1);
    }
    StringEndIs(buf, p, e);
  }

  /** Either way of cutting makes the beginnings of words read as the words. */
  lemma CutHolds(buf: string, line: string, args: seq<Option<nat>>)
    requires Cut(buf, line) && NUL !in line
    requires PointsAt(args, Starts(line, |line|))
    ensures Holds(buf, args, Tokens(line))
  {
    WordsAreRuns(line);
    var ps := Starts(line, |line|);
    forall k | 0 <= k < |ps|
      ensures ps[k] <= |buf| && CString(buf, ps[k]) == RunAt(line, ps[k])
    {
      StartsBegin(line, |line|, k);
      CutGivesRun(buf, line, ps[k]);
    }
  }

  lemma {:induction false} StartsBegin(line: string, i: nat, k: nat)
    requires i <= |line| && k < |Starts(line, i)|
    ensures Begins(line, Starts(line, i)[k])
  {
    if k < |Starts(line, i - 1)| {
      StartsBegin(line, i - 1, k);
    }
  }

  lemma CutLineCuts(style: Style, line: string, tail: string)
    requires tail != "" && tail[0] == NUL
    ensures Cut(CutLine(style, line) + tail, line)
  {
  }

  /** The two buffers are equal exactly when every blank directly follows a word. */
  lemma BuffersEqualIff(line: string)
    requires NUL !in line
    ensures CutLine(AfterWords, line) == CutLine(AllBlanks, line)
            <==> forall j | 0 <= j < |line| && Gap(line[j]) :: j > 0 && !Gap(line[j - 1])
  {
    var u, v := CutLine(AfterWords, line), CutLine(AllBlanks, line);
    forall j | 0 <= j < |line|
      ensures u[j] == v[j] <==> (Gap(line[j]) ==> j > 0 && !Gap(line[j - 1]))
    {
      assert line[j] in line;
    }
    if u == v {
      forall j | 0 <= j < |line| && Gap(line[j])
        ensures j > 0 && !Gap(line[j - 1])
      {
        assert u[j] == v[j];
      }
    }
  }

  /** The tokenizers agree on every line: the pointers that both of them leave read as the same words
      in either buffer, although the buffers may differ. */
  lemma TokenizersAgree(line: string, tail: string, args: seq<Option<nat>>)
    requires NUL !in line && tail != "" && tail[0] == NUL
    requires PointsAt(args, Starts(line, |line|))
    ensures forall style :: Holds(CutLine(style, line) + tail, args, Tokens(line))
    ensures CutLine(AfterWords, line) == CutLine(AllBlanks, line)
            <==> forall j | 0 <= j < |line| && Gap(line[j]) :: j > 0 && !Gap(line[j - 1])
  {
    forall style: Style
      ensures Holds(CutLine(style, line) + tail, args, Tokens(line))
    {
      CutLineCuts(style, line, tail);
      CutHolds(CutLine(style, line) + tail, line, args);
    }
    BuffersEqualIff(line);
  }

  // ---------- the loops ----------

  /** The line of a buffer, character by character. */
  predicate LineOf(buf: string, line: string) {
    && |line| < |buf| && buf[|line|] == NUL
    && forall j {:trigger line[j]} | 0 <= j < |line| :: line[j] == buf[j] && line[j] != NUL
  }

  /** How far a tokenizer has come: it stands at character i of the line, with `count` pointers set. */
  predicate Scanned(style: Style, cur: string, buf: string, args: seq<Option<nat>>,
                    count: nat, line: string, i: nat)
  {
    && LineOf(buf, line) && i <= |line| && |cur| == |buf|
    && (forall j {:trigger cur[j]} | 0 <= j < i :: cur[j] == if CutsAt(style, line, j) then NUL else line[j])
    && (forall j {:trigger cur[j]} | i <= j < |buf| :: cur[j] == buf[j])
    && count == |Starts(line, i)| <= |Starts(line, |line|)| < |args|
    && (forall k | 0 <= k < |Starts(line, i)| :: args[k] == Some(Starts(line, i)[k]))
  }

  lemma ScanStart(style: Style, buf: string, args: seq<Option<nat>>, line: string)
    requires NUL in buf && line == Upto(buf) && |Tokens(line)| < |args|
    ensures NUL !in line && Scanned(style, buf, buf, args, 0, line, 0)
  {
    WordsAreRuns(line);
    NoNulInside(buf, 0);
    assert forall j | 0 <= j < |line| :: line[j] == buf[j];
  }

  // What reading one character does: a blank is overwritten, a pointer is stored, or nothing happens.

  lemma ScanBegin(style: Style, cur: string, buf: string, args: seq<Option<nat>>,
                 count: nat, line: string, i: nat)
    requires Scanned(style, cur, buf, args, count, line, i) && i < |line|
    requires Begins(line, i)
    ensures count < |args| && Scanned(style, cur, buf, args[count := Some(i)], count + 1, line, i + 1)
  {
    FewerStarts(line, i + 1, |line|);
  }

  lemma InWord(line: string, p: nat, j: nat)
    requires p <= j <= |line| && j <= WordEnd(line, p)
    ensures j == WordEnd(line, p) <==> j == |line| || Gap(line[j])
  {
    if j < WordEnd(line, p) {
      RunSolid(SpaceTab, line, p, j);
    }
  }

  /** Nothing happens inside a word. */
  lemma {:induction false} ScanSkip(style: Style, cur: string, buf: string, args: seq<Option<nat>>,
                                    count: nat, line: string, i: nat, j: nat)
    requires Scanned(style, cur, buf, args, count, line, i)
    requires 0 < i <= j <= WordEnd(line, i - 1) && !Gap(line[i - 1])
    ensures Scanned(style, cur, buf, args, count, line, j)
    decreases j - i
  {
    if i < j {
      InWord(line, i - 1, i);
      ScanSkip(style, cur, buf, args, count, line, i + 1, j);
    }
  }

  lemma ScanEnd(style: Style, cur: string, buf: string, args: seq<Option<nat>>,
                count: nat, line: string)
    requires Scanned(style, cur, buf, args, count, line, |line|) && NUL !in line
    ensures count == |Tokens(line)| < |args|
    ensures cur == CutLine(style, line) + buf[|line|..]
    ensures PointsAt(args[count := None], Starts(line, |line|))
    ensures Holds(cur, args[count := None], Tokens(line))
  {
    WordsAreRuns(line);
    assert cur == CutLine(style, line) + buf[|line|..];
    CutLineCuts(style, line, buf[|line|..]);
    CutHolds(cur, line, args[count := None]);
  }

  method ParseArgs(input: array<char>, args: array<Option<nat>>) returns (argCount: nat)
    requires NUL in input[..] && |Tokens(Upto(input[..]))| < args.Length
    modifies input, args
    ensures var line := old(Upto(input[..]));
            && input[..] == CutLine(AfterWords, line) + old(input[..])[|line|..]
            && argCount == |Tokens(line)|
            && PointsAt(args[..], Starts(line, |line|))
            && Holds(input[..], args[..], Tokens(line))
  {
    ghost var buf, line := input[..], Upto(input[..]);
    ScanStart(AfterWords, buf, args[..], line);
    var i := 0;
    argCount := 0;
    var inWord := false;
    while input[i] != NUL
      invariant i <= |line| < input.Length
      invariant inWord <==> i > 0 && !Gap(line[i - 1])
      invariant Scanned(AfterWords, input[..], buf, args[..], argCount, line, i)
      decreases |line| - i
    {
      ghost var cur, ps := input[..], args[..];
      assert cur[i] == line[i];
      if input[i] == ' ' || input[i] == '\t' {
        if inWord {
          input[i] := NUL;
          assert input[..] == cur[i := NUL];
          inWord := false;
        }
      } else {
        if !inWord {
          ScanBegin(AfterWords, cur, buf, ps, argCount, line, i);
          args[argCount] := Some(i);
          assert args[..] == ps[argCount := Some(i)];
          argCount := argCount + 1;
          inWord := true;
        }
      }
      i := i + 1;
    }
    ScanEnd(AfterWords, input[..], buf, args[..], argCount, line);
    ghost var ps := args[..];
    args[argCount] := None;
    assert args[..] == ps[argCount := None];
  }

  /** The inner loop of getargs: on to the end of the word. */
  method SkipWord(cmd: array<char>, start: nat, ghost line: string) returns (p: nat)
    requires start < |line| < cmd.Length && cmd[|line|] == NUL && !Gap(line[start])
    requires forall j | start <= j < |line| :: cmd[j] == line[j] != NUL
    ensures p == WordEnd(line, start) > start
  {
    InWord(line, start, start);
    p := start + 1;
    while cmd[p] != NUL && cmd[p] != ' ' && cmd[p] != '\t'
      invariant start < p <= WordEnd(line, start)
      decreases |line| - p
    {
      assert p < |line| ==> cmd[p] == line[p];
      InWord(line, start, p);
      p := p + 1;
    }
    assert p < |line| ==> cmd[p] == line[p];
    InWord(line, start, p);
  }

  method GetArgs(cmd: array<char>, argv: array<Option<nat>>) returns (narg: nat)
    requires NUL in cmd[..] && |Tokens(Upto(cmd[..]))| < argv.Length
    modifies cmd, argv
    ensures var line := old(Upto(cmd[..]));
            && cmd[..] == CutLine(AllBlanks, line) + old(cmd[..])[|line|..]
            && narg == |Tokens(line)|
            && PointsAt(argv[..], Starts(line, |line|))
            && Holds(cmd[..], argv[..], Tokens(line))
  {
    ghost var buf, line := cmd[..], Upto(cmd[..]);
    ScanStart(AllBlanks, buf, argv[..], line);
    var p := 0;
    narg := 0;
    while cmd[p] != NUL
      invariant p <= |line| < cmd.Length && AtEdge(line, p)
      invariant Scanned(AllBlanks, cmd[..], buf, argv[..], narg, line, p)
      decreases |line| - p
    {
      ghost var cur, ps, q := cmd[..], argv[..], p;
      assert cur[p] == line[p];
      if cmd[p] == ' ' || cmd[p] == '\t' {
        cmd[p] := NUL;
        assert cmd[..] == cur[p := NUL];
        p := p + 1;
      } else {
        ScanBegin(AllBlanks, cur, buf, ps, narg, line, p);
        argv[narg] := Some(p);
        assert argv[..] == ps[narg := Some(p)];
        narg := narg + 1;
        p := SkipWord(cmd, p, line);
        InWord(line, q, p);
        ScanSkip(AllBlanks, cur, buf, argv[..], narg, line, q + 1, p);
      }
    }
    ScanEnd(AllBlanks, cmd[..], buf, argv[..], narg, line);
    ghost var ps := argv[..];
    argv[narg] := None;
    assert argv[..] == ps[narg := None];
  }
}
