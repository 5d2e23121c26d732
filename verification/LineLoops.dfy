/** cat and grep of project1/commands.c: argument scans and fgets loops. */
module LineLoops {
  import opened Options
  import opened Text

  // ---------- fgets ----------

  /** Just past the first newline at or after pos, or the end of the file. */
  function LineEnd(file: string, pos: nat): (e: nat)
    requires pos <= |file|
    ensures pos <= e <= |file| && (pos < |file| ==> pos < e)
    decreases |file| - pos
  {
    if pos == |file| then pos else if file[pos] == '\n' then pos + 1 else LineEnd(file, pos + 1)
  }

  /** Where fgets stops: after a newline, or when its buffer is full but for the NUL. */
  function ChunkEnd(file: string, pos: nat, size: nat): (e: nat)
    requires pos <= |file| && size >= 2
    ensures pos <= e <= |file| && (pos < |file| ==> pos < e)
  {
    var e := LineEnd(file, pos);
    if e - pos <= size - 1 then e else pos + size - 1
  }

  /** What successive calls of fgets return. */
  function Chunks(file: string, pos: nat, size: nat): seq<string>
    requires pos <= |file| && size >= 2
    decreases |file| - pos
  {
    if pos == |file| then []
    else [file[pos..ChunkEnd(file, pos, size)]] + Chunks(file, ChunkEnd(file, pos, size), size)
  }

  lemma ChunkStep(file: string, pos: nat, size: nat, done: seq<string>)
    requires size >= 2 && pos < |file| && Chunks(file, 0, size) == done + Chunks(file, pos, size)
    ensures var e := ChunkEnd(file, pos, size);
            Chunks(file, 0, size) == done + [file[pos..e]] + Chunks(file, e, size)
  {
  }

  /** The lines of the file, each with its newline. */
  function Lines(file: string, pos: nat): seq<string>
    requires pos <= |file|
    decreases |file| - pos
  {
    if pos == |file| then [] else [file[pos..LineEnd(file, pos)]] + Lines(file, LineEnd(file, pos))
  }

  /** A line has no newline but at its end, and only the last line of the file may lack one. */
  lemma {:induction false} LineShape(file: string, pos: nat)
    requires pos < |file|
    ensures var e := LineEnd(file, pos);
            && (forall k | pos <= k < e - 1 :: file[k] != '\n')
            && (e < |file| ==> file[e - 1] == '\n')
    decreases |file| - pos
  {
    if file[pos] != '\n' && pos + 1 < |file| {
      LineShape(file, pos + 1);
    }
  }

  /** A piece that fgets reads ends at the first newline, or at the end of the file, or else fills the
      buffer but for one place. */
  lemma PieceShape(file: string, pos: nat, size: nat)
    requires pos < |file| && size >= 2
    ensures var e := ChunkEnd(file, pos, size);
            && pos < e <= |file| && e - pos <= size - 1
            && (forall k | pos <= k < e - 1 :: file[k] != '\n')
            && (e < |file| && file[e - 1] != '\n' ==> e - pos == size - 1)
  {
    LineShape(file, pos);
  }

  /** What the program sees of the pieces: the C strings at the front of the buffer. */
  function Strings(xs: seq<string>): seq<string> {
    seq(|xs|, k requires 0 <= k < |xs| => Upto(xs[k]))
  }

  lemma StringsAppend(xs: seq<string>, x: string)
    ensures Strings(xs + [x]) == Strings(xs) + [Upto(x)]
  {
  }

  lemma UptoAll(x: string)
    ensures NUL !in x ==> Upto(x) == x
    ensures |Upto(x)| <= |x| && (NUL in x ==> |Upto(x)| < |x|)
  {
    NoNulInside(x, 0);
    if NUL !in x {
      StringEndIs(x, 0, |x|);
    }
  }

  /** The C strings of the pieces make up the whole exactly when there is no NUL in it. */
  lemma {:induction false} StringsWhole(xs: seq<string>)
    ensures NUL !in Concat(xs) ==> Strings(xs) == xs
    ensures |Concat(Strings(xs))| <= |Concat(xs)|
    ensures NUL in Concat(xs) ==> |Concat(Strings(xs))| < |Concat(xs)|
  {
    if xs != [] {
      var front, x := xs[..|xs| - 1], xs[|xs| - 1];
      assert xs == front + [x];
      StringsWhole(front);
      StringsAppend(front, x);
      ConcatAppend(Strings(front), Upto(x));
      UptoAll(x);
    }
  }

  function Concat(xs: seq<string>): string {
    if xs == [] then "" else Concat(xs[..|xs| - 1]) + xs[|xs| - 1]
  }

  lemma ConcatAppend(xs: seq<string>, x: string)
    ensures Concat(xs + [x]) == Concat(xs) + x
  {
  }

  /** The chunks, one after another, are the file, whatever the size of the buffer. */
  lemma {:induction false} ChunksMakeFile(file: string, pos: nat, size: nat, done: seq<string>)
    requires pos <= |file| && size >= 2 && Concat(done) == file[..pos]
    ensures Concat(done + Chunks(file, pos, size)) == file
    decreases |file| - pos
  {
    if pos == |file| {
      assert done + [] == done && file[..pos] == file;
    } else {
      var e := ChunkEnd(file, pos, size);
      var x := file[pos..e];
      ConcatAppend(done, x);
      assert file[..pos] + x == file[..e];
      ChunksMakeFile(file, e, size, done + [x]);
      assert done + [x] + Chunks(file, e, size) == done + ([x] + Chunks(file, e, size));
    }
  }

  predicate AllFit(xs: seq<string>, size: nat) {
    forall k | 0 <= k < |xs| :: |xs[k]| <= size - 1
  }

  lemma {:induction false} ChunksFit(file: string, pos: nat, size: nat)
    requires pos <= |file| && size >= 2
    ensures AllFit(Chunks(file, pos, size), size)
    decreases |file| - pos
  {
    if pos < |file| {
      ChunksFit(file, ChunkEnd(file, pos, size), size);
    }
  }

  /** The chunks are the lines exactly when every line fits the buffer. */
  lemma ChunksAreLinesIff(file: string, size: nat)
    requires size >= 2
    ensures Chunks(file, 0, size) == Lines(file, 0) <==> AllFit(Lines(file, 0), size)
  {
    ChunksFit(file, 0, size);
    if AllFit(Lines(file, 0), size) {
      FittingLines(file, 0, size);
    }
  }

  lemma {:induction false} FittingLines(file: string, pos: nat, size: nat)
    requires pos <= |file| && size >= 2 && AllFit(Lines(file, pos), size)
    ensures Chunks(file, pos, size) == Lines(file, pos)
    decreases |file| - pos
  {
    if pos < |file| {
      var e, xs := LineEnd(file, pos), Lines(file, pos);
      assert |xs[0]| == e - pos;
      assert forall k | 0 <= k < |Lines(file, e)| :: Lines(file, e)[k] == xs[k + 1];
      FittingLines(file, e, size);
    }
  }

  lemma StringsAreLines(file: string, size: nat)
    requires size >= 2 && NUL !in file && AllFit(Lines(file, 0), size)
    ensures Strings(Chunks(file, 0, size)) == Lines(file, 0)
  {
    FittingLines(file, 0, size);
    ChunksMakeFile(file, 0, size, []);
    assert [] + Chunks(file, 0, size) == Chunks(file, 0, size);
    StringsWhole(Chunks(file, 0, size));
  }

  // ---------- cat ----------

  function Spaces(n: nat): string {
    seq(n, _ => ' ')
  }

  /** "%6d  " */
  function Padded(n: nat): string {
    var s := Show(n);
    (if |s| < 6 then Spaces(6 - |s|) else "") + s + "  "
  }

  function Listing(xs: seq<string>, nFlag: bool): string {
    if xs == [] then ""
    else Listing(xs[..|xs| - 1], nFlag) + ((if nFlag then Padded(|xs|) else "") + xs[|xs| - 1])
  }

  lemma {:induction false} PlainListing(xs: seq<string>)
    ensures Listing(xs, false) == Concat(xs)
  {
    if xs != [] {
      PlainListing(xs[..|xs| - 1]);
      assert "" + xs[|xs| - 1] == xs[|xs| - 1];
    }
  }

  /** A number is set right in six columns, with two spaces behind it. */
  lemma PaddedForm(n: nat)
    ensures var s, out := Show(n), Padded(n);
            var w := if |s| < 6 then 6 else |s|;
            && |out| == w + 2 && out[w..] == "  " && out[w - |s|..w] == s && out[..w - |s|] == Spaces(w - |s|)
  {
  }

  function Numbered(xs: seq<string>): seq<string> {
    seq(|xs|, k requires 0 <= k < |xs| => Padded(k + 1) + xs[k])
  }

  lemma ListingStep(front: seq<string>, x: string)
    ensures Listing(front + [x], true) == Listing(front, true) + (Padded(|front| + 1) + x)
  {
    assert (front + [x])[..|front|] == front;
  }

  lemma NumberedStep(front: seq<string>, x: string)
    ensures Concat(Numbered(front + [x])) == Concat(Numbered(front)) + (Padded(|front| + 1) + x)
  {
    assert Numbered(front + [x]) == Numbered(front) + [Padded(|front| + 1) + x];
    ConcatAppend(Numbered(front), Padded(|front| + 1) + x);
  }

  /** With -n the pieces are numbered from 1, each behind its number. */
  lemma {:induction false} NumberedListing(xs: seq<string>)
    ensures Listing(xs, true) == Concat(Numbered(xs))
  {
    if xs != [] {
      var front, x := xs[..|xs| - 1], xs[|xs| - 1];
      NumberedListing(front);
      ListingStep(front, x);
      NumberedStep(front, x);
      assert xs == front + [x];
    }
  }

  /** The loop of cmd_cat: without -n it writes the file unchanged, for every buffer size, exactly when
      the file holds no NUL. */
  method CatLoop(file: string, size: nat, nFlag: bool) returns (out: string)
    requires size >= 2
    ensures out == Listing(Strings(Chunks(file, 0, size)), nFlag)
    ensures !nFlag ==> (out == file <==> NUL !in file)
  {
    out := "";
    var lineNum, pos := 1, 0;
    ghost var done: seq<string> := [];
    while pos < |file|
      invariant pos <= |file| && lineNum == (if nFlag then |done| + 1 else 1)
      invariant Chunks(file, 0, size) == done + Chunks(file, pos, size)
      invariant out == Listing(Strings(done), nFlag)
      decreases |file| - pos
    {
      ChunkStep(file, pos, size, done);
      var end := ChunkEnd(file, pos, size);
      var line := Upto(file[pos..end]);
      StringsAppend(done, file[pos..end]);
      assert (Strings(done) + [line])[..|done|] == Strings(done);
      done := done + [file[pos..end]];
      var prefix := "";
      if nFlag {
        prefix := Padded(lineNum);
        lineNum := lineNum + 1;
      }
      out := out + (prefix + line);
      pos := end;
    }
    PlainListing(Strings(done));
    ChunksMakeFile(file, 0, size, []);
    assert [] + Chunks(file, 0, size) == Chunks(file, 0, size) == done;
    StringsWhole(done);
  }

  // ---------- grep ----------

  function Lower(c: char): char {
    if 'A' <= c <= 'Z' then c - 'A' + 'a' else c
  }

  function Lowered(s: string): string {
    seq(|s|, k requires 0 <= k < |s| => Lower(s[k]))
  }

  /** strstr, or strcasestr with -i, finds the pattern. */
  predicate Matches(line: string, pattern: string, iFlag: bool) {
    if iFlag then IndexOf(Lowered(line), Lowered(pattern), 0).Some? else IndexOf(line, pattern, 0).Some?
  }

  /** The same character, or the same ASCII letter in the other case. */
  predicate SameLetter(c: char, d: char) {
    || c == d
    || ('A' <= c <= 'Z' && 'a' <= d <= 'z' && c - 'A' == d - 'a')
    || ('a' <= c <= 'z' && 'A' <= d <= 'Z' && c - 'a' == d - 'A')
  }

  /** The pattern stands in the line at j, character by character. */
  predicate StandsAt(line: string, pattern: string, j: nat, iFlag: bool) {
    && j + |pattern| <= |line|
    && forall k | 0 <= k < |pattern| ::
         if iFlag then SameLetter(pattern[k], line[j + k]) else pattern[k] == line[j + k]
  }

  ghost predicate Contains(line: string, pattern: string, iFlag: bool) {
    exists j: nat :: StandsAt(line, pattern, j, iFlag)
  }

  lemma StandsIffAt(line: string, pattern: string, j: nat)
    ensures StandsAt(line, pattern, j, false) <==> At(line, pattern, j)
    ensures StandsAt(line, pattern, j, true) <==> At(Lowered(line), Lowered(pattern), j)
  {
    var low, lowPat := Lowered(line), Lowered(pattern);
    if j + |pattern| <= |line| {
      forall k | 0 <= k < |pattern|
        ensures lowPat[k] == low[j..j + |pattern|][k] <==> SameLetter(pattern[k], line[j + k])
      {
      }
      if At(low, lowPat, j) {
        forall k | 0 <= k < |pattern|
          ensures SameLetter(pattern[k], line[j + k])
        {
          assert lowPat[k] == low[j..j + |pattern|][k];
        }
      }
    }
  }

  /** A match is an occurrence: with -i up to the case of ASCII letters, and else exactly. */
  lemma MatchesIff(line: string, pattern: string, iFlag: bool)
    ensures Matches(line, pattern, iFlag) <==> Contains(line, pattern, iFlag)
  {
    var s, pat := if iFlag then Lowered(line) else line, if iFlag then Lowered(pattern) else pattern;
    var first := IndexOf(s, pat, 0);
    if first.Some? {
      StandsIffAt(line, pattern, first.value);
    }
    if j: nat :| StandsAt(line, pattern, j, iFlag) {
      StandsIffAt(line, pattern, j);
      IndexOfSome(s, pat, 0, j);
    }
  }

  function Found(line: string, number: nat, pattern: string, nFlag: bool, iFlag: bool): string {
    if !Matches(line, pattern, iFlag) then ""
    else if nFlag then Show(number) + ": " + line
    else line
  }

  /** What grep prints for the given pieces, numbered from 1. */
  function Report(xs: seq<string>, pattern: string, nFlag: bool, iFlag: bool): string {
    if xs == [] then ""
    else Report(xs[..|xs| - 1], pattern, nFlag, iFlag) + Found(xs[|xs| - 1], |xs|, pattern, nFlag, iFlag)
  }

  lemma ReportStep(xs: seq<string>, x: string, pattern: string, nFlag: bool, iFlag: bool)
    ensures Report(xs + [x], pattern, nFlag, iFlag) ==
            Report(xs, pattern, nFlag, iFlag) + Found(x, |xs| + 1, pattern, nFlag, iFlag)
  {
  }

  /** The body of the loop of cmd_grep: what is printed for one piece. */
  method GrepLine(line: string, lineNum: nat, pattern: string, nFlag: bool, iFlag: bool) returns (text: string)
    ensures text == Found(line, lineNum, pattern, nFlag, iFlag)
  {
    var ptr;
    if iFlag {
      ptr := IndexOf(Lowered(line), Lowered(pattern), 0);
    } else {
      ptr := IndexOf(line, pattern, 0);
    }
    text := "";
    if ptr.Some? {
      if nFlag { text := Show(lineNum) + ": "; }
      text := text + line;
    }
    assert "" + line == line;
  }

  /** The loop of cmd_grep. */
  method GrepLoop(file: string, size: nat, pattern: string, nFlag: bool, iFlag: bool) returns (out: string)
    requires size >= 2
    ensures out == Report(Strings(Chunks(file, 0, size)), pattern, nFlag, iFlag)
  {
    out := "";
    var lineNum, pos := 0, 0;
    ghost var done: seq<string> := [];
    while pos < |file|
      invariant pos <= |file| && lineNum == |done|
      invariant Chunks(file, 0, size) == done + Chunks(file, pos, size)
      invariant out == Report(Strings(done), pattern, nFlag, iFlag)
      decreases |file| - pos
    {
      ChunkStep(file, pos, size, done);
      var end := ChunkEnd(file, pos, size);
      var line := Upto(file[pos..end]);
      lineNum := lineNum + 1;
      ReportStep(Strings(done), line, pattern, nFlag, iFlag);
      StringsAppend(done, file[pos..end]);
      done := done + [file[pos..end]];
      var text := GrepLine(line, lineNum, pattern, nFlag, iFlag);
      out := out + text;
      pos := end;
    }
    assert Chunks(file, 0, size) == done;
  }

  /** The numbers of the matching pieces, in order. */
  function Hits(xs: seq<string>, pattern: string, iFlag: bool): (ks: seq<nat>)
    ensures forall j | 0 <= j < |ks| :: ks[j] < |xs|
  {
    if xs == [] then []
    else
      var front := Hits(xs[..|xs| - 1], pattern, iFlag);
      if Matches(xs[|xs| - 1], pattern, iFlag) then front + [|xs| - 1] else front
  }

  /** Every matching piece is hit, once and in order. */
  lemma {:induction false} HitsExact(xs: seq<string>, pattern: string, iFlag: bool)
    ensures var ks := Hits(xs, pattern, iFlag);
            && (forall i, j | 0 <= i < j < |ks| :: ks[i] < ks[j])
            && (forall k: nat :: k in ks <==> k < |xs| && Matches(xs[k], pattern, iFlag))
  {
    if xs != [] {
      HitsExact(xs[..|xs| - 1], pattern, iFlag);
      assert forall k | 0 <= k < |xs| - 1 :: xs[..|xs| - 1][k] == xs[k];
    }
  }

  function Printed(xs: seq<string>, ks: seq<nat>, nFlag: bool): seq<string>
    requires forall j | 0 <= j < |ks| :: ks[j] < |xs|
  {
    seq(|ks|, j requires 0 <= j < |ks| => if nFlag then Show(ks[j] + 1) + ": " + xs[ks[j]] else xs[ks[j]])
  }

  /** grep prints the hits, one after another, each with its own number, and nothing else. */
  lemma {:induction false} ReportPrintsHits(xs: seq<string>, pattern: string, nFlag: bool, iFlag: bool)
    ensures Report(xs, pattern, nFlag, iFlag) == Concat(Printed(xs, Hits(xs, pattern, iFlag), nFlag))
  {
    if xs != [] {
      var front, x := xs[..|xs| - 1], xs[|xs| - 1];
      ReportPrintsHits(front, pattern, nFlag, iFlag);
      PrintedSnoc(front, x, Hits(front, pattern, iFlag), nFlag);
      assert xs == front + [x];
      if Matches(x, pattern, iFlag) {
        ConcatAppend(Printed(front, Hits(front, pattern, iFlag), nFlag), Found(x, |xs|, pattern, nFlag, iFlag));
      }
    }
  }

  lemma PrintedSnoc(front: seq<string>, x: string, ks: seq<nat>, nFlag: bool)
    requires forall j | 0 <= j < |ks| :: ks[j] < |front|
    ensures Printed(front + [x], ks, nFlag) == Printed(front, ks, nFlag)
    ensures Printed(front + [x], ks + [|front|], nFlag) ==
            Printed(front, ks, nFlag) + [if nFlag then Show(|front| + 1) + ": " + x else x]
  {
  }

  /** A NUL: cat writes nothing of the file, whatever the buffer. */
  lemma CatStopsAtNul(size: nat)
    requires size >= 2
    ensures Listing(Strings(Chunks("\0", 0, size)), false) == "" != "\0"
  {
    assert LineEnd("\0", 1) == 1 == ChunkEnd("\0", 0, size) && "\0"[0..1] == "\0";
    assert Chunks("\0", 0, size) == ["\0"] + Chunks("\0", 1, size) == ["\0"];
    assert Strings(["\0"]) == [""];
    PlainListing([""]);
  }

  /** A line longer than the buffer: "ab" is in it, but in neither of its pieces. */
  lemma GrepMissesLongLine()
    ensures Lines("xab", 0) == ["xab"] && Matches("xab", "ab", false)
    ensures Chunks("xab", 0, 3) == ["xa", "b"] && Report(Strings(Chunks("xab", 0, 3)), "ab", false, false) == ""
  {
    var file := "xab";
    assert LineEnd(file, 3) == LineEnd(file, 2) == LineEnd(file, 1) == LineEnd(file, 0) == 3;
    assert file[0..3] == file && file[0..2] == "xa" && file[2..3] == "b";
    assert Lines(file, 3) == [] && Chunks(file, 3, 3) == [];
    assert Chunks(file, 2, 3) == ["b"] && ChunkEnd(file, 0, 3) == 2;
    assert file[1..3] == "ab";
    IndexOfSome(file, "ab", 0, 1);
    UptoAll("xa");
    UptoAll("b");
    assert Strings(["xa", "b"]) == ["xa", "b"];
    assert ["xa", "b"][..1] == ["xa"] && ["xa"][..0] == [];
    assert IndexOf("xa", "ab", 0) == IndexOf("xa", "ab", 1) == None && IndexOf("b", "ab", 0) == None;
  }

  // ---------- the arguments ----------

  predicate IsFlag(a: string, letter: char) {
    |a| == 2 && a[0] == '-' && a[1] == letter
  }

  lemma FlagLetters(a: string)
    ensures IsFlag(a, 'n') <==> a == "-n"
    ensures IsFlag(a, 'i') <==> a == "-i"
  {
  }

  /** The arguments among the first n, after the command name, that are not flags. */
  function Operands(argv: seq<string>, n: nat, grep: bool): seq<string>
    requires n <= |argv|
  {
    if n <= 1 then []
    else if IsFlag(argv[n - 1], 'n') || (grep && IsFlag(argv[n - 1], 'i')) then Operands(argv, n - 1, grep)
    else Operands(argv, n - 1, grep) + [argv[n - 1]]
  }

  predicate HasFlag(argv: seq<string>, n: nat, letter: char)
    requires n <= |argv|
  {
    exists k | 1 <= k < n :: IsFlag(argv[k], letter)
  }

  /** cmd_cat keeps the last operand as the file. */
  method ScanCatArgs(argv: seq<string>) returns (nFlag: bool, file: Option<string>)
    requires argv != []
    ensures nFlag == HasFlag(argv, |argv|, 'n')
    ensures var ops := Operands(argv, |argv|, false);
            file == if ops == [] then None else Some(ops[|ops| - 1])
  {
    nFlag, file := false, None;
    for i := 1 to |argv|
      invariant nFlag == HasFlag(argv, i, 'n')
      invariant var ops := Operands(argv, i, false); file == if ops == [] then None else Some(ops[|ops| - 1])
    {
      if IsFlag(argv[i], 'n') { nFlag := true; } else { file := Some(argv[i]); }
    }
  }

  /** cmd_grep takes the first two operands; where the flags stand among them makes no difference. */
  method ScanGrepArgs(argv: seq<string>)
    returns (nFlag: bool, iFlag: bool, pattern: Option<string>, file: Option<string>)
    requires argv != []
    ensures nFlag == HasFlag(argv, |argv|, 'n') && iFlag == HasFlag(argv, |argv|, 'i')
    ensures var ops := Operands(argv, |argv|, true);
            && pattern == (if |ops| > 0 then Some(ops[0]) else None)
            && file == (if |ops| > 1 then Some(ops[1]) else None)
  {
    nFlag, iFlag, pattern, file := false, false, None, None;
    for k := 1 to |argv|
      invariant nFlag == HasFlag(argv, k, 'n') && iFlag == HasFlag(argv, k, 'i')
      invariant var ops := Operands(argv, k, true);
                && pattern == (if |ops| > 0 then Some(ops[0]) else None)
                && file == (if |ops| > 1 then Some(ops[1]) else None)
    {
      if IsFlag(argv[k], 'n') {
        nFlag := true;
      } else if IsFlag(argv[k], 'i') {
        iFlag := true;
      } else if pattern == None {
        pattern := Some(argv[k]);
      } else if file == None {
        file := Some(argv[k]);
      }
    }
  }

  datatype Outcome = Usage | OpenError | Output(text: string)

  /** What grep does with the given operands and flags. */
  function GrepWith(ops: seq<string>, files: map<string, string>, size: nat, nFlag: bool, iFlag: bool): Outcome
    requires size >= 2
  {
    if |ops| < 2 then Usage
    else if ops[1] !in files then OpenError
    else Output(Report(Strings(Chunks(files[ops[1]], 0, size)), ops[0], nFlag, iFlag))
  }

  function GrepMeaning(argv: seq<string>, files: map<string, string>, size: nat): Outcome
    requires size >= 2
  {
    GrepWith(Operands(argv, |argv|, true), files, size, HasFlag(argv, |argv|, 'n'), HasFlag(argv, |argv|, 'i'))
  }

  method Grep(argv: seq<string>, files: map<string, string>, size: nat) returns (outcome: Outcome)
    requires argv != [] && size >= 2
    ensures outcome == GrepMeaning(argv, files, size)
  {
    var nFlag, iFlag, pattern, file := ScanGrepArgs(argv);
    if pattern == None || file == None { return Usage; }
    if file.value !in files { return OpenError; }
    var text := GrepLoop(files[file.value], size, pattern.value, nFlag, iFlag);
    outcome := Output(text);
  }

  predicate GrepFlag(a: string) {
    IsFlag(a, 'n') || IsFlag(a, 'i')
  }

  /** The command line with one more argument at position p. */
  function Insert(argv: seq<string>, p: nat, a: string): (other: seq<string>)
    requires p <= |argv|
    ensures |other| == |argv| + 1
  {
    argv[..p] + [a] + argv[p..]
  }

  lemma {:induction false} OperandsPrefix(argv: seq<string>, other: seq<string>, n: nat)
    requires n <= |argv| && n <= |other| && forall k | 0 <= k < n :: argv[k] == other[k]
    ensures Operands(argv, n, true) == Operands(other, n, true)
    decreases n
  {
    if n > 1 {
      OperandsPrefix(argv, other, n - 1);
    }
  }

  /** A flag among the arguments leaves the operands as they are. */
  lemma {:induction false} OperandsInsert(argv: seq<string>, p: nat, a: string, n: nat)
    requires 1 <= p <= n <= |argv| && GrepFlag(a)
    ensures Operands(Insert(argv, p, a), n + 1, true) == Operands(argv, n, true)
    decreases n
  {
    var other := Insert(argv, p, a);
    assert other[n] == if n == p then a else argv[n - 1];
    if n == p {
      OperandsPrefix(other, argv, n);
    } else {
      OperandsInsert(argv, p, a, n - 1);
    }
  }

  lemma HasFlagInsert(argv: seq<string>, p: nat, a: string, letter: char)
    requires 1 <= p <= |argv|
    ensures HasFlag(Insert(argv, p, a), |argv| + 1, letter) <==> HasFlag(argv, |argv|, letter) || IsFlag(a, letter)
  {
    var other := Insert(argv, p, a);
    assert other[p] == a;
    if k :| 1 <= k < |argv| && IsFlag(argv[k], letter) {
      assert IsFlag(other[if k < p then k else k + 1], letter);
    }
    if k :| 1 <= k < |other| && IsFlag(other[k], letter) && k != p {
      assert IsFlag(argv[if k < p then k else k - 1], letter);
    }
  }

  /** A flag has the same effect at every position behind the command name: it is set, and nothing else
      changes. */
  lemma FlagAnywhere(argv: seq<string>, p: nat, a: string, files: map<string, string>, size: nat)
    requires 1 <= p <= |argv| && GrepFlag(a) && size >= 2
    ensures GrepMeaning(Insert(argv, p, a), files, size) ==
            GrepWith(Operands(argv, |argv|, true), files, size,
                     HasFlag(argv, |argv|, 'n') || IsFlag(a, 'n'), HasFlag(argv, |argv|, 'i') || IsFlag(a, 'i'))
  {
    OperandsInsert(argv, p, a, |argv|);
    HasFlagInsert(argv, p, a, 'n');
    HasFlagInsert(argv, p, a, 'i');
    GrepDepends(Insert(argv, p, a), files, size, Operands(argv, |argv|, true),
                HasFlag(argv, |argv|, 'n') || IsFlag(a, 'n'), HasFlag(argv, |argv|, 'i') || IsFlag(a, 'i'));
  }

  /** grep depends on its operands and flags alone. */
  lemma GrepDepends(argv: seq<string>, files: map<string, string>, size: nat, ops: seq<string>,
                    nFlag: bool, iFlag: bool)
    requires size >= 2 && ops == Operands(argv, |argv|, true)
    requires nFlag == HasFlag(argv, |argv|, 'n') && iFlag == HasFlag(argv, |argv|, 'i')
    ensures GrepMeaning(argv, files, size) == GrepWith(ops, files, size, nFlag, iFlag)
  {
  }

  /** On a file without NUL whose lines fit the buffer, grep prints exactly the lines with numbers ks, in
      order and with their numbers; and those are the lines in which the pattern stands somewhere. */
  lemma GrepPrintsMatchingLines(argv: seq<string>, files: map<string, string>, size: nat) returns (ks: seq<nat>)
    requires size >= 2 && |Operands(argv, |argv|, true)| >= 2
    requires var name := Operands(argv, |argv|, true)[1];
             name in files && NUL !in files[name] && AllFit(Lines(files[name], 0), size)
    ensures var ops := Operands(argv, |argv|, true);
            var lines, nFlag, iFlag := Lines(files[ops[1]], 0), HasFlag(argv, |argv|, 'n'), HasFlag(argv, |argv|, 'i');
            && (forall i, j | 0 <= i < j < |ks| :: ks[i] < ks[j])
            && (forall k: nat :: k in ks <==> k < |lines| && Contains(lines[k], ops[0], iFlag))
            && (forall j | 0 <= j < |ks| :: ks[j] < |lines|)
            && GrepMeaning(argv, files, size) == Output(Concat(Printed(lines, ks, nFlag)))
  {
    var ops := Operands(argv, |argv|, true);
    var lines, iFlag := Lines(files[ops[1]], 0), HasFlag(argv, |argv|, 'i');
    StringsAreLines(files[ops[1]], size);
    ReportPrintsHits(lines, ops[0], HasFlag(argv, |argv|, 'n'), iFlag);
    ks := Hits(lines, ops[0], iFlag);
    HitsContain(lines, ops[0], iFlag);
  }

  lemma HitsContain(xs: seq<string>, pattern: string, iFlag: bool)
    ensures var ks := Hits(xs, pattern, iFlag);
            && (forall i, j | 0 <= i < j < |ks| :: ks[i] < ks[j])
            && (forall k: nat :: k in ks <==> k < |xs| && Contains(xs[k], pattern, iFlag))
  {
    HitsExact(xs, pattern, iFlag);
    forall k | 0 <= k < |xs|
      ensures Matches(xs[k], pattern, iFlag) <==> Contains(xs[k], pattern, iFlag)
    {
      MatchesIff(xs[k], pattern, iFlag);
    }
  }
}
