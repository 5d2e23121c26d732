/** The front end of project1/myshell.c: background mark, pipe, redirections. */
module CommandLine {
  import opened Options
  import opened Text
  import opened Tokenizers

  // ---------- redirections ----------

  /** `ins` and `outs` are the operands of "<" and of ">", in order. */
  datatype Redirected = Redirected(args: seq<string>, ins: seq<string>, outs: seq<string>)

  // strcmp with "<" and with ">"

  predicate IsIn(t: string) {
    |t| == 1 && t[0] == '<'
  }

  predicate IsOut(t: string) {
    |t| == 1 && t[0] == '>'
  }

  predicate IsOp(t: string) {
    IsIn(t) || IsOut(t)
  }

  const NOTHING_YET := Redirected([], [], [])

  /** What the scan has once it has read the tokens from i on, having `acc` already; nothing if an
      operator has no operand, for then the program steps over the terminating NULL. */
  function Scan(ts: seq<string>, i: nat, acc: Redirected): Option<Redirected>
    requires i <= |ts|
    decreases |ts| - i
  {
    if i == |ts| then Some(acc)
    else if !IsOp(ts[i]) then Scan(ts, i + 1, acc.(args := acc.args + [ts[i]]))
    else if i + 1 == |ts| then None
    else Scan(ts, i + 2, Operand(acc, IsIn(ts[i]), ts[i + 1]))
  }

  function Operand(acc: Redirected, input: bool, w: string): Redirected {
    if input then acc.(ins := acc.ins + [w]) else acc.(outs := acc.outs + [w])
  }

  function Redirect(ts: seq<string>): Option<Redirected> {
    Scan(ts, 0, NOTHING_YET)
  }

  function Last(xs: seq<string>): Option<string> {
    if xs == [] then None else Some(xs[|xs| - 1])
  }

  /** A pointer that is NULL, or points at the given C string. */
  predicate Names(buf: string, p: Option<nat>, s: Option<string>) {
    && (p.Some? <==> s.Some?)
    && (p.Some? ==> p.value <= |buf| && CString(buf, p.value) == s.value)
  }

  /** The scan stands at token i and has collected `acc`. */
  predicate Collected(text: string, ts: seq<string>, args: seq<Option<nat>>, i: nat, acc: Redirected,
                      infile: Option<nat>, outfile: Option<nat>)
  {
    && |acc.args| <= i <= |ts| < |args| && Scan(ts, i, acc) == Redirect(ts)
    && (forall k | 0 <= k < |acc.args| :: Names(text, args[k], Some(acc.args[k])))
    && Names(text, infile, Last(acc.ins)) && Names(text, outfile, Last(acc.outs))
  }

  lemma CollectArgument(text: string, ts: seq<string>, args: seq<Option<nat>>, i: nat, acc: Redirected,
                        infile: Option<nat>, outfile: Option<nat>, p: Option<nat>)
    requires Collected(text, ts, args, i, acc, infile, outfile)
    requires i < |ts| && !IsOp(ts[i]) && Names(text, p, Some(ts[i]))
    ensures Collected(text, ts, args[|acc.args| := p], i + 1, acc.(args := acc.args + [ts[i]]), infile, outfile)
  {
  }

  lemma CollectOperand(text: string, ts: seq<string>, args: seq<Option<nat>>, i: nat, acc: Redirected,
                       infile: Option<nat>, outfile: Option<nat>, ps: seq<Option<nat>>)
    requires Collected(text, ts, args, i, acc, infile, outfile) && Redirect(ts).Some?
    requires i < |ts| && IsOp(ts[i]) && Holds(text, ps, ts)
    ensures i + 1 < |ts| && ps[i + 1].Some?
    ensures IsIn(ts[i]) ==> Collected(text, ts, args, i + 2, Operand(acc, true, ts[i + 1]), ps[i + 1], outfile)
    ensures IsOut(ts[i]) ==> Collected(text, ts, args, i + 2, Operand(acc, false, ts[i + 1]), infile, ps[i + 1])
  {
  }

  /** The buffer and the token pointers are only read here; `args` is filled in place. */
  method ExtractRedirections(text: string, temp: seq<Option<nat>>, args: array<Option<nat>>, ghost ts: seq<string>)
    returns (argIdx: nat, infile: Option<nat>, outfile: Option<nat>)
    requires Holds(text, temp, ts) && |ts| < args.Length && Redirect(ts).Some?
    modifies args
    ensures var r := Redirect(ts).value;
            && argIdx == |r.args| && Holds(text, args[..], r.args)
            && Names(text, infile, Last(r.ins)) && Names(text, outfile, Last(r.outs))
  {
    ghost var acc := NOTHING_YET;
    var i := 0;
    argIdx, infile, outfile := 0, None, None;
    while temp[i] != None
      invariant i <= |ts| && argIdx == |acc.args|
      invariant Collected(text, ts, args[..], i, acc, infile, outfile)
      decreases |ts| - i
    {
      ghost var before := args[..];
      assert temp[i].Some? && i < |ts| && Names(text, temp[i], Some(ts[i]));
      var word := CString(text, temp[i].value);
      if IsIn(word) {
        CollectOperand(text, ts, before, i, acc, infile, outfile, temp);
        acc := Operand(acc, true, ts[i + 1]);
        i := i + 1;
        if temp[i] != None { infile := temp[i]; }
      } else if IsOut(word) {
        CollectOperand(text, ts, before, i, acc, infile, outfile, temp);
        acc := Operand(acc, false, ts[i + 1]);
        i := i + 1;
        if temp[i] != None { outfile := temp[i]; }
      } else {
        CollectArgument(text, ts, before, i, acc, infile, outfile, temp[i]);
        acc := acc.(args := acc.args + [ts[i]]);
        args[argIdx] := temp[i];
        assert args[..] == before[argIdx := temp[i]];
        argIdx := argIdx + 1;
      }
      i := i + 1;
    }
    assert i == |ts|;
    args[argIdx] := None;
  }

  function Copies(t: string, n: nat): multiset<string> {
    multiset{}[t := n]
  }

  /** Everything the scan has found, with one operator for each operand. */
  function Parts(r: Redirected): multiset<string> {
    multiset(r.args) + multiset(r.ins) + multiset(r.outs) + Copies("<", |r.ins|) + Copies(">", |r.outs|)
  }

  lemma PartsArgument(r: Redirected, w: string)
    ensures Parts(r.(args := r.args + [w])) == Parts(r) + multiset{w}
  {
    assert multiset(r.args + [w]) == multiset(r.args) + multiset{w};
  }

  lemma PartsIn(r: Redirected, w: string)
    ensures Parts(Operand(r, true, w)) == Parts(r) + (multiset{"<"} + multiset{w})
  {
    assert multiset(r.ins + [w]) == multiset(r.ins) + multiset{w};
    assert Copies("<", |r.ins| + 1) == multiset{"<"} + Copies("<", |r.ins|);
  }

  lemma PartsOut(r: Redirected, w: string)
    ensures Parts(Operand(r, false, w)) == Parts(r) + (multiset{">"} + multiset{w})
  {
    assert multiset(r.outs + [w]) == multiset(r.outs) + multiset{w};
    assert Copies(">", |r.outs| + 1) == multiset{">"} + Copies(">", |r.outs|);
  }

  lemma PartsOperand(r: Redirected, op: string, w: string)
    requires IsOp(op)
    ensures Parts(Operand(r, IsIn(op), w)) == Parts(r) + (multiset{op} + multiset{w})
  {
    if IsIn(op) {
      assert op == "<";
      PartsIn(r, w);
    } else {
      assert op == ">";
      PartsOut(r, w);
    }
  }

  lemma {:induction false} ScanConserves(ts: seq<string>, i: nat, acc: Redirected)
    requires i <= |ts| && Scan(ts, i, acc).Some?
    ensures Parts(Scan(ts, i, acc).value) == Parts(acc) + multiset(ts[i..])
    decreases |ts| - i
  {
    if i == |ts| {
      assert ts[i..] == [];
    } else if !IsOp(ts[i]) {
      Peel(ts, i);
      PartsArgument(acc, ts[i]);
      ScanConserves(ts, i + 1, acc.(args := acc.args + [ts[i]]));
    } else {
      Peel(ts, i);
      Peel(ts, i + 1);
      PartsOperand(acc, ts[i], ts[i + 1]);
      ScanConserves(ts, i + 2, Operand(acc, IsIn(ts[i]), ts[i + 1]));
    }
  }

  lemma Peel(ts: seq<string>, i: nat)
    requires i < |ts|
    ensures multiset(ts[i..]) == multiset{ts[i]} + multiset(ts[i + 1..])
  {
    assert ts[i..] == [ts[i]] + ts[i + 1..];
  }

  /** Nothing is lost: the tokens are the arguments, the operands and one operator for each operand. */
  lemma TokensConserved(ts: seq<string>)
    requires Redirect(ts).Some?
    ensures multiset(ts) == Parts(Redirect(ts).value)
  {
    ScanConserves(ts, 0, NOTHING_YET);
    assert ts[0..] == ts;
    assert Parts(NOTHING_YET) == multiset{};
  }

  /** The arguments stand in the tokens in the same order; `at` says where. */
  lemma ArgsInOrder(ts: seq<string>) returns (at: seq<nat>)
    requires Redirect(ts).Some?
    ensures PlacedAt(ts, Redirect(ts).value.args, at)
  {
    at := ArgsFrom(ts, 0, NOTHING_YET, []);
  }

  predicate PlacedAt(ts: seq<string>, args: seq<string>, at: seq<nat>) {
    && |at| == |args|
    && (forall k | 0 <= k < |at| :: at[k] < |ts| && ts[at[k]] == args[k])
    && (forall j, k | 0 <= j < k < |at| :: at[j] < at[k])
  }

  lemma {:induction false} ArgsFrom(ts: seq<string>, i: nat, acc: Redirected, before: seq<nat>) returns (at: seq<nat>)
    requires i <= |ts| && Scan(ts, i, acc).Some?
    requires PlacedAt(ts, acc.args, before) && forall k | 0 <= k < |before| :: before[k] < i
    ensures PlacedAt(ts, Scan(ts, i, acc).value.args, at)
    decreases |ts| - i
  {
    if i == |ts| {
      at := before;
    } else if IsOp(ts[i]) {
      at := ArgsFrom(ts, i + 2, Operand(acc, IsIn(ts[i]), ts[i + 1]), before);
    } else {
      at := ArgsFrom(ts, i + 1, acc.(args := acc.args + [ts[i]]), before + [i]);
    }
  }

  /** How many operators the tokens up to n end with. */
  function TrailingOps(ts: seq<string>, n: nat): (m: nat)
    requires n <= |ts|
    ensures m <= n
  {
    if n > 0 && IsOp(ts[n - 1]) then 1 + TrailingOps(ts, n - 1) else 0
  }

  /** The scan stays within the tokens exactly when they end with an even number of operators. */
  lemma NoDanglingOperator(ts: seq<string>)
    ensures Redirect(ts).Some? <==> TrailingOps(ts, |ts|) % 2 == 0
  {
    ScanFrom(ts, 0, NOTHING_YET);
  }

  lemma {:induction false} ScanFrom(ts: seq<string>, i: nat, acc: Redirected)
    requires i <= |ts|
    ensures var m := TrailingOps(ts, |ts|);
            Scan(ts, i, acc).Some? <==> if m <= |ts| - i then m % 2 == 0 else (|ts| - i) % 2 == 0
    decreases |ts| - i
  {
    var m := TrailingOps(ts, |ts|);
    OpsAtEnd(ts, |ts|);
    if i < |ts| {
      if !IsOp(ts[i]) {
        ScanFrom(ts, i + 1, acc.(args := acc.args + [ts[i]]));
      } else if i + 1 < |ts| {
        ScanFrom(ts, i + 2, Operand(acc, IsIn(ts[i]), ts[i + 1]));
      } else {
        assert m > 0;
      }
    }
  }

  lemma {:induction false} OpsAtEnd(ts: seq<string>, n: nat)
    requires n <= |ts|
    ensures forall k | n - TrailingOps(ts, n) <= k < n :: IsOp(ts[k])
    ensures TrailingOps(ts, n) < n ==> !IsOp(ts[n - TrailingOps(ts, n) - 1])
  {
    if n > 0 && IsOp(ts[n - 1]) {
      OpsAtEnd(ts, n - 1);
    }
  }

  // ---------- the whole line ----------

  datatype Command =
    | Nothing
    | Exit
    | Pipe(first: seq<string>, second: seq<string>)
    | Dangling
    | Run(args: seq<string>, infile: Option<string>, outfile: Option<string>, background: bool)

  /** How much of a line is left without the spaces before position n. */
  function Unpadded(line: string, n: nat): (m: nat)
    requires n <= |line|
    ensures m <= n && (m > 0 ==> line[m - 1] != ' ')
    ensures forall k | m <= k < n :: line[k] == ' '
  {
    if n > 0 && line[n - 1] == ' ' then Unpadded(line, n - 1) else n
  }

  predicate Background(line: string) {
    line != "" && line[|line| - 1] == '&'
  }

  /** The line without its background mark and the spaces before it. */
  function Body(line: string): string {
    if Background(line) then line[..Unpadded(line, |line| - 1)] else line
  }

  /** The position of the first '|' from i on, or the length. */
  function Bar(s: string, i: nat): (p: nat)
    requires i <= |s|
    ensures i <= p <= |s| && (p < |s| ==> s[p] == '|')
    ensures forall k | i <= k < p :: s[k] != '|'
    decreases |s| - i
  {
    if i == |s| || s[i] == '|' then i else Bar(s, i + 1)
  }

  /** What the shell does with one line, system calls aside. */
  function Meaning(line: string): Command {
    if line == "" then Nothing
    else if line == "exit" then Exit
    else
      var body := Body(line);
      var bar := Bar(body, 0);
      if bar < |body| then Pipe(Tokens(body[..bar]), Tokens(body[bar + 1..]))
      else
        match Redirect(Tokens(body))
        case None => Dangling
        case Some(r) =>
          if r.args == [] then Nothing else Run(r.args, Last(r.ins), Last(r.outs), Background(line))
  }

  /** The lines that make the scan step over the NULL: no pipe, and an odd number of operators last. */
  lemma DanglingIff(line: string)
    ensures Meaning(line) == Dangling
            <==> var body := Body(line);
                 && line != "" && line != "exit" && Bar(body, 0) == |body|
                 && TrailingOps(Tokens(body), |Tokens(body)|) % 2 == 1
  {
    NoDanglingOperator(Tokens(Body(line)));
  }

  lemma DanglingExample()
    ensures Meaning("ls >") == Dangling
  {
    var line := "ls >";
    assert Body(line) == line;
    assert line == "ls" + " >" && " >" == " " + ">" && ">" + "" == ">";
    WordFirst(SpaceTab, "ls", " >");
    LeadingBlanks(SpaceTab, " ", ">");
    WordFirst(SpaceTab, ">", "");
    assert Tokens(line) == ["ls", ">"];
    DanglingIff(line);
  }

  method TrimBackground(input: array<char>) returns (isBg: bool)
    requires NUL in input[..] && Upto(input[..]) != ""
    modifies input
    ensures var line := old(Upto(input[..]));
            isBg == Background(line) && NUL in input[..] && Upto(input[..]) == Body(line)
  {
    ghost var buf := input[..];
    NoNulInside(buf, 0);
    var len: int := StringEnd(input[..], 0);
    ghost var line := buf[..len];
    isBg := input[len - 1] == '&';
    if isBg {
      input[len - 1] := NUL;
      var k := len - 2;
      while k >= 0 && input[k] == ' '
        invariant -1 <= k <= len - 2 && input[k + 1] == NUL
        invariant forall j | 0 <= j <= k :: input[j] == line[j]
        invariant Unpadded(line, k + 1) == Unpadded(line, len - 1)
      {
        input[k] := NUL;
        k := k - 1;
      }
      StringEndIs(input[..], 0, k + 1);
      assert input[..][k + 1] == NUL;
      assert input[..][..k + 1] == line[..k + 1];
    } else {
      assert input[..][len] == NUL;
    }
  }

  /** strdup, and the copy of the line that each forked child works on. */
  method Duplicate(s: string) returns (copy: array<char>)
    requires NUL !in s
    ensures fresh(copy) && copy[..] == s + [NUL] && Upto(copy[..]) == s
  {
    copy := new char[|s| + 1](i requires 0 <= i < |s| + 1 => if i < |s| then s[i] else NUL);
    assert copy[..] == s + [NUL];
    StringEndIs(s + [NUL], 0, |s|);
  }

  /** The C strings that the first n pointers name. */
  function Read(text: string, args: seq<Option<nat>>, n: nat): seq<string>
    requires n <= |args|
    requires forall k | 0 <= k < n :: args[k].Some? && args[k].value <= |text|
  {
    seq(n, k requires 0 <= k < n => CString(text, args[k].value))
  }

  /** parse_args on a copy; the pointers go up to the NULL that ends them. */
  method Tokenize(s: string) returns (text: string, args: seq<Option<nat>>, n: nat)
    requires NUL !in s
    ensures Holds(text, args, Tokens(s)) && n == |Tokens(s)|
  {
    var copy := Duplicate(s);
    var pointers := new Option<nat>[|s| + 1](_ => None);
    assert |Tokens(s)| <= |s|;
    n := ParseArgs(copy, pointers);
    text, args := copy[..], pointers[..];
  }

  method Dispatch(text: string, temp: seq<Option<nat>>, isBg: bool, ghost ts: seq<string>) returns (cmd: Command)
    requires Holds(text, temp, ts) && Redirect(ts).Some?
    ensures var r := Redirect(ts).value;
            cmd == if r.args == [] then Nothing else Run(r.args, Last(r.ins), Last(r.outs), isBg)
  {
    var args := new Option<nat>[|temp|](_ => None);
    var argIdx, infile, outfile := ExtractRedirections(text, temp, args, ts);
    ghost var r := Redirect(ts).value;
    if args[0] == None {
      return Nothing;
    }
    var words := Read(text, args[..], argIdx);
    assert words == r.args;
    var inName := if infile.Some? then Some(CString(text, infile.value)) else None;
    var outName := if outfile.Some? then Some(CString(text, outfile.value)) else None;
    cmd := Run(words, inName, outName, isBg);
  }

  /** A NUL in place of the bar leaves two C strings in the buffer. */
  lemma CutAtBar(buf: string, body: string, bar: nat)
    requires bar < |body| < |buf| && buf[|body|] == NUL && NUL !in body
    requires buf[bar] == NUL && forall k | 0 <= k < |body| && k != bar :: buf[k] == body[k]
    ensures CString(buf, 0) == body[..bar] && CString(buf, bar + 1) == body[bar + 1..]
  {
    forall k | 0 <= k < |body| && k != bar
      ensures buf[k] != NUL
    {
      assert body[k] in body;
    }
    StringEndIs(buf, 0, bar);
    StringEndIs(buf, bar + 1, |body|);
  }

  /** One turn of the main loop: the line is trimmed and cut in place. */
  method Interpret(input: array<char>) returns (cmd: Command)
    requires NUL in input[..] && Meaning(Upto(input[..])) != Dangling
    modifies input
    ensures cmd == Meaning(old(Upto(input[..])))
  {
    var line := Upto(input[..]);
    if line == "" { return Nothing; }
    if line == "exit" { return Exit; }
    var isBg := TrimBackground(input);
    var body := Upto(input[..]);
    NoNulInside(input[..], 0);
    var pipePos := Bar(body, 0);
    if pipePos < |body| {
      input[pipePos] := NUL;
      CutAtBar(input[..], body, pipePos);
      var text1, args1, n1 := Tokenize(CString(input[..], 0));
      var text2, args2, n2 := Tokenize(CString(input[..], pipePos + 1));
      cmd := Pipe(Read(text1, args1, n1), Read(text2, args2, n2));
      assert cmd.first == Tokens(body[..pipePos]) && cmd.second == Tokens(body[pipePos + 1..]);
    } else {
      var text, temp, _ := Tokenize(body);
      cmd := Dispatch(text, temp, isBg, Tokens(body));
    }
  }

  // ---------- typing a command and getting it back ----------

  /** A word that can be typed: no blank, no pipe, no NUL. */
  predicate Typable(w: string) {
    Solid(SpaceTab, w) && '|' !in w && NUL !in w
  }

  predicate Argument(w: string) {
    Typable(w) && !IsOp(w)
  }

  function OperatorAndOperand(op: string, file: Option<string>): seq<string> {
    if file.Some? then [op, file.value] else []
  }

  function Typed(args: seq<string>, infile: Option<string>, outfile: Option<string>): seq<string> {
    args + (OperatorAndOperand("<", infile) + OperatorAndOperand(">", outfile))
  }

  function Render(args: seq<string>, infile: Option<string>, outfile: Option<string>, background: bool): string {
    Join(Typed(args, infile, outfile), ' ') + if background then " &" else ""
  }

  /** Taking spaces off the end never changes the tokens. */
  lemma TrimKeepsTokens(line: string, n: nat)
    requires n <= |line|
    ensures Tokens(line[..Unpadded(line, n)]) == Tokens(line[..n])
  {
    var m := Unpadded(line, n);
    assert line[..n] == line[..m] + line[m..n];
    TrailingBlanks(SpaceTab, line[..m], line[m..n]);
  }

  lemma {:induction false} JoinAvoids(ws: seq<string>, sep: char, c: char)
    requires c != sep && forall w | w in ws :: c !in w
    ensures c !in Join(ws, sep)
  {
    if |ws| > 1 {
      JoinAvoids(ws[1..], sep, c);
    }
  }

  lemma {:induction false} ScanArguments(ts: seq<string>, i: nat, n: nat, acc: Redirected)
    requires i <= n <= |ts| && forall k | i <= k < n :: !IsOp(ts[k])
    ensures Scan(ts, i, acc) == Scan(ts, n, acc.(args := acc.args + ts[i..n]))
    decreases n - i
  {
    if i == n {
      assert acc.args + ts[i..n] == acc.args;
    } else {
      ScanArguments(ts, i + 1, n, acc.(args := acc.args + [ts[i]]));
      assert acc.args + [ts[i]] + ts[i + 1..n] == acc.args + ts[i..n];
    }
  }

  lemma ScanOperand(ts: seq<string>, i: nat, acc: Redirected)
    requires i + 1 < |ts| && IsOp(ts[i])
    ensures Scan(ts, i, acc) == Scan(ts, i + 2, Operand(acc, IsIn(ts[i]), ts[i + 1]))
  {
  }

  lemma RedirectTyped(args: seq<string>, infile: Option<string>, outfile: Option<string>)
    requires forall w | w in args :: !IsOp(w)
    ensures var ins, outs := if infile.Some? then [infile.value] else [], if outfile.Some? then [outfile.value] else [];
            Redirect(Typed(args, infile, outfile)) == Some(Redirected(args, ins, outs))
  {
    var ts, n := Typed(args, infile, outfile), |args|;
    var acc, i := Redirected(args, [], []), n;
    assert ts[0..n] == args && [] + args == args;
    ScanArguments(ts, 0, n, NOTHING_YET);
    if infile.Some? {
      assert ts[i] == "<" && ts[i + 1] == infile.value;
      ScanOperand(ts, i, acc);
      acc, i := Operand(acc, true, infile.value), i + 2;
    }
    if outfile.Some? {
      assert ts[i] == ">" && ts[i + 1] == outfile.value;
      ScanOperand(ts, i, acc);
      acc, i := Operand(acc, false, outfile.value), i + 2;
    }
    assert acc.ins == (if infile.Some? then [infile.value] else []);
    assert acc.outs == (if outfile.Some? then [outfile.value] else []);
  }

  lemma BodyOfRender(args: seq<string>, infile: Option<string>, outfile: Option<string>, background: bool)
    requires forall w | w in Typed(args, infile, outfile) :: Typable(w)
    requires background || !Background(Render(args, infile, outfile, background))
    ensures var body := Body(Render(args, infile, outfile, background));
            Tokens(body) == Typed(args, infile, outfile) && '|' !in body
  {
    var ts := Typed(args, infile, outfile);
    var typed := Join(ts, ' ');
    WordsOfJoin(SpaceTab, ts, ' ');
    JoinAvoids(ts, ' ', '|');
    if background {
      BodyOfMarked(typed);
    } else {
      assert Render(args, infile, outfile, background) == typed;
    }
  }

  /** The mark taken off again leaves the tokens, and no character that was not there. */
  lemma BodyOfMarked(typed: string)
    ensures var body := Body(typed + " &");
            Tokens(body) == Tokens(typed) && forall c | c in body :: c in typed || c == ' '
  {
    var line := typed + " &";
    assert line[..|line| - 1] == typed + " ";
    TrailingBlanks(SpaceTab, typed, " ");
    TrimKeepsTokens(line, |line| - 1);
    assert Body(line) == (typed + " ")[..Unpadded(line, |line| - 1)];
  }

  /** The round trip: a command typed out is understood as that command, exactly when it is not the
      word "exit" and does not by accident end in the background mark. */
  lemma RoundTrip(args: seq<string>, infile: Option<string>, outfile: Option<string>, background: bool)
    requires args != [] && forall w | w in args :: Argument(w)
    requires forall f | f == infile || f == outfile :: f.Some? ==> Typable(f.value)
    ensures var line := Render(args, infile, outfile, background);
            Meaning(line) == Run(args, infile, outfile, background)
            <==> line != "exit" && (background || !Background(line))
  {
    var line := Render(args, infile, outfile, background);
    assert Typable("<") && Typable(">");
    forall w | w in Typed(args, infile, outfile)
      ensures Typable(w)
    {
      assert w in args || w in OperatorAndOperand("<", infile) || w in OperatorAndOperand(">", outfile);
    }
    if background || !Background(line) {
      BodyOfRender(args, infile, outfile, background);
      RedirectTyped(args, infile, outfile);
      assert Tokens("") == [];
    }
  }
}
