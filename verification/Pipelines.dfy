/** Pipes, special lines and repeated redirections of project1/myshell.c: what the meaning of a line is
    in terms of its characters and its tokens. */
module Pipelines {
  import opened Options
  import opened Text
  import opened Tokenizers
  import opened CommandLine

  // ---------- pipes ----------

  lemma {:induction false} BarIs(s: string, i: nat, p: nat)
    requires i <= p < |s| && s[p] == '|' && forall k | i <= k < p :: s[k] != '|'
    ensures Bar(s, i) == p
    decreases p - i
  {
    if i < p {
      BarIs(s, i + 1, p);
    }
  }

  /** How far a line goes without a final background mark. */
  function Unmarked(line: string): (n: nat)
    ensures n <= |line|
  {
    if line != "" && line[|line| - 1] == '&' then |line| - 1 else |line|
  }

  lemma TokensOfRight(line: string, bar: nat, n: nat)
    requires bar < n <= |line| && line[bar] == '|'
    ensures var m := Unpadded(line, n); bar < m && Tokens(line[bar + 1..m]) == Tokens(line[bar + 1..n])
  {
    var m := Unpadded(line, n);
    assert bar < m;
    assert line[bar + 1..n] == line[bar + 1..m] + line[m..n];
    TrailingBlanks(SpaceTab, line[bar + 1..m], line[m..n]);
  }

  /** A line with a bar is a pipe from the words before the first bar to the words behind it, the
      background mark apart. */
  lemma PipeSides(line: string, bar: nat)
    requires bar < |line| && line[bar] == '|' && forall k | 0 <= k < bar :: line[k] != '|'
    ensures bar < Unmarked(line)
    ensures Meaning(line) == Pipe(Tokens(line[..bar]), Tokens(line[bar + 1..Unmarked(line)]))
  {
    var n, body := Unmarked(line), Body(line);
    var m := if n < |line| then Unpadded(line, n) else n;
    if n < |line| {
      TokensOfRight(line, bar, n);
    }
    assert body == line[..m] && body[..bar] == line[..bar] && body[bar + 1..] == line[bar + 1..m];
    BarIs(body, 0, bar);
    assert line != "exit";
  }

  function PipeLine(xs: seq<string>, ys: seq<string>, background: bool): string {
    Join(xs, ' ') + (" | " + (Join(ys, ' ') + if background then " &" else ""))
  }

  /** No text with the same words is shorter than the words with one separator between them. */
  lemma {:induction false} ShortestText(s: string, i: nat)
    requires i <= |s|
    ensures |Join(WordsFrom(SpaceTab, s, i), ' ')| <= |s| - i
    decreases |s| - i
  {
    if i < |s| && Blank(SpaceTab, s[i]) {
      ShortestText(s, i + 1);
    } else if i < |s| {
      var e := RunEnd(SpaceTab, s, i);
      if e < |s| {
        ShortestText(s, e + 1);
      }
    }
  }

  lemma PipeLeft(xs: seq<string>, ys: seq<string>, background: bool)
    requires forall w | w in xs :: Typable(w)
    ensures var line, bar := PipeLine(xs, ys, background), |Join(xs, ' ')| + 1;
            && bar < |line| && line[bar] == '|' && (forall k | 0 <= k < bar :: line[k] != '|')
            && Tokens(line[..bar]) == xs
  {
    var line, left := PipeLine(xs, ys, background), Join(xs, ' ');
    JoinAvoids(xs, ' ', '|');
    assert line[..|left| + 1] == left + " ";
    assert forall k | 0 <= k < |left| :: line[k] == left[k] && left[k] in left;
    WordsOfJoin(SpaceTab, xs, ' ');
    TrailingBlanks(SpaceTab, left, " ");
  }

  /** Behind the bar, up to position n: the words, a blank before them and perhaps one behind. */
  lemma PaddedWords(ys: seq<string>, gap: string)
    requires (forall w | w in ys :: Typable(w)) && forall c | c in gap :: c == ' '
    ensures Tokens(" " + (Join(ys, ' ') + gap)) == ys
  {
    WordsOfJoin(SpaceTab, ys, ' ');
    TrailingBlanks(SpaceTab, Join(ys, ' '), gap);
    LeadingBlanks(SpaceTab, " ", Join(ys, ' ') + gap);
  }

  /** Without its last character the text has other words. */
  lemma ShorterDiffers(ys: seq<string>)
    requires Join(ys, ' ') != ""
    ensures var right := Join(ys, ' '); Tokens(" " + right[..|right| - 1]) != ys
  {
    var right := Join(ys, ' ');
    LeadingBlanks(SpaceTab, " ", right[..|right| - 1]);
    ShortestText(right[..|right| - 1], 0);
  }

  lemma RightMarked(left: string, ys: seq<string>)
    requires forall w | w in ys :: Typable(w)
    ensures var line := left + (" | " + (Join(ys, ' ') + " &"));
            Unmarked(line) == |line| - 1 && Tokens(line[|left| + 2..|line| - 1]) == ys
  {
    var line, right := left + (" | " + (Join(ys, ' ') + " &")), Join(ys, ' ');
    assert line[|left| + 2..|line| - 1] == " " + (right + " ");
    PaddedWords(ys, " ");
  }

  lemma RightUnmarked(left: string, ys: seq<string>)
    requires forall w | w in ys :: Typable(w)
    ensures var line := left + (" | " + (Join(ys, ' ') + ""));
            Tokens(line[|left| + 2..Unmarked(line)]) == ys <==> line[|line| - 1] != '&'
  {
    var line, right := left + (" | " + (Join(ys, ' ') + "")), Join(ys, ' ');
    assert line[|left| + 2..] == " " + (right + "");
    if line[|line| - 1] != '&' {
      assert line[|left| + 2..] == line[|left| + 2..|line|];
      PaddedWords(ys, "");
    } else {
      assert line[|line| - 1] == if right == "" then ' ' else right[|right| - 1];
      assert line[|left| + 2..|line| - 1] == " " + right[..|right| - 1];
      ShorterDiffers(ys);
    }
  }

  lemma PipeRight(xs: seq<string>, ys: seq<string>, background: bool)
    requires forall w | w in ys :: Typable(w)
    ensures var line, bar := PipeLine(xs, ys, background), |Join(xs, ' ')| + 1;
            && bar < Unmarked(line)
            && (Tokens(line[bar + 1..Unmarked(line)]) == ys <==> background || line[|line| - 1] != '&')
  {
    if background {
      RightMarked(Join(xs, ' '), ys);
    } else {
      RightUnmarked(Join(xs, ' '), ys);
    }
  }

  /** The round trip for pipes: two commands typed with a bar between them, with or without the
      background mark, are understood as those two in that order, exactly unless the second ends by
      accident in the mark. */
  lemma PipeRoundTrip(xs: seq<string>, ys: seq<string>, background: bool)
    requires (forall w | w in xs :: Typable(w)) && (forall w | w in ys :: Typable(w))
    ensures var line := PipeLine(xs, ys, background);
            Meaning(line) == Pipe(xs, ys) <==> background || line[|line| - 1] != '&'
  {
    PipeLeft(xs, ys, background);
    PipeSides(PipeLine(xs, ys, background), |Join(xs, ' ')| + 1);
    PipeRight(xs, ys, background);
  }

  // ---------- special lines ----------

  /** Only the word "exit" alone ends the shell. */
  lemma ExitIff(line: string)
    ensures Meaning(line) == Exit <==> line == "exit"
  {
  }

  /** Nothing is done for a line without a pipe whose tokens are all operators and operands. */
  lemma NothingIff(line: string)
    requires line != "exit" && forall k | 0 <= k < |line| :: line[k] != '|'
    ensures Meaning(line) == Nothing
            <==> Redirect(Tokens(Body(line))).Some? && Redirect(Tokens(Body(line))).value.args == []
  {
    var body := Body(line);
    assert forall k | 0 <= k < |body| :: body[k] == line[k];
    if line == "" {
      assert Tokens(body) == [];
    }
  }

  /** A tab separates words as a space does. */
  lemma TabSeparates()
    ensures Tokens("ls\t-l") == ["ls", "-l"] && Tokens("ls -l") == ["ls", "-l"] && Tokens("ls\n-l") == ["ls\n-l"]
  {
    assert "ls\t-l" == "ls" + "\t-l" && "\t-l" == "\t" + "-l" && "-l" + "" == "-l";
    assert "ls -l" == "ls" + " -l" && " -l" == " " + "-l" && "ls\n-l" + "" == "ls\n-l";
    WordFirst(SpaceTab, "ls", "\t-l");
    LeadingBlanks(SpaceTab, "\t", "-l");
    WordFirst(SpaceTab, "ls", " -l");
    LeadingBlanks(SpaceTab, " ", "-l");
    WordFirst(SpaceTab, "-l", "");
    WordFirst(SpaceTab, "ls\n-l", "");
  }

  // ---------- repeated redirections ----------

  lemma {:induction false} ScanMore(ts: seq<string>, op: string, f: string, i: nat, acc: Redirected)
    requires i <= |ts| && IsOp(op) && Scan(ts, i, acc).Some?
    ensures Scan(ts + [op, f], i, acc) == Some(Operand(Scan(ts, i, acc).value, IsIn(op), f))
    decreases |ts| - i
  {
    var us := ts + [op, f];
    if i == |ts| {
      assert us[i] == op && us[i + 1] == f;
    } else if IsOp(ts[i]) {
      ScanMore(ts, op, f, i + 2, Operand(acc, IsIn(ts[i]), ts[i + 1]));
    } else {
      ScanMore(ts, op, f, i + 1, acc.(args := acc.args + [ts[i]]));
    }
  }

  /** A later redirection takes the place of an earlier one of its kind, and of nothing else. */
  lemma LaterWins(ts: seq<string>, f: string)
    requires Redirect(ts).Some?
    ensures var r, rIn, rOut := Redirect(ts).value, Redirect(ts + ["<", f]), Redirect(ts + [">", f]);
            && rIn.Some? && rIn.value.args == r.args && rIn.value.outs == r.outs && Last(rIn.value.ins) == Some(f)
            && rOut.Some? && rOut.value.args == r.args && rOut.value.ins == r.ins && Last(rOut.value.outs) == Some(f)
  {
    ScanMore(ts, "<", f, 0, NOTHING_YET);
    ScanMore(ts, ">", f, 0, NOTHING_YET);
  }
}
