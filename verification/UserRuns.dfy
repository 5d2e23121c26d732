/** Runs of process_auth in project2/gui_server.c in which a registration may lack its id or its
    password: such a line shifts the pairs in which the file is scanned. When a user registered in such
    a run can log in, now and ever after. */
module UserRuns {
  import opened Options
  import opened Text
  import opened UserFile

  /** What a registration may carry: each part a token, or missing. */
  predicate Sent(r: Request) {
    r.mode == "REGISTER" ==> (r.id == "" || Token(r.id)) && (r.pw == "" || Token(r.pw))
  }

  predicate AllSent(cs: seq<Call>) {
    forall k | 0 <= k < |cs| :: Sent(cs[k].request)
  }

  // ---------- the words of the file ----------

  predicate EndsBlank(content: string) {
    content == "" || Blank(CSpace, content[|content| - 1])
  }

  /** A blank at the end of the front keeps the words of both sides apart. */
  lemma BlankSeam(s: string, t: string)
    requires EndsBlank(s)
    ensures Words(CSpace, s + t) == Words(CSpace, s) + Words(CSpace, t)
  {
    if s == "" {
      assert s + t == t;
    } else {
      var s0, b := s[..|s| - 1], [s[|s| - 1]];
      assert s == s0 + b && s + t == s0 + (b + t);
      WordsSplit(CSpace, s0, b + t);
      LeadingBlanks(CSpace, b, t);
      TrailingBlanks(CSpace, s0, b);
    }
  }

  function Part(w: string): seq<string> {
    if w == "" then [] else [w]
  }

  function WordsIn(r: Request): seq<string> {
    Part(r.id) + Part(r.pw)
  }

  lemma PartThenBlank(w: string, gap: string, rest: string)
    requires (w == "" || Token(w)) && |gap| == 1 && Blank(CSpace, gap[0])
    ensures Words(CSpace, w + (gap + rest)) == Part(w) + Words(CSpace, rest)
  {
    LeadingBlanks(CSpace, gap, rest);
    if w == "" {
      assert w + (gap + rest) == gap + rest;
    } else {
      WordFirst(CSpace, w, gap + rest);
    }
  }

  lemma WordsOfLine(r: Request)
    requires Sent(r) && r.mode == "REGISTER"
    ensures Words(CSpace, Line(User(r.id, r.pw))) == WordsIn(r)
  {
    assert Line(User(r.id, r.pw)) == r.id + (" " + (r.pw + ("\n" + "")));
    PartThenBlank(r.id, " ", r.pw + ("\n" + ""));
    PartThenBlank(r.pw, "\n", "");
  }

  /** The call writes a line. */
  predicate Writes(content: string, c: Call) {
    c.request.mode == "REGISTER" && Auth(content, c.request, c.buffer).1 == 0
  }

  lemma CallWords(content: string, c: Call)
    requires EndsBlank(content) && Sent(c.request)
    ensures var after := Auth(content, c.request, c.buffer).0;
            && EndsBlank(after)
            && FileWords(after, 0) == FileWords(content, 0) + if Writes(content, c) then WordsIn(c.request) else []
  {
    if Writes(content, c) {
      BlankSeam(content, Line(User(c.request.id, c.request.pw)));
      WordsOfLine(c.request);
    }
  }

  /** Whatever is requested, the words of the file stay in place and others come behind them. */
  lemma {:induction false} WordsStay(content: string, cs: seq<Call>)
    requires EndsBlank(content) && AllSent(cs)
    ensures EndsBlank(ContentAfter(content, cs)) && FileWords(content, 0) <= FileWords(ContentAfter(content, cs), 0)
  {
    if cs != [] {
      WordsStay(content, cs[..|cs| - 1]);
      CallWords(ContentAfter(content, cs[..|cs| - 1]), cs[|cs| - 1]);
    }
  }

  /** How many lines of one word a run writes. */
  function Ragged(cs: seq<Call>): nat {
    if cs == [] then 0 else
      var front, c := cs[..|cs| - 1], cs[|cs| - 1];
      Ragged(front) + if Writes(ContentAfter("", front), c) && |WordsIn(c.request)| == 1 then 1 else 0
  }

  lemma CallCount(content: string, c: Call, b: nat)
    requires EndsBlank(content) && Sent(c.request) && |FileWords(content, 0)| % 2 == b % 2
    ensures var after := Next(content, c);
            && EndsBlank(after)
            && |FileWords(after, 0)| % 2 == (b + if Writes(content, c) && |WordsIn(c.request)| == 1 then 1 else 0) % 2
  {
    CallWords(content, c);
  }

  lemma {:induction false} RaggedParity(cs: seq<Call>)
    requires AllSent(cs)
    ensures EndsBlank(ContentAfter("", cs))
    ensures |FileWords(ContentAfter("", cs), 0)| % 2 == Ragged(cs) % 2
  {
    if cs != [] {
      var front := cs[..|cs| - 1];
      RaggedParity(front);
      CallCount(ContentAfter("", front), cs[|cs| - 1], Ragged(front));
      assert ContentAfter("", cs) == Next(ContentAfter("", front), cs[|cs| - 1]);
    }
  }

  // ---------- scanning past what was there ----------

  lemma {:induction false} ScanPastEven(ws: seq<string>, rest: seq<string>, k: nat, id: string, buffer: string)
    requires k <= |ws| && (|ws| - k) % 2 == 0 && Find(ws, k, id, buffer) == None
    ensures Find(ws + rest, k, id, buffer) == Find(ws + rest, |ws|, id, if k == |ws| then buffer else ws[|ws| - 1])
    decreases |ws| - k
  {
    if k < |ws| {
      ScanPastEven(ws, rest, k + 2, id, ws[k + 1]);
    }
  }

  lemma {:induction false} ScanPastOdd(ws: seq<string>, rest: seq<string>, k: nat, id: string, buffer: string)
    requires k <= |ws| && (|ws| - k) % 2 == 1 && Find(ws, k, id, buffer) == None && rest != []
    ensures Find(ws + rest, k, id, buffer) == Find(ws + rest, |ws| + 1, id, rest[0])
    decreases |ws| - k
  {
    if k + 1 < |ws| {
      ScanPastOdd(ws, rest, k + 2, id, ws[k + 1]);
    }
  }

  lemma {:induction false} FoundAnyBuffer(ws: seq<string>, k: nat, id: string, p: string, q: string)
    requires k <= |ws|
    ensures Find(ws, k, id, p).Some? <==> Find(ws, k, id, q).Some?
    ensures Find(ws, k, id, p).Some? ==> id in ws
    decreases |ws| - k
  {
    if k + 1 < |ws| {
      FoundAnyBuffer(ws, k + 2, id, ws[k + 1], ws[k + 1]);
    }
  }

  /** What the scan finds for an id that was not there before its line was written. */
  lemma FoundInLine(ws: seq<string>, id: string, pw: string, more: seq<string>, p: string, q: string)
    requires Find(ws, 0, id, p) == None
    ensures |ws| % 2 == 0 ==> Find(ws + ([id, pw] + more), 0, id, q) == Some(pw)
    ensures |ws| % 2 == 1 && pw == id ==>
              Find(ws + ([id, pw] + more), 0, id, q) == Some(if more == [] then id else more[0])
    ensures |ws| % 2 == 1 && pw != id && more == [] ==> Find(ws + ([id, pw] + more), 0, id, q) == None
  {
    var rest := [id, pw] + more;
    FoundAnyBuffer(ws, 0, id, p, q);
    if |ws| % 2 == 0 {
      ScanPastEven(ws, rest, 0, id, q);
    } else {
      ScanPastOdd(ws, rest, 0, id, q);
    }
  }

  lemma FoundLater(ws: seq<string>, id: string, pw: string, after: seq<string>, p: string, q: string)
    requires |ws| % 2 == 0 && Find(ws, 0, id, p) == None && ws + [id, pw] <= after
    ensures Find(after, 0, id, q) == Some(pw)
  {
    var tail := after[|ws| + 2..];
    assert after == ws + [id, pw] + tail == ws + ([id, pw] + tail);
    FoundInLine(ws, id, pw, tail, p, q);
  }

  // ---------- what a registered user meets ----------

  /** A registration with id and password that succeeds. */
  predicate Accepted(content: string, c: Call) {
    EndsBlank(content) && c.request.mode == "REGISTER" && Proper(c.request) && Writes(content, c)
  }

  function Next(content: string, c: Call): string {
    Auth(content, c.request, c.buffer).0
  }

  lemma AcceptedWords(content: string, c: Call)
    requires Accepted(content, c)
    ensures EndsBlank(Next(content, c))
    ensures FileWords(Next(content, c), 0) == FileWords(content, 0) + [c.request.id, c.request.pw]
    ensures Find(FileWords(content, 0), 0, c.request.id, c.buffer) == None
  {
    CallWords(content, c);
  }

  /** What the next request with the id just registered returns, whatever the content before. */
  lemma NextAnswer(content: string, c: Call, mode: string, p: string, buffer: string)
    requires Accepted(content, c)
    ensures var id, pw, even := c.request.id, c.request.pw, |FileWords(content, 0)| % 2 == 0;
            Auth(Next(content, c), Request(mode, id, p), buffer).1 ==
              if even || pw == id then (if mode != "REGISTER" && p == pw then 0 else -1)
              else if mode == "REGISTER" then 0 else -2
  {
    AcceptedWords(content, c);
    FoundInLine(FileWords(content, 0), c.request.id, c.request.pw, [], c.buffer, buffer);
    assert [c.request.id, c.request.pw] + [] == [c.request.id, c.request.pw];
  }

  /** The login that should follow a registration succeeds exactly if the file had an even number of
      words, or the id is its own password. */
  lemma LoginNextIff(content: string, c: Call, buffer: string)
    requires Accepted(content, c)
    ensures Auth(Next(content, c), Request("LOGIN", c.request.id, c.request.pw), buffer).1 == 0
            <==> |FileWords(content, 0)| % 2 == 0 || c.request.id == c.request.pw
  {
    NextAnswer(content, c, "LOGIN", c.request.pw, buffer);
  }

  /** With an even number of words before the registration, all later answers are as they should be. */
  lemma LaterAnswer(content: string, c: Call, more: seq<Call>, mode: string, p: string, buffer: string)
    requires Accepted(content, c) && AllSent(more) && |FileWords(content, 0)| % 2 == 0
    ensures Auth(ContentAfter(Next(content, c), more), Request(mode, c.request.id, p), buffer).1 ==
            if mode != "REGISTER" && p == c.request.pw then 0 else -1
  {
    AcceptedWords(content, c);
    WordsStay(Next(content, c), more);
    FoundLater(FileWords(content, 0), c.request.id, c.request.pw,
               FileWords(ContentAfter(Next(content, c), more), 0), c.buffer, buffer);
  }

  lemma {:induction false} FreshToken(ws: seq<string>) returns (w: string)
    ensures Token(w) && forall v | v in ws :: |v| < |w|
  {
    if ws == [] {
      w := "a";
    } else {
      w := FreshToken(ws[1..]);
      if |w| <= |ws[0]| {
        w := seq(|ws[0]| + 1, _ => 'a');
      }
      assert w[0] in w;
      assert forall v | v in ws :: v == ws[0] || v in ws[1..];
    }
  }

  /** The next registration takes the place of a password that was its own id. */
  lemma PasswordDisplaced(content: string, c: Call) returns (more: Call)
    requires Accepted(content, c) && |FileWords(content, 0)| % 2 == 1 && c.request.id == c.request.pw
    ensures Proper(more.request)
    ensures Auth(ContentAfter(Next(content, c), [more]), Request("LOGIN", c.request.id, c.request.pw), "").1 == -1
  {
    var ws, id := FileWords(content, 0), c.request.id;
    AcceptedWords(content, c);
    var x := FreshToken(ws + [id, id]);
    more := Call(Request("REGISTER", x, x), "");
    FoundAnyBuffer(ws + [id, id], 0, x, "", "");
    AcceptedWords(Next(content, c), more);
    assert [more][..0] == [] && ContentAfter(Next(content, c), []) == Next(content, c);
    assert ws + [id, id] + [x, x] == ws + ([id, id] + [x, x]);
    FoundInLine(ws, id, id, [x, x], c.buffer, "");
  }

  /** The login works after the given further calls. */
  predicate Works(content: string, c: Call, more: seq<Call>, buffer: string) {
    AllSent(more) ==>
      Auth(ContentAfter(Next(content, c), more), Request("LOGIN", c.request.id, c.request.pw), buffer).1 == 0
  }

  /** A user who has registered can log in for ever after, whatever others request, exactly if the file
      had an even number of words. */
  lemma LoginForeverIff(content: string, c: Call)
    requires Accepted(content, c)
    ensures (forall more, buffer :: Works(content, c, more, buffer)) <==> |FileWords(content, 0)| % 2 == 0
  {
    if |FileWords(content, 0)| % 2 == 0 {
      forall more: seq<Call>, buffer: string | AllSent(more)
        ensures Works(content, c, more, buffer)
      {
        LaterAnswer(content, c, more, "LOGIN", c.request.pw, buffer);
      }
    } else if c.request.id == c.request.pw {
      var x := PasswordDisplaced(content, c);
      assert !Works(content, c, [x], "");
    } else {
      NextAnswer(content, c, "LOGIN", c.request.pw, "");
      assert !Works(content, c, [], "");
    }
  }

  /** Registering the id again fails after the given further calls. */
  predicate Refused(content: string, c: Call, more: seq<Call>, buffer: string) {
    AllSent(more) ==>
      Auth(ContentAfter(Next(content, c), more), Request("REGISTER", c.request.id, c.request.pw), buffer).1 == -1
  }

  lemma StaysFound(ws: seq<string>, id: string, pw: string, after: seq<string>, p: string, q: string)
    requires Find(ws, 0, id, p) == None && ws + [id, pw] <= after && (|ws| % 2 == 0 || pw == id)
    ensures Find(after, 0, id, q).Some?
  {
    var tail := after[|ws| + 2..];
    assert after == ws + [id, pw] + tail == ws + ([id, pw] + tail);
    FoundInLine(ws, id, pw, tail, p, q);
  }

  /** No second line is ever written for the id exactly if the file had an even number of words, or the
      id is its own password. */
  lemma RefusedForeverIff(content: string, c: Call)
    requires Accepted(content, c)
    ensures (forall more, buffer :: Refused(content, c, more, buffer))
            <==> |FileWords(content, 0)| % 2 == 0 || c.request.id == c.request.pw
  {
    if |FileWords(content, 0)| % 2 == 0 || c.request.id == c.request.pw {
      forall more: seq<Call>, buffer: string | AllSent(more)
        ensures Refused(content, c, more, buffer)
      {
        AcceptedWords(content, c);
        WordsStay(Next(content, c), more);
        StaysFound(FileWords(content, 0), c.request.id, c.request.pw,
                   FileWords(ContentAfter(Next(content, c), more), 0), c.buffer, buffer);
      }
    } else {
      NextAnswer(content, c, "REGISTER", c.request.pw, "");
      assert !Refused(content, c, [], "");
    }
  }

  lemma {:induction false} FindNoneIff(ws: seq<string>, k: nat, id: string, buffer: string)
    requires k <= |ws|
    ensures Find(ws, k, id, buffer) == None <==> forall i | k <= i < |ws| && (i - k) % 2 == 0 :: ws[i] != id
    decreases |ws| - k
  {
    if k + 1 < |ws| && ws[k] != id {
      FindNoneIff(ws, k + 2, id, ws[k + 1]);
    }
  }

  /** On any file, LOGIN returns -2 exactly if the id stands at no even position among the words. */
  lemma UnknownIff(content: string, r: Request, buffer: string)
    requires r.mode != "REGISTER"
    ensures var ws := FileWords(content, 0);
            Auth(content, r, buffer).1 == -2 <==> forall i | 0 <= i < |ws| && i % 2 == 0 :: ws[i] != r.id
  {
    FindNoneIff(FileWords(content, 0), 0, r.id, buffer);
  }

  // ---------- runs from an empty file ----------

  /** The lines a run has written. */
  function Lines(cs: seq<Call>): seq<User> {
    if cs == [] then [] else
      var front, c := cs[..|cs| - 1], cs[|cs| - 1];
      if Writes(ContentAfter("", front), c) then Lines(front) + [User(c.request.id, c.request.pw)] else Lines(front)
  }

  predicate Lined(us: seq<User>) {
    forall j | 0 <= j < |us| :: (us[j].id == "" || Token(us[j].id)) && (us[j].pw == "" || Token(us[j].pw))
  }

  /** After any run the file is the lines written, with or without their parts. */
  lemma {:induction false} FileIsLines(cs: seq<Call>)
    requires AllSent(cs)
    ensures Lined(Lines(cs)) && ContentAfter("", cs) == Print(Lines(cs))
  {
    if cs != [] {
      var c := cs[|cs| - 1];
      FileIsLines(cs[..|cs| - 1]);
      PrintAppend(Lines(cs[..|cs| - 1]), User(c.request.id, c.request.pw));
    }
  }

  function Parts(us: seq<User>): seq<string> {
    if us == [] then [] else Part(us[0].id) + Part(us[0].pw) + Parts(us[1..])
  }

  lemma {:induction false} WordsOfLines(us: seq<User>)
    requires Lined(us)
    ensures Words(CSpace, Print(us)) == Parts(us)
  {
    if us != [] {
      WordsOfLines(us[1..]);
      assert EndsBlank(Line(us[0]));
      BlankSeam(Line(us[0]), Print(us[1..]));
      WordsOfLine(Request("REGISTER", us[0].id, us[0].pw));
    }
  }

  lemma {:induction false} PartsCount(us: seq<User>)
    ensures |Parts(us)| <= 2 * |us|
    ensures |Parts(us)| == 2 * |us| <==> forall j | 0 <= j < |us| :: us[j].id != "" && us[j].pw != ""
  {
    if us != [] {
      PartsCount(us[1..]);
      assert us == [us[0]] + us[1..];
    }
  }

  /** Scanning a printed file gives the records back exactly if each of them has its id and password. */
  lemma ScanPrintedIff(us: seq<User>)
    requires Lined(us)
    ensures Words(CSpace, Print(us)) == Flat(us) <==> forall j | 0 <= j < |us| :: us[j].id != "" && us[j].pw != ""
  {
    WordsOfLines(us);
    PartsCount(us);
    if forall j | 0 <= j < |us| :: us[j].id != "" && us[j].pw != "" {
      ScanPrinted(us);
    }
  }

  lemma {:induction false} RunSplit(content: string, cs: seq<Call>, n: nat)
    requires n <= |cs|
    ensures ContentAfter(content, cs) == ContentAfter(ContentAfter(content, cs[..n]), cs[n..])
    decreases |cs|
  {
    if n == |cs| {
      assert cs[..n] == cs && cs[n..] == [];
    } else {
      RunSplit(content, cs[..|cs| - 1], n);
      assert cs[..|cs| - 1][..n] == cs[..n];
      assert cs[..|cs| - 1][n..] == cs[n..][..|cs| - n - 1];
    }
  }

  lemma RunSplitAt(content: string, cs: seq<Call>, n: nat)
    requires n < |cs|
    ensures ContentAfter(content, cs) == ContentAfter(Next(ContentAfter(content, cs[..n]), cs[n]), cs[n + 1..])
  {
    RunSplit(content, cs, n + 1);
    assert cs[..n + 1][..n] == cs[..n];
  }

  /** Once REGISTER(id, pw) has returned 0, with an even number of one-word lines before it, LOGIN(id, p)
      returns 0 if p is pw and -1 if not, and registering the id again returns -1, whatever else the run
      requests before and after. */
  lemma RegisterThenLogin(cs: seq<Call>, n: nat, mode: string, p: string, buffer: string)
    requires AllSent(cs) && n < |cs| && Ragged(cs[..n]) % 2 == 0
    requires Accepted(ContentAfter("", cs[..n]), cs[n])
    ensures Auth(ContentAfter("", cs), Request(mode, cs[n].request.id, p), buffer).1 ==
            if mode != "REGISTER" && p == cs[n].request.pw then 0 else -1
  {
    RaggedParity(cs[..n]);
    RunSplitAt("", cs, n);
    LaterAnswer(ContentAfter("", cs[..n]), cs[n], cs[n + 1..], mode, p, buffer);
  }

  /** And exactly then: the promise that a registration makes for all later logins is kept if and only
      if the run up to it has written an even number of one-word lines. */
  lemma PromiseKeptIff(cs: seq<Call>, c: Call)
    requires AllSent(cs) && Accepted(ContentAfter("", cs), c)
    ensures (forall more, buffer :: Works(ContentAfter("", cs), c, more, buffer)) <==> Ragged(cs) % 2 == 0
  {
    RaggedParity(cs);
    LoginForeverIff(ContentAfter("", cs), c);
  }

  lemma BobAccepted(pw: string, buffer: string)
    requires Token(pw)
    ensures EndsBlank("alice \n") && FileWords("alice \n", 0) == ["alice"]
    ensures Accepted("alice \n", Call(Request("REGISTER", "bob", pw), buffer))
  {
    PasswordMissing(buffer, pw);
    assert Token("bob");
    FoundAnyBuffer(["alice"], 0, "bob", buffer, buffer);
  }

  /** Alice registers without a password and Bob with one: both calls return 0, but Bob then cannot log
      in, and can register again. */
  lemma LoginLost(pw: string, buffer: string)
    requires Token(pw) && pw != "bob"
    ensures var bob := Call(Request("REGISTER", "bob", pw), buffer);
            && Auth("", Request("REGISTER", "alice", ""), buffer) == ("alice \n", 0)
            && Accepted("alice \n", bob)
            && Auth(Next("alice \n", bob), Request("LOGIN", "bob", pw), buffer).1 == -2
            && Auth(Next("alice \n", bob), Request("REGISTER", "bob", pw), buffer).1 == 0
  {
    var bob := Call(Request("REGISTER", "bob", pw), buffer);
    PasswordMissing(buffer, pw);
    BobAccepted(pw, buffer);
    NextAnswer("alice \n", bob, "LOGIN", pw, buffer);
    NextAnswer("alice \n", bob, "REGISTER", pw, buffer);
  }
}
