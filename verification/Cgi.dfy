/** The CGI path: handle_request of lab3/7/cgiserver.c with lab3/7/test_add.c behind it. */
module Cgi {
  import opened Options
  import opened Text

  // ---------- the header and the body ----------

  const SEPARATOR := "\r\n\r\n"

  /** What follows the first empty line. */
  function BodyOf(text: string): Option<string> {
    match IndexOf(text, SEPARATOR, 0)
    case None => None
    case Some(k) => Some(text[k + 4..])
  }

  /** The header does not hold or run into an empty line before the one that ends it. */
  ghost predicate CleanHeader(header: string) {
    forall j: nat :: !At(header + "\r\n\r", SEPARATOR, j)
  }

  lemma SameBefore(header: string, body: string, j: nat)
    requires j < |header|
    ensures At(header + SEPARATOR + body, SEPARATOR, j) <==> At(header + "\r\n\r", SEPARATOR, j)
  {
  }

  /** Splitting at the first empty line undoes putting header and body together, exactly when the
      header is clean. */
  lemma SplitUndoes(header: string, body: string)
    ensures BodyOf(header + SEPARATOR + body) == Some(body) <==> CleanHeader(header)
  {
    var s, n := header + SEPARATOR + body, |header|;
    assert s[n..n + 4] == SEPARATOR && s[n + 4..] == body;
    if CleanHeader(header) {
      forall j | 0 <= j < n
        ensures !At(s, SEPARATOR, j)
      {
        SameBefore(header, body, j);
      }
      FirstOccurrence(s, SEPARATOR, 0, n);
    } else {
      var j: nat :| At(header + "\r\n\r", SEPARATOR, j);
      SameBefore(header, body, j);
      IndexOfSome(s, SEPARATOR, 0, j);
      assert |s[IndexOf(s, SEPARATOR, 0).value + 4..]| > |body|;
    }
  }

  // ---------- handle_request ----------

  /** What the CGI child is given; `stdin` is what the parent writes to the pipe. */
  datatype Env = Env(verb: string, query: Option<string>, contentLength: Option<nat>, stdin: string)

  datatype Outcome = Unparsed | Static(path: string) | RunCgi(program: string, env: Env)

  function Target(name: string): string {
    if name == "/" then "/index.html" else name
  }

  function Handle(text: string): Outcome {
    var words := Words(CSpace, text);
    if |words| < 2 then Unparsed else Dispatch(words[0], Target(words[1]), BodyOf(text))
  }

  function Dispatch(verb: string, name: string, body: Option<string>): Outcome {
    if IndexOf(name, ".cgi", 0) == None then Static("." + name)
    else
      var q := IndexOf(name, "?", 0);
      RunCgi(Program(name, q), Environment(verb, Query(name, q), body))
  }

  /** What `file_name + 1` reads once the question mark is overwritten; one at the very start is not
      there any more. */
  function Program(name: string, q: Option<nat>): string
    requires name != "" && (q.Some? ==> q.value < |name|)
  {
    if q.Some? && q.value > 0 then name[1..q.value] else name[1..]
  }

  function Query(name: string, q: Option<nat>): Option<string>
    requires q.Some? ==> q.value < |name|
  {
    if q.Some? then Some(name[q.value + 1..]) else None
  }

  function Environment(verb: string, query: Option<string>, body: Option<string>): Env {
    Env(verb, query,
        if body.Some? then Some(|body.value|) else None,
        if body.Some? && verb == "POST" then body.value else "")
  }

  /** The child can read as many characters as it is told, and those are the body, exactly unless a
      body comes with another method than POST (section 4.2 of RFC 3875). */
  lemma InputAsPromisedIff(text: string)
    requires Handle(text).RunCgi?
    ensures var env, body := Handle(text).env, BodyOf(text);
            && (env.contentLength.Some? <==> body.Some?)
            && (body.Some? ==>
                  && env.contentLength == Some(|body.value|)
                  && (env.stdin == body.value <==> |env.stdin| == env.contentLength.value)
                  && (|env.stdin| == env.contentLength.value <==> env.verb == "POST" || body.value == ""))
  {
  }

  /** As the program goes about it: file_name is a buffer in which the question mark is overwritten. */
  method HandleRequest(text: string) returns (outcome: Outcome)
    requires NUL !in text
    ensures outcome == Handle(text)
  {
    var words := Words(CSpace, text);
    if |words| < 2 { return Unparsed; }
    var verb, name := words[0], words[1];
    WordsSolid(CSpace, text, 0);
    assert name in words;
    assert NUL !in name;
    var body: Option<string> := None;
    var bodyPtr := IndexOf(text, SEPARATOR, 0);
    if bodyPtr.Some? { body := Some(text[bodyPtr.value + 4..]); }
    assert body == BodyOf(text);
    name := Target(name);
    outcome := Serve(verb, name, body);
  }

  /** The two branches, for a CGI program and for a file. */
  method Serve(verb: string, name: string, body: Option<string>) returns (outcome: Outcome)
    requires NUL !in name
    ensures outcome == Dispatch(verb, name, body)
  {
    if IndexOf(name, ".cgi", 0) == None { return Static("." + name); }
    var program, queryString := CutQuery(name);
    var env := MakeEnvironment(verb, queryString, body);
    outcome := RunCgi(program, env);
  }

  /** The question mark in the buffer is overwritten; the program is what reads from the second
      character on. */
  method CutQuery(name: string) returns (program: string, query: Option<string>)
    requires NUL !in name && name != ""
    ensures program == Program(name, IndexOf(name, "?", 0)) && query == Query(name, IndexOf(name, "?", 0))
  {
    var fileName := new char[|name| + 1](i requires 0 <= i < |name| + 1 => if i < |name| then name[i] else NUL);
    assert fileName[..] == name + [NUL];
    query := None;
    ghost var end := |name|;
    var mark := IndexOf(name, "?", 0);
    if mark.Some? {
      query := Some(name[mark.value + 1..]);
      fileName[mark.value] := NUL;
      if mark.value > 0 { end := mark.value; }
    }
    assert forall k | 1 <= k < end :: fileName[k] == name[k] && name[k] in name;
    StringEndIs(fileName[..], 1, end);
    program := CString(fileName[..], 1);
    assert program == name[1..end];
  }

  method MakeEnvironment(verb: string, query: Option<string>, body: Option<string>) returns (env: Env)
    ensures env == Environment(verb, query, body)
  {
    var length: Option<nat> := None;
    if body.Some? { length := Some(|body.value|); }
    var input := "";
    if body.Some? && verb == "POST" { input := body.value; }
    env := Env(verb, query, length, input);
  }

  // ---------- test_add ----------

  datatype Report = NoReport | Report(a: int, b: int, sum: int)

  function Atoi(s: string): int {
    match ScanNumber(s) case NoNumber => 0 case Number(v, _) => v
  }

  /** fgets into post_data: one line, at most 1023 characters. */
  function PostLine(input: string): string {
    var n := match IndexOf(input, "\n", 0) case None => |input| case Some(k) => k + 1;
    input[..if n < 1023 then n else 1023]
  }

  function QueryOf(env: Env): Option<string> {
    if env.verb == "GET" then env.query
    else if env.verb == "POST" && env.stdin != "" then Some(PostLine(env.stdin))
    else None
  }

  function Add(query: Option<string>): Report {
    if query == None then NoReport
    else
      var i, j := IndexOf(query.value, "a=", 0), IndexOf(query.value, "b=", 0);
      if i == None || j == None then NoReport
      else
        Sum(NumberAt(query.value, i.value), NumberAt(query.value, j.value))
  }

  function NumberAt(q: string, i: nat): int
    requires i + 2 <= |q|
  {
    Atoi(q[i + 2..])
  }

  function Sum(a: int, b: int): Report {
    Report(a, b, a + b)
  }

  function TestAdd(env: Env): Report {
    Add(QueryOf(env))
  }

  method TestAddMain(env: Env) returns (report: Report)
    ensures report == TestAdd(env)
    ensures report.Report? ==> report.sum == report.a + report.b && (env.verb == "GET" || env.verb == "POST")
  {
    var query := ReadQuery(env);
    if query == None { return NoReport; }
    report := ReportSum(query.value);
  }

  method ReportSum(q: string) returns (report: Report)
    ensures report == Add(Some(q))
  {
    var ptrA, ptrB := IndexOf(q, "a=", 0), IndexOf(q, "b=", 0);
    if ptrA == None || ptrB == None { return NoReport; }
    var a, b := NumberAt(q, ptrA.value), NumberAt(q, ptrB.value);
    report := Sum(a, b);
  }

  method ReadQuery(env: Env) returns (query: Option<string>)
    ensures query == QueryOf(env)
  {
    query := None;
    if env.verb == "GET" {
      query := env.query;
    } else if env.verb == "POST" {
      if env.stdin != "" {
        query := Some(PostLine(env.stdin));
      }
    }
  }

  /** A report is made exactly if both names stand somewhere in the query. */
  lemma ReportsIff(q: string)
    ensures Add(Some(q)).Report? <==> (exists i: nat :: At(q, "a=", i)) && (exists j: nat :: At(q, "b=", j))
  {
    NoneIff(q, "a=");
    NoneIff(q, "b=");
  }

  /** It reads the numbers behind their first places. */
  lemma AddReads(q: string, i: nat, j: nat)
    requires FirstAt(q, "a=", i) && FirstAt(q, "b=", j)
    ensures var a, b := Atoi(q[i + 2..]), Atoi(q[j + 2..]); Add(Some(q)) == Report(a, b, a + b)
  {
    FirstOccurrence(q, "a=", 0, i);
    FirstOccurrence(q, "b=", 0, j);
  }

  predicate FirstAt(s: string, pat: string, i: nat) {
    At(s, pat, i) && forall k | 0 <= k < i :: !At(s, pat, k)
  }

  /** fgets takes the input up to its first newline, and at most 1023 characters. */
  lemma PostLineShape(input: string)
    ensures var line, n := PostLine(input), |PostLine(input)|;
            && line <= input && n <= 1023
            && (forall k | 0 <= k < n - 1 :: line[k] != '\n')
            && (n < 1023 && n < |input| ==> n > 0 && line[n - 1] == '\n')
  {
    var first := IndexOf(input, "\n", 0);
    NoneIff(input, "\n");
    forall k | 0 <= k < |PostLine(input)| - 1
      ensures input[k] != '\n'
    {
      if input[k] == '\n' {
        assert input[k..k + 1] == "\n";
        IndexOfSome(input, "\n", 0, k);
      }
    }
  }

  /** With POST only the first line of the input is looked at. */
  lemma PostReadsFirstLine(query: Option<string>, length: Option<nat>, first: string, rest: string)
    requires (forall k | 0 <= k < |first| :: first[k] != '\n') && |first| < 1023
    ensures TestAdd(Env("POST", query, length, first + ("\n" + rest))) == Add(Some(first + "\n"))
  {
    var input := first + ("\n" + rest);
    forall j | 0 <= j < |first|
      ensures !At(input, "\n", j)
    {
      assert input[j] == first[j];
      NotHere(input, "\n", j);
    }
    assert input[|first|..|first| + 1] == "\n" && input[..|first| + 1] == first + "\n";
    FirstOccurrence(input, "\n", 0, |first|);
  }

  /** With GET the query counts and the input does not; without either there is nothing to report. */
  lemma QueryByMethod(verb: string, query: Option<string>, length: Option<nat>, input: string)
    ensures TestAdd(Env("GET", query, length, input)) == Add(query)
    ensures TestAdd(Env("POST", query, length, "")) == NoReport == Add(None)
    ensures verb != "GET" && verb != "POST" ==> TestAdd(Env(verb, query, length, input)) == NoReport
  {
  }

  /** "a" on one line and "b" on the next give no report. */
  lemma SecondLineIgnored()
    ensures TestAdd(Env("POST", None, None, "a=1\nb=2")) == NoReport
  {
    assert "a=1\nb=2" == "a=1" + ("\n" + "b=2") && "a=1" + "\n" == "a=1\n";
    PostReadsFirstLine(None, None, "a=1", "b=2");
    forall j: nat
      ensures !At("a=1\n", "b=", j)
    {
      NotHere("a=1\n", "b=", j);
    }
    ReportsIff("a=1\n");
  }

  // ---------- the two together ----------

  function Form(x: int, y: int): string {
    "a=" + (Show(x) + ("&b=" + Show(y)))
  }

  predicate FitsInt(n: int) {
    -0x8000_0000 <= n < 0x8000_0000
  }

  /** The numbers written into a form are the numbers read out of it. Integers have no bound here;
      atoi agrees on those of type int. */
  lemma AddForm(x: int, y: int)
    ensures Add(Some(Form(x, y))) == Report(x, y, x + y)
  {
    FormHasA(x, y);
    FormHasB(x, y);
  }

  lemma FormHasA(x: int, y: int)
    ensures IndexOf(Form(x, y), "a=", 0) == Some(0) && Atoi(Form(x, y)[2..]) == x
  {
    var q, tail := Form(x, y), "&b=" + Show(y);
    assert q[0..2] == "a=" && q[2..] == Show(x) + tail;
    ScanShow(x, tail);
  }

  lemma FormHasB(x: int, y: int)
    ensures var k := |Show(x)| + 3;
            IndexOf(Form(x, y), "b=", 0) == Some(k) && Atoi(Form(x, y)[k + 2..]) == y
  {
    var k := |Show(x)| + 3;
    FormEnd(x, y);
    forall j | 0 <= j < k
      ensures !At(Form(x, y), "b=", j)
    {
      FormChar(x, y, j);
    }
    FirstOccurrence(Form(x, y), "b=", 0, k);
    ScanShow(y, "");
    assert Show(y) + "" == Show(y);
  }

  lemma FormEnd(x: int, y: int)
    ensures var k := |Show(x)| + 3; At(Form(x, y), "b=", k) && Form(x, y)[k + 2..] == Show(y)
  {
    var pre := "a=" + Show(x) + "&";
    assert Form(x, y) == pre + ("b=" + Show(y));
  }

  lemma FormChar(x: int, y: int, j: nat)
    requires j < |Show(x)| + 3
    ensures !At(Form(x, y), "b=", j)
  {
    var q := Form(x, y);
    var u := Show(x) + ("&b=" + Show(y));
    if j >= 2 {
      assert q[j] == u[j - 2];
      assert j < |Show(x)| + 2 ==> u[j - 2] in Show(x);
    }
    NotHere(q, "b=", j);
  }

  /** A request line, whatever headers, an empty line and a body. */
  function Request(verb: string, target: string, headers: string, body: string): string {
    verb + (" " + (target + (" " + (headers + SEPARATOR + body))))
  }

  function Header(verb: string, target: string, headers: string): string {
    verb + (" " + (target + (" " + headers)))
  }

  lemma RequestWords(verb: string, target: string, rest: string)
    requires Solid(CSpace, verb) && Solid(CSpace, target)
    ensures var words := Words(CSpace, verb + (" " + (target + (" " + rest))));
            |words| >= 2 && words[0] == verb && words[1] == target
  {
    var tail := target + (" " + rest);
    WordFirst(CSpace, verb, " " + tail);
    LeadingBlanks(CSpace, " ", tail);
    WordFirst(CSpace, target, " " + rest);
  }

  /** A target in which ".cgi" does not occur names a file below the current directory, and the target
      "/" the page index.html there. */
  lemma PlainFile(verb: string, target: string, headers: string, body: string)
    requires Solid(CSpace, verb) && Solid(CSpace, target) && forall j: nat :: !At(target, ".cgi", j)
    ensures var outcome := Handle(Request(verb, target, headers, body));
            && (target == "/" ==> outcome == Static("./index.html"))
            && (target != "/" ==> outcome == Static("." + target))
  {
    RequestWords(verb, target, headers + SEPARATOR + body);
    NoneIff(target, ".cgi");
    var page := "/index.html";
    forall j: nat
      ensures !At(page, ".cgi", j)
    {
      if j + 4 <= |page| {
        assert page[j..j + 4][0] == page[j] && page[j..j + 4][1] == page[j + 1];
      }
    }
    NoneIff(page, ".cgi");
    assert "." + page == "./index.html";
  }

  /** The path of a CGI program: no blank, no question mark, ".cgi" somewhere after the slash. */
  predicate CgiPath(path: string) {
    Solid(CSpace, path) && path[0] == '/' && '?' !in path && IndexOf(path, ".cgi", 0).Some?
  }

  lemma NotHere(s: string, pat: string, j: nat)
    requires pat != "" && (j < |s| ==> s[j] != pat[0])
    ensures !At(s, pat, j)
  {
  }

  lemma {:induction false} Nowhere(s: string, pat: string, i: nat)
    requires i <= |s| && pat != "" && forall j | i <= j < |s| :: s[j] != pat[0]
    ensures IndexOf(s, pat, i) == None
    decreases |s| - i
  {
    NotHere(s, pat, i);
    if i < |s| {
      Nowhere(s, pat, i + 1);
    }
  }

  lemma CgiStays(path: string, rest: string)
    requires CgiPath(path)
    ensures IndexOf(path + rest, ".cgi", 0).Some? && path + rest != "/"
  {
    var k := IndexOf(path, ".cgi", 0).value;
    assert (path + rest)[k..k + 4] == path[k..k + 4];
    IndexOfSome(path + rest, ".cgi", 0, k);
  }

  lemma RequestNoNul(verb: string, target: string, headers: string, body: string)
    requires NUL !in verb && NUL !in target && NUL !in headers && NUL !in body
    ensures NUL !in Request(verb, target, headers, body)
  {
  }

  lemma TargetNoNul(path: string, x: int, y: int)
    requires NUL !in path
    ensures NUL !in path + ("?" + Form(x, y)) && NUL !in Form(x, y)
  {
  }

  /** The sum as the program computes it, from what the child is given. */
  lemma GetSum(path: string, headers: string, body: string, x: int, y: int)
    requires CgiPath(path)
    ensures var outcome := Handle(Request("GET", path + ("?" + Form(x, y)), headers, body));
            && outcome.RunCgi? && outcome.program == path[1..] && outcome.env.query == Some(Form(x, y))
            && TestAdd(outcome.env) == Report(x, y, x + y)
  {
    FormSolid(x, y);
    GetHandled(path, Form(x, y), headers, body);
    AddForm(x, y);
  }

  /** A GET for the program with the form as query gives the sum; the text is one that the program reads
      to its end. */
  lemma GetAdds(path: string, headers: string, body: string, x: int, y: int)
    requires CgiPath(path) && FitsInt(x) && FitsInt(y) && FitsInt(x + y)
    requires NUL !in path && NUL !in headers && NUL !in body
    ensures NUL !in Request("GET", path + ("?" + Form(x, y)), headers, body)
    ensures var outcome := Handle(Request("GET", path + ("?" + Form(x, y)), headers, body));
            && outcome.RunCgi? && outcome.program == path[1..] && outcome.env.query == Some(Form(x, y))
            && TestAdd(outcome.env) == Report(x, y, x + y)
  {
    TargetNoNul(path, x, y);
    RequestNoNul("GET", path + ("?" + Form(x, y)), headers, body);
    GetSum(path, headers, body, x, y);
  }

  lemma GetHandled(path: string, query: string, headers: string, body: string)
    requires CgiPath(path) && forall c | c in query :: !Blank(CSpace, c)
    ensures var text := Request("GET", path + ("?" + query), headers, body);
            Handle(text) == RunCgi(path[1..], Environment("GET", Some(query), BodyOf(text)))
  {
    RequestWords("GET", path + ("?" + query), headers + SEPARATOR + body);
    CgiStays(path, "?" + query);
    QuerySplits(path, query);
  }

  lemma QuerySplits(path: string, query: string)
    requires '?' !in path
    ensures var name := path + ("?" + query);
            IndexOf(name, "?", 0) == Some(|path|) && name[..|path|] == path && name[|path| + 1..] == query
  {
    var name := path + ("?" + query);
    forall j | 0 <= j < |path|
      ensures !At(name, "?", j)
    {
      assert path[j] in path;
      NotHere(name, "?", j);
    }
    assert name[|path|..|path| + 1] == "?";
    FirstOccurrence(name, "?", 0, |path|);
  }

  lemma CleanWithoutReturn(header: string)
    requires '\r' !in header
    ensures CleanHeader(header)
  {
    var s := header + "\r\n\r";
    forall j: nat
      ensures !At(s, SEPARATOR, j)
    {
      if j < |header| {
        assert s[j] == header[j];
        NotHere(s, SEPARATOR, j);
      }
    }
  }

  lemma GetBodyLost(path: string, query: string, headers: string, body: string)
    requires CgiPath(path) && (forall c | c in query :: !Blank(CSpace, c))
    requires CleanHeader(Header("GET", path + ("?" + query), headers))
    ensures var outcome := Handle(Request("GET", path + ("?" + query), headers, body));
            outcome.RunCgi? && outcome.env.contentLength == Some(|body|) && outcome.env.stdin == ""
  {
    GetHandled(path, query, headers, body);
    BodyArrives("GET", path + ("?" + query), headers, body);
  }

  /** A body with GET: its length is announced, and nothing of it is there to be read. */
  lemma BodyWithGet()
    ensures var outcome := Handle(Request("GET", "/a.cgi" + ("?" + "q"), "HTTP/1.1", "hi"));
            outcome.RunCgi? && outcome.env.contentLength == Some(2) && outcome.env.stdin == ""
  {
    assert "/a.cgi"[2..6] == ".cgi";
    IndexOfSome("/a.cgi", ".cgi", 0, 2);
    CleanWithoutReturn(Header("GET", "/a.cgi" + ("?" + "q"), "HTTP/1.1"));
    GetBodyLost("/a.cgi", "q", "HTTP/1.1", "hi");
  }

  lemma FormSolid(x: int, y: int)
    ensures forall c | c in Form(x, y) :: !Blank(CSpace, c)
  {
  }

  /** A form with two numbers of type int fits the line buffer. */
  lemma FormShort(x: int, y: int)
    requires FitsInt(x) && FitsInt(y)
    ensures |Form(x, y)| <= 27
  {
    ShowIntShort(x);
    ShowIntShort(y);
  }

  lemma ShowIntShort(n: int)
    requires FitsInt(n)
    ensures |Show(n)| <= 11
  {
    ShowNatShort(if n < 0 then -n else n, 10, 10_000_000_000);
  }

  lemma {:induction false} ShowNatShort(n: nat, k: nat, limit: nat)
    requires n < limit && limit == Power10(k) && k > 0
    ensures |ShowNat(n)| <= k
  {
    if n >= 10 {
      ShowNatShort(n / 10, k - 1, Power10(k - 1));
    }
  }

  function Power10(k: nat): nat {
    if k == 0 then 1 else 10 * Power10(k - 1)
  }

  lemma PostSum(path: string, headers: string, x: int, y: int)
    requires CgiPath(path) && FitsInt(x) && FitsInt(y)
    requires CleanHeader(Header("POST", path, headers))
    ensures var outcome := Handle(Request("POST", path, headers, Form(x, y)));
            && outcome.RunCgi? && outcome.program == path[1..]
            && outcome.env.stdin == Form(x, y) && outcome.env.contentLength == Some(|Form(x, y)|)
            && TestAdd(outcome.env) == Report(x, y, x + y)
  {
    FormShort(x, y);
    PostHandled(path, headers, Form(x, y));
    WholeLine(x, y);
    AddForm(x, y);
  }

  /** A POST of the form to the program gives the sum, and the program gets the form unchanged; the text
      is one that the program reads to its end. */
  lemma PostAdds(path: string, headers: string, x: int, y: int)
    requires CgiPath(path) && FitsInt(x) && FitsInt(y) && FitsInt(x + y)
    requires CleanHeader(Header("POST", path, headers)) && NUL !in path && NUL !in headers
    ensures NUL !in Request("POST", path, headers, Form(x, y))
    ensures var outcome := Handle(Request("POST", path, headers, Form(x, y)));
            && outcome.RunCgi? && outcome.program == path[1..]
            && outcome.env.stdin == Form(x, y) && outcome.env.contentLength == Some(|Form(x, y)|)
            && TestAdd(outcome.env) == Report(x, y, x + y)
  {
    TargetNoNul(path, x, y);
    RequestNoNul("POST", path, headers, Form(x, y));
    PostSum(path, headers, x, y);
  }

  lemma PostHandled(path: string, headers: string, body: string)
    requires CgiPath(path) && CleanHeader(Header("POST", path, headers))
    ensures Handle(Request("POST", path, headers, body)) ==
            RunCgi(path[1..], Environment("POST", None, Some(body)))
  {
    RequestWords("POST", path, headers + SEPARATOR + body);
    CgiStays(path, "");
    assert path + "" == path;
    BodyArrives("POST", path, headers, body);
    assert forall j | 0 <= j < |path| :: path[j] in path;
    Nowhere(path, "?", 0);
  }

  lemma BodyArrives(verb: string, target: string, headers: string, body: string)
    requires CleanHeader(Header(verb, target, headers))
    ensures BodyOf(Request(verb, target, headers, body)) == Some(body)
  {
    SplitUndoes(Header(verb, target, headers), body);
    assert Request(verb, target, headers, body) == Header(verb, target, headers) + SEPARATOR + body;
  }

  lemma WholeLine(x: int, y: int)
    requires |Form(x, y)| <= 1023
    ensures PostLine(Form(x, y)) == Form(x, y)
  {
    var form := Form(x, y);
    FormSolid(x, y);
    assert forall j | 0 <= j < |form| :: form[j] in form;
    Nowhere(form, "\n", 0);
    assert form[..|form|] == form;
  }
}
