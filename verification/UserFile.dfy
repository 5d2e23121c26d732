/** The user file of project2/gui_server.c: one "id password" line per user, appended to and scanned
    by process_auth. The function runs under one mutex, so concurrent requests take effect one after
    another and a run is a sequence of requests. */
module UserFile {
  import opened Options
  import opened Text

  function FileWords(content: string, i: nat): seq<string>
    requires i <= |content|
  {
    WordsFrom(CSpace, content, i)
  }

  /** The scan over the words of the file: the password read last when the id turns up. With an odd
      word at the end the buffer still holds what was read before. */
  function Find(ws: seq<string>, k: nat, id: string, pw: string): Option<string>
    requires k <= |ws|
    decreases |ws| - k
  {
    if k == |ws| then None
    else
      var pw' := if k + 1 < |ws| then ws[k + 1] else pw;
      if ws[k] == id then Some(pw') else if k + 2 <= |ws| then Find(ws, k + 2, id, pw') else None
  }

  datatype Request = Request(mode: string, id: string, pw: string)

  /** The new content of the file, and the code returned. */
  function Auth(content: string, r: Request, garbage: string): (string, int) {
    var found := Find(FileWords(content, 0), 0, r.id, garbage);
    if r.mode == "REGISTER" then
      if found.Some? then (content, -1) else (content + (r.id + " " + r.pw + "\n"), 0)
    else if found.None? then (content, -2)
    else (content, if found.value == r.pw then 0 else -1)
  }

  class Users {
    var content: string

    constructor ()
      ensures content == ""
    {
      content := "";
    }

    /** `garbage` is what file_pw holds before anything is read into it. */
    method ProcessAuth(mode: string, id: string, pw: string, garbage: string) returns (code: int)
      modifies this
      ensures (content, code) == Auth(old(content), Request(mode, id, pw), garbage)
    {
      ghost var ws := FileWords(content, 0);
      ghost var k := 0;
      ghost var start := content;
      var pos := 0;
      var filePw := garbage;
      var found := false;
      while pos < |content|
        invariant content == start && pos <= |content| && k <= |ws|
        invariant !found && ws[k..] == FileWords(content, pos)
        invariant Find(ws, 0, id, garbage) == Find(ws, k, id, filePw)
        decreases |content| - pos
      {
        var w1, p1 := ReadWord(content, pos);
        if w1 == "" { // end of file before any word
          pos := |content|;
          break;
        }
        assert ws[k] == w1 && ws[k + 1..] == FileWords(content, p1);
        var w2, p2 := ReadWord(content, p1);
        if w2 != "" {
          assert ws[k + 1] == w2 && ws[k + 2..] == ws[k + 1..][1..];
          filePw := w2;
        }
        if w1 == id {
          found := true;
          break;
        }
        pos := p2;
        k := if w2 != "" then k + 2 else k + 1;
      }
      ghost var result := Find(ws, 0, id, garbage);
      assert result == if found then Some(filePw) else None;
      if mode == "REGISTER" {
        if found { return -1; }
        content := content + (id + " " + pw + "\n");
        return 0;
      } else {
        if !found { return -2; }
        return if filePw == pw then 0 else -1;
      }
    }
  }

  /** One "%s" of fscanf: skip blanks, take the run that follows; no word at the end of the file. */
  method ReadWord(content: string, pos: nat) returns (w: string, next: nat)
    requires pos <= |content|
    ensures pos <= next <= |content| && (w != "" ==> pos < next)
    ensures w == "" ==> next == |content| && FileWords(content, pos) == []
    ensures w != "" ==> FileWords(content, pos) == [w] + FileWords(content, next)
  {
    var i := pos;
    while i < |content| && Blank(CSpace, content[i])
      invariant pos <= i <= |content| && FileWords(content, i) == FileWords(content, pos)
    {
      i := i + 1;
    }
    next := RunEnd(CSpace, content, i);
    w := content[i..next];
  }

  // ---------- files with an odd word at the end ----------

  /** The scan depends on what the buffer held before just when the only word left is the id. */
  lemma FindIgnoresBufferIff(ws: seq<string>, k: nat, id: string, p: string, q: string)
    requires k <= |ws| && p != q
    ensures Find(ws, k, id, p) == Find(ws, k, id, q) <==> !(k + 1 == |ws| && ws[k] == id)
  {
  }

  /** What a login returns depends on what the buffer held before exactly if the file is that one id. */
  lemma AuthIgnoresBufferIff(content: string, r: Request)
    ensures (forall g, h :: Auth(content, r, g) == Auth(content, r, h))
            <==> r.mode == "REGISTER" || FileWords(content, 0) != [r.id]
  {
    var ws := FileWords(content, 0);
    if ws == [r.id] {
      assert Find(ws, 0, r.id, r.pw) == Some(r.pw) && Find(ws, 0, r.id, r.pw + "x") == Some(r.pw + "x");
      assert Auth(content, r, r.pw).1 == Auth(content, r, r.pw + "x").1 <==> r.mode == "REGISTER";
      assert r.mode == "REGISTER" ==> forall g :: Find(ws, 0, r.id, g).Some?;
    } else {
      forall g: string, h: string
        ensures Auth(content, r, g) == Auth(content, r, h)
      {
        if g != h {
          FindIgnoresBufferIff(ws, 0, r.id, g, h);
        }
      }
    }
  }

  /** The words taken two by two from k on, as the scan takes them: the word that is paired with an id. */
  function PairedWith(ws: seq<string>, k: nat, id: string): Option<string>
    requires k <= |ws|
    decreases |ws| - k
  {
    if k + 1 >= |ws| then None else if ws[k] == id then Some(ws[k + 1]) else PairedWith(ws, k + 2, id)
  }

  /** The words from k on are odd in number, the last is the id, and no pair before begins with it. */
  predicate OddId(ws: seq<string>, k: nat, id: string) {
    && k < |ws| && (|ws| - k) % 2 == 1 && ws[|ws| - 1] == id
    && forall i | k <= i < |ws| - 1 && (i - k) % 2 == 0 :: ws[i] != id
  }

  /** The scan finds the word paired with the id unless the id is an odd word at the end; then it
      compares the second word of the pair before, or what the buffer held. */
  lemma {:induction false} FindIsPairedIff(ws: seq<string>, k: nat, id: string, pw: string)
    requires k <= |ws|
    ensures Find(ws, k, id, pw) == PairedWith(ws, k, id) <==> !OddId(ws, k, id)
    ensures OddId(ws, k, id) ==>
              PairedWith(ws, k, id) == None && Find(ws, k, id, pw) == Some(if |ws| - k >= 3 then ws[|ws| - 2] else pw)
    decreases |ws| - k
  {
    if k + 1 < |ws| && ws[k] != id {
      FindIsPairedIff(ws, k + 2, id, ws[k + 1]);
    }
  }

  /** A login is answered by the word paired with the id, or by -2 if there is none, unless the id is an
      odd word at the end. */
  lemma LoginAsPairedIff(content: string, r: Request, garbage: string)
    requires r.mode != "REGISTER"
    ensures var ws := FileWords(content, 0);
            Auth(content, r, garbage).1 ==
              (match PairedWith(ws, 0, r.id) case None => -2 case Some(pw) => if pw == r.pw then 0 else -1)
            <==> !OddId(ws, 0, r.id)
  {
    FindIsPairedIff(FileWords(content, 0), 0, r.id, garbage);
  }

  /** Registered without a password, a user logs in with whatever the buffer happens to hold. */
  lemma PasswordMissing(garbage: string, pw: string)
    ensures Auth("", Request("REGISTER", "alice", ""), garbage) == ("alice \n", 0)
    ensures FileWords("alice \n", 0) == ["alice"] && OddId(["alice"], 0, "alice")
    ensures Auth("alice \n", Request("LOGIN", "alice", pw), garbage).1 == if pw == garbage then 0 else -1
  {
    assert "" + ("alice" + " " + "" + "\n") == "alice" + " \n" == "alice \n";
    WordFirst(CSpace, "alice", " \n");
    BlankText(CSpace, " \n", 0);
  }

  // ---------- records ----------

  datatype User = User(id: string, pw: string)

  predicate Token(w: string) {
    Solid(CSpace, w)
  }

  predicate WellFormed(us: seq<User>) {
    && (forall j | 0 <= j < |us| :: Token(us[j].id) && Token(us[j].pw))
    && (forall i, j | 0 <= i < j < |us| :: us[i].id != us[j].id)
  }

  function Line(u: User): string {
    u.id + " " + u.pw + "\n"
  }

  function Print(us: seq<User>): string {
    if us == [] then "" else Line(us[0]) + Print(us[1..])
  }

  function Flat(us: seq<User>): seq<string> {
    seq(2 * |us|, i requires 0 <= i < 2 * |us| => if i % 2 == 0 then us[i / 2].id else us[i / 2].pw)
  }

  /** Printing the records and scanning the file gives the records back. */
  lemma {:induction false} ScanPrinted(us: seq<User>)
    requires forall j | 0 <= j < |us| :: Token(us[j].id) && Token(us[j].pw)
    ensures Words(CSpace, Print(us)) == Flat(us)
  {
    if us != [] {
      var u, rest := us[0], Print(us[1..]);
      ScanPrinted(us[1..]);
      LineWords(u, rest);
      FlatCons(u, us[1..]);
      assert us == [u] + us[1..];
    }
  }

  lemma FlatCons(u: User, us: seq<User>)
    ensures Flat([u] + us) == [u.id, u.pw] + Flat(us)
  {
  }

  lemma LineWords(u: User, rest: string)
    requires Token(u.id) && Token(u.pw)
    ensures Words(CSpace, Line(u) + rest) == [u.id, u.pw] + Words(CSpace, rest)
  {
    var tail := "\n" + rest;
    assert Line(u) + rest == u.id + (" " + (u.pw + tail));
    WordFirst(CSpace, u.id, " " + (u.pw + tail));
    LeadingBlanks(CSpace, " ", u.pw + tail);
    WordFirst(CSpace, u.pw, tail);
    LeadingBlanks(CSpace, "\n", rest);
  }

  lemma {:induction false} PrintAppend(us: seq<User>, u: User)
    ensures Print(us + [u]) == Print(us) + Line(u)
  {
    if us == [] {
      assert [u][1..] == [];
    } else {
      assert (us + [u])[1..] == us[1..] + [u];
      PrintAppend(us[1..], u);
    }
  }

  /** The password recorded for an id. */
  function Lookup(us: seq<User>, k: nat, id: string): Option<string>
    requires k <= |us|
    decreases |us| - k
  {
    if k == |us| then None else if us[k].id == id then Some(us[k].pw) else Lookup(us, k + 1, id)
  }

  lemma FlatAt(us: seq<User>, k: nat)
    requires k < |us|
    ensures Flat(us)[2 * k] == us[k].id && Flat(us)[2 * k + 1] == us[k].pw
  {
  }

  lemma {:induction false} FindIsLookup(us: seq<User>, k: nat, id: string, pw: string)
    requires k <= |us|
    ensures Find(Flat(us), 2 * k, id, pw) == Lookup(us, k, id)
    decreases |us| - k
  {
    if k < |us| {
      FlatAt(us, k);
      FindIsLookup(us, k + 1, id, us[k].pw);
    }
  }

  lemma {:induction false} LookupGives(us: seq<User>, k: nat, id: string)
    requires k <= |us|
    ensures Lookup(us, k, id) == None <==> forall j | k <= j < |us| :: us[j].id != id
    ensures forall j | k <= j < |us| && us[j].id == id && WellFormed(us) :: Lookup(us, k, id) == Some(us[j].pw)
    decreases |us| - k
  {
    if k < |us| {
      LookupGives(us, k + 1, id);
    }
  }

  /** A registration carries an id and a password. */
  predicate Proper(r: Request) {
    r.mode == "REGISTER" ==> Token(r.id) && Token(r.pw)
  }

  function UsersAfter(us: seq<User>, r: Request): seq<User> {
    if r.mode == "REGISTER" && Lookup(us, 0, r.id) == None then us + [User(r.id, r.pw)] else us
  }

  /** On a file of records a request acts on the records, whatever the buffers held before. */
  lemma AuthOnUsers(us: seq<User>, r: Request, garbage: string)
    requires WellFormed(us) && Proper(r)
    ensures WellFormed(UsersAfter(us, r))
    ensures var found := Lookup(us, 0, r.id);
            Auth(Print(us), r, garbage) ==
              (Print(UsersAfter(us, r)),
               if r.mode == "REGISTER" then (if found.Some? then -1 else 0)
               else if found.None? then -2 else if found.value == r.pw then 0 else -1)
  {
    ScanPrinted(us);
    FindIsLookup(us, 0, r.id, garbage);
    LookupGives(us, 0, r.id);
    PrintAppend(us, User(r.id, r.pw));
  }

  // ---------- runs of requests ----------

  /** One call of process_auth, with what its password buffer happens to hold. */
  datatype Call = Call(request: Request, buffer: string)

  function ContentAfter(content: string, cs: seq<Call>): string {
    if cs == [] then content
    else Auth(ContentAfter(content, cs[..|cs| - 1]), cs[|cs| - 1].request, cs[|cs| - 1].buffer).0
  }

  function Registered(cs: seq<Call>): seq<User> {
    if cs == [] then [] else UsersAfter(Registered(cs[..|cs| - 1]), cs[|cs| - 1].request)
  }

  predicate Registers(c: Call, id: string) {
    c.request.mode == "REGISTER" && c.request.id == id
  }

  /** After any run from an empty file in which every registration carries a password, the file holds
      one record for each id ever registered. */
  lemma {:induction false} FileHoldsRecords(cs: seq<Call>)
    requires forall k | 0 <= k < |cs| :: Proper(cs[k].request)
    ensures WellFormed(Registered(cs)) && ContentAfter("", cs) == Print(Registered(cs))
    ensures forall id :: Lookup(Registered(cs), 0, id) == None <==> forall k | 0 <= k < |cs| :: !Registers(cs[k], id)
  {
    if cs != [] {
      var front, c := cs[..|cs| - 1], cs[|cs| - 1];
      FileHoldsRecords(front);
      AuthOnUsers(Registered(front), c.request, c.buffer);
      forall id
        ensures Lookup(Registered(cs), 0, id) == None <==> forall k | 0 <= k < |cs| :: !Registers(cs[k], id)
      {
        LookupAfter(Registered(front), c, id);
        assert forall k | 0 <= k < |front| :: cs[k] == front[k];
      }
    }
  }

  lemma LookupAfter(us: seq<User>, c: Call, id: string)
    ensures Lookup(UsersAfter(us, c.request), 0, id) == None <==> Lookup(us, 0, id) == None && !Registers(c, id)
  {
    var us' := UsersAfter(us, c.request);
    LookupGives(us, 0, id);
    LookupGives(us', 0, id);
    if us' != us {
      assert us'[|us|].id == c.request.id;
      assert forall j | 0 <= j < |us| :: us'[j] == us[j];
    }
  }

  /** The file only grows, by appending, whatever is requested. */
  lemma {:induction false} OnlyAppended(content: string, cs: seq<Call>, n: nat)
    requires n <= |cs|
    ensures ContentAfter(content, cs[..n]) <= ContentAfter(content, cs)
    decreases |cs|
  {
    if n == |cs| {
      assert cs[..n] == cs;
    } else {
      OnlyAppended(content, cs[..|cs| - 1], n);
      assert cs[..|cs| - 1][..n] == cs[..n];
    }
  }

  /** If every registration carries a password, LOGIN returns -2 exactly when the id was never
      registered. */
  lemma UnknownId(cs: seq<Call>, r: Request, buffer: string)
    requires (forall k | 0 <= k < |cs| :: Proper(cs[k].request)) && r.mode != "REGISTER"
    ensures Auth(ContentAfter("", cs), r, buffer).1 == -2 <==> forall k | 0 <= k < |cs| :: !Registers(cs[k], r.id)
  {
    FileHoldsRecords(cs);
    AuthOnUsers(Registered(cs), r, buffer);
  }
}
