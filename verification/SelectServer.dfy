/** The single-threaded chat server around select: lab3/6/chat_server.c. */
module SelectServer {
  import opened Delivery
  import opened Text

  /** A connection is a socket from accept to close; connections are numbered as they are accepted.
      `conn` says which connection a client descriptor stands for, `sent` is what has been written to
      each connection, and `log` is every broadcast with the connections that received it. */
  datatype State = State(
    serv: nat, watched: set<nat>, fdMax: nat, conn: map<nat, nat>, sent: seq<seq<string>>, log: seq<Entry>)

  /** What read returns on a client socket: 0, or some text. */
  datatype Event = Hangup | Message(text: string)

  /** One return of select: the ready sockets, what they hold, and what accept would return. */
  datatype Round = Round(ready: set<nat>, input: map<nat, Event>, accepted: nat)

  function Clients(s: State): set<nat> {
    s.watched - {s.serv}
  }

  /** "[Client %d]: %s" */
  function Labelled(i: nat, text: string): string {
    "[Client " + Show(i) + "]: " + Upto(text)
  }

  /** The connections of the clients with a descriptor below n, but for client i. */
  function Others(conn: map<nat, nat>, i: nat, n: nat): set<nat> {
    set f | f in conn && f != i && f < n :: conn[f]
  }

  function Deliver(sent: seq<seq<string>>, receivers: set<nat>, msg: string): seq<seq<string>> {
    seq(|sent|, c requires 0 <= c < |sent| => if c in receivers then sent[c] + [msg] else sent[c])
  }

  function Broadcast(s: State, i: nat, msg: string): State
    requires i in s.conn
  {
    var receivers := Others(s.conn, i, s.fdMax + 1);
    s.(sent := Deliver(s.sent, receivers, msg), log := s.log + [Entry(s.conn[i], msg, multiset(receivers))])
  }

  function Accept(s: State, fd: nat): State {
    s.(watched := s.watched + {fd}, fdMax := if s.fdMax < fd then fd else s.fdMax,
       conn := s.conn[fd := |s.sent|], sent := s.sent + [[]])
  }

  function Close(s: State, fd: nat): State {
    s.(watched := s.watched - {fd}, conn := s.conn - {fd})
  }

  /** What one position of the scan does. */
  function Visit(s: State, r: Round, i: nat): State {
    if i !in r.ready then s
    else if i == s.serv then Accept(s, r.accepted)
    else if i !in r.input || i !in s.conn then s
    else match r.input[i]
      case Hangup => Close(s, i)
      case Message(text) => Broadcast(s, i, Labelled(i, text))
  }

  /** The positions below n, in ascending order. */
  function Visits(s: State, r: Round, n: nat): State {
    if n == 0 then s else Visit(Visits(s, r, n - 1), r, n - 1)
  }

  function AfterRound(s: State, r: Round): State {
    Visits(s, r, s.fdMax + 1)
  }

  /** select reports sockets of the set, and accept returns a descriptor that is not in use then. */
  predicate Possible(s: State, r: Round) {
    && r.ready <= s.watched
    && (forall i | i in r.ready && i != s.serv :: i in r.input)
    && (s.serv in r.ready ==> r.accepted !in Visits(s, r, s.serv).watched)
  }

  predicate Init(s: State) {
    s.watched == {s.serv} && s.fdMax == s.serv && s.conn == map[] && s.sent == [] && s.log == []
  }

  predicate SocketsInv(s: State) {
    && s.serv in s.watched && (forall f | f in s.watched :: f <= s.fdMax)
    && s.conn.Keys == Clients(s)
    && (forall f | f in s.conn :: s.conn[f] < |s.sent|)
    && (forall f, g | f in s.conn && g in s.conn && f != g :: s.conn[f] != s.conn[g])
  }

  predicate SentInv(s: State) {
    && (forall c | 0 <= c < |s.sent| :: s.sent[c] == Stream(s.log, c))
    && (forall k | 0 <= k < |s.log| :: Addressed(s.log[k], |s.sent|))
  }

  /** One copy at most for each connection, none for the sender. */
  predicate Addressed(e: Entry, n: nat) {
    e.sender !in e.receivers && forall c | c in e.receivers :: c < n && e.receivers[c] == 1
  }

  predicate Inv(s: State) {
    SocketsInv(s) && SentInv(s)
  }

  lemma AcceptKeepsInv(s: State, fd: nat)
    requires Inv(s) && fd !in s.watched
    ensures Inv(Accept(s, fd))
  {
    assert forall k | 0 <= k < |s.log| :: Addressed(s.log[k], |s.sent|);
    StreamNone(s.log, |s.sent|);
  }

  lemma BroadcastKeepsInv(s: State, i: nat, msg: string)
    requires Inv(s) && i in s.conn
    ensures Inv(Broadcast(s, i, msg))
  {
    var s', receivers := Broadcast(s, i, msg), Others(s.conn, i, s.fdMax + 1);
    var e := Entry(s.conn[i], msg, multiset(receivers));
    assert s'.log == s.log + [e] && Addressed(e, |s.sent|);
    forall c: nat | c < |s.sent|
      ensures s'.sent[c] == Stream(s'.log, c)
    {
      StreamAppend(s.log, e, c);
    }
  }

  lemma CloseKeepsInv(s: State, i: nat)
    requires Inv(s) && i in s.conn
    ensures Inv(Close(s, i))
  {
  }

  lemma VisitKeepsInv(s: State, r: Round, i: nat)
    requires Inv(s) && (i == s.serv && i in r.ready ==> r.accepted !in s.watched)
    ensures Inv(Visit(s, r, i)) && Visit(s, r, i).serv == s.serv
    ensures i != s.serv ==> Visit(s, r, i).fdMax == s.fdMax
    ensures s.fdMax <= Visit(s, r, i).fdMax
  {
    if i in r.ready {
      if i == s.serv {
        AcceptKeepsInv(s, r.accepted);
      } else if i in r.input && i in s.conn {
        if r.input[i].Message? {
          BroadcastKeepsInv(s, i, Labelled(i, r.input[i].text));
        } else {
          CloseKeepsInv(s, i);
        }
      }
    }
  }

  lemma {:induction false} VisitsKeepInv(s: State, r: Round, n: nat)
    requires Inv(s) && Possible(s, r)
    ensures Inv(Visits(s, r, n)) && Visits(s, r, n).serv == s.serv && s.fdMax <= Visits(s, r, n).fdMax
  {
    if n > 0 {
      VisitsKeepInv(s, r, n - 1);
      VisitKeepsInv(Visits(s, r, n - 1), r, n - 1);
    }
  }

  /** Past the ready sockets the scan changes nothing. */
  lemma {:induction false} ScanEnds(s: State, r: Round, n: nat)
    requires Inv(s) && Possible(s, r) && s.fdMax < n
    ensures Visits(s, r, n) == AfterRound(s, r)
  {
    if s.fdMax + 1 < n {
      ScanEnds(s, r, n - 1);
    }
  }

  predicate IsRun(s: State, rounds: seq<Round>)
    decreases |rounds|
  {
    rounds == [] || (Possible(s, rounds[0]) && IsRun(AfterRound(s, rounds[0]), rounds[1..]))
  }

  function After(s: State, rounds: seq<Round>): State
    decreases |rounds|
  {
    if rounds == [] then s else After(AfterRound(s, rounds[0]), rounds[1..])
  }

  lemma {:induction false} RunKeepsInv(s: State, rounds: seq<Round>)
    requires Inv(s) && IsRun(s, rounds)
    ensures Inv(After(s, rounds))
    decreases |rounds|
  {
    if rounds != [] {
      VisitsKeepInv(s, rounds[0], s.fdMax + 1);
      RunKeepsInv(AfterRound(s, rounds[0]), rounds[1..]);
    }
  }

  /** In every reachable state the server socket is watched, nothing watched is beyond fd_max, each
      client has a connection of its own, every connection there has been was sent exactly the
      broadcasts addressed to it, in order, and nobody got its own or anything twice. */
  lemma ServerInvariant(s: State, rounds: seq<Round>)
    requires Init(s) && IsRun(s, rounds)
    ensures var t := After(s, rounds);
            && t.serv in t.watched
            && (forall f | f in t.watched :: f <= t.fdMax)
            && t.conn.Keys == Clients(t)
            && (forall f, g | f in t.conn && g in t.conn && f != g :: t.conn[f] != t.conn[g])
            && (forall c | 0 <= c < |t.sent| :: t.sent[c] == Stream(t.log, c))
            && (forall k | 0 <= k < |t.log| :: Addressed(t.log[k], |t.sent|))
  {
    RunKeepsInv(s, rounds);
  }

  /** Any two connections, open or closed, saw what they both received in the same order. */
  lemma SameOrderForAll(s: State, rounds: seq<Round>, c: nat, d: nat)
    requires Init(s) && IsRun(s, rounds) && c < |After(s, rounds).sent| && d < |After(s, rounds).sent|
    ensures var t := After(s, rounds);
            && t.sent[c] == Stream(Only(t.log, c), c) && t.sent[d] == Stream(Only(t.log, d), d)
            && Only(Only(t.log, c), d) == Only(Only(t.log, d), c)
  {
    RunKeepsInv(s, rounds);
    StreamOfOnly(After(s, rounds).log, c);
    StreamOfOnly(After(s, rounds).log, d);
    CommonOrder(After(s, rounds).log, c, d);
  }

  lemma {:induction false} LaterStay(s: State, r: Round, n: nat, f: nat)
    requires n <= f && f in s.watched
    ensures f in Visits(s, r, n).watched
  {
    if n > 0 {
      LaterStay(s, r, n - 1, f);
    }
  }

  /** A descriptor accepted in a round is not read in that round: no position visited from the accept
      on is both ready and the accepted one. A ready socket of the same number belonged to a client
      that hung up earlier in the scan, and lies behind. */
  lemma AcceptedNotRead(s: State, r: Round)
    requires Possible(s, r) && s.serv in r.ready
    ensures forall i | i in r.ready && i >= s.serv :: i != r.accepted
  {
    if r.accepted in r.ready && r.accepted >= s.serv {
      LaterStay(s, r, s.serv, r.accepted);
    }
  }

  /** A message is written once to the connection of every client but its sender, and to no other
      connection. */
  lemma MessageReachesTheOthers(s: State, r: Round, i: nat)
    requires Inv(s) && i in r.ready && i in Clients(s) && i in r.input && r.input[i].Message?
    ensures var s', msg := Visit(s, r, i), Labelled(i, r.input[i].text);
            && |s'.sent| == |s.sent| && s'.conn == s.conn
            && (forall f | f in Clients(s) ::
                  s'.sent[s.conn[f]] == s.sent[s.conn[f]] + if f != i then [msg] else [])
            && (forall c | 0 <= c < |s.sent| && c !in s.conn.Values :: s'.sent[c] == s.sent[c])
  {
    var receivers := Others(s.conn, i, s.fdMax + 1);
    forall f | f in Clients(s)
      ensures s.conn[f] in receivers <==> f != i
    {
    }
  }

  // ---------- who is connected ----------

  /** A connection accepted is watched, within fd_max, with nothing sent to it yet; all else is as before. */
  lemma AcceptJoins(s: State, r: Round)
    requires Inv(s) && s.serv in r.ready && r.accepted !in s.watched
    ensures var s', fd := Visit(s, r, s.serv), r.accepted;
            && s'.watched == s.watched + {fd} && fd <= s'.fdMax && s.fdMax <= s'.fdMax
            && (s'.fdMax == fd || s'.fdMax == s.fdMax)
            && fd in s'.conn && s'.conn[fd] == |s.sent| && s'.sent == s.sent + [[]] && s'.log == s.log
            && forall f | f in s.conn :: f in s'.conn && s'.conn[f] == s.conn[f]
  {
  }

  /** A client that hangs up is no longer watched and has no connection; all else is as before. */
  lemma HangupLeaves(s: State, r: Round, i: nat)
    requires Inv(s) && i in r.ready && i in Clients(s) && i in r.input && r.input[i].Hangup?
    ensures var s' := Visit(s, r, i);
            && s'.watched == s.watched - {i} && i !in s'.conn && s'.fdMax == s.fdMax
            && s'.sent == s.sent && s'.log == s.log
            && forall f | f in s.conn && f != i :: f in s'.conn && s'.conn[f] == s.conn[f]
  {
  }

  predicate HangsUp(r: Round, serv: nat, i: nat) {
    i in r.ready && i != serv && i in r.input && r.input[i] == Hangup
  }

  /** The clients after a round: those who were there and have not hung up, and the one accepted. */
  function ClientsAfterRound(cs: set<nat>, serv: nat, r: Round): set<nat> {
    (set f | f in cs && !HangsUp(r, serv, f)) + if serv in r.ready then {r.accepted} else {}
  }

  /** The clients after some rounds, computed from the rounds alone. */
  function Present(cs: set<nat>, serv: nat, rounds: seq<Round>): set<nat>
    decreases |rounds|
  {
    if rounds == [] then cs else Present(ClientsAfterRound(cs, serv, rounds[0]), serv, rounds[1..])
  }

  /** The clients once the scan has come to n. */
  ghost predicate ScannedTo(s: State, r: Round, n: nat) {
    forall f: nat :: f in Clients(Visits(s, r, n)) <==>
      (f in Clients(s) && !(f < n && HangsUp(r, s.serv, f))) || (f == r.accepted && s.serv in r.ready && s.serv < n)
  }

  lemma {:induction false} ScanClients(s: State, r: Round, n: nat)
    requires Inv(s) && Possible(s, r)
    ensures ScannedTo(s, r, n)
    decreases n
  {
    if n > 0 {
      ScanClients(s, r, n - 1);
      VisitsKeepInv(s, r, n - 1);
      VisitClients(s, r, n - 1);
    }
  }

  lemma VisitClients(s: State, r: Round, i: nat)
    requires Inv(s) && Possible(s, r) && ScannedTo(s, r, i)
    requires Inv(Visits(s, r, i)) && Visits(s, r, i).serv == s.serv
    ensures ScannedTo(s, r, i + 1)
  {
    var t := Visits(s, r, i);
    if i in r.ready {
      LaterStay(s, r, i, i);
      if i == s.serv {
        AcceptJoins(t, r);
      } else if r.input[i].Hangup? {
        HangupLeaves(t, r, i);
        if s.serv in r.ready {
          AcceptedNotRead(s, r);
        }
      } else {
        MessageKeepsClients(t, r, i);
      }
    }
  }

  lemma MessageKeepsClients(s: State, r: Round, i: nat)
    requires i in r.ready && i != s.serv && i in s.conn && i in r.input && r.input[i].Message?
    ensures Visit(s, r, i).watched == s.watched
  {
  }

  lemma RoundClients(s: State, r: Round)
    requires Inv(s) && Possible(s, r)
    ensures Clients(AfterRound(s, r)) == ClientsAfterRound(Clients(s), s.serv, r)
  {
    ScanClients(s, r, s.fdMax + 1);
  }

  /** Over every run the clients are those accepted and not hung up since. */
  lemma {:induction false} ClientsFromRounds(s: State, rounds: seq<Round>)
    requires Inv(s) && IsRun(s, rounds)
    ensures After(s, rounds).serv == s.serv && Clients(After(s, rounds)) == Present(Clients(s), s.serv, rounds)
    decreases |rounds|
  {
    if rounds != [] {
      RoundClients(s, rounds[0]);
      VisitsKeepInv(s, rounds[0], s.fdMax + 1);
      ClientsFromRounds(AfterRound(s, rounds[0]), rounds[1..]);
    }
  }

  lemma ClientsOfRun(s: State, rounds: seq<Round>)
    requires Init(s) && IsRun(s, rounds)
    ensures Clients(After(s, rounds)) == Present({}, s.serv, rounds)
  {
    ClientsFromRounds(s, rounds);
    assert Clients(s) == {};
  }

  lemma {:induction false} OnlyShrinks(s: State, r: Round, n: nat)
    requires n <= s.serv
    ensures Visits(s, r, n).watched <= s.watched && Visits(s, r, n).serv == s.serv
  {
    if n > 0 {
      OnlyShrinks(s, r, n - 1);
    }
  }

  /** No round is excluded in which select reports watched sockets, each of which holds something, and
      accept returns a descriptor that nobody has. */
  lemma AnyRound(s: State, r: Round)
    requires r.ready <= s.watched && r.accepted !in s.watched
    requires forall i | i in r.ready && i != s.serv :: i in r.input
    ensures Possible(s, r)
  {
    OnlyShrinks(s, r, s.serv);
  }

  // ---------- what is said ----------

  function LogTexts(log: seq<Entry>): seq<string> {
    seq(|log|, k requires 0 <= k < |log| => log[k].text)
  }

  /** The messages of the ready clients below n, in ascending order. */
  function Said(r: Round, serv: nat, n: nat): seq<string> {
    if n == 0 then []
    else
      Said(r, serv, n - 1) +
      if n - 1 in r.ready && n - 1 != serv && n - 1 in r.input && r.input[n - 1].Message?
      then [Labelled(n - 1, r.input[n - 1].text)] else []
  }

  lemma VisitSays(s: State, r: Round, i: nat)
    requires i in r.ready && i != s.serv ==> i in r.input && i in s.conn
    ensures LogTexts(Visit(s, r, i).log) ==
            LogTexts(s.log) + if i in r.ready && i != s.serv && r.input[i].Message?
                              then [Labelled(i, r.input[i].text)] else []
  {
  }

  lemma {:induction false} ScanSays(s: State, r: Round, n: nat)
    requires Inv(s) && Possible(s, r)
    ensures LogTexts(Visits(s, r, n).log) == LogTexts(s.log) + Said(r, s.serv, n)
  {
    if n > 0 {
      ScanSays(s, r, n - 1);
      VisitsKeepInv(s, r, n - 1);
      if n - 1 in r.ready {
        LaterStay(s, r, n - 1, n - 1);
      }
      VisitSays(Visits(s, r, n - 1), r, n - 1);
    }
  }

  /** A round broadcasts just what its ready clients have sent, in ascending order of their numbers. */
  lemma RoundSays(s: State, r: Round)
    requires Inv(s) && Possible(s, r)
    ensures LogTexts(AfterRound(s, r).log) == LogTexts(s.log) + Said(r, s.serv, s.fdMax + 1)
  {
    ScanSays(s, r, s.fdMax + 1);
  }

  /** The label carries the sender's number and the whole text up to a NUL. */
  lemma LabelledText(i: nat, text: string)
    ensures var out, n := Labelled(i, text), |Show(i)|;
            && |out| >= n + 11 && out[..8] == "[Client " && out[8..n + 8] == Show(i)
            && out[n + 8..n + 11] == "]: " && out[n + 11..] == Upto(text)
  {
  }

  /** The loop over the sockets goes on by one. */
  lemma NextSocket(s: State, sent: seq<seq<string>>, i: nat, msg: string, j: nat)
    requires SocketsInv(s) && |sent| == |s.sent| && sent == Deliver(s.sent, Others(s.conn, i, j), msg)
    ensures Deliver(s.sent, Others(s.conn, i, j + 1), msg) ==
              if j in s.conn && j != i then sent[s.conn[j] := sent[s.conn[j]] + [msg]] else sent
  {
    if j in s.conn && j != i {
      assert s.conn[j] !in Others(s.conn, i, j);
      assert Others(s.conn, i, j + 1) == Others(s.conn, i, j) + {s.conn[j]};
    } else {
      assert Others(s.conn, i, j + 1) == Others(s.conn, i, j);
    }
  }

  /** One position further; only the server socket raises fd_max. */
  lemma NextVisit(s: State, r: Round, i: nat)
    requires Inv(s) && Possible(s, r)
    ensures var t, t' := Visits(s, r, i), Visits(s, r, i + 1);
            && Inv(t') && t' == Visit(t, r, i) && s.fdMax <= t'.fdMax && (i != s.serv ==> t'.fdMax == t.fdMax)
            && (i in r.ready && i != s.serv ==> i in r.input && i in t.conn)
            && t.serv == s.serv && (i == s.serv ==> t.fdMax <= t'.fdMax)
  {
    VisitsKeepInv(s, r, i);
    VisitsKeepInv(s, r, i + 1);
    VisitKeepsInv(Visits(s, r, i), r, i);
    if i in r.ready {
      LaterStay(s, r, i, i);
    }
  }

  // ---------- the program ----------

  class Server {
    const serv: nat
    var watched: set<nat>
    var fdMax: nat
    var conn: map<nat, nat>
    var sent: seq<seq<string>>
    ghost var log: seq<Entry>

    ghost function View(): State
      reads this
    {
      State(serv, watched, fdMax, conn, sent, log)
    }

    constructor (servSock: nat)
      ensures Init(View()) && serv == servSock
    {
      serv, watched, fdMax, conn, sent, log := servSock, {servSock}, servSock, map[], [], [];
    }

    /** The inner loop: write to every client but the sender. */
    method SendOthers(i: nat, msg: string)
      requires Inv(View()) && i in conn
      modifies `sent, `log
      ensures View() == Broadcast(old(View()), i, msg)
    {
      ghost var s := View();
      assert Deliver(sent, Others(conn, i, 0), msg) == sent;
      var j := 0;
      while j <= fdMax
        invariant j <= fdMax + 1 && log == s.log
        invariant |sent| == |s.sent| && sent == Deliver(s.sent, Others(conn, i, j), msg)
      {
        NextSocket(s, sent, i, msg, j);
        if j in watched && j != serv && j != i {
          sent := sent[conn[j] := sent[conn[j]] + [msg]];
        }
        j := j + 1;
      }
      log := log + [Entry(conn[i], msg, multiset(Others(conn, i, j)))];
    }

    /** One position of the scan. */
    method ServeSocket(i: nat, ready: set<nat>, input: map<nat, Event>, accepted: nat)
      requires Inv(View()) && (i in ready && i != serv ==> i in input && i in conn)
      modifies this
      ensures View() == Visit(old(View()), Round(ready, input, accepted), i)
    {
      if i in ready {
        if i == serv {
          watched := watched + {accepted};
          conn, sent := conn[accepted := |sent|], sent + [[]];
          if fdMax < accepted { fdMax := accepted; }
        } else {
          match input[i]
          case Hangup => watched, conn := watched - {i}, conn - {i};
          case Message(text) => SendOthers(i, Labelled(i, text));
        }
      }
    }

    /** One turn of the outer loop, after select has returned. */
    method ServeRound(ready: set<nat>, input: map<nat, Event>, accepted: nat)
      requires Inv(View()) && Possible(View(), Round(ready, input, accepted))
      modifies this
      ensures View() == AfterRound(old(View()), Round(ready, input, accepted)) && Inv(View())
    {
      ghost var s, r := View(), Round(ready, input, accepted);
      var i := 0;
      while i < fdMax + 1
        invariant i <= fdMax + 1 && s.fdMax <= fdMax
        invariant Inv(View()) && View() == Visits(s, r, i)
        decreases if i <= serv then 1 else 0, fdMax + 1 - i
      {
        NextVisit(s, r, i);
        ServeSocket(i, ready, input, accepted);
        i := i + 1;
      }
      ScanEnds(s, r, i);
    }
  }
}
