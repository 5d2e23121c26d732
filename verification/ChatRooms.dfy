/** Rooms and broadcasts of project2/gui_server.c. The list changes and the messages go out under one
    mutex, but connections open and close, and a client's thread writes its own name and room, without
    it. A message is written to the socket number in a client's record, and so reaches whichever
    connection has that number at the time. */
module ChatRooms {
  import opened Options
  import opened Delivery
  import opened Text
  import Registry

  /** A freshly allocated name is taken to be empty. */
  datatype Client = Client(sock: nat, name: string, room: int)

  /** send_msg in progress: it holds the mutex and is about to look at slot i. */
  datatype Sending = Sending(sender: nat, msg: string, i: nat)

  /** A client stands for its connection. `pending` is the client main has accepted and not yet listed,
      `live` are those whose threads run and have not been through the removal loop, `open` says whose
      connection a socket number is, and `sent` is what has been written to each client's connection. */
  datatype State = State(
    clients: map<nat, Client>, pending: Option<nat>, live: set<nat>, list: seq<nat>, open: map<nat, nat>,
    active: Option<Sending>, log: seq<Entry>, sent: map<nat, seq<string>>)

  datatype Action =
    | Accept(c: nat, sock: nat)
    | Register
    | Name(c: nat, name: string)
    | Join(c: nat, room: int)
    | Begin(c: nat, msg: string)
    | Slot
    | End
    | Leave(c: nat)
    | Close(c: nat)

  const INIT := State(map[], None, {}, [], map[], None, [], map[])

  /** A client's thread is free to act unless it is inside send_msg. */
  predicate Free(s: State, c: nat) {
    c in s.live && c in s.clients && (s.active.Some? ==> s.active.value.sender != c)
  }

  /** The kernel gives a new connection a number that is not in use; the other steps are the
      program's, and those under the mutex wait until no broadcast is under way. */
  predicate Enabled(s: State, a: Action) {
    match a
    case Accept(c, sock) => s.pending == None && c !in s.clients && sock !in s.open
    case Register => s.active == None && s.pending.Some?
    case Name(c, name) => Free(s, c) && name != ""
    case Join(c, _) => Free(s, c)
    case Begin(c, msg) => Free(s, c) && s.active == None && s.clients[c].name != "" && (msg != "" ==> msg[0] != '/')
    case Slot => s.active.Some? && s.active.value.i < |s.list|
    case End => s.active.Some? && s.active.value.i >= |s.list|
    case Leave(c) => Free(s, c) && s.active == None
    case Close(c) => c !in s.live && s.pending != Some(c) && Owner(s, c) == Some(c)
  }

  /** Named and in the room of the client who is sending. */
  predicate InRoom(s: State, c: nat) {
    && s.active.Some? && s.active.value.sender in s.clients && c in s.clients
    && s.clients[c].name != "" && s.clients[c].room == s.clients[s.active.value.sender].room
  }

  /** File messages go out as they are, others with the sender's name. */
  function Outgoing(sender: Client, msg: string): string {
    if "[FILE]" <= msg then msg else "[" + sender.name + "] " + Upto(msg)
  }

  function Sock(s: State, c: nat): nat {
    if c in s.clients then s.clients[c].sock else 0
  }

  /** Whose connection the socket number in the record of client c is. */
  function Owner(s: State, c: nat): Option<nat> {
    if c in s.clients && s.clients[c].sock in s.open then Some(s.open[s.clients[c].sock]) else None
  }

  function Socks(s: State): seq<nat> {
    seq(|s.list|, k requires 0 <= k < |s.list| => Sock(s, s.list[k]))
  }

  /** The list after the removal loop, which looks for the socket of the leaving client. */
  function ListWithout(s: State, c: nat): seq<nat> {
    if s.list == [] then [] else Registry.Shifted(s.list, Registry.Position(Socks(s), Sock(s, c)))
  }

  /** One write of the message under way, to the connection of client d. */
  function Write(s: State, d: nat): State {
    if d in s.sent && s.log != [] then
      var e := s.log[|s.log| - 1];
      s.(sent := s.sent[d := s.sent[d] + [e.text]],
         log := s.log[..|s.log| - 1] + [e.(receivers := e.receivers + multiset{d})])
    else s
  }

  /** What send_msg does at the slot of client c. */
  function SendTo(s: State, c: nat): State {
    if InRoom(s, c) && Owner(s, c).Some? then Write(s, Owner(s, c).value) else s
  }

  function Update(s: State, c: nat, client: Client): State {
    s.(clients := s.clients[c := client])
  }

  function Apply(s: State, a: Action): State
    requires Enabled(s, a)
  {
    match a
    case Accept(c, sock) =>
      Update(s, c, Client(sock, "", 0)).(pending := Some(c), open := s.open[sock := c], sent := s.sent[c := []])
    case Register => s.(pending := None, live := s.live + {s.pending.value}, list := s.list + [s.pending.value])
    case Name(c, name) => Update(s, c, s.clients[c].(name := name))
    case Join(c, room) => Update(s, c, s.clients[c].(room := room))
    case Begin(c, msg) =>
      s.(active := Some(Sending(c, msg, 0)), log := s.log + [Entry(c, Outgoing(s.clients[c], msg), multiset{})])
    case Slot => SendTo(s, s.list[s.active.value.i]).(active := Some(s.active.value.(i := s.active.value.i + 1)))
    case End => s.(active := None)
    case Leave(c) => s.(live := s.live - {c}, list := ListWithout(s, c))
    case Close(c) => s.(open := s.open - {s.clients[c].sock})
  }

  predicate IsRun(s: State, acts: seq<Action>)
    decreases |acts|
  {
    acts == [] || (Enabled(s, acts[0]) && IsRun(Apply(s, acts[0]), acts[1..]))
  }

  function After(s: State, acts: seq<Action>): State
    requires IsRun(s, acts)
    decreases |acts|
  {
    if acts == [] then s else After(Apply(s, acts[0]), acts[1..])
  }

  // ---------- what every step keeps ----------

  predicate ListInv(s: State) {
    && Registry.Distinct(s.list) && (forall k | 0 <= k < |s.list| :: s.list[k] in s.clients)
    && s.live <= s.clients.Keys && |s.list| == |s.live|
    && (s.pending.Some? ==> s.pending.value in s.clients && s.pending.value !in s.live && s.pending.value !in s.list)
  }

  /** Each open socket number is that of one client, and every pending or live client has its own. */
  predicate OpenInv(s: State) {
    && (forall f | f in s.open :: s.open[f] in s.clients && s.clients[s.open[f]].sock == f)
    && (forall c | c in s.live :: Owner(s, c) == Some(c))
    && (s.pending.Some? ==> Owner(s, s.pending.value) == s.pending)
  }

  predicate SentInv(s: State) {
    && s.sent.Keys == s.clients.Keys
    && (forall c | c in s.sent :: s.sent[c] == Stream(s.log, c))
    && (forall k, c | 0 <= k < |s.log| && c in s.log[k].receivers :: c in s.clients)
  }

  /** The broadcast under way is the last of the log; its sender is live and named. */
  predicate ActiveInv(s: State) {
    s.active.Some? ==>
      var a := s.active.value;
      && a.sender in s.live && a.sender in s.clients && s.clients[a.sender].name != ""
      && a.i <= |s.list| && s.log != []
      && s.log[|s.log| - 1].text == Outgoing(s.clients[a.sender], a.msg)
  }

  predicate Inv(s: State) {
    ListInv(s) && OpenInv(s) && SentInv(s) && ActiveInv(s)
  }

  lemma WriteKeepsSent(s: State, d: nat)
    requires SentInv(s) && d in s.clients
    ensures SentInv(Write(s, d))
  {
    if s.log != [] {
      forall c | c in s.sent
        ensures Write(s, d).sent[c] == Stream(Write(s, d).log, c)
      {
        StreamMore(s.log, d, c);
      }
    }
  }

  lemma ListAccept(s: State, a: Action)
    requires ListInv(s) && Enabled(s, a) && a.Accept?
    ensures ListInv(Apply(s, a))
  {
  }

  lemma ListRegister(s: State, a: Action)
    requires ListInv(s) && Enabled(s, a) && a.Register?
    ensures ListInv(Apply(s, a))
  {
  }

  lemma ListLeave(s: State, a: Action)
    requires ListInv(s) && Enabled(s, a) && a.Leave?
    ensures ListInv(Apply(s, a))
  {
  }

  lemma ListRest(s: State, a: Action)
    requires ListInv(s) && Enabled(s, a) && !a.Accept? && !a.Register? && !a.Leave?
    ensures ListInv(Apply(s, a))
  {
  }

  lemma ListStep(s: State, a: Action)
    requires ListInv(s) && Enabled(s, a)
    ensures ListInv(Apply(s, a))
  {
    match a
    case Accept(_, _) => ListAccept(s, a);
    case Register => ListRegister(s, a);
    case Leave(_) => ListLeave(s, a);
    case _ => ListRest(s, a);
  }

  lemma OpenAccept(s: State, a: Action)
    requires ListInv(s) && OpenInv(s) && Enabled(s, a) && a.Accept?
    ensures OpenInv(Apply(s, a))
  {
  }

  lemma OpenWrite(s: State, a: Action)
    requires ListInv(s) && OpenInv(s) && Enabled(s, a) && (a.Name? || a.Join?)
    ensures OpenInv(Apply(s, a))
  {
  }

  lemma OpenClose(s: State, a: Action)
    requires ListInv(s) && OpenInv(s) && Enabled(s, a) && a.Close?
    ensures OpenInv(Apply(s, a))
  {
  }

  lemma OpenRest(s: State, a: Action)
    requires ListInv(s) && OpenInv(s) && Enabled(s, a) && !a.Accept? && !a.Name? && !a.Join? && !a.Close?
    ensures OpenInv(Apply(s, a))
  {
  }

  lemma OpenStep(s: State, a: Action)
    requires ListInv(s) && OpenInv(s) && Enabled(s, a)
    ensures OpenInv(Apply(s, a))
  {
    match a
    case Accept(_, _) => OpenAccept(s, a);
    case Name(_, _) => OpenWrite(s, a);
    case Join(_, _) => OpenWrite(s, a);
    case Close(_) => OpenClose(s, a);
    case _ => OpenRest(s, a);
  }

  lemma ActiveStep(s: State, a: Action)
    requires ListInv(s) && ActiveInv(s) && Enabled(s, a)
    ensures ActiveInv(Apply(s, a))
  {
  }

  lemma BeginKeepsSent(s: State, a: Action)
    requires SentInv(s) && Enabled(s, a) && a.Begin?
    ensures SentInv(Apply(s, a))
  {
    var e := Entry(a.c, Outgoing(s.clients[a.c], a.msg), multiset{});
    forall c | c in s.sent
      ensures s.sent[c] == Stream(s.log + [e], c)
    {
      StreamAppend(s.log, e, c);
    }
  }

  lemma AcceptKeepsSent(s: State, a: Action)
    requires SentInv(s) && Enabled(s, a) && a.Accept?
    ensures SentInv(Apply(s, a))
  {
    StreamNone(s.log, a.c);
  }

  lemma SentStep(s: State, a: Action)
    requires SentInv(s) && OpenInv(s) && Enabled(s, a)
    ensures SentInv(Apply(s, a))
  {
    match a
    case Accept(_, _) => AcceptKeepsSent(s, a);
    case Begin(_, _) => BeginKeepsSent(s, a);
    case Slot =>
      var c := s.list[s.active.value.i];
      if InRoom(s, c) && Owner(s, c).Some? {
        WriteKeepsSent(s, Owner(s, c).value);
      }
    case _ =>
  }

  lemma StepKeepsInv(s: State, a: Action)
    requires Inv(s) && Enabled(s, a)
    ensures Inv(Apply(s, a))
  {
    ListStep(s, a);
    OpenStep(s, a);
    SentStep(s, a);
    ActiveStep(s, a);
  }

  lemma {:induction false} RunKeepsInv(s: State, acts: seq<Action>)
    requires Inv(s) && IsRun(s, acts)
    ensures Inv(After(s, acts))
    decreases |acts|
  {
    if acts != [] {
      StepKeepsInv(s, acts[0]);
      RunKeepsInv(Apply(s, acts[0]), acts[1..]);
    }
  }

  /** Over every run the list is as long as there are live clients and holds no record twice. */
  lemma CountIsLive(acts: seq<Action>)
    requires IsRun(INIT, acts)
    ensures |After(INIT, acts).list| == |After(INIT, acts).live| && Registry.Distinct(After(INIT, acts).list)
  {
    RunKeepsInv(INIT, acts);
  }

  /** Over every run what was written to a connection is its part of one log, ordered by who got the
      mutex first; so any two connections see what both got in one order. */
  lemma AgreedDeliveryOrder(acts: seq<Action>, c: nat, d: nat)
    requires IsRun(INIT, acts) && c in After(INIT, acts).clients && d in After(INIT, acts).clients
    ensures var s := After(INIT, acts);
            && c in s.sent && s.sent[c] == Stream(Only(s.log, c), c)
            && d in s.sent && s.sent[d] == Stream(Only(s.log, d), d)
            && Only(Only(s.log, c), d) == Only(Only(s.log, d), c)
  {
    var s := After(INIT, acts);
    RunKeepsInv(INIT, acts);
    StreamOfOnly(s.log, c);
    StreamOfOnly(s.log, d);
    CommonOrder(s.log, c, d);
  }
}
