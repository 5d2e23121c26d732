/** What the state of project2/gui_server.c owes to the run that led to it, read off the actions alone,
    and what a broadcast says. */
module ChatHistory {
  import opened Options
  import opened Text
  import opened ChatRooms

  function RecordOf(s: State, c: nat): Option<Client> {
    if c in s.clients then Some(s.clients[c]) else None
  }

  /** The record of client c after the actions: a new client has no name and is in room 0; its name and
      its room are those it has taken last. */
  function RecordBy(acts: seq<Action>, c: nat, r: Option<Client>): Option<Client>
    decreases |acts|
  {
    if acts == [] then r
    else
      var r' := match acts[0]
                case Accept(d, sock) => if d == c then Some(Client(sock, "", 0)) else r
                case Name(d, name) => if d == c && r.Some? then Some(r.value.(name := name)) else r
                case Join(d, room) => if d == c && r.Some? then Some(r.value.(room := room)) else r
                case _ => r;
      RecordBy(acts[1..], c, r')
  }

  lemma {:induction false} RecordFollows(s: State, acts: seq<Action>, c: nat)
    requires IsRun(s, acts)
    ensures RecordOf(After(s, acts), c) == RecordBy(acts, c, RecordOf(s, c))
    decreases |acts|
  {
    if acts != [] {
      RecordFollows(Apply(s, acts[0]), acts[1..], c);
    }
  }

  /** After every run, each record is what the actions made of it. */
  lemma RecordsFromRun(acts: seq<Action>, c: nat)
    requires IsRun(INIT, acts)
    ensures RecordOf(After(INIT, acts), c) == RecordBy(acts, c, None)
  {
    RecordFollows(INIT, acts, c);
  }

  /** Who has been listed and has not left since; `pending` is the client accepted last and not listed. */
  function LiveBy(acts: seq<Action>, pending: Option<nat>, live: set<nat>): set<nat>
    decreases |acts|
  {
    if acts == [] then live
    else match acts[0]
      case Accept(c, _) => LiveBy(acts[1..], Some(c), live)
      case Register => LiveBy(acts[1..], None, if pending.Some? then live + {pending.value} else live)
      case Leave(c) => LiveBy(acts[1..], pending, live - {c})
      case _ => LiveBy(acts[1..], pending, live)
  }

  lemma {:induction false} LiveFollows(s: State, acts: seq<Action>)
    requires IsRun(s, acts)
    ensures After(s, acts).live == LiveBy(acts, s.pending, s.live)
    decreases |acts|
  {
    if acts != [] {
      LiveFollows(Apply(s, acts[0]), acts[1..]);
    }
  }

  /** After every run, the live clients are those who were listed and have not left since. */
  lemma LiveFromRun(acts: seq<Action>)
    requires IsRun(INIT, acts)
    ensures After(INIT, acts).live == LiveBy(acts, None, {})
  {
    LiveFollows(INIT, acts);
  }

  /** A file message goes out as it is, with its NULs; any other behind the sender's name in brackets. */
  lemma OutgoingText(sender: Client, msg: string)
    ensures |msg| >= 6 && msg[..6] == "[FILE]" ==> Outgoing(sender, msg) == msg
    ensures !(|msg| >= 6 && msg[..6] == "[FILE]") ==>
              var out, n := Outgoing(sender, msg), |sender.name|;
              && |out| >= n + 3 && out[0] == '[' && out[1..n + 1] == sender.name
              && out[n + 1..n + 3] == "] " && out[n + 3..] == Upto(msg)
  {
    assert "[FILE]" <= msg <==> |msg| >= 6 && msg[..6] == "[FILE]";
  }

  /** Who may speak when: a named live client, while no message is under way, if the text is not a
      command. */
  lemma SpeaksIff(s: State, c: nat, msg: string)
    requires Inv(s) && c in s.live
    ensures Enabled(s, Begin(c, msg)) <==> s.active == None && s.clients[c].name != "" && !("/" <= msg)
  {
    assert "/" <= msg <==> msg != "" && msg[0] == '/';
  }
}
