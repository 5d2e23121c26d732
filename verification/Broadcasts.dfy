/** One broadcast of send_msg in project2/gui_server.c, amid the steps that need no mutex: which
    connection gets how many copies. */
module Broadcasts {
  import opened Options
  import opened Delivery
  import opened ChatRooms

  /** What has been written to the connection of client d. */
  function Sent(s: State, d: nat): seq<string> {
    if d in s.sent then s.sent[d] else []
  }

  /** While a message is being sent: the client has a name, and the room in its record is the sender's. */
  predicate Together(s: State, c: nat) {
    && s.active.Some? && s.active.value.sender in s.clients && c in s.clients
    && s.clients[c].name != "" && s.clients[c].room == s.clients[s.active.value.sender].room
  }

  /** It has no name, or another room. */
  predicate Apart(s: State, c: nat) {
    && s.active.Some? && s.active.value.sender in s.clients && c in s.clients
    && (s.clients[c].name == "" || s.clients[c].room != s.clients[s.active.value.sender].room)
  }

  /** The step is the turn of slot k, whose client is in the room at that moment and whose socket
      number is then that of the connection of d. */
  predicate Writes(s: State, a: Action, k: nat, d: nat) {
    && a == Slot && s.active.Some? && s.active.value.i == k < |s.list| && Together(s, s.list[k])
    && s.clients[s.list[k]].sock in s.open && s.open[s.clients[s.list[k]].sock] == d
  }

  /** The turn of a slot, on the fields of the records: without a name, or in another room, its client
      has nothing written to anybody; with a name, in the sender's room, the message goes once to the
      connection that has its socket number. */
  lemma SlotOnFields(s: State, d: nat)
    requires Inv(s) && Enabled(s, Slot)
    ensures s.list[s.active.value.i] in s.clients && s.active.value.sender in s.clients
    ensures var me, sender := s.clients[s.list[s.active.value.i]], s.clients[s.active.value.sender];
            && (me.name == "" || me.room != sender.room ==> Sent(Apply(s, Slot), d) == Sent(s, d))
            && (me.name != "" && me.room == sender.room ==>
                  Sent(Apply(s, Slot), d) ==
                    Sent(s, d) + if me.sock in s.open && s.open[me.sock] == d
                                 then [Outgoing(sender, s.active.value.msg)] else [])
  {
    SlotCopies(s, d);
  }

  /** What stays as it is while a broadcast goes on. */
  lemma BroadcastFrame(s: State, a: Action)
    requires ActiveInv(s) && s.active.Some? && Enabled(s, a) && a != End
    ensures var s', n := Apply(s, a), |s.log|;
            && s'.list == s.list && s'.live == s.live && s'.active.Some? && n > 0
            && s'.active.value.sender == s.active.value.sender
            && s'.active.value.i == s.active.value.i + (if a == Slot then 1 else 0)
            && |s'.log| == n && s'.log[n - 1].text == s.log[n - 1].text
  {
  }

  lemma SlotCopies(s: State, d: nat)
    requires SentInv(s) && OpenInv(s) && ActiveInv(s) && Enabled(s, Slot)
    ensures Sent(Apply(s, Slot), d) ==
            Sent(s, d) + if Writes(s, Slot, s.active.value.i, d) then [s.log[|s.log| - 1].text] else []
  {
  }

  lemma OtherCopies(s: State, a: Action, d: nat)
    requires SentInv(s) && s.active.Some? && Enabled(s, a) && a != Slot
    ensures Sent(Apply(s, a), d) == Sent(s, d)
  {
  }

  /** Whatever the others do, during a broadcast the list and the sender stay, and one step gives the
      connection of d one more copy exactly when it is the turn of a slot that writes to it. */
  lemma BroadcastStep(s: State, a: Action, d: nat)
    requires Inv(s) && s.active.Some? && Enabled(s, a) && a != End
    ensures var s', n := Apply(s, a), |s.log|;
            && s'.list == s.list && s'.live == s.live && s'.active.Some?
            && s'.active.value.sender == s.active.value.sender
            && s'.active.value.i == s.active.value.i + (if a == Slot then 1 else 0)
            && |s'.log| == n && s'.log[n - 1].text == s.log[n - 1].text
            && Sent(s', d) == Sent(s, d) + if Writes(s, a, s.active.value.i, d) then [s.log[n - 1].text] else []
  {
    BroadcastFrame(s, a);
    if a == Slot {
      SlotCopies(s, d);
    } else {
      OtherCopies(s, a, d);
    }
  }

  predicate NoEnd(acts: seq<Action>) {
    forall k | 0 <= k < |acts| :: acts[k] != End
  }

  /** A broadcast is under way and goes on through the run. */
  predicate Goes(s: State, acts: seq<Action>) {
    Inv(s) && s.active.Some? && IsRun(s, acts) && NoEnd(acts)
  }

  predicate Turn(s: State, acts: seq<Action>, k: nat, d: nat)
    requires IsRun(s, acts)
    decreases |acts|
  {
    acts != [] && (Writes(s, acts[0], k, d) || Turn(Apply(s, acts[0]), acts[1..], k, d))
  }

  /** Slot k writes to the connection of d when its turn comes. */
  predicate Heard(s: State, acts: seq<Action>, k: nat, d: nat)
    requires IsRun(s, acts)
  {
    Turn(s, acts, k, d)
  }

  /** How many of the slots from lo to hi write to the connection of d. */
  function Due(s: State, acts: seq<Action>, d: nat, lo: nat, hi: nat): nat
    requires IsRun(s, acts)
    decreases hi - lo
  {
    if lo >= hi then 0 else (if Heard(s, acts, lo, d) then 1 else 0) + Due(s, acts, d, lo + 1, hi)
  }

  lemma GoesOn(s: State, acts: seq<Action>)
    requires Goes(s, acts) && acts != []
    ensures Goes(Apply(s, acts[0]), acts[1..])
  {
    StepKeepsInv(s, acts[0]);
    BroadcastStep(s, acts[0], 0);
  }

  /** A slot has one turn only. */
  lemma {:induction false} TurnOver(s: State, acts: seq<Action>, k: nat, d: nat)
    requires Goes(s, acts) && k < s.active.value.i
    ensures !Heard(s, acts, k, d)
    decreases |acts|
  {
    if acts != [] {
      GoesOn(s, acts);
      BroadcastStep(s, acts[0], d);
      TurnOver(Apply(s, acts[0]), acts[1..], k, d);
    }
  }

  lemma {:induction false} DueLater(s: State, acts: seq<Action>, d: nat, lo: nat, hi: nat)
    requires IsRun(s, acts) && acts != [] && (acts[0] == Slot ==> s.active.value.i < lo)
    ensures Due(s, acts, d, lo, hi) == Due(Apply(s, acts[0]), acts[1..], d, lo, hi)
    decreases hi - lo
  {
    if lo < hi {
      DueLater(s, acts, d, lo + 1, hi);
    }
  }

  lemma MoreCopies(before: seq<string>, once: bool, text: string, n: nat, after: seq<string>)
    requires after == before + (if once then [text] else []) + Copies(text, n)
    ensures after == before + Copies(text, (if once then 1 else 0) + n)
  {
    if once {
      assert Copies(text, 1 + n) == [text] + Copies(text, n);
    }
  }

  lemma DueStep(s: State, acts: seq<Action>, d: nat, hi: nat)
    requires Goes(s, acts) && acts != []
    requires Apply(s, acts[0]).active.Some? && Apply(s, acts[0]).active.value.i <= hi
    ensures var s', i := Apply(s, acts[0]), s.active.value.i;
            Due(s, acts, d, i, hi) ==
              (if Writes(s, acts[0], i, d) then 1 else 0) + Due(s', acts[1..], d, s'.active.value.i, hi)
  {
    var s', i := Apply(s, acts[0]), s.active.value.i;
    GoesOn(s, acts);
    BroadcastStep(s, acts[0], d);
    DueLater(s, acts, d, s'.active.value.i, hi);
    if acts[0] == Slot {
      TurnOver(s', acts[1..], i, d);
    }
  }

  /** Up to its end a broadcast goes through the slots of one list, with one message. */
  lemma {:induction false} SweepSlots(s: State, acts: seq<Action>)
    requires Goes(s, acts)
    ensures var t := After(s, acts);
            Inv(t) && t.list == s.list && t.active.Some? && s.active.value.i <= t.active.value.i
    decreases |acts|
  {
    if acts != [] {
      GoesOn(s, acts);
      BroadcastStep(s, acts[0], 0);
      SweepSlots(Apply(s, acts[0]), acts[1..]);
    }
  }

  function Message(s: State): string {
    if s.log == [] then "" else s.log[|s.log| - 1].text
  }

  lemma CopyStep(s: State, a: Action, d: nat)
    requires Inv(s) && s.active.Some? && Enabled(s, a) && a != End
    ensures var s' := Apply(s, a);
            Message(s') == Message(s)
            && Sent(s', d) == Sent(s, d) + if Writes(s, a, s.active.value.i, d) then [Message(s)] else []
  {
    BroadcastStep(s, a, d);
  }

  /** If the rest of a broadcast writes one copy for each slot due, so does the whole. */
  lemma SweepStep(s: State, acts: seq<Action>, d: nat, hi: nat, sent: seq<string>)
    requires Goes(s, acts) && acts != []
    requires var s' := Apply(s, acts[0]);
             && s'.active.Some? && s'.active.value.i <= hi
             && sent == Sent(s', d) + Copies(Message(s'), Due(s', acts[1..], d, s'.active.value.i, hi))
    ensures sent == Sent(s, d) + Copies(Message(s), Due(s, acts, d, s.active.value.i, hi))
  {
    var s' := Apply(s, acts[0]);
    CopyStep(s, acts[0], d);
    DueStep(s, acts, d, hi);
    MoreCopies(Sent(s, d), Writes(s, acts[0], s.active.value.i, d), Message(s),
               Due(s', acts[1..], d, s'.active.value.i, hi), sent);
  }

  /** From slot i to slot j, a connection gets one copy for each slot that writes to it. */
  lemma {:induction false} Sweep(s: State, acts: seq<Action>, d: nat, hi: nat)
    requires Goes(s, acts) && After(s, acts).active.Some? && After(s, acts).active.value.i == hi
    ensures Sent(After(s, acts), d) == Sent(s, d) + Copies(Message(s), Due(s, acts, d, s.active.value.i, hi))
    decreases |acts|
  {
    if acts != [] {
      GoesOn(s, acts);
      SweepSlots(Apply(s, acts[0]), acts[1..]);
      Sweep(Apply(s, acts[0]), acts[1..], d, hi);
      SweepStep(s, acts, d, hi, Sent(After(s, acts), d));
    }
  }

  /** The state after Begin, and the steps of the whole broadcast up to its end. */
  predicate Whole(s: State, acts: seq<Action>) {
    Goes(s, acts) && s.active.value.i == 0 && Enabled(After(s, acts), End)
  }

  lemma BroadcastCopies(s: State, acts: seq<Action>, d: nat)
    requires Whole(s, acts)
    ensures After(s, acts).list == s.list
    ensures Sent(After(s, acts), d) == Sent(s, d) + Copies(Message(s), Due(s, acts, d, 0, |s.list|))
  {
    SweepSlots(s, acts);
    Sweep(s, acts, d, |s.list|);
  }

  /** A whole broadcast, from taking the mutex to the last slot, amid any unlocked steps: the list does
      not change, and each connection gets one copy for every listed slot that, at its turn, holds its
      socket number and a client named and in the sender's room. */
  lemma RoomBroadcast(before: seq<Action>, c: nat, msg: string, acts: seq<Action>, d: nat)
    requires IsRun(INIT, before) && Enabled(After(INIT, before), Begin(c, msg))
    requires var s := Apply(After(INIT, before), Begin(c, msg));
             IsRun(s, acts) && NoEnd(acts) && Enabled(After(s, acts), End)
    ensures var s0, s := After(INIT, before), Apply(After(INIT, before), Begin(c, msg));
            && Whole(s, acts) && After(s, acts).list == s0.list
            && Sent(After(s, acts), d) ==
                 Sent(s0, d) + Copies(Outgoing(s0.clients[c], msg), Due(s, acts, d, 0, |s0.list|))
  {
    RunKeepsInv(INIT, before);
    StepKeepsInv(After(INIT, before), Begin(c, msg));
    BroadcastCopies(Apply(After(INIT, before), Begin(c, msg)), acts, d);
  }

  /** Counting: none, and at most one. */
  lemma {:induction false} DueCounts(s: State, acts: seq<Action>, d: nat, lo: nat, hi: nat)
    requires IsRun(s, acts)
    ensures Due(s, acts, d, lo, hi) == 0 <==> forall k | lo <= k < hi :: !Heard(s, acts, k, d)
    ensures Due(s, acts, d, lo, hi) <= 1
            <==> forall j, k | lo <= j < k < hi :: !(Heard(s, acts, j, d) && Heard(s, acts, k, d))
    decreases hi - lo
  {
    if lo < hi {
      DueCounts(s, acts, d, lo + 1, hi);
    }
  }

  // ---------- who gets how many ----------

  /** The client is named and in the sender's room at every moment of the run. */
  predicate AlwaysTogether(s: State, acts: seq<Action>, c: nat)
    requires IsRun(s, acts)
    decreases |acts|
  {
    Together(s, c) && (acts != [] ==> AlwaysTogether(Apply(s, acts[0]), acts[1..], c))
  }

  /** At every moment it is not. */
  predicate AlwaysApart(s: State, acts: seq<Action>, c: nat)
    requires IsRun(s, acts)
    decreases |acts|
  {
    Apart(s, c) && (acts != [] ==> AlwaysApart(Apply(s, acts[0]), acts[1..], c))
  }

  lemma {:induction false} HeardThroughout(s: State, acts: seq<Action>, k: nat)
    requires Goes(s, acts) && s.active.value.i <= k < |s.list| && s.list[k] in s.live
    requires AlwaysTogether(s, acts, s.list[k]) && After(s, acts).active.Some?
    requires k < After(s, acts).active.value.i
    ensures Heard(s, acts, k, s.list[k])
    decreases |acts|
  {
    if acts != [] && !Writes(s, acts[0], k, s.list[k]) {
      GoesOn(s, acts);
      BroadcastStep(s, acts[0], 0);
      HeardThroughout(Apply(s, acts[0]), acts[1..], k);
    }
  }

  lemma {:induction false} NotHeardOutside(s: State, acts: seq<Action>, k: nat, d: nat)
    requires Goes(s, acts) && k < |s.list| && AlwaysApart(s, acts, s.list[k])
    ensures !Heard(s, acts, k, d)
    decreases |acts|
  {
    if acts != [] {
      GoesOn(s, acts);
      BroadcastStep(s, acts[0], 0);
      NotHeardOutside(Apply(s, acts[0]), acts[1..], k, d);
    }
  }

  /** A client that may be in the room at some moment of the broadcast: it is free to move there, or it
      is there, perhaps only as a record that its thread has left behind. */
  predicate CanBe(s: State, c: nat) {
    c in s.live || Together(s, c)
  }

  /** A socket number that may be a connection's at some moment: main can accept only if it is not
      waiting to list the client it has accepted before. */
  predicate CanOpen(s: State, f: nat) {
    f in s.open || s.pending == None
  }

  lemma MeansStep(s: State, a: Action, c: nat, f: nat)
    requires Inv(s) && s.active.Some? && Enabled(s, a) && a != End && c in s.clients
    ensures var s' := Apply(s, a);
            && c in s'.clients && Sock(s', c) == Sock(s, c)
            && (CanBe(s', c) ==> CanBe(s, c)) && (CanOpen(s', f) ==> CanOpen(s, f))
  {
  }

  /** Only a slot whose client can be in the room and whose socket number can be open writes at all, and
      only to the connection with that number. */
  lemma {:induction false} HeardMeans(s: State, acts: seq<Action>, k: nat, d: nat)
    requires Goes(s, acts) && Heard(s, acts, k, d)
    ensures k < |s.list| && CanBe(s, s.list[k]) && CanOpen(s, Sock(s, s.list[k]))
    ensures d in After(s, acts).clients && Sock(After(s, acts), d) == Sock(s, s.list[k])
    decreases |acts|
  {
    GoesOn(s, acts);
    BroadcastStep(s, acts[0], d);
    if Writes(s, acts[0], k, d) {
      MeansStep(s, acts[0], d, 0);
      SockStays(Apply(s, acts[0]), acts[1..], d);
    } else {
      HeardMeans(Apply(s, acts[0]), acts[1..], k, d);
      MeansStep(s, acts[0], s.list[k], Sock(s, s.list[k]));
    }
  }

  lemma {:induction false} SockStays(s: State, acts: seq<Action>, d: nat)
    requires Goes(s, acts) && d in s.clients
    ensures d in After(s, acts).clients && Sock(After(s, acts), d) == Sock(s, d)
    decreases |acts|
  {
    if acts != [] {
      GoesOn(s, acts);
      MeansStep(s, acts[0], d, 0);
      SockStays(Apply(s, acts[0]), acts[1..], d);
    }
  }

  /** Two listed slots hold the same number, which can be open, and both clients can be in the room. */
  predicate Clash(s: State, j: nat, k: nat) {
    && j < k < |s.list| && Sock(s, s.list[j]) == Sock(s, s.list[k]) && CanOpen(s, Sock(s, s.list[k]))
    && CanBe(s, s.list[j]) && CanBe(s, s.list[k])
  }

  ghost predicate Twice(s: State, acts: seq<Action>, d: nat) {
    Whole(s, acts) && Due(s, acts, d, 0, |s.list|) > 1
  }

  lemma TwiceMeansClash(s: State, acts: seq<Action>, d: nat) returns (j: nat, k: nat)
    requires Twice(s, acts, d)
    ensures Clash(s, j, k)
  {
    DueCounts(s, acts, d, 0, |s.list|);
    j, k :| 0 <= j < k < |s.list| && Heard(s, acts, j, d) && Heard(s, acts, k, d);
    HeardMeans(s, acts, j, d);
    HeardMeans(s, acts, k, d);
  }
}
