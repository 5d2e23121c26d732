/** Socket numbers in the client list of project2/gui_server.c: a record that the removal loop leaves
    behind keeps its number, which the kernel may give to a later connection. When that makes a
    broadcast reach a connection twice, and when it cannot. */
module ChatSockets {
  import opened Options
  import opened Delivery
  import opened ChatRooms
  import opened Broadcasts
  import opened Text
  import Registry

  // ---------- putting runs together ----------

  lemma {:induction false} RunConcat(s: State, xs: seq<Action>, ys: seq<Action>)
    requires IsRun(s, xs) && IsRun(After(s, xs), ys)
    ensures IsRun(s, xs + ys) && After(s, xs + ys) == After(After(s, xs), ys)
    decreases |xs|
  {
    if xs == [] {
      assert xs + ys == ys;
    } else {
      assert (xs + ys)[1..] == xs[1..] + ys;
      RunConcat(Apply(s, xs[0]), xs[1..], ys);
    }
  }

  lemma {:induction false} HeardConcat(s: State, xs: seq<Action>, ys: seq<Action>, k: nat, d: nat)
    requires IsRun(s, xs) && IsRun(After(s, xs), ys) && Heard(After(s, xs), ys, k, d)
    ensures IsRun(s, xs + ys) && Heard(s, xs + ys, k, d)
    decreases |xs|
  {
    RunConcat(s, xs, ys);
    if xs == [] {
      assert xs + ys == ys;
    } else {
      assert (xs + ys)[1..] == xs[1..] + ys;
      HeardConcat(Apply(s, xs[0]), xs[1..], ys, k, d);
    }
  }

  lemma OneStep(s: State, a: Action)
    requires Enabled(s, a)
    ensures IsRun(s, [a]) && After(s, [a]) == Apply(s, a)
  {
    assert [a][1..] == [];
  }

  /** What some unlocked steps leave as it was: whoever was in the room still is. */
  predicate Prepared(s: State, t: State) {
    && t.list == s.list && t.live == s.live && t.active == s.active
    && s.clients.Keys <= t.clients.Keys
    && (forall c | c in s.clients :: Sock(t, c) == Sock(s, c))
    && (forall c | c in s.clients && Together(s, c) :: Together(t, c))
  }

  /** A client that can be in the room can be brought there. */
  lemma BringIn(s: State, c: nat) returns (acts: seq<Action>)
    requires Inv(s) && s.active.Some? && c in s.clients && CanBe(s, c)
    ensures Goes(s, acts) && Prepared(s, After(s, acts)) && Together(After(s, acts), c)
    ensures After(s, acts).open == s.open && After(s, acts).pending == s.pending
  {
    acts := [];
    if !Together(s, c) {
      var room := s.clients[s.active.value.sender].room;
      var s1 := Apply(s, Name(c, "x"));
      OneStep(s, Name(c, "x"));
      OneStep(s1, Join(c, room));
      RunConcat(s, [Name(c, "x")], [Join(c, room)]);
      acts := [Name(c, "x")] + [Join(c, room)];
    }
  }

  lemma {:induction false} FreshClient(cs: set<nat>) returns (c: nat)
    ensures forall d | d in cs :: d < c
    decreases |cs|
  {
    if cs == {} {
      c := 0;
    } else {
      var d :| d in cs;
      assert forall e | e in cs :: e == d || e in cs - {d};
      c := FreshClient(cs - {d});
      c := if c <= d then d + 1 else c;
    }
  }

  /** A socket number that can be open can be opened. */
  lemma OpenUp(s: State, f: nat) returns (acts: seq<Action>)
    requires Inv(s) && s.active.Some? && CanOpen(s, f)
    ensures Goes(s, acts) && Prepared(s, After(s, acts)) && f in After(s, acts).open
  {
    acts := [];
    if f !in s.open {
      var c := FreshClient(s.clients.Keys);
      acts := [Accept(c, f)];
      assert acts[1..] == [];
    }
  }

  function Slots(n: nat): (acts: seq<Action>)
    ensures |acts| == n
  {
    if n == 0 then [] else [Slot] + Slots(n - 1)
  }

  /** The run ends the broadcast, and slot k, if it is still to come, writes to the connection of d. */
  predicate Finishes(s: State, acts: seq<Action>, k: nat, d: nat) {
    && Goes(s, acts) && Enabled(After(s, acts), End)
    && (k >= s.active.value.i ==> Heard(s, acts, k, d))
  }

  lemma SlotThenGoes(s: State, rest: seq<Action>)
    requires Inv(s) && Enabled(s, Slot) && Goes(Apply(s, Slot), rest)
    ensures Goes(s, [Slot] + rest) && After(s, [Slot] + rest) == After(Apply(s, Slot), rest)
  {
    assert ([Slot] + rest)[1..] == rest;
  }

  lemma SlotThenHears(s: State, rest: seq<Action>, k: nat, d: nat)
    requires Enabled(s, Slot) && IsRun(Apply(s, Slot), rest) && IsRun(s, [Slot] + rest)
    requires Writes(s, Slot, k, d) || Heard(Apply(s, Slot), rest, k, d)
    ensures Heard(s, [Slot] + rest, k, d)
  {
    assert ([Slot] + rest)[1..] == rest;
  }

  lemma SlotThen(s: State, rest: seq<Action>, k: nat, d: nat)
    requires Inv(s) && Enabled(s, Slot) && Finishes(Apply(s, Slot), rest, k, d)
    requires k < |s.list| && Together(s, s.list[k]) && Owner(s, s.list[k]) == Some(d)
    ensures Finishes(s, [Slot] + rest, k, d)
  {
    SlotThenGoes(s, rest);
    if k >= s.active.value.i {
      SlotThenHears(s, rest, k, d);
    }
  }

  /** From slot i on nobody else does anything. */
  lemma {:induction false} JustSlots(s: State, k: nat, d: nat, n: nat)
    requires Inv(s) && s.active.Some? && s.active.value.i + n == |s.list|
    requires k < |s.list| && Together(s, s.list[k]) && Owner(s, s.list[k]) == Some(d)
    ensures Finishes(s, Slots(n), k, d)
    decreases n
  {
    if n > 0 {
      StepKeepsInv(s, Slot);
      JustSlots(Apply(s, Slot), k, d, n - 1);
      SlotThen(s, Slots(n - 1), k, d);
    }
  }

  // ---------- two copies ----------

  lemma GoesConcat(s: State, xs: seq<Action>, ys: seq<Action>)
    requires Goes(s, xs) && Goes(After(s, xs), ys)
    ensures Goes(s, xs + ys) && After(s, xs + ys) == After(After(s, xs), ys)
  {
    RunConcat(s, xs, ys);
  }

  lemma BringBoth(s: State, c: nat, d: nat) returns (acts: seq<Action>)
    requires Inv(s) && s.active.Some? && c in s.clients && CanBe(s, c) && d in s.clients && CanBe(s, d)
    ensures Goes(s, acts) && Prepared(s, After(s, acts)) && Together(After(s, acts), c) && Together(After(s, acts), d)
    ensures After(s, acts).open == s.open && After(s, acts).pending == s.pending
  {
    var xs := BringIn(s, c);
    SweepSlots(s, xs);
    var ys := BringIn(After(s, xs), d);
    GoesConcat(s, xs, ys);
    acts := xs + ys;
  }

  lemma Arrange(s: State, c: nat, d: nat, f: nat) returns (acts: seq<Action>)
    requires Inv(s) && s.active.Some? && c in s.clients && CanBe(s, c) && d in s.clients && CanBe(s, d)
    requires CanOpen(s, f)
    ensures Goes(s, acts) && Prepared(s, After(s, acts)) && Together(After(s, acts), c) && Together(After(s, acts), d)
    ensures f in After(s, acts).open
  {
    var xs := BringBoth(s, c, d);
    SweepSlots(s, xs);
    var ys := OpenUp(After(s, xs), f);
    GoesConcat(s, xs, ys);
    acts := xs + ys;
  }

  lemma ClashMeansTwice(s: State, j: nat, k: nat) returns (acts: seq<Action>, d: nat)
    requires Inv(s) && s.active.Some? && s.active.value.i == 0 && Clash(s, j, k)
    ensures Twice(s, acts, d)
  {
    var f := Sock(s, s.list[k]);
    var xs := Arrange(s, s.list[j], s.list[k], f);
    var t := After(s, xs);
    SweepSlots(s, xs);
    d := t.open[f];
    var ys := Slots(|t.list|);
    JustSlots(t, j, d, |t.list|);
    JustSlots(t, k, d, |t.list|);
    GoesConcat(s, xs, ys);
    HeardConcat(s, xs, ys, j, d);
    HeardConcat(s, xs, ys, k, d);
    acts := xs + ys;
    DueCounts(s, acts, d, 0, |s.list|);
  }

  /** When a broadcast begins, it can still come to write to some connection twice exactly if two listed
      slots hold one socket number that can be open, both clients being able to be in the room. */
  lemma TwiceIffClash(s: State)
    requires Inv(s) && s.active.Some? && s.active.value.i == 0
    ensures (exists acts: seq<Action>, d: nat :: Twice(s, acts, d)) <==> exists j: nat, k: nat :: Clash(s, j, k)
  {
    if acts: seq<Action>, d: nat :| Twice(s, acts, d) {
      var j, k := TwiceMeansClash(s, acts, d);
      assert Clash(s, j, k);
    }
    if j: nat, k: nat :| Clash(s, j, k) {
      var acts, d := ClashMeansTwice(s, j, k);
      assert Twice(s, acts, d);
    }
  }

  /** A live client that is in the room throughout gets its copy, and just one if no other listed slot
      holds its socket number. */
  lemma InRoomGetsOne(s: State, acts: seq<Action>, k: nat)
    requires Whole(s, acts) && k < |s.list| && s.list[k] in s.live && AlwaysTogether(s, acts, s.list[k])
    ensures var n := Due(s, acts, s.list[k], 0, |s.list|);
            && n >= 1
            && ((forall j: nat | j < |s.list| && j != k :: Sock(s, s.list[j]) != Sock(s, s.list[k])) ==> n == 1)
  {
    var d := s.list[k];
    SweepSlots(s, acts);
    HeardThroughout(s, acts, k);
    DueCounts(s, acts, d, 0, |s.list|);
    if i, j :| 0 <= i < j < |s.list| && Heard(s, acts, i, d) && Heard(s, acts, j, d) {
      HeardMeans(s, acts, i, d);
      HeardMeans(s, acts, j, d);
      HeardMeans(s, acts, k, d);
      assert Sock(s, s.list[if i == k then j else i]) == Sock(s, s.list[k]);
    }
  }

  /** A connection whose socket number only slots hold that are never in the room gets nothing. */
  lemma OutsideGetsNone(s: State, acts: seq<Action>, d: nat)
    requires Whole(s, acts) && d in s.clients
    requires forall k: nat | k < |s.list| && Sock(s, s.list[k]) == Sock(s, d) :: AlwaysApart(s, acts, s.list[k])
    ensures Due(s, acts, d, 0, |s.list|) == 0
  {
    DueCounts(s, acts, d, 0, |s.list|);
    SockStays(s, acts, d);
    forall k: nat | k < |s.list|
      ensures !Heard(s, acts, k, d)
    {
      if Heard(s, acts, k, d) {
        HeardMeans(s, acts, k, d);
        NotHeardOutside(s, acts, k, d);
      }
    }
  }

  // ---------- a run with two copies ----------

  lemma Extend(acts: seq<Action>, a: Action) returns (more: seq<Action>)
    requires IsRun(INIT, acts) && Enabled(After(INIT, acts), a)
    ensures IsRun(INIT, more) && After(INIT, more) == Apply(After(INIT, acts), a)
  {
    more := acts + [a];
    assert [a][1..] == [];
    RunConcat(INIT, acts, [a]);
  }

  const HI := "[c] hi"

  const TWO := State(map[1 := Client(4, "a", 0), 2 := Client(5, "", 0)], None, {1, 2}, [1, 2], map[4 := 1, 5 := 2],
                     None, [], map[1 := [], 2 := []])

  /** The first client has left, but the loop has dropped the second one from the list instead. */
  const STALE := TWO.(live := {2}, list := [1], open := map[5 := 2])

  /** A third client has been given the number of the first one, whose record is still listed. */
  const THREE := State(TWO.clients[3 := Client(4, "", 0)], None, {2, 3}, [1, 3], map[5 := 2, 4 := 3],
                       None, [], map[1 := [], 2 := [], 3 := []])

  const NAMED := THREE.(clients := TWO.clients[3 := Client(4, "c", 0)])

  const SPEAKS := NAMED.(active := Some(Sending(3, "hi", 0)), log := [Entry(3, HI, multiset{})])

  const ONCE := SPEAKS.(active := Some(Sending(3, "hi", 1)), log := [Entry(3, HI, multiset{3})],
                        sent := map[1 := [], 2 := [], 3 := [HI]])

  lemma Connect(acts: seq<Action>, c: nat, sock: nat) returns (more: seq<Action>)
    requires IsRun(INIT, acts)
    requires var s := After(INIT, acts);
             s.pending == None && s.active == None && c !in s.clients && sock !in s.open
    ensures IsRun(INIT, more)
    ensures var s := After(INIT, acts);
            After(INIT, more) == s.(clients := s.clients[c := Client(sock, "", 0)], live := s.live + {c},
                                    list := s.list + [c], open := s.open[sock := c], sent := s.sent[c := []])
  {
    more := Extend(acts, Accept(c, sock));
    more := Extend(more, Register);
  }

  lemma ReachTwo() returns (acts: seq<Action>)
    ensures IsRun(INIT, acts) && After(INIT, acts) == TWO
  {
    acts := Connect([], 1, 4);
    acts := Extend(acts, Name(1, "a"));
    acts := Connect(acts, 2, 5);
    assert After(INIT, acts) == TWO;
  }

  lemma ReachStale() returns (acts: seq<Action>)
    ensures IsRun(INIT, acts) && After(INIT, acts) == STALE
  {
    acts := ReachTwo();
    assert Socks(TWO) == [4, 5];
    Registry.PositionIs(Socks(TWO), 4, 0);
    assert ListWithout(TWO, 1) == [1];
    acts := Extend(acts, Leave(1));
    acts := Extend(acts, Close(1));
    assert After(INIT, acts) == STALE;
  }

  lemma ReachThree() returns (acts: seq<Action>)
    ensures IsRun(INIT, acts) && After(INIT, acts) == THREE
  {
    acts := ReachStale();
    acts := Connect(acts, 3, 4);
    assert After(INIT, acts) == THREE;
  }

  lemma SpeaksHi()
    ensures Outgoing(Client(4, "c", 0), "hi") == HI
  {
    StringEndIs("hi", 0, 2);
  }

  lemma ReachNamed() returns (acts: seq<Action>)
    ensures IsRun(INIT, acts) && After(INIT, acts) == NAMED
  {
    acts := ReachThree();
    acts := Extend(acts, Name(3, "c"));
    assert After(INIT, acts) == NAMED;
  }

  lemma ReachSpeaks() returns (acts: seq<Action>)
    ensures IsRun(INIT, acts) && After(INIT, acts) == SPEAKS
  {
    acts := ReachNamed();
    SpeaksHi();
    acts := Extend(acts, Begin(3, "hi"));
    assert After(INIT, acts) == SPEAKS;
  }

  lemma FirstCopy()
    ensures Enabled(SPEAKS, Slot) && Apply(SPEAKS, Slot) == ONCE
  {
    assert Together(SPEAKS, 1) && Owner(SPEAKS, 1) == Some(3);
    var e := SPEAKS.log[0];
    assert SPEAKS.log[..0] == [] && e.(receivers := e.receivers + multiset{3}) == ONCE.log[0];
    assert SPEAKS.sent[3] + [HI] == [HI];
  }

  lemma SecondCopy()
    ensures Enabled(ONCE, Slot) && Enabled(Apply(ONCE, Slot), End) && Sent(Apply(ONCE, Slot), 3) == [HI, HI]
  {
    assert Together(ONCE, 3) && Owner(ONCE, 3) == Some(3);
  }

  lemma SlotsClash()
    ensures Clash(SPEAKS, 0, 1)
  {
    assert Together(SPEAKS, 1);
  }

  /** The connection of the third client is written its own message twice. */
  lemma TwoCopies() returns (acts: seq<Action>)
    ensures IsRun(INIT, acts) && Enabled(After(INIT, acts), End)
    ensures Sent(After(INIT, acts), 3) == [HI, HI] && Clash(SPEAKS, 0, 1)
  {
    SlotsClash();
    acts := ReachSpeaks();
    FirstCopy();
    acts := Extend(acts, Slot);
    SecondCopy();
    acts := Extend(acts, Slot);
  }

  // ---------- whole runs ----------

  /** At every moment no two listed records hold the same socket number. */
  predicate AlwaysDistinct(s: State, acts: seq<Action>)
    requires IsRun(s, acts)
    decreases |acts|
  {
    Registry.Distinct(Socks(s)) && (acts != [] ==> AlwaysDistinct(Apply(s, acts[0]), acts[1..]))
  }

  /** Main never lists a client whose socket number a listed record already holds. */
  predicate ListsFresh(s: State, acts: seq<Action>)
    requires IsRun(s, acts)
    decreases |acts|
  {
    acts != [] ==>
      && (acts[0] == Register ==> Sock(s, s.pending.value) !in Socks(s))
      && ListsFresh(Apply(s, acts[0]), acts[1..])
  }

  /** Whoever leaves is in the last slot. */
  predicate LastLeaves(s: State, acts: seq<Action>)
    requires IsRun(s, acts)
    decreases |acts|
  {
    acts != [] ==>
      && (acts[0].Leave? ==> s.list != [] && s.list[|s.list| - 1] == acts[0].c)
      && LastLeaves(Apply(s, acts[0]), acts[1..])
  }

  lemma SocksRegister(s: State, a: Action)
    requires Inv(s) && Enabled(s, a) && a.Register?
    ensures Socks(Apply(s, a)) == Socks(s) + [Sock(s, s.pending.value)]
  {
  }

  lemma SocksShifted(s: State, t: State, k: nat)
    requires s.list != [] && t.clients == s.clients && t.list == Registry.Shifted(s.list, k) && k <= |s.list|
    ensures Socks(t) == Registry.Shifted(Socks(s), k)
  {
  }

  lemma SocksLeave(s: State, a: Action)
    requires Enabled(s, a) && a.Leave? && s.list != []
    ensures Socks(Apply(s, a)) == Registry.Shifted(Socks(s), Registry.Position(Socks(s), Sock(s, a.c)))
  {
    SocksShifted(s, Apply(s, a), Registry.Position(Socks(s), Sock(s, a.c)));
  }

  lemma SocksStay(s: State, a: Action)
    requires Inv(s) && Enabled(s, a) && !a.Register? && !(a.Leave? && s.list != [])
    ensures Socks(Apply(s, a)) == Socks(s)
  {
  }

  lemma ShiftedDistinct(xs: seq<nat>, k: nat)
    requires Registry.Distinct(xs) && xs != []
    ensures Registry.Distinct(Registry.Shifted(xs, k))
  {
  }

  lemma AppendDistinct(xs: seq<nat>, x: nat)
    requires Registry.Distinct(xs)
    ensures Registry.Distinct(xs + [x]) <==> x !in xs
  {
    if x in xs {
      var i :| 0 <= i < |xs| && xs[i] == x;
      assert (xs + [x])[i] == (xs + [x])[|xs|];
    }
  }

  /** Over every run the listed socket numbers stay distinct exactly if main never lists a number that is
      still in the list. */
  lemma {:induction false} DistinctIffListsFresh(s: State, acts: seq<Action>)
    requires Inv(s) && Registry.Distinct(Socks(s)) && IsRun(s, acts)
    ensures AlwaysDistinct(s, acts) <==> ListsFresh(s, acts)
    decreases |acts|
  {
    if acts != [] {
      var a := acts[0];
      StepKeepsInv(s, a);
      if a.Register? {
        SocksRegister(s, a);
        AppendDistinct(Socks(s), Sock(s, s.pending.value));
      } else if a.Leave? && s.list != [] {
        SocksLeave(s, a);
        ShiftedDistinct(Socks(s), Registry.Position(Socks(s), Sock(s, a.c)));
      } else {
        SocksStay(s, a);
      }
      if Registry.Distinct(Socks(Apply(s, a))) {
        DistinctIffListsFresh(Apply(s, a), acts[1..]);
      }
    }
  }

  predicate AllLive(s: State) {
    forall k | 0 <= k < |s.list| :: s.list[k] in s.live
  }

  /** Live clients have sockets of their own. */
  lemma LiveDistinct(s: State)
    requires Inv(s) && AllLive(s)
    ensures Registry.Distinct(Socks(s))
    ensures s.pending.Some? ==> Sock(s, s.pending.value) !in Socks(s)
  {
    forall k | 0 <= k < |s.list|
      ensures Owner(s, s.list[k]) == Some(s.list[k])
    {
    }
  }

  lemma LastLeft(s: State, a: Action)
    requires Inv(s) && AllLive(s) && Enabled(s, a)
    requires a.Leave? ==> s.list != [] && s.list[|s.list| - 1] == a.c
    ensures AllLive(Apply(s, a))
  {
    if a.Leave? {
      LiveDistinct(s);
      Registry.PositionIs(Socks(s), Sock(s, a.c), |s.list| - 1);
    }
  }

  /** If clients leave in the reverse of the order in which they were listed, no number is ever listed
      twice. */
  lemma {:induction false} LastLeavesFresh(s: State, acts: seq<Action>)
    requires Inv(s) && AllLive(s) && IsRun(s, acts) && LastLeaves(s, acts)
    ensures ListsFresh(s, acts) && AlwaysDistinct(s, acts)
    decreases |acts|
  {
    LiveDistinct(s);
    if acts != [] {
      StepKeepsInv(s, acts[0]);
      LastLeft(s, acts[0]);
      LastLeavesFresh(Apply(s, acts[0]), acts[1..]);
    }
  }

  lemma DistinctNoClash(s: State, j: nat, k: nat)
    requires Registry.Distinct(Socks(s))
    ensures !Clash(s, j, k)
  {
    assert j < k < |s.list| ==> Socks(s)[j] != Socks(s)[k];
  }

  /** With distinct numbers in the list no connection gets a second copy. */
  lemma DistinctGetsOne(s: State, acts: seq<Action>, d: nat)
    requires Whole(s, acts) && Registry.Distinct(Socks(s))
    ensures Due(s, acts, d, 0, |s.list|) <= 1
  {
    if Due(s, acts, d, 0, |s.list|) > 1 {
      var j, k := TwiceMeansClash(s, acts, d);
      DistinctNoClash(s, j, k);
      assert false;
    }
  }
}
