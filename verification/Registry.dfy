/** The client list of project2/gui_server.c and its removal loop. A client stands for its socket. */
module Registry {

  predicate Distinct(xs: seq<nat>) {
    forall i, j | 0 <= i < j < |xs| :: xs[i] != xs[j]
  }

  /** The first position of a client from i on, or the length. */
  function PositionFrom(xs: seq<nat>, c: nat, i: nat): (k: nat)
    requires i <= |xs|
    ensures i <= k <= |xs| && (k < |xs| ==> xs[k] == c)
    ensures forall j | i <= j < k :: xs[j] != c
    decreases |xs| - i
  {
    if i == |xs| || xs[i] == c then i else PositionFrom(xs, c, i + 1)
  }

  function Position(xs: seq<nat>, c: nat): nat {
    PositionFrom(xs, c, 0)
  }

  /** What removal is for: the leaving client goes, the others keep their order. */
  function Intended(xs: seq<nat>, c: nat): seq<nat> {
    var k := Position(xs, c);
    if k < |xs| then xs[..k] + xs[k + 1..] else xs
  }

  /** What the written loop does: it shifts from one place too late, and drops the last slot. */
  function Written(xs: seq<nat>, c: nat): seq<nat>
    requires xs != []
  {
    Shifted(xs, Position(xs, c))
  }

  function Shifted(xs: seq<nat>, k: nat): seq<nat>
    requires xs != []
  {
    if k + 1 < |xs| then xs[..k + 1] + xs[k + 2..] else xs[..|xs| - 1]
  }

  /** The loop stays within the array: shifting reads one slot past the count, so when the array is full
      it must not come to that. */
  predicate StaysInside(list: seq<nat>, cnt: nat, sock: nat) {
    0 < cnt <= |list| && (cnt == |list| ==> Position(list[..cnt], sock) + 1 >= cnt)
  }

  /** The loop at the end of handle_clnt, on the array and count it changes. */
  method RemoveClient(list: array<nat>, cnt: nat, sock: nat) returns (cnt': nat)
    requires StaysInside(list[..], cnt, sock)
    modifies list
    ensures cnt' == cnt - 1 && list[..cnt'] == Written(old(list[..cnt]), sock)
  {
    ghost var xs := list[..cnt];
    assert list[..][..cnt] == xs;
    var i := 0;
    while i < cnt
      invariant i <= cnt && list[..cnt] == xs && forall j | 0 <= j < i :: xs[j] != sock
    {
      if list[i] == sock {
        ghost var k := i;
        PositionIs(xs, sock, k);
        ghost var stale := if cnt < list.Length then list[cnt] else 0;
        var more := i < cnt - 1;
        i := i + 1;
        while more
          invariant k + 1 <= i <= cnt && more == (i <= cnt - 1) && (more ==> cnt < list.Length)
          invariant forall j | 0 <= j <= k :: list[j] == xs[j]
          invariant forall j | k < j < i :: list[j] == if j + 1 < cnt then xs[j + 1] else stale
          invariant forall j | i <= j < cnt :: list[j] == xs[j]
          invariant cnt < list.Length ==> list[cnt] == stale
          decreases cnt - i
        {
          list[i] := list[i + 1];
          more := i < cnt - 1;
          i := i + 1;
        }
        cnt' := cnt - 1;
        assert list[..cnt'] == Written(xs, sock);
        return;
      }
      i := i + 1;
    }
    PositionIs(xs, sock, cnt);
    cnt' := cnt - 1;
    assert list[..cnt'] == xs[..cnt'];
  }

  /** The loop as it is meant: the shift starts at the match, and the count falls if there was one. */
  method RemoveShifting(list: array<nat>, cnt: nat, sock: nat) returns (cnt': nat)
    requires cnt <= list.Length
    modifies list
    ensures cnt' == |Intended(old(list[..cnt]), sock)| <= cnt && list[..cnt'] == Intended(old(list[..cnt]), sock)
  {
    ghost var xs := list[..cnt];
    var i := 0;
    while i < cnt && list[i] != sock
      invariant i <= cnt && list[..cnt] == xs && forall j | 0 <= j < i :: xs[j] != sock
    {
      i := i + 1;
    }
    PositionIs(xs, sock, i);
    if i == cnt { return cnt; }
    ghost var k := i;
    while i < cnt - 1
      invariant k <= i <= cnt - 1
      invariant forall j | 0 <= j < k :: list[j] == xs[j]
      invariant forall j | k <= j < i :: list[j] == xs[j + 1]
      invariant forall j | i <= j < cnt :: list[j] == xs[j]
    {
      list[i] := list[i + 1];
      i := i + 1;
    }
    cnt' := cnt - 1;
    assert list[..cnt'] == xs[..k] + xs[k + 1..];
  }

  /** `clnt_list` and `clnt_cnt`. */
  class Table {
    const list: array<nat>
    var cnt: nat

    ghost predicate Valid()
      reads this
    {
      cnt <= list.Length
    }

    ghost function Clients(): seq<nat>
      reads this, list
      requires Valid()
    {
      list[..cnt]
    }

    constructor (capacity: nat)
      ensures Valid() && fresh(list) && list.Length == capacity && Clients() == []
    {
      list := new nat[capacity](_ => 0);
      cnt := 0;
    }

    /** The insertion in main. */
    method Add(sock: nat)
      requires Valid() && cnt < list.Length
      modifies this`cnt, list
      ensures Valid() && Clients() == old(Clients()) + [sock]
    {
      list[cnt] := sock;
      cnt := cnt + 1;
    }

    method Remove(sock: nat)
      requires Valid() && StaysInside(list[..], cnt, sock)
      modifies this`cnt, list
      ensures Valid() && Clients() == Written(old(Clients()), sock)
    {
      cnt := RemoveClient(list, cnt, sock);
    }
  }

  lemma PositionIs(xs: seq<nat>, c: nat, k: nat)
    requires k <= |xs| && (k < |xs| ==> xs[k] == c) && forall i | 0 <= i < k :: xs[i] != c
    ensures Position(xs, c) == k
  {
  }

  /** The intended removal keeps a registry without repetition and takes out just the one client. */
  lemma IntendedRemoves(xs: seq<nat>, c: nat)
    requires Distinct(xs)
    ensures Distinct(Intended(xs, c)) && c !in Intended(xs, c)
    ensures forall d | d != c :: d in Intended(xs, c) <==> d in xs
  {
  }

  /** The others keep their order. */
  lemma IntendedKeepsOrder(xs: seq<nat>, c: nat, d: nat, e: nat)
    requires Distinct(xs) && d in xs && e in xs && d != c && e != c
    ensures Position(Intended(xs, c), d) < Position(Intended(xs, c), e) <==> Position(xs, d) < Position(xs, e)
  {
    IntendedPosition(xs, c, d);
    IntendedPosition(xs, c, e);
  }

  lemma IntendedPosition(xs: seq<nat>, c: nat, d: nat)
    requires Distinct(xs) && d in xs && d != c
    ensures var k, p := Position(xs, c), Position(xs, d);
            p < |xs| && p != k && Position(Intended(xs, c), d) == if k < p then p - 1 else p
  {
    var k, p := Position(xs, c), Position(xs, d);
    InPosition(xs, d);
    var ys := Intended(xs, c);
    if k < |xs| {
      assert forall i | 0 <= i < |ys| :: ys[i] == xs[if i < k then i else i + 1];
    }
    PositionIs(ys, d, if k < p then p - 1 else p);
  }

  lemma InPosition(xs: seq<nat>, d: nat)
    requires d in xs
    ensures Position(xs, d) < |xs|
  {
  }

  /** The written loop removes the leaving client exactly when that client is in the last slot;
      otherwise it keeps it and loses the client in the slot behind. */
  lemma WrittenIsIntendedIff(xs: seq<nat>, c: nat)
    requires Distinct(xs) && c in xs
    ensures Written(xs, c) == Intended(xs, c) <==> xs[|xs| - 1] == c
    ensures xs[|xs| - 1] != c ==>
              var k := Position(xs, c);
              && k + 1 < |xs| && c in Written(xs, c) && xs[k + 1] !in Written(xs, c)
              && Written(xs, c) == xs[..k + 1] + xs[k + 2..]
  {
  }

  /** Without a match the written loop drops the last slot, whoever is in it. */
  lemma NoMatchDropsLast(xs: seq<nat>, c: nat)
    requires xs != [] && c !in xs
    ensures Written(xs, c) + [xs[|xs| - 1]] == xs
  {
    PositionIs(xs, c, |xs|);
  }

  // ---------- whole runs ----------

  datatype Event = Connect(c: nat) | Leave(c: nat)

  /** A new client has a socket of its own, and only a connected client leaves. */
  predicate Possible(live: seq<nat>, e: Event) {
    if e.Connect? then e.c !in live else e.c in live
  }

  function Live(live: seq<nat>, e: Event): seq<nat> {
    if e.Connect? then live + [e.c] else Intended(live, e.c)
  }

  function Listed(list: seq<nat>, e: Event): seq<nat> {
    if e.Connect? then list + [e.c] else if list == [] then [] else Written(list, e.c)
  }

  predicate IsRun(live: seq<nat>, events: seq<Event>)
    decreases |events|
  {
    events == [] || (Possible(live, events[0]) && IsRun(Live(live, events[0]), events[1..]))
  }

  function LiveAfter(live: seq<nat>, events: seq<Event>): seq<nat>
    decreases |events|
  {
    if events == [] then live else LiveAfter(Live(live, events[0]), events[1..])
  }

  /** Who is connected after a run: whoever came and did not leave since. */
  function Present(clients: set<nat>, events: seq<Event>): set<nat>
    decreases |events|
  {
    if events == [] then clients
    else if events[0].Connect? then Present(clients + {events[0].c}, events[1..])
    else Present(clients - {events[0].c}, events[1..])
  }

  /** Over every run, intended removal keeps each connected client listed exactly once, and nobody else. */
  lemma {:induction false} IntendedListsPresent(live: seq<nat>, clients: set<nat>, events: seq<Event>)
    requires Distinct(live) && IsRun(live, events) && forall c :: c in live <==> c in clients
    ensures Distinct(LiveAfter(live, events))
    ensures forall c :: c in LiveAfter(live, events) <==> c in Present(clients, events)
    decreases |events|
  {
    if events != [] {
      var e := events[0];
      if e.Leave? {
        IntendedRemoves(live, e.c);
        IntendedListsPresent(Live(live, e), clients - {e.c}, events[1..]);
      } else {
        IntendedListsPresent(Live(live, e), clients + {e.c}, events[1..]);
      }
    }
  }

  /** Of two clients who stay, the one listed first stays first: newcomers go to the end, and those who
      leave do not disturb the rest. */
  lemma {:induction false} IntendedStaysInOrder(live: seq<nat>, events: seq<Event>, d: nat, e: nat)
    requires Distinct(live) && IsRun(live, events) && d in live && e in live
    requires Leave(d) !in events && Leave(e) !in events
    ensures d in LiveAfter(live, events) && e in LiveAfter(live, events)
    ensures Position(LiveAfter(live, events), d) < Position(LiveAfter(live, events), e)
            <==> Position(live, d) < Position(live, e)
    decreases |events|
  {
    if events != [] {
      var a := events[0];
      if a.Leave? {
        IntendedRemoves(live, a.c);
        IntendedKeepsOrder(live, a.c, d, e);
      } else {
        AppendPosition(live, a.c, d);
        AppendPosition(live, a.c, e);
      }
      IntendedStaysInOrder(Live(live, a), events[1..], d, e);
    }
  }

  lemma AppendPosition(xs: seq<nat>, c: nat, d: nat)
    requires d in xs
    ensures Position(xs + [c], d) == Position(xs, d) < |xs|
  {
    InPosition(xs, d);
    PositionIs(xs + [c], d, Position(xs, d));
  }

  /** The list holds exactly the connected clients, in order, all through the run. */
  predicate AlwaysExact(list: seq<nat>, live: seq<nat>, events: seq<Event>)
    decreases |events|
  {
    list == live && (events == [] || AlwaysExact(Listed(list, events[0]), Live(live, events[0]), events[1..]))
  }

  /** Whoever leaves is the client that connected last among those still there. */
  predicate LastInFirstOut(live: seq<nat>, events: seq<Event>)
    decreases |events|
  {
    events != [] ==>
      && (events[0].Leave? ==> live != [] && live[|live| - 1] == events[0].c)
      && LastInFirstOut(Live(live, events[0]), events[1..])
  }

  /** Over every run, the list is right throughout exactly when clients leave in the reverse of the
      order in which they came. */
  lemma {:induction false} ExactIffLastInFirstOut(live: seq<nat>, events: seq<Event>)
    requires Distinct(live) && IsRun(live, events)
    ensures AlwaysExact(live, live, events) <==> LastInFirstOut(live, events)
    decreases |events|
  {
    if events != [] {
      var e := events[0];
      if e.Leave? {
        WrittenIsIntendedIff(live, e.c);
        IntendedRemoves(live, e.c);
      }
      ExactIffLastInFirstOut(Live(live, e), events[1..]);
    }
  }

  /** Two clients, the first of which leaves: it stays listed and the other is lost. */
  lemma FirstClientLeaves()
    ensures IsRun([], [Connect(4), Connect(5), Leave(4)])
    ensures Written([4, 5], 4) == [4] && Intended([4, 5], 4) == [5]
  {
    PositionIs([4, 5], 4, 0);
    assert Live([], Connect(4)) == [4] && Live([4], Connect(5)) == [4, 5];
  }
}
