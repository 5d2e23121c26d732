/** A log of broadcasts in the order they were made, and what each receiver sees of it. */
module Delivery {

  /** `receivers` counts the copies that went to each receiver. */
  datatype Entry = Entry(sender: nat, text: string, receivers: multiset<nat>)

  /** The broadcasts that went to a receiver, in order. */
  function Only(log: seq<Entry>, f: nat): seq<Entry> {
    if log == [] then [] else
      var front := Only(log[..|log| - 1], f);
      if f in log[|log| - 1].receivers then front + [log[|log| - 1]] else front
  }

  function Copies(text: string, n: nat): seq<string> {
    seq(n, _ => text)
  }

  /** What a receiver gets to read: its copies of the broadcasts, in order. */
  function Stream(log: seq<Entry>, f: nat): seq<string> {
    if log == [] then [] else
      Stream(log[..|log| - 1], f) + Copies(log[|log| - 1].text, log[|log| - 1].receivers[f])
  }

  lemma OnlyAppend(log: seq<Entry>, e: Entry, f: nat)
    ensures Only(log + [e], f) == if f in e.receivers then Only(log, f) + [e] else Only(log, f)
  {
    assert (log + [e])[..|log|] == log;
  }

  lemma StreamAppend(log: seq<Entry>, e: Entry, f: nat)
    ensures Stream(log + [e], f) == Stream(log, f) + Copies(e.text, e.receivers[f])
  {
    assert (log + [e])[..|log|] == log;
  }

  /** One more copy of the last broadcast. */
  lemma StreamMore(log: seq<Entry>, d: nat, f: nat)
    requires log != []
    ensures var e := log[|log| - 1];
            Stream(log[..|log| - 1] + [e.(receivers := e.receivers + multiset{d})], f) ==
              if d == f then Stream(log, f) + [e.text] else Stream(log, f)
  {
    var front, e := log[..|log| - 1], log[|log| - 1];
    StreamAppend(front, e.(receivers := e.receivers + multiset{d}), f);
    assert Copies(e.text, e.receivers[f] + 1) == Copies(e.text, e.receivers[f]) + [e.text];
  }

  /** What a receiver reads is made of the broadcasts that went to it. */
  lemma {:induction false} StreamOfOnly(log: seq<Entry>, f: nat)
    ensures Stream(Only(log, f), f) == Stream(log, f)
  {
    if log != [] {
      var front, e := log[..|log| - 1], log[|log| - 1];
      StreamOfOnly(front, f);
      if f in e.receivers {
        StreamAppend(Only(front, f), e, f);
      }
    }
  }

  /** What two receivers have in common they see in one order: reading off either of them the
      broadcasts that the other also got gives the same sequence. */
  lemma {:induction false} CommonOrder(log: seq<Entry>, f: nat, g: nat)
    ensures Only(Only(log, f), g) == Only(Only(log, g), f)
  {
    if log != [] {
      var front, e := log[..|log| - 1], log[|log| - 1];
      CommonOrder(front, f, g);
      OnlyAppend(Only(front, f), e, g);
      OnlyAppend(Only(front, g), e, f);
    }
  }

  /** A receiver outside every list of receivers has seen nothing. */
  lemma {:induction false} StreamNone(log: seq<Entry>, f: nat)
    requires forall k | 0 <= k < |log| :: f !in log[k].receivers
    ensures Stream(log, f) == []
  {
    if log != [] {
      StreamNone(log[..|log| - 1], f);
    }
  }
}
