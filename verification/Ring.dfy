/** The circular buffer of lab3/3/boundedbuffer.c, statement by statement, and as a queue. */
module Ring {

  /** The fields of `buffer_t` that a critical section updates. */
  datatype Fields = Fields(item: seq<int>, inn: nat, out: nat, totalitems: int)

  predicate Shaped(r: Fields) {
    r.inn < |r.item| && r.out < |r.item|
  }

  /** The slot of the k-th position of an endless sequence laid round a ring of n slots. */
  function Slot(k: nat, n: nat): (slot: nat)
    requires n > 0
    ensures slot < n
  {
    if k < n then k else Slot(k - n, n)
  }

  /** The slot is the remainder that the program computes. */
  lemma {:induction false} SlotIsRemainder(k: nat, n: nat)
    requires n > 0
    ensures Slot(k, n) == k % n
  {
    if k >= n {
      SlotIsRemainder(k - n, n);
      RemainderAfterTurn(k, n);
    }
  }

  lemma RemainderAfterTurn(k: nat, n: nat)
    requires 0 < n <= k
    ensures k % n == (k - n) % n
  {
    var d := k / n - 1 - (k - n) / n;
    assert k == (k / n) * n + k % n && k - n == ((k - n) / n) * n + (k - n) % n;
    assert d * n == (k / n) * n - n - ((k - n) / n) * n;
  }

  lemma {:induction false} SlotStep(k: nat, n: nat)
    requires n > 0
    ensures Slot(k + 1, n) == if Slot(k, n) + 1 == n then 0 else Slot(k, n) + 1
  {
    if k >= n {
      SlotStep(k - n, n);
    }
  }

  /** Less than a full turn further on, the slot is found by wrapping round at most once. */
  lemma {:induction false} SlotAhead(k: nat, d: nat, n: nat)
    requires d < n
    ensures Slot(k + d, n) == if Slot(k, n) + d < n then Slot(k, n) + d else Slot(k, n) + d - n
  {
    if k >= n {
      SlotAhead(k - n, d, n);
    }
  }

  // One function for each assignment of insert_item and remove_item.

  function Store(r: Fields, x: int): Fields
    requires Shaped(r)
  {
    r.(item := r.item[r.inn := x])
  }

  function AdvanceIn(r: Fields): Fields
    requires Shaped(r)
  {
    r.(inn := Slot(r.inn + 1, |r.item|))
  }

  function CountUp(r: Fields): Fields {
    r.(totalitems := r.totalitems + 1)
  }

  function Fetch(r: Fields): int
    requires Shaped(r)
  {
    r.item[r.out]
  }

  function AdvanceOut(r: Fields): Fields
    requires Shaped(r)
  {
    r.(out := Slot(r.out + 1, |r.item|))
  }

  function CountDown(r: Fields): Fields {
    r.(totalitems := r.totalitems - 1)
  }

  /** What holds of the buffer whenever nobody is inside a critical section. */
  predicate Valid(r: Fields) {
    && Shaped(r)
    && 0 <= r.totalitems <= |r.item|
    && r.inn == Slot(r.out + r.totalitems, |r.item|)
  }

  /** The queue the buffer stands for, oldest item first. */
  function Contents(r: Fields): seq<int>
    requires Valid(r)
  {
    seq(r.totalitems, k requires 0 <= k < r.totalitems => r.item[Slot(r.out + k, |r.item|)])
  }

  /** The three assignments of insert_item append to the queue. */
  lemma InsertEnqueues(r: Fields, x: int)
    requires Valid(r) && r.totalitems < |r.item|
    ensures var r' := CountUp(AdvanceIn(Store(r, x)));
            Valid(r') && Contents(r') == Contents(r) + [x]
  {
    var n := |r.item|;
    var r' := CountUp(AdvanceIn(Store(r, x)));
    SlotStep(r.out + r.totalitems, n);
    SlotStep(r.inn, n);
    SlotAhead(r.out, r.totalitems, n);
    forall k: nat | k < r.totalitems
      ensures Contents(r')[k] == Contents(r)[k]
    {
      SlotAhead(r.out, k, n);
    }
  }

  /** The three assignments of remove_item take the oldest item. */
  lemma RemoveDequeues(r: Fields)
    requires Valid(r) && r.totalitems > 0
    ensures var r' := CountDown(AdvanceOut(r));
            Valid(r') && Contents(r) == [Fetch(r)] + Contents(r')
  {
    var n := |r.item|;
    var r' := CountDown(AdvanceOut(r));
    SlotStep(r.out, n);
    forall k: nat | k < r'.totalitems
      ensures Contents(r')[k] == Contents(r)[k + 1]
    {
      SlotAhead(r.out, k + 1, n);
      SlotAhead(r'.out, k, n);
    }
    SlotAhead(r.out + 1, r'.totalitems, n);
    SlotAhead(r'.out, r'.totalitems, n);
    assert Contents(r) == [Fetch(r)] + Contents(r');
  }

  /** `buffer_t` itself: the array is overwritten in place. */
  class Buffer {
    const item: array<int>
    var inn: nat
    var out: nat
    var totalitems: int

    ghost function View(): Fields
      reads this, item
    {
      Fields(item[..], inn, out, totalitems)
    }

    constructor (size: nat)
      requires size > 0
      ensures fresh(item) && item.Length == size
      ensures Valid(View()) && Contents(View()) == []
    {
      item := new int[size](_ => 0);
      inn, out, totalitems := 0, 0, 0;
    }

    /** The critical section of insert_item once the wait loop has let it through. */
    method Insert(x: int)
      requires Valid(View()) && totalitems < item.Length
      modifies this, item
      ensures Valid(View())
      ensures Contents(View()) == old(Contents(View())) + [x]
      ensures View() == CountUp(AdvanceIn(Store(old(View()), x)))
    {
      InsertEnqueues(View(), x);
      SlotIsRemainder(inn + 1, item.Length);
      item[inn] := x;
      inn := (inn + 1) % item.Length;
      totalitems := totalitems + 1;
    }

    /** The critical section of remove_item once the wait loop has let it through. */
    method Remove() returns (x: int)
      requires Valid(View()) && totalitems > 0
      modifies this
      ensures Valid(View())
      ensures old(Contents(View())) == [x] + Contents(View())
      ensures View() == CountDown(AdvanceOut(old(View())))
    {
      RemoveDequeues(View());
      SlotIsRemainder(out + 1, item.Length);
      x := item[out];
      out := (out + 1) % item.Length;
      totalitems := totalitems - 1;
    }
  }
}
