/** When a scheduler treats its threads fairly: a measure of how far each is from its turn. */
module Scheduling {

  ghost predicate GoesOn(ok: nat -> bool, k: nat) {
    ok(k) ==> ok(k + 1)
  }

  /** What holds at first, and at each moment if at the one before, holds always. */
  lemma {:induction false} Always(ok: nat -> bool, n: nat)
    requires ok(0) && forall k: nat :: GoesOn(ok, k)
    ensures ok(n)
  {
    if n > 0 {
      Always(ok, n - 1);
      assert GoesOn(ok, n - 1);
    }
  }

  ghost predicate Again(runs: nat -> bool, n: nat) {
    exists m: nat :: n <= m && runs(m)
  }

  ghost predicate Never(able: nat -> bool, n: nat) {
    forall m: nat :: n <= m ==> !able(m)
  }

  /** Strong fairness for one thread: from n on it runs once more, or is at last never able to. */
  ghost predicate Treated(able: nat -> bool, runs: nat -> bool, n: nat) {
    Again(runs, n) || (exists m: nat :: n <= m && Never(able, m))
  }

  /** As long as the thread does not run, its place gets no worse, and better whenever it is able. */
  ghost predicate Advances(able: nat -> bool, runs: nat -> bool, place: nat -> nat, m: nat) {
    !runs(m) ==> place(m + 1) <= place(m) && (able(m) ==> place(m + 1) < place(m))
  }

  lemma HoldsPlace(able: nat -> bool, runs: nat -> bool, place: nat -> nat, n: nat, m: nat)
    requires (forall k: nat :: Advances(able, runs, place, k)) && n <= m && !Again(runs, n)
    ensures place(m) <= place(n)
  {
    var k := n;
    while k < m
      invariant n <= k <= m && place(k) <= place(n)
    {
      assert Advances(able, runs, place, k);
      k := k + 1;
    }
  }

  /** So it is treated fairly. */
  lemma {:induction false} PlacesTreat(able: nat -> bool, runs: nat -> bool, place: nat -> nat, n: nat)
    requires forall k: nat :: Advances(able, runs, place, k)
    ensures Treated(able, runs, n)
    decreases place(n)
  {
    if !Again(runs, n) && !Never(able, n) {
      var m: nat :| n <= m && able(m);
      HoldsPlace(able, runs, place, n, m);
      assert Advances(able, runs, place, m);
      PlacesTreat(able, runs, place, m + 1);
    }
  }
}
