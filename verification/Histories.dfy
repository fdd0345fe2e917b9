/** What holds since an event: the common shape of a table that events fill and empty. */
module Histories {
  // Something began before point n and has not ended since.
  ghost predicate Since(begins: iset<nat>, ends: iset<nat>, n: nat) {
    exists a: nat :: OpenFrom(begins, ends, a, n)
  }

  ghost predicate OpenFrom(begins: iset<nat>, ends: iset<nat>, a: nat, n: nat) {
    a < n && a in begins && forall m: nat :: a < m < n ==> m !in ends
  }

  lemma NotYet(begins: iset<nat>, ends: iset<nat>)
    ensures !Since(begins, ends, 0)
  {
  }

  // One more point.
  lemma SinceStep(begins: iset<nat>, ends: iset<nat>, n: nat)
    ensures Since(begins, ends, n + 1) <==> n in begins || (Since(begins, ends, n) && n !in ends)
  {
    if Since(begins, ends, n + 1) {
      var a: nat :| OpenFrom(begins, ends, a, n + 1);
      assert a < n ==> OpenFrom(begins, ends, a, n);
    }
    if n in begins {
      assert OpenFrom(begins, ends, n, n + 1);
    }
    if Since(begins, ends, n) && n !in ends {
      var a: nat :| OpenFrom(begins, ends, a, n);
      assert OpenFrom(begins, ends, a, n + 1);
    }
  }
}
