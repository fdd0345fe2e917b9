/** Sums over the values of a finite map, in whatever order an iterator visits them. */
module Totals {
  // How many of the filters fit.
  function CountFits(filters: seq<string>, fits: string -> bool): nat {
    if filters == [] then 0 else (if fits(filters[0]) then 1 else 0) + CountFits(filters[1..], fits)
  }

  ghost function Total<K(!new)>(m: map<K, seq<string>>, fits: string -> bool): nat
    decreases |m|
  {
    if m == map[] then 0
    else
      var k :| k in m;
      CountFits(m[k], fits) + Total(m - {k}, fits)
  }

  // The choice of the next key does not matter.
  lemma {:induction false} TotalRemove<K(!new)>(m: map<K, seq<string>>, fits: string -> bool, k: K)
    requires k in m
    ensures Total(m, fits) == CountFits(m[k], fits) + Total(m - {k}, fits)
    decreases |m|
  {
    var first :| first in m && Total(m, fits) == CountFits(m[first], fits) + Total(m - {first}, fits);
    if first != k {
      TotalRemove(m - {first}, fits, k);
      TotalRemove(m - {k}, fits, first);
      assert m - {first} - {k} == m - {k} - {first};
    }
  }

  function Filters<K>(m: map<K, seq<string>>, k: K): seq<string> {
    if k in m then m[k] else []
  }

  lemma TotalWithout<K(!new)>(m: map<K, seq<string>>, fits: string -> bool, k: K)
    ensures Total(m, fits) == CountFits(Filters(m, k), fits) + Total(m - {k}, fits)
  {
    if k in m {
      TotalRemove(m, fits, k);
    } else {
      assert m - {k} == m;
    }
  }

  // Keys without filters do not count.
  lemma {:induction false} TotalSame<K(!new)>(a: map<K, seq<string>>, b: map<K, seq<string>>, fits: string -> bool)
    requires forall k :: Filters(a, k) == Filters(b, k)
    ensures Total(a, fits) == Total(b, fits)
    decreases |a| + |b|
  {
    if a != map[] || b != map[] {
      var k :| k in a || k in b;
      TotalWithout(a, fits, k);
      TotalWithout(b, fits, k);
      assert Filters(a, k) == Filters(b, k);
      SameWithout(a, b, k);
      SizeWithout(a, k);
      SizeWithout(b, k);
      TotalSame(a - {k}, b - {k}, fits);
    }
  }

  lemma SizeWithout<K, V>(m: map<K, V>, k: K)
    ensures |m - {k}| == if k in m then |m| - 1 else |m|
  {
    assert (m - {k}).Keys == m.Keys - {k};
  }

  lemma SameWithout<K(!new)>(a: map<K, seq<string>>, b: map<K, seq<string>>, gone: K)
    requires forall k :: Filters(a, k) == Filters(b, k)
    ensures forall k :: Filters(a - {gone}, k) == Filters(b - {gone}, k)
  {
    forall k ensures Filters(a - {gone}, k) == Filters(b - {gone}, k) {
      assert Filters(a, k) == Filters(b, k);
    }
  }

  function Only<K, V>(m: map<K, V>, part: set<K>): map<K, V> {
    map k | k in m && k in part :: m[k]
  }

  lemma {:induction false} TotalSplit<K(!new)>(m: map<K, seq<string>>, part: set<K>, fits: string -> bool)
    ensures Total(m, fits) == Total(m - part, fits) + Total(Only(m, part), fits)
    decreases |m|
  {
    if m != map[] {
      var k :| k in m;
      TotalWithout(m, fits, k);
      TotalWithout(m - part, fits, k);
      TotalWithout(Only(m, part), fits, k);
      assert m - {k} - part == m - part - {k};
      assert Only(m - {k}, part) == Only(m, part) - {k};
      SizeWithout(m, k);
      TotalSplit(m - {k}, part, fits);
    } else {
      assert m - part == map[] && Only(m, part) == map[];
    }
  }

  lemma {:induction false} TotalZero<K(!new)>(m: map<K, seq<string>>, fits: string -> bool)
    ensures Total(m, fits) == 0 <==> forall k <- m :: CountFits(m[k], fits) == 0
    decreases |m|
  {
    if m != map[] {
      var k :| k in m;
      TotalRemove(m, fits, k);
      TotalZero(m - {k}, fits);
      forall x | x in m ensures x == k || (x in m - {k} && (m - {k})[x] == m[x]) {
      }
    }
  }
}
