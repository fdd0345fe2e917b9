/** Lists without duplicates. */
module Sequences {
  ghost predicate NoDup<T(!new)>(s: seq<T>) {
    forall i, j :: 0 <= i < j < |s| ==> s[i] != s[j]
  }

  function IndexOf<T(==)>(s: seq<T>, x: T): (k: nat)
    ensures k <= |s| && x !in s[..k]
    ensures if x in s then k < |s| && s[k] == x else k == |s|
  {
    if s == [] then 0
    else if s[0] == x then 0
    else
      var k := 1 + IndexOf(s[1..], x);
      assert s == [s[0]] + s[1..] && s[..k] == [s[0]] + s[1..][..k-1];
      k
  }

  // Without the first occurrence.
  function Dropped<T(==)>(s: seq<T>, x: T): seq<T> {
    if s == [] then [] else if s[0] == x then s[1..] else [s[0]] + Dropped(s[1..], x)
  }

  lemma {:induction false} DroppedOne<T(!new)>(s: seq<T>, x: T)
    requires NoDup(s)
    ensures NoDup(Dropped(s, x))
    ensures forall y :: y in Dropped(s, x) <==> y in s && y != x
    ensures |Dropped(s, x)| == if x in s then |s| - 1 else |s|
  {
    if s != [] {
      var first, rest := s[0], s[1..];
      assert s == [first] + rest;
      assert NoDup(rest);
      assert first !in rest by {
        forall k | 0 <= k < |rest| ensures rest[k] != first {
          assert rest[k] == s[k + 1];
        }
      }
      if first == x {
        assert Dropped(s, x) == rest;
      } else {
        DroppedOne(rest, x);
        var tail := Dropped(rest, x);
        assert Dropped(s, x) == [first] + tail && first !in tail;
      }
    }
  }

  lemma {:induction false} DroppedAt<T>(s: seq<T>, k: nat)
    requires k < |s| && s[k] !in s[..k]
    ensures Dropped(s, s[k]) == s[..k] + s[k+1..]
  {
    if k > 0 {
      assert s[0] in s[..k];
      assert s[1..][..k-1] == s[..k][1..] && s[1..][k-1] == s[k];
      DroppedAt(s[1..], k - 1);
    }
  }

  lemma {:induction false} NoDupSize<T(!new)>(s: seq<T>)
    requires NoDup(s)
    ensures |set x | x in s| == |s|
  {
    if s != [] {
      var n := |s| - 1;
      NoDupSize(s[..n]);
      assert (set x | x in s) == (set x | x in s[..n]) + {s[n]};
    }
  }

  lemma Associates<T>(a: seq<T>, b: seq<T>, c: seq<T>)
    ensures a + b + c == a + (b + c)
  {
  }
}
