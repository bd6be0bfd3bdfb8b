/** Sequences without repetition, and the sizes of sets. */
module Collections {

  ghost predicate Distinct<T>(s: seq<T>) {
    forall i, j :: 0 <= i < j < |s| ==> s[i] != s[j]
  }

  lemma EmptyOrMember<T>(s: seq<T>)
    ensures s == [] || exists x :: x in s
  {
    if s != [] {
      assert s[0] in s;
    }
  }

  lemma DistinctEnds<T>(s: seq<T>, x: T)
    requires Distinct(s)
    ensures x !in s ==> Distinct(s + [x])
    ensures s != [] ==> Distinct(s[1..]) && s[0] !in s[1..] && forall y :: y in s <==> y == s[0] || y in s[1..]
  {
  }

  lemma {:induction false} SubsetSize<T>(a: set<T>, b: set<T>)
    requires a <= b
    ensures |a| <= |b|
    ensures |a| == |b| ==> a == b
  {
    assert |b| == |a| + |b - a| by {
      assert b == a + (b - a) && a !! b - a;
    }
  }

  /** Pigeonhole: distinct elements of a set cannot outnumber it. */
  lemma {:induction false} DistinctFits<T>(s: seq<T>, bound: set<T>)
    requires Distinct(s)
    requires forall x <- s :: x in bound
    ensures |s| <= |bound|
    ensures |s| == |bound| ==> forall x <- bound :: x in s
  {
    if s != [] {
      var n := |s| - 1;
      var rest := bound - {s[n]};
      assert s[n] in bound && |rest| == |bound| - 1;
      forall x <- s[..n] ensures x in rest {
        var i :| 0 <= i < n && s[..n][i] == x;
        assert s[i] != s[n];
      }
      DistinctFits(s[..n], rest);
      forall x | x in bound && |s| == |bound| ensures x in s {
        assert x in rest ==> x in s[..n];
      }
    } else if |bound| == 0 {
      assert bound == {};
    }
  }

  function Reversed<T>(p: seq<T>): (r: seq<T>)
    ensures |r| == |p|
    ensures forall i :: 0 <= i < |p| ==> r[i] == p[|p| - 1 - i]
  {
    seq(|p|, i requires 0 <= i < |p| => p[|p| - 1 - i])
  }

  lemma {:induction false} ReversedPermutes<T>(p: seq<T>)
    ensures multiset(Reversed(p)) == multiset(p)
  {
    if p != [] {
      var n := |p| - 1;
      ReversedPermutes(p[..n]);
      assert Reversed(p) == [p[n]] + Reversed(p[..n]);
      assert p == p[..n] + [p[n]];
    }
  }

  /** at lists exactly the chosen places, in order. */
  ghost predicate Places(at: seq<nat>, chosen: set<nat>) {
    (forall i, j :: 0 <= i < j < |at| ==> at[i] < at[j]) && forall k: nat :: k in at <==> k in chosen
  }

  lemma PlacesMore(at: seq<nat>, chosen: set<nat>, n: nat)
    requires Places(at, chosen) && forall k <- chosen :: k < n
    ensures Places(at + [n], chosen + {n})
  {
    assert forall i :: 0 <= i < |at| ==> at[i] in at;
  }

  function PlacesOf<T(==)>(s: seq<T>, x: T): set<int> {
    set i | 0 <= i < |s| && s[i] == x
  }

  /** How often x occurs is the number of its places. */
  lemma {:induction false} CountPlaces<T>(s: seq<T>, x: T)
    ensures multiset(s)[x] == |PlacesOf(s, x)|
  {
    if s != [] {
      var n := |s| - 1;
      CountPlaces(s[..n], x);
      assert s == s[..n] + [s[n]];
      assert PlacesOf(s, x) == if s[n] == x then PlacesOf(s[..n], x) + {n} else PlacesOf(s[..n], x);
    }
  }
}
