/**
 Counting: sets of numbers, subsets, and sequences without repetition.
 */
module SetSizes {

  /** The numbers below `n`. */
  ghost function Below(n: nat): set<nat> {
    if n == 0 then {} else Below(n - 1) + {n - 1}
  }

  lemma {:induction false} BelowSize(n: nat)
    ensures |Below(n)| == n && forall x: nat :: x in Below(n) <==> x < n
  {
    if n > 0 {
      BelowSize(n - 1);
    }
  }

  lemma {:induction false} SubsetSize<T>(a: set<T>, b: set<T>)
    requires a <= b
    ensures |a| <= |b|
  {
    if a != {} {
      var x :| x in a;
      SubsetSize(a - {x}, b - {x});
    }
  }

  ghost function Elements<T(!new)>(q: seq<T>): (s: set<T>)
    ensures forall x :: x in s <==> x in q
  {
    set x | x in q
  }

  lemma {:induction false} DistinctSize<T(!new)>(q: seq<T>)
    requires forall a, b :: 0 <= a < b < |q| ==> q[a] != q[b]
    ensures |Elements(q)| == |q|
  {
    if q != [] {
      DistinctSize(q[1..]);
      assert q == [q[0]] + q[1..];
      assert Elements(q) == {q[0]} + Elements(q[1..]);
    }
  }

  lemma {:induction false} DistinctWithin<T>(q: seq<T>, all: set<T>)
    requires forall a, b :: 0 <= a < b < |q| ==> q[a] != q[b]
    requires forall k :: 0 <= k < |q| ==> q[k] in all
    ensures |q| <= |all|
  {
    if q != [] {
      DistinctWithin(q[1..], all - {q[0]});
    }
  }
}
