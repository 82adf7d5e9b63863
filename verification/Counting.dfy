/** Pigeonhole facts about finite sequences of numbers. */
module Counting {

  ghost function Range(n: nat): set<int> {
    if n == 0 then {} else Range(n - 1) + {n - 1}
  }

  ghost function Members<T>(s: seq<T>, n: nat): set<T>
    requires n <= |s|
  {
    if n == 0 then {} else Members(s, n - 1) + {s[n - 1]}
  }

  ghost predicate AllDistinct<T>(s: seq<T>) {
    forall i, j :: 0 <= i < j < |s| ==> s[i] != s[j]
  }

  lemma {:induction false} RangeIs(n: nat, x: int)
    ensures x in Range(n) <==> 0 <= x < n
  {
    if n > 0 { RangeIs(n - 1, x); }
  }

  lemma {:induction false} RangeCount(n: nat)
    ensures |Range(n)| == n
  {
    if n > 0 {
      RangeCount(n - 1);
      RangeIs(n - 1, n - 1);
    }
  }

  lemma {:induction false} MembersIs<T>(s: seq<T>, n: nat, x: T)
    requires n <= |s|
    ensures x in Members(s, n) <==> x in s[..n]
  {
    if n > 0 {
      MembersIs(s, n - 1, x);
      assert s[..n] == s[..n - 1] + [s[n - 1]];
    }
  }

  lemma {:induction false} MembersCount<T>(s: seq<T>, n: nat)
    requires n <= |s| && AllDistinct(s)
    ensures |Members(s, n)| == n
  {
    if n > 0 {
      MembersCount(s, n - 1);
      MembersIs(s, n - 1, s[n - 1]);
    }
  }

  lemma {:induction false} SubsetCount<T>(a: set<T>, b: set<T>)
    requires a <= b
    ensures |a| <= |b|
    ensures |a| == |b| ==> a == b
  {
    if a != {} {
      var x :| x in a;
      SubsetCount(a - {x}, b - {x});
    }
  }

  /** n distinct numbers below n are all the numbers below n. */
  lemma DistinctFill(s: seq<int>, c: int)
    requires AllDistinct(s) && (forall i :: 0 <= i < |s| ==> 0 <= s[i] < |s|) && 0 <= c < |s|
    ensures c in s
  {
    var n := |s|;
    MembersCount(s, n);
    RangeCount(n);
    forall x | x in Members(s, n)
      ensures x in Range(n)
    {
      MembersIs(s, n, x);
      RangeIs(n, x);
    }
    SubsetCount(Members(s, n), Range(n));
    RangeIs(n, c);
    MembersIs(s, n, c);
  }
}
