/** Sorting by a key, for Go's library sorts: keys are integer tuples in lexicographic order. */
module Sorting {
  import opened Counting

  /** Lexicographic order on tuples of numbers; a proper prefix comes first. */
  predicate Leq(a: seq<int>, b: seq<int>) {
    if |a| == 0 then true
    else if |b| == 0 then false
    else a[0] < b[0] || (a[0] == b[0] && Leq(a[1..], b[1..]))
  }

  lemma {:induction false} LeqTotal(a: seq<int>, b: seq<int>)
    ensures Leq(a, b) || Leq(b, a)
  {
    if |a| > 0 && |b| > 0 { LeqTotal(a[1..], b[1..]); }
  }

  lemma {:induction false} LeqTransitive(a: seq<int>, b: seq<int>, c: seq<int>)
    requires Leq(a, b) && Leq(b, c)
    ensures Leq(a, c)
  {
    if |a| > 0 && |b| > 0 && |c| > 0 && a[0] == b[0] == c[0] { LeqTransitive(a[1..], b[1..], c[1..]); }
  }

  lemma {:induction false} LeqAntisymmetric(a: seq<int>, b: seq<int>)
    requires Leq(a, b) && Leq(b, a)
    ensures a == b
  {
    if |a| > 0 && |b| > 0 {
      LeqAntisymmetric(a[1..], b[1..]);
      assert a == [a[0]] + a[1..] && b == [b[0]] + b[1..];
    }
  }

  ghost predicate OrderedBy<T>(s: seq<T>, key: T -> seq<int>) {
    forall i, j :: 0 <= i < j < |s| ==> Leq(key(s[i]), key(s[j]))
  }

  /** Inserts a value behind the values that do not come after it. */
  function Inserted<T>(s: seq<T>, x: T, key: T -> seq<int>): (r: seq<T>)
    ensures multiset(r) == multiset(s) + multiset{x}
  {
    if |s| == 0 then [x]
    else if Leq(key(s[|s| - 1]), key(x)) then s + [x]
    else
      assert s == s[..|s| - 1] + [s[|s| - 1]];
      Inserted(s[..|s| - 1], x, key) + [s[|s| - 1]]
  }

  lemma {:induction false} InsertedOrdered<T>(s: seq<T>, x: T, key: T -> seq<int>)
    requires OrderedBy(s, key)
    ensures OrderedBy(Inserted(s, x, key), key)
  {
    hide Leq;
    var n := |s| - 1;
    if |s| == 0 {
    } else if Leq(key(s[n]), key(x)) {
      forall i | 0 <= i < |s| ensures Leq(key(s[i]), key(x)) {
        if i < n { LeqTransitive(key(s[i]), key(s[n]), key(x)); }
      }
    } else {
      LeqTotal(key(x), key(s[n]));
      InsertedOrdered(s[..n], x, key);
      var r := Inserted(s[..n], x, key);
      forall i | 0 <= i < |r| ensures Leq(key(r[i]), key(s[n])) {
        assert r[i] in multiset(r);
        if r[i] != x { assert r[i] in s[..n]; }
      }
    }
  }

  /** The values in order of their keys. */
  function SortedBy<T>(s: seq<T>, key: T -> seq<int>): (r: seq<T>)
    ensures multiset(r) == multiset(s)
    ensures |r| == |s|
  {
    if |s| == 0 then []
    else
      assert s == s[..|s| - 1] + [s[|s| - 1]];
      var r := Inserted(SortedBy(s[..|s| - 1], key), s[|s| - 1], key);
      assert |multiset(r)| == |multiset(s)|;
      r
  }

  lemma {:induction false} SortedIsOrdered<T>(s: seq<T>, key: T -> seq<int>)
    ensures OrderedBy(SortedBy(s, key), key)
  {
    if |s| > 0 {
      SortedIsOrdered(s[..|s| - 1], key);
      InsertedOrdered(SortedBy(s[..|s| - 1], key), s[|s| - 1], key);
    }
  }

  /** Rearranging keeps members and distinctness. */
  lemma SameMembers<T>(s: seq<T>, t: seq<T>, x: T)
    requires multiset(s) == multiset(t)
    ensures x in s <==> x in t
  {
    assert x in multiset(s) <==> x in multiset(t);
  }

  lemma TwiceCounted<T>(t: seq<T>, i: nat, j: nat)
    requires i < j < |t| && t[i] == t[j]
    ensures multiset(t)[t[i]] >= 2
  {
    assert t == t[..j] + t[j..];
    assert t[..j][i] == t[i] && t[j..][0] == t[i];
  }

  lemma {:induction false} OnceCounted<T>(s: seq<T>, x: T)
    requires AllDistinct(s)
    ensures multiset(s)[x] <= 1
  {
    if |s| > 0 {
      var n := |s| - 1;
      OnceCounted(s[..n], x);
      assert s == s[..n] + [s[n]];
      if s[n] == x { assert x !in s[..n]; }
    }
  }

  lemma RearrangedDistinct<T>(s: seq<T>, t: seq<T>)
    requires AllDistinct(s) && multiset(s) == multiset(t)
    ensures AllDistinct(t)
  {
    forall i, j | 0 <= i < j < |t| ensures t[i] != t[j] {
      OnceCounted(s, t[i]);
      if t[i] == t[j] { TwiceCounted(t, i, j); }
    }
  }

  /** A string as the key that Go's string order compares by. */
  function StringKey(s: string): (k: seq<int>)
    ensures |k| == |s|
  {
    seq(|s|, i requires 0 <= i < |s| => s[i] as int)
  }

  lemma StringKeyInjective(s: string, t: string)
    requires StringKey(s) == StringKey(t)
    ensures s == t
  {
    forall i | 0 <= i < |s| ensures s[i] == t[i] {
      assert StringKey(s)[i] == StringKey(t)[i];
    }
  }
}
