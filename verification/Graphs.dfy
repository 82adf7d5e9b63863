/** Walks, reachability and distances in a finite directed graph of named nodes. */
module Graphs {

  /** Successors of every node; the keys are the nodes. */
  type Graph = map<string, set<string>>

  ghost predicate Closed(g: Graph) {
    forall a :: a in g ==> g[a] <= g.Keys
  }

  ghost predicate Mutual(g: Graph) {
    Closed(g) && forall a, b :: a in g && b in g[a] ==> a in g[b]
  }

  ghost predicate Walk(g: Graph, p: seq<string>) {
    && |p| > 0
    && (forall i :: 0 <= i < |p| ==> p[i] in g)
    && (forall i :: 0 <= i < |p| - 1 ==> Follows(g, p[i], p[i + 1]))
  }

  ghost predicate Follows(g: Graph, a: string, b: string) {
    a in g && b in g[a]
  }

  ghost predicate WalkBetween(g: Graph, a: string, b: string, p: seq<string>) {
    Walk(g, p) && p[0] == a && p[|p| - 1] == b
  }

  ghost predicate Reaches(g: Graph, a: string, b: string) {
    exists p :: WalkBetween(g, a, b, p)
  }

  lemma ReachesItself(g: Graph, a: string)
    requires a in g
    ensures Reaches(g, a, a)
  {
    assert WalkBetween(g, a, a, [a]);
  }

  lemma WalkGrows(g: Graph, a: string, b: string, c: string, p: seq<string>)
    requires WalkBetween(g, a, b, p) && Follows(g, b, c) && c in g
    ensures WalkBetween(g, a, c, p + [c])
  {
    var q := p + [c];
    forall i | 0 <= i < |q| - 1 ensures Follows(g, q[i], q[i + 1]) {
      if i < |p| - 1 { assert Follows(g, p[i], p[i + 1]); }
    }
  }

  lemma ReachesFurther(g: Graph, a: string, b: string, c: string)
    requires Closed(g) && Reaches(g, a, b) && Follows(g, b, c)
    ensures Reaches(g, a, c)
  {
    var p :| WalkBetween(g, a, b, p);
    WalkGrows(g, a, b, c, p);
  }

  /** The last step of a walk of at least two nodes. */
  lemma WalkShrinks(g: Graph, a: string, b: string, p: seq<string>)
    requires WalkBetween(g, a, b, p) && |p| > 1
    ensures WalkBetween(g, a, p[|p| - 2], p[..|p| - 1]) && Follows(g, p[|p| - 2], b)
  {
    var q := p[..|p| - 1];
    assert Follows(g, p[|p| - 2], p[|p| - 2 + 1]);
    forall i | 0 <= i < |q| - 1 ensures Follows(g, q[i], q[i + 1]) {
      assert Follows(g, p[i], p[i + 1]);
    }
  }

  lemma {:induction false} ReachesAlong(g: Graph, a: string, b: string, c: string, p: seq<string>)
    requires Closed(g) && Reaches(g, a, b) && WalkBetween(g, b, c, p)
    ensures Reaches(g, a, c)
    decreases |p|
  {
    if |p| > 1 {
      WalkShrinks(g, b, c, p);
      ReachesAlong(g, a, b, p[|p| - 2], p[..|p| - 1]);
      ReachesFurther(g, a, p[|p| - 2], c);
    }
  }

  lemma ReachesTransitive(g: Graph, a: string, b: string, c: string)
    requires Closed(g) && Reaches(g, a, b) && Reaches(g, b, c)
    ensures Reaches(g, a, c)
  {
    var p :| WalkBetween(g, b, c, p);
    ReachesAlong(g, a, b, c, p);
  }

  lemma {:induction false} ReachedBack(g: Graph, a: string, b: string, p: seq<string>)
    requires Mutual(g) && WalkBetween(g, a, b, p)
    ensures Reaches(g, b, a)
    decreases |p|
  {
    ReachesItself(g, b);
    if |p| > 1 {
      WalkShrinks(g, a, b, p);
      ReachedBack(g, a, p[|p| - 2], p[..|p| - 1]);
      ReachesFurther(g, b, b, p[|p| - 2]);
      ReachesTransitive(g, b, p[|p| - 2], a);
    }
  }

  lemma ReachesMutual(g: Graph, a: string, b: string)
    requires Mutual(g) && Reaches(g, a, b)
    ensures Reaches(g, b, a)
  {
    var p :| WalkBetween(g, a, b, p);
    ReachedBack(g, a, b, p);
  }

  /** Nothing leaves a set that holds the successors of its members. */
  lemma {:induction false} StaysInside(g: Graph, inside: set<string>, a: string, b: string, p: seq<string>)
    requires WalkBetween(g, a, b, p) && a in inside
    requires forall x :: x in inside && x in g ==> g[x] <= inside
    ensures b in inside
    decreases |p|
  {
    if |p| > 1 {
      WalkShrinks(g, a, b, p);
      StaysInside(g, inside, a, p[|p| - 2], p[..|p| - 1]);
    }
  }

  lemma ReachesInside(g: Graph, inside: set<string>, a: string, b: string)
    requires Reaches(g, a, b) && a in inside
    requires forall x :: x in inside && x in g ==> g[x] <= inside
    ensures b in inside
  {
    var p :| WalkBetween(g, a, b, p);
    StaysInside(g, inside, a, b, p);
  }

  // ----- distances

  /** The number of steps of the shortest walk. */
  ghost predicate IsDistance(g: Graph, a: string, b: string, n: nat) {
    && (exists p :: WalkBetween(g, a, b, p) && |p| == n + 1)
    && (forall p :: WalkBetween(g, a, b, p) ==> |p| >= n + 1)
  }

  /** Numbers that are attained by walks and grow by at most one along every edge. */
  ghost predicate Tight(g: Graph, a: string, distance: map<string, nat>) {
    && a in distance && distance[a] == 0 && distance.Keys <= g.Keys
    && (forall x :: x in distance ==> Attained(g, a, x, distance[x]))
    && (forall x, y :: x in distance && y in g[x] ==> y in distance && distance[y] <= distance[x] + 1)
  }

  ghost predicate Attained(g: Graph, a: string, b: string, n: nat) {
    exists p :: WalkBetween(g, a, b, p) && |p| == n + 1
  }

  lemma {:induction false} NoShorterWalk(g: Graph, a: string, distance: map<string, nat>, b: string, p: seq<string>)
    requires Tight(g, a, distance) && WalkBetween(g, a, b, p)
    ensures b in distance && distance[b] + 1 <= |p|
    decreases |p|
  {
    if |p| > 1 {
      WalkShrinks(g, a, b, p);
      NoShorterWalk(g, a, distance, p[|p| - 2], p[..|p| - 1]);
    }
  }

  /** Tight numbers are the distances of exactly the reachable nodes. */
  lemma TightIsShortest(g: Graph, a: string, distance: map<string, nat>)
    requires Tight(g, a, distance)
    ensures forall b :: b in distance <==> Reaches(g, a, b)
    ensures forall b :: b in distance ==> IsDistance(g, a, b, distance[b])
  {
    forall b | Reaches(g, a, b) ensures b in distance {
      var p :| WalkBetween(g, a, b, p);
      NoShorterWalk(g, a, distance, b, p);
    }
    forall b | b in distance
      ensures Reaches(g, a, b) && IsDistance(g, a, b, distance[b])
    {
      assert Attained(g, a, b, distance[b]);
      forall p | WalkBetween(g, a, b, p) ensures |p| >= distance[b] + 1 {
        NoShorterWalk(g, a, distance, b, p);
      }
    }
  }

  // ----- sums over finite maps

  ghost function SumOf(values: map<string, nat>, keys: set<string>): nat
    requires keys <= values.Keys
  {
    if keys == {} then 0
    else
      var k :| k in keys;
      values[k] + SumOf(values, keys - {k})
  }

  lemma {:induction false} SumWithout(values: map<string, nat>, keys: set<string>, k: string)
    requires keys <= values.Keys && k in keys
    ensures SumOf(values, keys) == values[k] + SumOf(values, keys - {k})
    decreases |keys|
  {
    var j :| j in keys && SumOf(values, keys) == values[j] + SumOf(values, keys - {j});
    if j != k {
      SumWithout(values, keys - {j}, k);
      SumWithout(values, keys - {k}, j);
      assert keys - {j} - {k} == keys - {k} - {j};
    }
  }
}
