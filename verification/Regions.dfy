/**
  Connected regions and medoid costs of qualified points (internal/robustness/analysis.go): two
  breadth-first searches over axis neighbours.
 */
module Regions {
  import opened Counting
  import opened Graphs
  import opened Grid
  import opened Sorting

  datatype PointKind = Actual | Predicted | Proposed | OtherKind

  datatype PointState = Unknown | Qualified | Unqualified

  datatype EvaluationPoint = EvaluationPoint(kind: PointKind, state: PointState, coordinates: seq<int>, hasMetrics: bool)

  /** Points filed under the keys of their coordinates. */
  ghost predicate Filed(space: ParameterSpace, points: map<string, EvaluationPoint>) {
    forall k :: k in points ==> k == CoordinateKey(points[k].coordinates) && |points[k].coordinates| == |space.axes|
  }

  predicate Counts(p: EvaluationPoint) {
    p.kind == Actual && p.state == Qualified && p.hasMetrics
  }

  /** The qualified actual points. */
  function QualifiedPoints(points: map<string, EvaluationPoint>): map<string, EvaluationPoint> {
    map k | k in points && Counts(points[k]) :: points[k]
  }

  /** Axis neighbours among some filed points. */
  ghost function Neighbors(space: ParameterSpace, nodes: map<string, EvaluationPoint>, a: string): set<string>
    requires Filed(space, nodes) && a in nodes
  {
    set b | b in nodes && IsNeighbor(space, nodes[a].coordinates, nodes[b].coordinates)
  }

  /** The graph of single-axis steps between points. */
  ghost function GraphOf(space: ParameterSpace, nodes: map<string, EvaluationPoint>): (g: Graph)
    requires Filed(space, nodes)
    ensures g.Keys == nodes.Keys && Closed(g)
  {
    map a | a in nodes :: Neighbors(space, nodes, a)
  }

  /** Looking a neighbour up by its key finds exactly the neighbouring points. */
  lemma KeyFindsNeighbor(space: ParameterSpace, nodes: map<string, EvaluationPoint>, a: string, n: seq<int>)
    requires Filed(space, nodes) && a in nodes && CoordinateKey(n) in nodes
    ensures IsNeighbor(space, nodes[a].coordinates, n) <==> CoordinateKey(n) in GraphOf(space, nodes)[a]
  {
    hide IsNeighbor, CoordinateKey;
    KeyInjective(n, nodes[CoordinateKey(n)].coordinates);
  }

  method NeighborKeys(space: ParameterSpace, ghost nodes: map<string, EvaluationPoint>, ghost a: string, c: seq<int>) returns (keys: seq<string>)
    requires Filed(space, nodes) && a in nodes && c == nodes[a].coordinates
    ensures forall b :: b in nodes ==> (b in keys <==> b in GraphOf(space, nodes)[a])
  {
    hide IsNeighbor, CoordinateKey;
    var neighbors := AxisNeighbors(space, c);
    keys := seq(|neighbors|, i requires 0 <= i < |neighbors| => CoordinateKey(neighbors[i]));
    forall b | b in nodes ensures b in keys <==> b in GraphOf(space, nodes)[a] {
      if b in keys {
        var i :| 0 <= i < |keys| && keys[i] == b;
        assert neighbors[i] in neighbors;
        KeyFindsNeighbor(space, nodes, a, neighbors[i]);
      }
      if b in GraphOf(space, nodes)[a] {
        var n := nodes[b].coordinates;
        var i :| 0 <= i < |neighbors| && neighbors[i] == n;
        assert keys[i] == b;
      }
    }
  }

  // ----- sorted keys

  method SortedKeys(keys: set<string>) returns (sorted: seq<string>)
    ensures forall k :: k in sorted <==> k in keys
    ensures AllDistinct(sorted) && OrderedBy(sorted, StringKey)
  {
    var list, rest := [], keys;
    while rest != {}
      invariant rest <= keys && AllDistinct(list)
      invariant forall k :: k in list <==> k in keys && k !in rest
      decreases |rest|
    {
      var k :| k in rest;
      list, rest := list + [k], rest - {k};
    }
    sorted := SortedKeyList(list);
  }

  function SortedKeyList(list: seq<string>): (sorted: seq<string>)
    ensures OrderedBy(sorted, StringKey) && (forall k :: k in sorted <==> k in list)
    ensures AllDistinct(list) ==> AllDistinct(sorted)
  {
    SortedIsOrdered(list, StringKey);
    var sorted := SortedBy(list, StringKey);
    SortKeepsMembers(list, sorted);
    sorted
  }

  lemma SortKeepsMembers(s: seq<string>, t: seq<string>)
    requires multiset(s) == multiset(t)
    ensures forall k :: k in s <==> k in t
    ensures AllDistinct(s) ==> AllDistinct(t)
  {
    forall k ensures k in s <==> k in t { SameMembers(s, t, k); }
    if AllDistinct(s) { RearrangedDistinct(s, t); }
  }

  // ----- one component

  /** A search in progress: found nodes are popped or waiting, and popped nodes have been expanded. */
  ghost predicate Searching(g: Graph, before: set<string>, start: string, visited: set<string>, component: seq<string>, queue: seq<string>) {
    && before <= visited <= g.Keys && start in visited && start !in before
    && AllDistinct(component + queue)
    && (forall x :: x in component + queue <==> x in visited && x !in before)
    && (forall x :: x in component ==> g[x] <= visited)
    && (forall x :: x in visited && x !in before ==> Reaches(g, start, x))
  }

  /** One step of the search: the front of the queue is expanded. */
  lemma Expanded(g: Graph, before: set<string>, start: string, visited: set<string>, component: seq<string>, queue: seq<string>,
                 later: set<string>, added: seq<string>)
    requires Closed(g) && Searching(g, before, start, visited, component, queue) && |queue| > 0
    requires AllDistinct(added) && (forall x :: x in added <==> x in g[queue[0]] && x !in visited)
    requires later == visited + set x | x in added
    ensures Searching(g, before, start, later, component + [queue[0]], queue[1..] + added)
  {
    var current := queue[0];
    assert current in component + queue;
    var was, now := component + queue, component + [current] + (queue[1..] + added);
    assert now == was + added;
    forall i | 0 <= i < |added| ensures added[i] !in was {
      assert added[i] in added;
    }
    JoinDistinct(was, added);
    forall x | x in added ensures Reaches(g, start, x) {
      ReachesFurther(g, start, current, x);
    }
  }

  /** Neighbours of a node that have not been visited, each once. */
  method Unvisited(keys: seq<string>, nodes: map<string, EvaluationPoint>, visited: set<string>) returns (added: seq<string>, later: set<string>)
    ensures AllDistinct(added) && forall x :: x in added <==> x in keys && x in nodes && x !in visited
    ensures later == visited + set x | x in added
  {
    added, later := [], visited;
    for i := 0 to |keys|
      invariant AllDistinct(added) && forall x :: x in added <==> x in keys[..i] && x in nodes && x !in visited
      invariant later == visited + set x | x in added
    {
      assert keys[..i + 1] == keys[..i] + [keys[i]];
      if keys[i] !in nodes || keys[i] in later {
        continue;
      }
      later := later + {keys[i]};
      added := added + [keys[i]];
    }
    assert keys[..|keys|] == keys;
  }

  /** Breadth-first search: the nodes that the start reaches and no earlier search has visited. */
  method Explore(space: ParameterSpace, nodes: map<string, EvaluationPoint>, start: string, before: set<string>)
    returns (component: seq<string>, visited: set<string>)
    requires Filed(space, nodes) && start in nodes && start !in before && before <= nodes.Keys
    requires forall x :: x in before ==> GraphOf(space, nodes)[x] <= before
    ensures AllDistinct(component)
    ensures forall x :: x in component <==> x !in before && Reaches(GraphOf(space, nodes), start, x)
    ensures before <= visited <= nodes.Keys && forall x :: x in visited <==> x in before || x in component
    ensures forall x :: x in visited ==> GraphOf(space, nodes)[x] <= visited
  {
    hide GraphOf, Filed, Reaches;
    ghost var g := GraphOf(space, nodes);
    var queue := [start];
    visited := before + {start};
    component := [];
    ReachesItself(g, start);
    while |queue| > 0
      invariant Searching(g, before, start, visited, component, queue)
      decreases nodes.Keys - visited, |queue|
    {
      var current := queue[0];
      assert current in component + queue;
      FiledPoint(space, nodes, current);
      var keys := NeighborKeys(space, nodes, current, nodes[current].coordinates);
      var added, later := Unvisited(keys, nodes, visited);
      NewNeighbors(space, nodes, current, keys, added, visited);
      Expanded(g, before, start, visited, component, queue, later, added);
      if |added| > 0 { assert added[0] in later && added[0] in added; }
      component := component + [current];
      visited, queue := later, queue[1..] + added;
    }
    assert component + queue == component;
    Complete(g, before, start, visited, component);
  }

  lemma FiledPoint(space: ParameterSpace, nodes: map<string, EvaluationPoint>, a: string)
    requires Filed(space, nodes) && a in nodes
    ensures |nodes[a].coordinates| == |space.axes|
  {
  }

  lemma NewNeighbors(space: ParameterSpace, nodes: map<string, EvaluationPoint>, a: string, keys: seq<string>, added: seq<string>, visited: set<string>)
    requires Filed(space, nodes) && a in nodes
    requires forall b :: b in nodes ==> (b in keys <==> b in GraphOf(space, nodes)[a])
    requires forall x :: x in added <==> x in keys && x in nodes && x !in visited
    ensures forall x :: x in added <==> x in GraphOf(space, nodes)[a] && x !in visited
  {
    assert GraphOf(space, nodes)[a] <= nodes.Keys;
  }

  /** A finished search has visited everything the start reaches. */
  lemma Complete(g: Graph, before: set<string>, start: string, visited: set<string>, component: seq<string>)
    requires Searching(g, before, start, visited, component, [])
    requires forall x :: x in before ==> x in g && g[x] <= before
    ensures forall x :: x in component <==> x !in before && Reaches(g, start, x)
    ensures forall x :: x in visited <==> x in before || x in component
    ensures forall x :: x in visited ==> g[x] <= visited
  {
    hide Reaches;
    assert component + [] == component;
    forall x | Reaches(g, start, x) ensures x in visited {
      ReachesInside(g, visited, start, x);
    }
  }

  // ----- all components

  /** The first key, in sorted order, from which a node can be reached. */
  ghost predicate IsLeastSource(g: Graph, source: string, x: string) {
    && source in g && Reaches(g, source, x)
    && forall k :: k in g && Reaches(g, k, x) ==> Leq(StringKey(source), StringKey(k))
  }

  lemma LeastSourceIsUnique(g: Graph, a: string, b: string, x: string)
    requires IsLeastSource(g, a, x) && IsLeastSource(g, b, x)
    ensures a == b
  {
    LeqAntisymmetric(StringKey(a), StringKey(b));
    StringKeyInjective(a, b);
  }

  /** A sorted list of the nodes whose least source is given. */
  ghost predicate IsRegion(g: Graph, source: string, region: seq<string>) {
    && source in region && AllDistinct(region) && OrderedBy(region, StringKey)
    && (forall x :: x in region <==> x in g && IsLeastSource(g, source, x))
  }

  /** Regions with different sources that cover some nodes, and whose sources are among them. */
  ghost predicate Covers(g: Graph, nodes: set<string>, regions: seq<seq<string>>, sources: seq<string>) {
    && |regions| == |sources| && AllDistinct(sources)
    && (forall r :: 0 <= r < |regions| ==> IsRegion(g, sources[r], regions[r]))
    && (forall r :: 0 <= r < |sources| ==> sources[r] in nodes)
    && (forall x :: x in nodes ==> Covered(regions, x))
  }

  /** Regions that cover all nodes. */
  ghost predicate AreRegions(g: Graph, regions: seq<seq<string>>) {
    exists sources :: Covers(g, g.Keys, regions, sources)
  }

  ghost predicate Covered(regions: seq<seq<string>>, x: string) {
    exists r :: 0 <= r < |regions| && x in regions[r]
  }

  /** The outer loop after k keys: exactly what they reach is visited. */
  ghost predicate VisitedFrom(g: Graph, keys: seq<string>, k: nat, visited: set<string>) {
    && k <= |keys| && visited <= g.Keys
    && (forall x :: x in visited ==> g[x] <= visited)
    && (forall j :: 0 <= j < k ==> keys[j] in visited)
    && (forall x :: x in visited ==> ReachedEarlier(g, keys, k, x))
  }

  ghost predicate ReachedEarlier(g: Graph, keys: seq<string>, k: nat, x: string)
    requires k <= |keys|
  {
    exists j :: 0 <= j < k && Reaches(g, keys[j], x)
  }

  ghost predicate KeysOf(g: Graph, keys: seq<string>) {
    Closed(g) && OrderedBy(keys, StringKey) && AllDistinct(keys) && forall y :: y in keys <==> y in g
  }

  /** A node no earlier key reaches, but the current one does, has the current key as its least source. */
  lemma NewSource(g: Graph, keys: seq<string>, k: nat, visited: set<string>, x: string)
    requires KeysOf(g, keys) && k < |keys| && VisitedFrom(g, keys, k, visited)
    requires x !in visited && Reaches(g, keys[k], x)
    ensures IsLeastSource(g, keys[k], x)
  {
    hide Reaches, Leq, ReachedEarlier;
    assert keys[k] in keys;
    forall y | y in g && Reaches(g, y, x) ensures Leq(StringKey(keys[k]), StringKey(y)) {
      assert y in keys;
      var j :| 0 <= j < |keys| && keys[j] == y;
      if j < k {
        ReachesInside(g, visited, y, x);
      } else {
        LeqTotal(StringKey(y), StringKey(y));
      }
    }
  }

  /** A node an earlier key reaches does not have the current key as its least source. */
  lemma OldSource(g: Graph, keys: seq<string>, k: nat, visited: set<string>, x: string)
    requires KeysOf(g, keys) && k < |keys| && VisitedFrom(g, keys, k, visited)
    requires x in visited
    ensures !IsLeastSource(g, keys[k], x)
  {
    hide Reaches, Leq;
    assert ReachedEarlier(g, keys, k, x);
    var j :| 0 <= j < k && Reaches(g, keys[j], x);
    assert keys[j] in keys;
    if IsLeastSource(g, keys[k], x) {
      LeqAntisymmetric(StringKey(keys[j]), StringKey(keys[k]));
      StringKeyInjective(keys[j], keys[k]);
    }
  }

  lemma NewRegion(g: Graph, keys: seq<string>, k: nat, visited: set<string>, region: seq<string>)
    requires KeysOf(g, keys) && k < |keys| && VisitedFrom(g, keys, k, visited) && keys[k] !in visited
    requires AllDistinct(region) && OrderedBy(region, StringKey)
    requires forall x :: x in region <==> x !in visited && Reaches(g, keys[k], x)
    ensures IsRegion(g, keys[k], region)
  {
    hide Reaches, VisitedFrom, OrderedBy, AllDistinct;
    assert keys[k] in keys;
    ReachesItself(g, keys[k]);
    forall x ensures x in region <==> x in g && IsLeastSource(g, keys[k], x) {
      if x in region {
        ReachedIsNode(g, keys[k], x);
        NewSource(g, keys, k, visited, x);
      } else if x in visited {
        OldSource(g, keys, k, visited, x);
      }
    }
  }

  lemma ReachedIsNode(g: Graph, a: string, x: string)
    requires Reaches(g, a, x)
    ensures x in g
  {
    var p :| WalkBetween(g, a, x, p);
  }

  lemma ReachedMore(g: Graph, keys: seq<string>, k: nat, x: string)
    requires k < |keys| && (ReachedEarlier(g, keys, k, x) || Reaches(g, keys[k], x))
    ensures ReachedEarlier(g, keys, k + 1, x)
  {
    hide Reaches;
  }

  lemma VisitedGrows(g: Graph, keys: seq<string>, k: nat, visited: set<string>, later: set<string>)
    requires k < |keys| && VisitedFrom(g, keys, k, visited) && keys[k] in later && visited <= later <= g.Keys
    requires forall x :: x in later ==> x in visited || Reaches(g, keys[k], x)
    requires forall x :: x in later ==> g[x] <= later
    ensures VisitedFrom(g, keys, k + 1, later)
  {
    hide Reaches, ReachedEarlier;
    forall x | x in later ensures ReachedEarlier(g, keys, k + 1, x) {
      ReachedMore(g, keys, k, x);
    }
  }

  lemma CoveredMore(regions: seq<seq<string>>, region: seq<string>, x: string)
    requires Covered(regions, x) || x in region
    ensures Covered(regions + [region], x)
  {
    var more := regions + [region];
    if x in region {
      assert more[|regions|] == region;
    } else {
      var r :| 0 <= r < |regions| && x in regions[r];
      assert more[r] == regions[r];
    }
  }

  lemma CoverGrows(g: Graph, visited: set<string>, regions: seq<seq<string>>, sources: seq<string>, later: set<string>, source: string, region: seq<string>)
    requires Covers(g, visited, regions, sources) && IsRegion(g, source, region) && source !in visited
    requires visited <= later && source in later && forall x :: x in later ==> x in visited || x in region
    ensures Covers(g, later, regions + [region], sources + [source])
  {
    hide IsRegion, Covered, AllDistinct;
    forall x | x in later ensures Covered(regions + [region], x) {
      CoveredMore(regions, region, x);
    }
    OneMoreDistinct(sources, source);
  }

  lemma OneMoreDistinct<T>(s: seq<T>, x: T)
    requires AllDistinct(s) && x !in s
    ensures AllDistinct(s + [x])
  {
  }

  /**
    The regions of the qualified points, in the order of their least sources: every qualified point
    lies in exactly one of them.
   */
  method ConnectedRegions(space: ParameterSpace, points: map<string, EvaluationPoint>) returns (regions: seq<seq<string>>)
    requires Filed(space, points)
    ensures Filed(space, QualifiedPoints(points))
    ensures AreRegions(GraphOf(space, QualifiedPoints(points)), regions)
  {
    hide GraphOf, Filed, IsRegion, Covers, VisitedFrom;
    var qualified := QualifiedPoints(points);
    StillFiled(space, points);
    ghost var g := GraphOf(space, qualified);
    var keys := SortedKeys(qualified.Keys);
    var visited: set<string> := {};
    regions := [];
    ghost var sources: seq<string> := [];
    NothingVisited(g, keys);
    for k := 0 to |keys|
      invariant visited <= qualified.Keys && forall x :: x in visited ==> g[x] <= visited
      invariant VisitedFrom(g, keys, k, visited)
      invariant Covers(g, visited, regions, sources)
    {
      assert keys[k] in keys;
      if keys[k] in visited {
        VisitedGrows(g, keys, k, visited, visited);
        continue;
      }
      var component, later := Explore(space, qualified, keys[k], visited);
      var region := SortedKeyList(component);
      NewRegion(g, keys, k, visited, region);
      StartsItself(g, keys[k], region);
      VisitedGrows(g, keys, k, visited, later);
      CoverGrows(g, visited, regions, sources, later, keys[k], region);
      regions, sources, visited := regions + [region], sources + [keys[k]], later;
    }
    AllVisited(g, keys, visited);
  }

  lemma StillFiled(space: ParameterSpace, points: map<string, EvaluationPoint>)
    requires Filed(space, points)
    ensures Filed(space, QualifiedPoints(points))
  {
  }

  lemma NothingVisited(g: Graph, keys: seq<string>)
    ensures VisitedFrom(g, keys, 0, {}) && Covers(g, {}, [], [])
  {
  }

  lemma StartsItself(g: Graph, source: string, region: seq<string>)
    requires IsRegion(g, source, region)
    ensures source in region
  {
  }

  lemma AllVisited(g: Graph, keys: seq<string>, visited: set<string>)
    requires KeysOf(g, keys) && VisitedFrom(g, keys, |keys|, visited)
    ensures visited == g.Keys
  {
    hide Reaches, ReachedEarlier, OrderedBy, AllDistinct;
    forall x | x in g ensures x in visited {
      var j :| 0 <= j < |keys| && keys[j] == x;
    }
  }

  /** The regions hold the keys of exactly the actual, qualified points with metrics. */
  lemma RegionsHold(space: ParameterSpace, points: map<string, EvaluationPoint>, regions: seq<seq<string>>, k: string)
    requires Filed(space, QualifiedPoints(points)) && AreRegions(GraphOf(space, QualifiedPoints(points)), regions)
    ensures (exists r :: 0 <= r < |regions| && k in regions[r])
       <==> k in points && points[k].kind == Actual && points[k].state == Qualified && points[k].hasMetrics
  {
    hide Filed, IsLeastSource, OrderedBy, AllDistinct, Neighbors;
    var g := GraphOf(space, QualifiedPoints(points));
    var sources :| Covers(g, g.Keys, regions, sources);
    if k in g { assert Covered(regions, k); }
    if r :| 0 <= r < |regions| && k in regions[r] { assert IsRegion(g, sources[r], regions[r]); }
  }

  // ----- what sharing a region means

  ghost predicate Share(regions: seq<seq<string>>, a: string, b: string) {
    exists r :: 0 <= r < |regions| && a in regions[r] && b in regions[r]
  }

  /** Two nodes share a region exactly when they have the same least source. */
  lemma SharedRegion(g: Graph, regions: seq<seq<string>>, a: string, b: string)
    requires AreRegions(g, regions) && a in g && b in g
    ensures Share(regions, a, b) <==> (exists s :: IsLeastSource(g, s, a) && IsLeastSource(g, s, b))
    ensures forall r, q :: 0 <= r < |regions| && 0 <= q < |regions| && a in regions[r] && a in regions[q] ==> r == q
  {
    hide IsLeastSource;
    var sources :| Covers(g, g.Keys, regions, sources);
    assert Covered(regions, a);
    forall r, q | 0 <= r < |regions| && 0 <= q < |regions| && a in regions[r] && a in regions[q] ensures r == q {
      LeastSourceIsUnique(g, sources[r], sources[q], a);
    }
    if s :| IsLeastSource(g, s, a) && IsLeastSource(g, s, b) {
      var r :| 0 <= r < |regions| && a in regions[r];
      LeastSourceIsUnique(g, sources[r], s, a);
      assert b in regions[r];
    }
  }

  /** Where all steps can be undone, sharing a least source is being linked by a chain of steps. */
  lemma LinkedIsSameSource(g: Graph, a: string, b: string)
    requires Mutual(g) && a in g && b in g
    requires exists s :: IsLeastSource(g, s, a)
    ensures Reaches(g, a, b) <==> exists s :: IsLeastSource(g, s, a) && IsLeastSource(g, s, b)
  {
    hide Reaches, Leq;
    if Reaches(g, a, b) {
      var s :| IsLeastSource(g, s, a);
      ReachesTransitive(g, s, a, b);
      ReachesMutual(g, a, b);
      forall k | k in g && Reaches(g, k, b) ensures Leq(StringKey(s), StringKey(k)) {
        ReachesTransitive(g, k, b, a);
      }
      assert IsLeastSource(g, s, b);
    }
    if s :| IsLeastSource(g, s, a) && IsLeastSource(g, s, b) {
      ReachesMutual(g, s, a);
      ReachesTransitive(g, a, s, b);
    }
  }

  /** All qualified points lie inside the study window and are not excluded. */
  ghost predicate AllRegular(space: ParameterSpace, points: map<string, EvaluationPoint>) {
    forall k :: k in points && Counts(points[k]) ==> Regular(space, points[k].coordinates)
  }

  lemma RegularGraphIsMutual(space: ParameterSpace, points: map<string, EvaluationPoint>)
    requires Filed(space, points) && AllRegular(space, points)
    ensures Filed(space, QualifiedPoints(points)) && Mutual(GraphOf(space, QualifiedPoints(points)))
  {
    hide Regular, IsNeighbor;
    StillFiled(space, points);
    var nodes := QualifiedPoints(points);
    var g := GraphOf(space, nodes);
    forall a, b | a in g && b in g[a] ensures a in g[b] {
      NeighborsAreMutual(space, nodes[a].coordinates, nodes[b].coordinates);
    }
  }

  /** Where every step can be undone, two nodes share a region if and only if a chain of steps links them. */
  lemma SharedIffLinked(g: Graph, regions: seq<seq<string>>, a: string, b: string)
    requires Mutual(g) && AreRegions(g, regions) && a in g && b in g
    ensures Share(regions, a, b) <==> Reaches(g, a, b)
  {
    hide Reaches, IsLeastSource, Share;
    SharedRegion(g, regions, a, b);
    HasLeastSource(g, regions, a);
    LinkedIsSameSource(g, a, b);
  }

  // ----- steps that cannot be undone

  /** The nodes whose coordinate lies inside the window of one axis. */
  ghost function WithinAxis(space: ParameterSpace, nodes: map<string, EvaluationPoint>, d: nat): set<string>
    requires Filed(space, nodes) && d < |space.axes|
  {
    set k | k in nodes && space.axes[d].studyStart <= nodes[k].coordinates[d] <= space.axes[d].studyEnd
  }

  /** A step never leaves the window of an axis. */
  lemma StepsStayWithin(space: ParameterSpace, nodes: map<string, EvaluationPoint>, d: nat, x: string)
    requires Filed(space, nodes) && d < |space.axes| && x in WithinAxis(space, nodes, d)
    ensures GraphOf(space, nodes)[x] <= WithinAxis(space, nodes, d)
  {
    hide Excluded;
    forall y | y in GraphOf(space, nodes)[x] ensures y in WithinAxis(space, nodes, d) {
      var c, n := nodes[x].coordinates, nodes[y].coordinates;
      var e :| StepIn(space, c, e, -1, n) || StepIn(space, c, e, 1, n);
    }
  }

  /** No chain leads to an excluded point from another one. */
  lemma ExcludedIsNotReached(space: ParameterSpace, nodes: map<string, EvaluationPoint>, a: string, b: string)
    requires Filed(space, nodes) && a in nodes && Excluded(space, nodes[a].coordinates) && a != b
    ensures !Reaches(GraphOf(space, nodes), b, a)
  {
    hide Excluded;
    var g := GraphOf(space, nodes);
    if p :| WalkBetween(g, b, a, p) {
      WalkShrinks(g, b, a, p);
      var c, n := nodes[p[|p| - 2]].coordinates, nodes[a].coordinates;
      assert IsNeighbor(space, c, n);
      var e :| StepIn(space, c, e, -1, n) || StepIn(space, c, e, 1, n);
      assert false;
    }
  }

  /** A step that cannot be undone starts at an excluded point or outside the window of its axis. */
  lemma OneWayStep(space: ParameterSpace, c: seq<int>, n: seq<int>) returns (d: nat)
    requires |c| == |space.axes| && |n| == |c| && IsNeighbor(space, c, n) && !IsNeighbor(space, n, c)
    ensures d < |c| && space.axes[d].studyStart <= n[d] <= space.axes[d].studyEnd
    ensures Excluded(space, c) || !(space.axes[d].studyStart <= c[d] <= space.axes[d].studyEnd)
  {
    hide Excluded;
    d :| StepIn(space, c, d, -1, n) || StepIn(space, c, d, 1, n);
    assert c == n[d := c[d]];
    assert !StepIn(space, n, d, 1, c) && !StepIn(space, n, d, -1, c);
  }

  /** A step that cannot be undone is not undone by any chain either. */
  lemma NeverUndone(space: ParameterSpace, nodes: map<string, EvaluationPoint>, a: string, b: string)
    requires Filed(space, nodes) && a in nodes && b in GraphOf(space, nodes)[a] && a !in GraphOf(space, nodes)[b]
    ensures !Reaches(GraphOf(space, nodes), b, a)
  {
    hide IsNeighbor, Reaches;
    var c, n := nodes[a].coordinates, nodes[b].coordinates;
    var d := OneWayStep(space, c, n);
    if Excluded(space, c) {
      ExcludedIsNotReached(space, nodes, a, b);
    } else if Reaches(GraphOf(space, nodes), b, a) {
      forall x | x in WithinAxis(space, nodes, d) ensures GraphOf(space, nodes)[x] <= WithinAxis(space, nodes, d) {
        StepsStayWithin(space, nodes, d, x);
      }
      ReachesInside(GraphOf(space, nodes), WithinAxis(space, nodes, d), b, a);
    }
  }

  /**
    Sharing a region is being linked by a chain of single-axis steps through qualified points, for all
    of them, exactly when every single step can be undone.
   */
  lemma RegionsAreLinks(space: ParameterSpace, points: map<string, EvaluationPoint>, regions: seq<seq<string>>)
    requires Filed(space, points) && Filed(space, QualifiedPoints(points))
    requires AreRegions(GraphOf(space, QualifiedPoints(points)), regions)
    ensures var g := GraphOf(space, QualifiedPoints(points));
            (forall a, b :: a in g && b in g ==> (Share(regions, a, b) <==> Reaches(g, a, b))) <==> Mutual(g)
  {
    hide Reaches, QualifiedPoints, AreRegions, Share, Neighbors;
    var nodes := QualifiedPoints(points);
    var g := GraphOf(space, nodes);
    if Mutual(g) {
      forall a, b | a in g && b in g ensures Share(regions, a, b) <==> Reaches(g, a, b) {
        SharedIffLinked(g, regions, a, b);
      }
    }
    if forall a, b :: a in g && b in g ==> (Share(regions, a, b) <==> Reaches(g, a, b)) {
      forall a, b | a in g && b in g[a] ensures a in g[b] {
        ReachesItself(g, a);
        ReachesFurther(g, a, a, b);
        SharedBothWays(regions, a, b);
        if a !in g[b] { NeverUndone(space, nodes, a, b); }
      }
    }
  }

  lemma SharedBothWays(regions: seq<seq<string>>, a: string, b: string)
    ensures Share(regions, a, b) <==> Share(regions, b, a)
  {
  }

  lemma HasLeastSource(g: Graph, regions: seq<seq<string>>, a: string)
    requires AreRegions(g, regions) && a in g
    ensures exists s :: IsLeastSource(g, s, a)
  {
    var sources :| Covers(g, g.Keys, regions, sources);
    assert Covered(regions, a);
    var r :| 0 <= r < |regions| && a in regions[r];
    assert IsLeastSource(g, sources[r], a);
  }

  /**
    Outside that case the two can come apart: an excluded point steps onto its neighbour, which
    cannot step back, and still they share a region.
   */
  lemma ExcludedPointSharesRegion(space: ParameterSpace, points: map<string, EvaluationPoint>)
    requires |space.axes| == 1 && space.axes[0].studyStart == 1 && space.axes[0].studyEnd == 2 && space.excluded == [[1]]
    requires points == map["1" := EvaluationPoint(Actual, Qualified, [1], true), "2" := EvaluationPoint(Actual, Qualified, [2], true)]
    ensures Filed(space, QualifiedPoints(points)) && !AllRegular(space, points)
    ensures var g := GraphOf(space, QualifiedPoints(points));
            !Mutual(g) && !Reaches(g, "2", "1") && IsLeastSource(g, "1", "1") && IsLeastSource(g, "1", "2")
  {
    OneWayGraph(space, points);
    var g := GraphOf(space, QualifiedPoints(points));
    hide GraphOf, Filed;
    ReachesItself(g, "1");
    ReachesFurther(g, "1", "1", "2");
    if Reaches(g, "2", "1") { ReachesInside(g, {"2"}, "2", "1"); }
    hide Reaches, Mutual;
    LeqTotal(StringKey("1"), StringKey("1"));
    assert Leq(StringKey("1"), StringKey("2"));
  }

  lemma OneWayGraph(space: ParameterSpace, points: map<string, EvaluationPoint>)
    requires |space.axes| == 1 && space.axes[0].studyStart == 1 && space.axes[0].studyEnd == 2 && space.excluded == [[1]]
    requires points == map["1" := EvaluationPoint(Actual, Qualified, [1], true), "2" := EvaluationPoint(Actual, Qualified, [2], true)]
    ensures Filed(space, QualifiedPoints(points)) && !AllRegular(space, points)
    ensures var g := GraphOf(space, QualifiedPoints(points));
            g.Keys == {"1", "2"} && g["1"] == {"2"} && g["2"] == {} && !Mutual(g)
  {
    assert CoordinateKey([1]) == "1" && CoordinateKey([2]) == "2";
    var nodes := QualifiedPoints(points);
    assert nodes == points;
    OneWay(space);
    assert !Regular(space, points["1"].coordinates);
  }

  lemma OneWay(space: ParameterSpace)
    requires |space.axes| == 1 && space.axes[0].studyStart == 1 && space.axes[0].studyEnd == 2 && space.excluded == [[1]]
    ensures IsNeighbor(space, [1], [2]) && !IsNeighbor(space, [2], [1]) && !IsNeighbor(space, [1], [1]) && !IsNeighbor(space, [2], [2])
  {
    assert [1][0 := 2] == [2];
    assert StepIn(space, [1], 0, 1, [2]);
  }

  // ----- medoid cost

  /** A distance search in progress. */
  ghost predicate Measuring(g: Graph, start: string, distance: map<string, nat>, queue: seq<string>) {
    && start in distance && distance[start] == 0 && distance.Keys <= g.Keys
    && WaitsInOrder(distance, queue)
    && (forall x :: x in distance ==> Attained(g, start, x, distance[x]))
    && (forall x :: x in distance && x !in queue ==> Settled(g, distance, x))
  }

  /** The successors of a node have been measured, and are at most one step further. */
  ghost predicate Settled(g: Graph, distance: map<string, nat>, x: string) {
    x in distance && x in g && forall y :: y in g[x] ==> y in distance && distance[y] <= distance[x] + 1
  }

  ghost predicate WaitsInOrder(distance: map<string, nat>, queue: seq<string>) {
    && AllDistinct(queue) && (forall x :: x in queue ==> x in distance)
    && (forall i, j :: 0 <= i < j < |queue| ==> distance[queue[i]] <= distance[queue[j]])
    && (|queue| > 0 ==> forall x :: x in distance ==> distance[x] <= distance[queue[0]] + 1)
  }

  lemma OrderMeasured(distance: map<string, nat>, queue: seq<string>, added: seq<string>, later: map<string, nat>)
    requires WaitsInOrder(distance, queue) && |queue| > 0
    requires AllDistinct(added) && forall x :: x in added ==> x !in distance
    requires later == distance + map x | x in added :: distance[queue[0]] + 1
    ensures WaitsInOrder(later, queue[1..] + added)
  {
    var next := queue[1..] + added;
    forall i | 0 <= i < |queue| - 1 ensures queue[1..][i] in distance {
      assert queue[i + 1] in queue;
    }
    forall i | 0 <= i < |added| ensures added[i] !in queue[1..] && added[i] in added {
    }
    JoinDistinct(queue[1..], added);
    forall i | 0 <= i < |next| ensures next[i] in later && distance[queue[0]] <= later[next[i]] <= distance[queue[0]] + 1 {
      if i < |queue| - 1 { assert next[i] == queue[i + 1] && next[i] in queue; } else { assert next[i] in added; }
    }
    forall i, j | 0 <= i < j < |next| ensures later[next[i]] <= later[next[j]] {
      if j < |queue| - 1 {
        assert next[i] == queue[i + 1] && next[j] == queue[j + 1] && next[i] in queue && next[j] in queue;
      } else {
        assert next[j] in added;
      }
    }
  }

  lemma SettledMeasured(g: Graph, distance: map<string, nat>, queue: seq<string>, added: seq<string>, later: map<string, nat>, x: string)
    requires |queue| > 0 && queue[0] in distance && queue[0] in g
    requires forall y :: y in added <==> y in g[queue[0]] && y !in distance
    requires forall y :: y in distance ==> distance[y] <= distance[queue[0]] + 1
    requires later == distance + map y | y in added :: distance[queue[0]] + 1
    requires x == queue[0] || Settled(g, distance, x)
    ensures Settled(g, later, x)
  {
  }

  lemma Measured(g: Graph, start: string, distance: map<string, nat>, queue: seq<string>, added: seq<string>, later: map<string, nat>)
    requires Closed(g) && Measuring(g, start, distance, queue) && |queue| > 0
    requires AllDistinct(added) && forall x :: x in added <==> x in g[queue[0]] && x !in distance
    requires later == distance + map x | x in added :: distance[queue[0]] + 1
    ensures Measuring(g, start, later, queue[1..] + added)
  {
    hide Attained, Settled, WaitsInOrder, AllDistinct;
    WaitsInOrderIs(distance, queue);
    var current, next := queue[0], queue[1..] + added;
    OrderMeasured(distance, queue, added, later);
    WaitsInOrderIs(later, next);
    forall x | x in added ensures Attained(g, start, x, later[x]) {
      StepAttained(g, start, current, distance[current], x);
    }
    forall x | x in later && x !in next ensures Settled(g, later, x) {
      assert x == current || x !in queue;
      SettledMeasured(g, distance, queue, added, later, x);
    }
  }

  lemma WaitsInOrderIs(distance: map<string, nat>, queue: seq<string>)
    ensures WaitsInOrder(distance, queue) ==> forall x :: x in queue ==> x in distance
    ensures |queue| > 0 && WaitsInOrder(distance, queue) ==> forall x :: x in distance ==> distance[x] <= distance[queue[0]] + 1
  {
  }

  lemma StepAttained(g: Graph, start: string, a: string, n: nat, b: string)
    requires Closed(g) && Attained(g, start, a, n) && a in g && b in g[a]
    ensures Attained(g, start, b, n + 1)
  {
    var p :| WalkBetween(g, start, a, p) && |p| == n + 1;
    WalkGrows(g, start, a, b, p);
  }

  /** The points of a component. */
  function Restricted(qualified: map<string, EvaluationPoint>, component: seq<string>): map<string, EvaluationPoint> {
    map k | k in qualified && k in component :: qualified[k]
  }

  method DistancesFrom(space: ParameterSpace, allowed: map<string, EvaluationPoint>, start: string) returns (distances: map<string, nat>)
    requires Filed(space, allowed) && start in allowed
    ensures Tight(GraphOf(space, allowed), start, distances)
  {
    hide GraphOf, Filed, Attained, Tight, Measuring;
    ghost var g := GraphOf(space, allowed);
    var queue := [start];
    distances := map[start := 0];
    StartMeasured(g, start);
    while |queue| > 0
      invariant Measuring(g, start, distances, queue)
      invariant distances.Keys <= allowed.Keys && forall x :: x in queue ==> x in distances
      decreases allowed.Keys - distances.Keys, |queue|
    {
      var current := queue[0];
      assert current in queue;
      FiledPoint(space, allowed, current);
      var keys := NeighborKeys(space, allowed, current, allowed[current].coordinates);
      var added, reached := Unvisited(keys, allowed, distances.Keys);
      NewNeighbors(space, allowed, current, keys, added, distances.Keys);
      var later := distances + map x | x in added :: distances[current] + 1;
      Measured(g, start, distances, queue, added, later);
      if |added| > 0 { assert added[0] in added && added[0] in later; }
      distances, queue := later, queue[1..] + added;
      QueueMeasured(g, start, distances, queue);
    }
    Finished(g, start, distances);
  }

  lemma StartMeasured(g: Graph, start: string)
    requires start in g
    ensures Measuring(g, start, map[start := 0], [start])
  {
    assert WalkBetween(g, start, start, [start]);
  }

  lemma QueueMeasured(g: Graph, start: string, distance: map<string, nat>, queue: seq<string>)
    requires Measuring(g, start, distance, queue)
    ensures distance.Keys <= g.Keys && forall x :: x in queue ==> x in distance
  {
  }

  lemma Finished(g: Graph, start: string, distance: map<string, nat>)
    requires Measuring(g, start, distance, [])
    ensures Tight(g, start, distance)
  {
    hide Attained;
    forall x | x in distance ensures Settled(g, distance, x) {
    }
  }

  /** The shortest chain lengths to all nodes that can be reached. */
  ghost predicate AreDistances(g: Graph, start: string, distances: map<string, nat>) {
    && (forall b :: b in distances <==> Reaches(g, start, b))
    && (forall b :: b in distances ==> IsDistance(g, start, b, distances[b]))
  }

  /** There is only one way to measure. */
  lemma DistancesAreUnique(g: Graph, start: string, one: map<string, nat>, two: map<string, nat>)
    requires AreDistances(g, start, one) && AreDistances(g, start, two)
    ensures one == two
  {
    hide Reaches;
    forall b | b in one ensures one[b] == two[b] {
      SameDistance(g, start, b, one[b], two[b]);
    }
  }

  lemma SameDistance(g: Graph, a: string, b: string, m: nat, n: nat)
    requires IsDistance(g, a, b, m) && IsDistance(g, a, b, n)
    ensures m == n
  {
  }

  method SumValues(values: map<string, nat>) returns (total: nat)
    ensures total == SumOf(values, values.Keys)
  {
    total := 0;
    var rest := values.Keys;
    while rest != {}
      invariant rest <= values.Keys
      invariant total + SumOf(values, rest) == SumOf(values, values.Keys)
      decreases |rest|
    {
      var k :| k in rest;
      SumWithout(values, rest, k);
      total, rest := total + values[k], rest - {k};
    }
  }

  /**
    The medoid cost of a point: the sum, over the points it reaches inside the component, of the
    lengths of the shortest chains of axis steps to them.
   */
  method MedoidCost(space: ParameterSpace, qualified: map<string, EvaluationPoint>, component: seq<string>, start: string)
    returns (cost: nat)
    requires Filed(space, qualified) && start in qualified && start in component
    ensures Filed(space, Restricted(qualified, component))
    ensures exists distances ::
      AreDistances(GraphOf(space, Restricted(qualified, component)), start, distances) && cost == SumOf(distances, distances.Keys)
  {
    hide Tight, IsDistance, Reaches, SumOf, GraphOf;
    var allowed := Restricted(qualified, component);
    var found := DistancesFrom(space, allowed, start);
    TightIsShortest(GraphOf(space, allowed), start, found);
    assert AreDistances(GraphOf(space, allowed), start, found);
    cost := SumValues(found);
  }

  /** A chain of steps between two nodes of a region never leaves the region. */
  lemma {:induction false} ChainInRegion(space: ParameterSpace, qualified: map<string, EvaluationPoint>, source: string, region: seq<string>,
                                         a: string, b: string, p: seq<string>)
    requires Filed(space, qualified) && Mutual(GraphOf(space, qualified)) && Filed(space, Restricted(qualified, region))
    requires IsRegion(GraphOf(space, qualified), source, region) && a in region
    requires WalkBetween(GraphOf(space, qualified), a, b, p)
    ensures b in region && Reaches(GraphOf(space, Restricted(qualified, region)), a, b)
    decreases |p|
  {
    hide IsNeighbor, Reaches, IsLeastSource, GraphOf, OrderedBy, AllDistinct, Filed;
    var g, h := GraphOf(space, qualified), GraphOf(space, Restricted(qualified, region));
    if |p| == 1 {
      ReachesItself(h, a);
    } else {
      WalkShrinks(g, a, b, p);
      var c := p[|p| - 2];
      ChainInRegion(space, qualified, source, region, a, c, p[..|p| - 1]);
      NeighborInRegion(g, source, region, c, b);
      RestrictedStep(space, qualified, region, c, b);
      ReachesFurther(h, a, c, b);
    }
  }

  lemma NeighborInRegion(g: Graph, source: string, region: seq<string>, c: string, b: string)
    requires Mutual(g) && IsRegion(g, source, region) && c in region && Graphs.Follows(g, c, b)
    ensures b in region
  {
    hide Reaches, OrderedBy, AllDistinct;
    ReachesFurther(g, source, c, b);
    forall k | k in g && Reaches(g, k, b) ensures Leq(StringKey(source), StringKey(k)) {
      ReachesFurther(g, k, b, c);
    }
  }

  lemma RestrictedStep(space: ParameterSpace, qualified: map<string, EvaluationPoint>, region: seq<string>, a: string, b: string)
    requires Filed(space, qualified) && Filed(space, Restricted(qualified, region))
    requires Graphs.Follows(GraphOf(space, qualified), a, b) && a in region && b in region
    ensures Graphs.Follows(GraphOf(space, Restricted(qualified, region)), a, b)
  {
    hide IsNeighbor;
  }

  /** Where every step can be undone the search reaches every point of a region: the cost sums the distances to all of them. */
  lemma MedoidReachesRegion(space: ParameterSpace, points: map<string, EvaluationPoint>, source: string, region: seq<string>,
                            start: string, distances: map<string, nat>)
    requires Filed(space, points)
    requires Filed(space, QualifiedPoints(points)) && Filed(space, Restricted(QualifiedPoints(points), region))
    requires Mutual(GraphOf(space, QualifiedPoints(points)))
    requires IsRegion(GraphOf(space, QualifiedPoints(points)), source, region) && start in region
    requires AreDistances(GraphOf(space, Restricted(QualifiedPoints(points), region)), start, distances)
    ensures forall b :: b in distances <==> b in region
  {
    hide Filed, GraphOf, IsLeastSource, OrderedBy, AllDistinct;
    var qualified := QualifiedPoints(points);
    var g := GraphOf(space, qualified);
    forall b ensures b in distances <==> b in region {
      if b in distances {
        ReachedIsNode(GraphOf(space, Restricted(qualified, region)), start, b);
      } else if b in region {
        SameRegionLinked(g, source, region, start, b);
        var p :| WalkBetween(g, start, b, p);
        ChainInRegion(space, qualified, source, region, start, b, p);
      }
    }
  }

  lemma SameRegionLinked(g: Graph, source: string, region: seq<string>, a: string, b: string)
    requires Mutual(g) && IsRegion(g, source, region) && a in region && b in region
    ensures Reaches(g, a, b)
  {
    hide Reaches, Leq, OrderedBy, AllDistinct;
    ReachesMutual(g, source, a);
    ReachesTransitive(g, a, source, b);
  }
}
