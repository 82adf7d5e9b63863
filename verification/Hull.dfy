/**
  The monotone-chain convex hull of internal/dynamicparam/geometry.go, as a function of its
  input points, and the proof that the chains enclose every point.
 */
module Hull {
  import opened RealMath

  datatype Point = Point(x: real, y: real)

  /** Positive when a, b, c turn left. */
  function Cross(a: Point, b: Point, c: Point): real {
    (b.x - a.x) * (c.y - a.y) - (b.y - a.y) * (c.x - a.x)
  }

  // ----- directions that point ahead

  /** The displacement from a to b. */
  function Step(a: Point, b: Point): Point {
    Point(b.x - a.x, b.y - a.y)
  }

  function Turn(u: Point, v: Point): real {
    u.x * v.y - u.y * v.x
  }

  /** A displacement in the scanning direction: rightwards, or straight up. */
  predicate Forward(u: Point) {
    u.x > 0.0 || (u.x == 0.0 && u.y > 0.0)
  }

  function Reverse(u: Point): Point {
    Point(-u.x, -u.y)
  }

  /** b comes strictly after a when scanning rightwards, or leftwards when `back`. */
  predicate Ahead(back: bool, a: Point, b: Point) {
    if back then Forward(Step(b, a)) else Forward(Step(a, b))
  }

  lemma PluckerIdentity(u: Point, v: Point, w: Point)
    ensures Turn(u, w) * v.x == Turn(u, v) * w.x + Turn(v, w) * u.x
  {
  }

  lemma ForwardTurn(u: Point, v: Point)
    requires Forward(u) && Forward(v) && Turn(u, v) >= 0.0 && v.x > 0.0
    ensures u.x > 0.0
  {
    if u.x == 0.0 { MulPositive(u.y, v.x); }
  }

  lemma VerticalTurn(v: Point, w: Point)
    requires Forward(v) && Forward(w) && Turn(v, w) >= 0.0 && v.x == 0.0
    ensures w.x == 0.0 && w.y > 0.0 && Turn(v, w) == 0.0
  {
    if w.x > 0.0 { MulPositive(v.y, w.x); }
  }

  /** Turning left twice among forward directions is turning left; strictly if one turn is strict. */
  lemma TurnsCompose(u: Point, v: Point, w: Point)
    requires Forward(u) && Forward(v) && Forward(w)
    requires Turn(u, v) >= 0.0 && Turn(v, w) >= 0.0
    ensures Turn(u, w) >= 0.0
    ensures Turn(u, v) > 0.0 || Turn(v, w) > 0.0 ==> Turn(u, w) > 0.0
  {
    if v.x > 0.0 {
      ForwardTurn(u, v);
      TurnsComposeAcross(u, v, w);
    } else {
      VerticalTurn(v, w);
      TurnsComposeUp(u, v, w);
    }
  }

  lemma TurnsComposeAcross(u: Point, v: Point, w: Point)
    requires u.x > 0.0 && v.x > 0.0 && Forward(w)
    requires Turn(u, v) >= 0.0 && Turn(v, w) >= 0.0
    ensures Turn(u, w) >= 0.0
    ensures Turn(u, v) > 0.0 || Turn(v, w) > 0.0 ==> Turn(u, w) > 0.0
  {
    if w.x == 0.0 {
      MulPositive(u.x, w.y);
    } else {
      PluckerIdentity(u, v, w);
      WeightedTurns(Turn(u, w), v.x, Turn(u, v), w.x, Turn(v, w), u.x);
    }
  }

  lemma WeightedTurns(t: real, p: real, s: real, q: real, r: real, o: real)
    requires p > 0.0 && q > 0.0 && o > 0.0 && s >= 0.0 && r >= 0.0 && t * p == s * q + r * o
    ensures t >= 0.0
    ensures s > 0.0 || r > 0.0 ==> t > 0.0
  {
    MulNonNegative(s, q);
    MulNonNegative(r, o);
    SignOfFactor(t, p);
    if s > 0.0 { MulPositive(s, q); }
    if r > 0.0 { MulPositive(r, o); }
  }

  lemma TurnsComposeUp(u: Point, v: Point, w: Point)
    requires Forward(u) && v.x == 0.0 && v.y > 0.0 && w.x == 0.0 && w.y > 0.0
    requires Turn(u, v) >= 0.0
    ensures Turn(u, w) >= 0.0
    ensures Turn(u, v) > 0.0 ==> Turn(u, w) > 0.0
  {
    if u.x > 0.0 { MulPositive(u.x, w.y); }
  }

  lemma TurnOfReverses(u: Point, v: Point)
    ensures Turn(Reverse(u), Reverse(v)) == Turn(u, v)
  {
  }

  /** The same composition for steps that all point ahead in one scanning direction. */
  lemma StepsCompose(back: bool, u: Point, v: Point, w: Point)
    requires if back then Forward(Reverse(u)) && Forward(Reverse(v)) && Forward(Reverse(w))
             else Forward(u) && Forward(v) && Forward(w)
    requires Turn(u, v) >= 0.0 && Turn(v, w) >= 0.0
    ensures Turn(u, w) >= 0.0
    ensures Turn(u, v) > 0.0 || Turn(v, w) > 0.0 ==> Turn(u, w) > 0.0
  {
    hide Turn, Forward;
    if back {
      TurnOfReverses(u, v);
      TurnOfReverses(v, w);
      TurnOfReverses(u, w);
      TurnsCompose(Reverse(u), Reverse(v), Reverse(w));
    } else {
      TurnsCompose(u, v, w);
    }
  }

  // ----- Cross in terms of steps

  lemma CrossAhead(a: Point, b: Point, c: Point)
    ensures Cross(a, b, c) == Turn(Step(a, b), Step(b, c))
  {
  }

  lemma CrossBehind(a: Point, b: Point, c: Point)
    ensures Cross(a, b, c) == Turn(Step(c, b), Step(a, b))
  {
  }

  lemma CrossFromStart(a: Point, b: Point, c: Point)
    ensures Cross(a, b, c) == Turn(Step(a, b), Step(a, c))
  {
  }

  lemma TurnFlips(u: Point, v: Point)
    ensures Turn(u, v) == -Turn(v, u)
  {
  }

  lemma CrossOfDegenerate(a: Point, b: Point)
    ensures Cross(a, b, a) == 0.0 && Cross(a, b, b) == 0.0
  {
  }

  lemma AheadTransitive(back: bool, a: Point, b: Point, c: Point)
    requires Ahead(back, a, b) && Ahead(back, b, c)
    ensures Ahead(back, a, c) && a != c
  {
  }

  lemma StepReverses(a: Point, b: Point)
    ensures Reverse(Step(a, b)) == Step(b, a)
  {
  }

  /** Left of one edge and left turn at its end puts a later point left of the edge. */
  lemma EarlierEdge(back: bool, a: Point, b: Point, c: Point, p: Point)
    requires Ahead(back, a, b) && Ahead(back, b, c) && Ahead(back, c, p)
    requires Cross(a, b, c) > 0.0 && Cross(b, c, p) > 0.0
    ensures Cross(a, b, p) > 0.0
  {
    hide Cross, Turn, Forward;
    CrossAhead(a, b, c);
    CrossAhead(b, c, p);
    StepReverses(a, b); StepReverses(b, c); StepReverses(c, p);
    StepsCompose(back, Step(a, b), Step(b, c), Step(c, p));
    EdgeSum(a, b, c, p);
  }

  lemma EdgeSum(a: Point, b: Point, c: Point, p: Point)
    ensures Cross(a, b, p) == Turn(Step(a, b), Step(b, c)) + Turn(Step(a, b), Step(c, p))
  {
  }

  /** A processed point before the top lies left of the new edge. */
  lemma BehindNewEdge(back: bool, prev: Point, top: Point, p: Point, q: Point)
    requires Ahead(back, prev, top) && Ahead(back, top, p) && Ahead(back, q, top)
    requires Cross(prev, top, q) >= 0.0 && Cross(prev, top, p) > 0.0
    ensures Cross(top, p, q) >= 0.0
  {
    hide Cross, Turn, Forward;
    CrossBehind(prev, top, q);
    CrossAhead(prev, top, p);
    StepReverses(prev, top); StepReverses(top, p); StepReverses(q, top);
    StepsCompose(back, Step(q, top), Step(prev, top), Step(top, p));
    NewEdgeTurn(top, p, q);
  }

  lemma NewEdgeTurn(top: Point, p: Point, q: Point)
    ensures Cross(top, p, q) == Turn(Step(q, top), Step(top, p))
  {
  }

  /** Popping the top keeps points beyond it left of the edge to the new point. */
  lemma PopBeyond(back: bool, s: Point, t: Point, p: Point, q: Point)
    requires Ahead(back, s, t) && Ahead(back, t, p) && Ahead(back, q, p)
    requires Cross(s, t, p) <= 0.0 && Cross(t, p, q) >= 0.0
    ensures Cross(s, p, q) >= 0.0
  {
    hide Cross, Turn, Forward;
    AheadTransitive(back, s, t, p);
    CrossBehind(t, p, q);
    CrossBehind(s, p, q);
    PopTurn(s, t, p);
    StepReverses(q, p); StepReverses(t, p); StepReverses(s, p);
    StepsCompose(back, Step(q, p), Step(t, p), Step(s, p));
  }

  lemma PopTurn(s: Point, t: Point, p: Point)
    ensures Turn(Step(t, p), Step(s, p)) == -Cross(s, t, p)
    ensures Turn(Step(s, p), Step(s, t)) == -Cross(s, t, p)
  {
  }

  /** Popping the top keeps points between the two left of the edge to the new point. */
  lemma PopBetween(back: bool, s: Point, t: Point, p: Point, q: Point)
    requires Ahead(back, s, t) && Ahead(back, t, p) && Ahead(back, s, q)
    requires Cross(s, t, p) <= 0.0 && Cross(s, t, q) >= 0.0
    ensures Cross(s, p, q) >= 0.0
  {
    hide Cross, Turn, Forward;
    AheadTransitive(back, s, t, p);
    PopTurn(s, t, p);
    CrossFromStart(s, t, q);
    CrossFromStart(s, p, q);
    StepReverses(s, p); StepReverses(s, t); StepReverses(s, q);
    StepsCompose(back, Step(s, p), Step(s, t), Step(s, q));
  }

  // ----- the chain

  /** Pops the points that would not turn left, then appends the new one. */
  function Push(stack: seq<Point>, p: Point): (r: seq<Point>)
    ensures |r| > 0
    decreases |stack|
  {
    if |stack| >= 2 && Cross(stack[|stack| - 2], stack[|stack| - 1], p) <= 0.0 then
      Push(stack[..|stack| - 1], p)
    else
      stack + [p]
  }

  function MonotoneChain(input: seq<Point>): (r: seq<Point>)
    ensures |input| > 0 ==> |r| > 0
  {
    if |input| == 0 then [] else Push(MonotoneChain(input[..|input| - 1]), input[|input| - 1])
  }

  ghost predicate Ordered(back: bool, s: seq<Point>) {
    forall i, j :: 0 <= i < j < |s| ==> Ahead(back, s[i], s[j])
  }

  ghost predicate TurnsLeft(s: seq<Point>) {
    forall i :: 0 <= i && i + 2 < |s| ==> Cross(s[i], s[i + 1], s[i + 2]) > 0.0
  }

  /** Every point of `input` lies on or left of every edge of the chain. */
  ghost predicate Encloses(s: seq<Point>, input: seq<Point>) {
    forall i, k :: 0 <= i && i + 1 < |s| && 0 <= k < |input| ==> Cross(s[i], s[i + 1], input[k]) >= 0.0
  }

  ghost predicate Selects(s: seq<Point>, input: seq<Point>) {
    forall i :: 0 <= i < |s| ==> s[i] in input
  }

  /** What a finished chain over `input` satisfies. */
  ghost predicate ChainOf(back: bool, s: seq<Point>, input: seq<Point>) {
    && |s| > 0 && |input| > 0
    && s[0] == input[0] && s[|s| - 1] == input[|input| - 1]
    && Selects(s, input)
    && Ordered(back, s) && TurnsLeft(s) && Encloses(s, input)
  }

  /** What holds while points are being popped for p: points not before the top lie left of top→p. */
  ghost predicate Popping(back: bool, s: seq<Point>, input: seq<Point>, p: Point) {
    && |s| > 0 && |input| > 0 && s[0] == input[0]
    && Selects(s, input)
    && Ordered(back, s) && TurnsLeft(s) && Encloses(s, input)
    && (forall k :: 0 <= k < |input| ==> Ahead(back, input[k], p))
    && (forall k :: 0 <= k < |input| && !Ahead(back, input[k], s[|s| - 1]) ==> Cross(s[|s| - 1], p, input[k]) >= 0.0)
  }

  lemma AheadTotal(back: bool, a: Point, b: Point)
    ensures Ahead(back, a, b) || Ahead(back, b, a) || a == b
    ensures Ahead(back, a, b) ==> !Ahead(back, b, a) && a != b
  {
  }

  lemma PopKeeps(back: bool, s: seq<Point>, input: seq<Point>, p: Point)
    requires Ordered(back, input) && Popping(back, s, input, p)
    requires |s| >= 2 && Cross(s[|s| - 2], s[|s| - 1], p) <= 0.0
    ensures Popping(back, s[..|s| - 1], input, p)
  {
    hide Cross, Ahead;
    var a, t := s[|s| - 2], s[|s| - 1];
    assert Ahead(back, a, t);
    assert t in input;
    forall k | 0 <= k < |input| && !Ahead(back, input[k], a)
      ensures Cross(a, p, input[k]) >= 0.0
    {
      var q := input[k];
      AheadTotal(back, q, t);
      AheadTotal(back, q, a);
      if q == a {
        CrossOfDegenerate(a, p);
      } else if Ahead(back, q, t) {
        assert Cross(s[|s| - 2], s[|s| - 2 + 1], input[k]) >= 0.0;
        PopBetween(back, a, t, p, q);
      } else {
        PopBeyond(back, a, t, p, q);
      }
    }
  }

  /** Once nothing is left to pop, the new point lies left of every edge of the stack. */
  lemma {:induction false} NewPointLeft(back: bool, s: seq<Point>, p: Point, i: nat)
    requires Ordered(back, s) && TurnsLeft(s) && |s| >= 2 && i + 1 < |s|
    requires Ahead(back, s[|s| - 1], p) && forall k :: 0 <= k < |s| ==> Ahead(back, s[k], p)
    requires Cross(s[|s| - 2], s[|s| - 1], p) > 0.0
    ensures Cross(s[i], s[i + 1], p) > 0.0
    decreases |s| - i
  {
    hide Cross, Ahead;
    if i + 2 < |s| {
      NewPointLeft(back, s, p, i + 1);
      EarlierEdge(back, s[i], s[i + 1], s[i + 2], p);
    }
  }

  /** Every processed point lies left of the new edge. */
  lemma NewEdgeEncloses(back: bool, s: seq<Point>, input: seq<Point>, p: Point, k: nat)
    requires Ordered(back, input) && Popping(back, s, input, p) && k < |input|
    requires |s| >= 2 ==> Cross(s[|s| - 2], s[|s| - 1], p) > 0.0
    ensures Cross(s[|s| - 1], p, input[k]) >= 0.0
  {
    hide Cross, Ahead;
    var top, q := s[|s| - 1], input[k];
    if Ahead(back, q, top) {
      if |s| >= 2 {
        assert Cross(s[|s| - 2], s[|s| - 2 + 1], input[k]) >= 0.0;
        assert top in input;
        BehindNewEdge(back, s[|s| - 2], top, p, q);
      } else {
        AheadTotal(back, q, top);
      }
    }
  }

  lemma AppendEncloses(back: bool, s: seq<Point>, input: seq<Point>, p: Point)
    requires Ordered(back, input) && Popping(back, s, input, p)
    requires |s| >= 2 ==> Cross(s[|s| - 2], s[|s| - 1], p) > 0.0
    ensures Encloses(s + [p], input + [p])
  {
    hide Cross, Ahead;
    var r, all := s + [p], input + [p];
    forall k | 0 <= k < |s|
      ensures Ahead(back, s[k], p)
    {
      assert s[k] in input;
    }
    forall i, k | 0 <= i && i + 1 < |r| && 0 <= k < |all|
      ensures Cross(r[i], r[i + 1], all[k]) >= 0.0
    {
      if i + 1 == |s| {
        if k < |input| { NewEdgeEncloses(back, s, input, p, k); } else { CrossOfDegenerate(s[i], p); }
      } else if k == |input| {
        NewPointLeft(back, s, p, i);
      } else {
        assert Cross(s[i], s[i + 1], input[k]) >= 0.0;
      }
    }
  }

  lemma AppendKeeps(back: bool, s: seq<Point>, input: seq<Point>, p: Point)
    requires Ordered(back, input) && Popping(back, s, input, p)
    requires |s| >= 2 ==> Cross(s[|s| - 2], s[|s| - 1], p) > 0.0
    ensures ChainOf(back, s + [p], input + [p])
  {
    hide Cross, Ahead, Encloses;
    AppendEncloses(back, s, input, p);
    forall k | 0 <= k < |s|
      ensures Ahead(back, s[k], p)
    {
      assert s[k] in input;
    }
    assert Ordered(back, s + [p]);
    assert Selects(s + [p], input + [p]);
  }

  lemma {:induction false} PushKeeps(back: bool, s: seq<Point>, input: seq<Point>, p: Point)
    requires Ordered(back, input) && Popping(back, s, input, p)
    ensures ChainOf(back, Push(s, p), input + [p])
    decreases |s|
  {
    hide Cross, Ahead;
    if |s| >= 2 && Cross(s[|s| - 2], s[|s| - 1], p) <= 0.0 {
      PopKeeps(back, s, input, p);
      PushKeeps(back, s[..|s| - 1], input, p);
    } else {
      AppendKeeps(back, s, input, p);
    }
  }

  /** A finished chain is ready for the next point. */
  lemma ReadyToPush(back: bool, s: seq<Point>, input: seq<Point>, p: Point)
    requires ChainOf(back, s, input) && Ordered(back, input + [p])
    ensures Ordered(back, input) && Popping(back, s, input, p)
  {
    hide Cross, Ahead, Selects, TurnsLeft, Encloses;
    var n, all := |input|, input + [p];
    forall k | 0 <= k < n
      ensures Ahead(back, input[k], p)
    {
      assert Ahead(back, all[k], all[n]);
    }
    forall i, j | 0 <= i < j < n
      ensures Ahead(back, input[i], input[j])
    {
      assert Ahead(back, all[i], all[j]);
    }
    forall k | 0 <= k < n && !Ahead(back, input[k], s[|s| - 1])
      ensures Cross(s[|s| - 1], p, input[k]) >= 0.0
    {
      assert k == n - 1;
      CrossOfDegenerate(input[k], p);
    }
  }

  lemma SinglePoint(back: bool, p: Point)
    ensures ChainOf(back, [p], [p])
  {
  }

  /** The chain over a strictly ordered input keeps its ends, turns strictly left and encloses it. */
  lemma {:induction false} ChainIsCorrect(back: bool, input: seq<Point>)
    requires Ordered(back, input) && |input| > 0
    ensures ChainOf(back, MonotoneChain(input), input)
  {
    hide Cross, Ahead, ChainOf, Popping;
    var n := |input| - 1;
    var before, p := input[..n], input[n];
    assert input == before + [p];
    if n == 0 {
      SinglePoint(back, p);
      assert MonotoneChain(before) == [];
      assert Push([], p) == [p];
    } else {
      ChainIsCorrect(back, before);
      ReadyToPush(back, MonotoneChain(before), before, p);
      PushKeeps(back, MonotoneChain(before), before, p);
    }
  }

  // ----- the polygon

  function Backwards(s: seq<Point>): (r: seq<Point>)
    ensures |r| == |s| && forall i :: 0 <= i < |s| ==> r[i] == s[|s| - 1 - i]
  {
    seq(|s|, i requires 0 <= i < |s| => s[|s| - 1 - i])
  }

  /** Lower chain, then upper chain, each without its last point. */
  function HullOf(unique: seq<Point>): seq<Point> {
    if |unique| <= 1 then unique
    else
      var lower, upper := MonotoneChain(unique), MonotoneChain(Backwards(unique));
      lower[..|lower| - 1] + upper[..|upper| - 1]
  }

  /** The index after i, cyclically. */
  function Next(i: nat, n: nat): nat
    requires i < n
  {
    if i + 1 == n then 0 else i + 1
  }

  /** Every point lies on or left of every edge of the closed polygon. */
  ghost predicate PolygonEncloses(hull: seq<Point>, points: seq<Point>) {
    forall i, k :: 0 <= i < |hull| && 0 <= k < |points| ==> Cross(hull[i], hull[Next(i, |hull|)], points[k]) >= 0.0
  }

  /** The closed polygon turns strictly left at every vertex. */
  ghost predicate StrictlyConvex(hull: seq<Point>) {
    forall i :: 0 <= i < |hull| ==>
      var j := Next(i, |hull|);
      Cross(hull[i], hull[j], hull[Next(j, |hull|)]) > 0.0
  }

  ghost predicate Collinear(points: seq<Point>) {
    forall i, j, k :: 0 <= i < |points| && 0 <= j < |points| && 0 <= k < |points| ==> Cross(points[i], points[j], points[k]) == 0.0
  }

  lemma BackwardsOrdered(s: seq<Point>)
    requires Ordered(false, s)
    ensures Ordered(true, Backwards(s))
  {
  }

  /** Both chains of a strictly ordered input, with their ends. */
  lemma ChainsOf(unique: seq<Point>)
    requires Ordered(false, unique) && |unique| >= 2
    ensures ChainOf(false, MonotoneChain(unique), unique)
    ensures ChainOf(true, MonotoneChain(Backwards(unique)), Backwards(unique))
    ensures |MonotoneChain(unique)| >= 2 && |MonotoneChain(Backwards(unique))| >= 2
  {
    hide Cross, Forward;
    ChainIsCorrect(false, unique);
    BackwardsOrdered(unique);
    ChainIsCorrect(true, Backwards(unique));
    AheadTotal(false, unique[0], unique[|unique| - 1]);
  }

  /** An edge of the polygon is an edge of one of the chains. */
  lemma PolygonEdge(unique: seq<Point>, i: nat)
    requires Ordered(false, unique) && |unique| >= 2 && i < |HullOf(unique)|
    ensures var lower, upper, hull := MonotoneChain(unique), MonotoneChain(Backwards(unique)), HullOf(unique);
            var m := |lower| - 1;
            && |hull| == m + |upper| - 1
            && (i < m ==> hull[i] == lower[i] && hull[Next(i, |hull|)] == lower[i + 1])
            && (i >= m ==> i - m + 1 < |upper| && hull[i] == upper[i - m] && hull[Next(i, |hull|)] == upper[i - m + 1])
  {
    hide Cross, MonotoneChain, TurnsLeft, Encloses, Ordered, Selects, Next;
    ChainsOf(unique);
    JoinedEdge(MonotoneChain(unique), MonotoneChain(Backwards(unique)), HullOf(unique), i);
  }

  lemma JoinedEdge(lower: seq<Point>, upper: seq<Point>, hull: seq<Point>, i: nat)
    requires |lower| >= 2 && |upper| >= 2
    requires lower[|lower| - 1] == upper[0] && upper[|upper| - 1] == lower[0]
    requires hull == lower[..|lower| - 1] + upper[..|upper| - 1] && i < |hull|
    ensures var m := |lower| - 1;
            && |hull| == m + |upper| - 1
            && (i < m ==> hull[i] == lower[i] && hull[Next(i, |hull|)] == lower[i + 1])
            && (i >= m ==> i - m + 1 < |upper| && hull[i] == upper[i - m] && hull[Next(i, |hull|)] == upper[i - m + 1])
  {
  }

  /** The hull's vertices are input points, and the polygon encloses the input. */
  lemma HullEncloses(unique: seq<Point>)
    requires Ordered(false, unique) && |unique| >= 2
    ensures Selects(HullOf(unique), unique)
    ensures PolygonEncloses(HullOf(unique), unique)
  {
    hide Cross, MonotoneChain;
    ChainsOf(unique);
    var lower, upper, hull := MonotoneChain(unique), MonotoneChain(Backwards(unique)), HullOf(unique);
    var m := |lower| - 1;
    forall i | 0 <= i < |hull|
      ensures hull[i] in unique
    {
      PolygonEdge(unique, i);
      if i < m { assert lower[i] in unique; } else { assert upper[i - m] in Backwards(unique); }
    }
    forall i, k | 0 <= i < |hull| && 0 <= k < |unique|
      ensures Cross(hull[i], hull[Next(i, |hull|)], unique[k]) >= 0.0
    {
      PolygonEdge(unique, i);
      if i < m {
        assert Cross(lower[i], lower[i + 1], unique[k]) >= 0.0;
      } else {
        assert Cross(upper[i - m], upper[i - m + 1], Backwards(unique)[|unique| - 1 - k]) >= 0.0;
      }
    }
  }

  /** A straight corner between two opposite chains leaves every enclosed point on its line. */
  lemma StraightCorner(back: bool, a: Point, m: Point, b: Point, q: Point)
    requires Ahead(back, a, m) && Ahead(back, b, m) && Ahead(back, q, m)
    requires Cross(a, m, b) <= 0.0
    requires Cross(a, m, q) >= 0.0 && Cross(m, b, q) >= 0.0
    ensures Cross(a, m, q) == 0.0 && Cross(m, b, q) == 0.0
  {
    hide Cross, Turn, Forward;
    CornerTurns(a, m, b, q);
    StepReverses(a, m); StepReverses(b, m); StepReverses(q, m);
    StepsCompose(back, Step(b, m), Step(q, m), Step(a, m));
    TurnFlips(Step(b, m), Step(a, m));
  }

  lemma CornerTurns(a: Point, m: Point, b: Point, q: Point)
    ensures Cross(a, m, q) == Turn(Step(q, m), Step(a, m))
    ensures Cross(m, b, q) == Turn(Step(b, m), Step(q, m))
    ensures Cross(a, m, b) == Turn(Step(b, m), Step(a, m))
  {
  }

  lemma CrossRotates(a: Point, b: Point, c: Point)
    ensures Cross(a, b, c) == Cross(b, c, a)
  {
  }

  /** Where one chain ends and the other begins the polygon still turns strictly left, unless both are single edges. */
  lemma CornerIsStrict(back: bool, first: seq<Point>, second: seq<Point>, input: seq<Point>)
    requires ChainOf(back, first, input) && ChainOf(!back, second, Backwards(input))
    requires |first| >= 2 && |second| >= 2 && (|first| >= 3 || |second| >= 3)
    ensures Cross(first[|first| - 2], first[|first| - 1], second[1]) > 0.0
  {
    hide Cross, Forward, Step;
    var a, m, b := first[|first| - 2], first[|first| - 1], second[1];
    assert second[0] == m;
    if Cross(a, m, b) <= 0.0 {
      assert Ahead(back, a, m) && Ahead(!back, m, b);
      if |first| >= 3 {
        var q := first[|first| - 3];
        assert Ahead(back, q, m);
        EnclosedByBoth(back, first, second, input, q);
        CrossRotates(q, a, m);
        assert Cross(first[|first| - 3], first[|first| - 3 + 1], first[|first| - 3 + 2]) > 0.0;
        StraightCorner(back, a, m, b, q);
      } else {
        var q := second[2];
        assert Ahead(!back, m, q);
        EnclosedByBoth(back, first, second, input, q);
        assert Cross(second[0], second[1], second[2]) > 0.0;
        StraightCorner(back, a, m, b, q);
      }
    }
  }

  lemma EnclosedByBoth(back: bool, first: seq<Point>, second: seq<Point>, input: seq<Point>, q: Point)
    requires ChainOf(back, first, input) && ChainOf(!back, second, Backwards(input))
    requires |first| >= 2 && |second| >= 2 && (q in first || q in second)
    ensures Cross(first[|first| - 2], first[|first| - 1], q) >= 0.0
    ensures Cross(second[0], second[1], q) >= 0.0
  {
    hide Cross, Ahead;
    assert q in input || q in Backwards(input);
    var k :| 0 <= k < |input| && (input[k] == q || Backwards(input)[k] == q);
    var j := if input[k] == q then k else |input| - 1 - k;
    assert input[j] == q && Backwards(input)[|input| - 1 - j] == q;
    assert Cross(first[|first| - 2], first[|first| - 2 + 1], input[j]) >= 0.0;
    assert Cross(second[0], second[0 + 1], Backwards(input)[|input| - 1 - j]) >= 0.0;
  }

  lemma BackwardsTwice(s: seq<Point>)
    ensures Backwards(Backwards(s)) == s
  {
  }

  /** A hull of at least three vertices is strictly convex. */
  lemma HullStrictlyConvex(unique: seq<Point>)
    requires Ordered(false, unique) && |unique| >= 2 && |HullOf(unique)| >= 3
    ensures StrictlyConvex(HullOf(unique))
  {
    hide Cross, MonotoneChain, Ahead, Encloses, Selects;
    ChainsOf(unique);
    var lower, upper, hull := MonotoneChain(unique), MonotoneChain(Backwards(unique)), HullOf(unique);
    var m, n := |lower| - 1, |hull|;
    PolygonEdge(unique, 0);
    CornerIsStrict(false, lower, upper, unique);
    BackwardsTwice(unique);
    CornerIsStrict(true, upper, lower, Backwards(unique));
    forall i | 0 <= i < n
      ensures var j := Next(i, n); Cross(hull[i], hull[j], hull[Next(j, n)]) > 0.0
    {
      PolygonEdge(unique, i);
      PolygonEdge(unique, Next(i, n));
      VertexTurns(unique, lower, upper, hull, i);
    }
  }

  lemma VertexTurns(unique: seq<Point>, lower: seq<Point>, upper: seq<Point>, hull: seq<Point>, i: nat)
    requires |lower| >= 2 && |upper| >= 2 && TurnsLeft(lower) && TurnsLeft(upper)
    requires hull == lower[..|lower| - 1] + upper[..|upper| - 1] && i < |hull|
    requires lower[|lower| - 1] == upper[0] && upper[|upper| - 1] == lower[0]
    requires Cross(lower[|lower| - 2], lower[|lower| - 1], upper[1]) > 0.0
    requires Cross(upper[|upper| - 2], upper[|upper| - 1], lower[1]) > 0.0
    ensures var j := Next(i, |hull|); Cross(hull[i], hull[j], hull[Next(j, |hull|)]) > 0.0
  {
    hide Cross;
    var m, n := |lower| - 1, |hull|;
    if i + 1 < m {
      assert Cross(lower[i], lower[i + 1], lower[i + 2]) > 0.0;
    } else if i >= m && i + 1 < n {
      assert Cross(upper[i - m], upper[i - m + 1], upper[i - m + 2]) > 0.0;
    }
  }

  /** A hull of two vertices means all points lie on one line. */
  lemma FlatHull(unique: seq<Point>)
    requires Ordered(false, unique) && |unique| >= 2 && |HullOf(unique)| < 3
    ensures Collinear(unique)
  {
    hide Cross, MonotoneChain, Ahead;
    HullEncloses(unique);
    ChainsOf(unique);
    PolygonEdge(unique, 0);
    PolygonEdge(unique, 1);
    var a, b := HullOf(unique)[0], HullOf(unique)[1];
    assert Ahead(false, a, b) by { assert MonotoneChain(unique)[0] == a && MonotoneChain(unique)[1] == b; }
    forall i, j, k | 0 <= i < |unique| && 0 <= j < |unique| && 0 <= k < |unique|
      ensures Cross(unique[i], unique[j], unique[k]) == 0.0
    {
      OnTheLine(unique, a, b, i);
      OnTheLine(unique, a, b, j);
      OnTheLine(unique, a, b, k);
      LineOfThree(a, b, unique[i], unique[j], unique[k]);
    }
  }

  lemma OnTheLine(unique: seq<Point>, a: Point, b: Point, k: nat)
    requires k < |unique| && PolygonEncloses(HullOf(unique), unique) && HullOf(unique) == [a, b]
    ensures Cross(a, b, unique[k]) == 0.0
  {
    hide Cross, MonotoneChain;
    assert Cross(HullOf(unique)[0], HullOf(unique)[Next(0, 2)], unique[k]) >= 0.0;
    assert Cross(HullOf(unique)[1], HullOf(unique)[Next(1, 2)], unique[k]) >= 0.0;
    CrossSwaps(a, b, unique[k]);
  }

  lemma CrossSwaps(a: Point, b: Point, c: Point)
    ensures Cross(b, a, c) == -Cross(a, b, c)
  {
  }

  /** Three points on one line are collinear. */
  lemma LineOfThree(a: Point, b: Point, p: Point, q: Point, r: Point)
    requires Ahead(false, a, b) && Cross(a, b, p) == 0.0 && Cross(a, b, q) == 0.0 && Cross(a, b, r) == 0.0
    ensures Cross(p, q, r) == 0.0
  {
    hide Cross;
    LineScale(a, b, p, q, r);
    if b.x - a.x != 0.0 {
      ZeroProduct(Cross(p, q, r), b.x - a.x);
    } else {
      ZeroProduct(Cross(p, q, r), b.y - a.y);
    }
  }

  lemma ZeroProduct(t: real, d: real)
    requires t * d == 0.0 && d != 0.0
    ensures t == 0.0
  {
    QuotientUnique(t, 0.0, d);
  }

  lemma LineScale(a: Point, b: Point, p: Point, q: Point, r: Point)
    ensures Cross(p, q, r) * (b.x - a.x) == Cross(a, b, r) * (q.x - p.x) + Cross(a, b, q) * (p.x - r.x) + Cross(a, b, p) * (r.x - q.x)
    ensures Cross(p, q, r) * (b.y - a.y) == Cross(a, b, r) * (q.y - p.y) + Cross(a, b, q) * (p.y - r.y) + Cross(a, b, p) * (r.y - q.y)
  {
  }

  // ----- the area

  /** Shoelace terms of the edges from vertex 0 up to vertex k. */
  function Shoelace(hull: seq<Point>, k: nat): real
    requires k <= |hull|
  {
    if k == 0 then 0.0
    else
      var a, b := hull[k - 1], hull[Next(k - 1, |hull|)];
      Shoelace(hull, k - 1) + (a.x * b.y - b.x * a.y)
  }

  function PolygonArea(hull: seq<Point>): real {
    if |hull| < 3 then 0.0 else Abs(Shoelace(hull, |hull|)) / 2.0
  }

  /** Twice the signed area, as triangles fanned out from vertex 0. */
  ghost function FanSum(hull: seq<Point>, k: nat): real
    requires k <= |hull|
  {
    if k == 0 then 0.0 else FanSum(hull, k - 1) + Cross(hull[0], hull[k - 1], hull[Next(k - 1, |hull|)])
  }

  lemma FanTerm(o: Point, a: Point, b: Point)
    ensures Cross(o, a, b) == (a.x * b.y - b.x * a.y) + (o.x * a.y - o.y * a.x) - (o.x * b.y - o.y * b.x)
  {
  }

  /** The shoelace sum of the closed polygon is its fan of triangles. */
  lemma {:induction false} ShoelaceIsFan(hull: seq<Point>, k: nat)
    requires 0 < k <= |hull|
    ensures var o, e := hull[0], hull[Next(k - 1, |hull|)];
            FanSum(hull, k) == Shoelace(hull, k) - (o.x * e.y - o.y * e.x)
  {
    hide Cross;
    FanTerm(hull[0], hull[k - 1], hull[Next(k - 1, |hull|)]);
    if k > 1 { ShoelaceIsFan(hull, k - 1); }
  }

  lemma {:induction false} FanPositive(hull: seq<Point>, points: seq<Point>, k: nat)
    requires k <= |hull| && Selects(hull, points) && PolygonEncloses(hull, points) && StrictlyConvex(hull) && |hull| >= 3
    ensures FanSum(hull, k) >= 0.0
    ensures k >= 2 ==> FanSum(hull, k) > 0.0
  {
    hide Cross;
    if k > 0 {
      FanPositive(hull, points, k - 1);
      assert hull[0] in points;
      var j :| 0 <= j < |points| && points[j] == hull[0];
      assert Cross(hull[k - 1], hull[Next(k - 1, |hull|)], points[j]) >= 0.0;
      CrossRotates(hull[0], hull[k - 1], hull[Next(k - 1, |hull|)]);
      if k == 2 { assert Cross(hull[0], hull[Next(0, |hull|)], hull[Next(1, |hull|)]) > 0.0; }
    }
  }

  /**
    The hull's area is half its shoelace sum, which is never negative, and it is zero exactly
    when the points lie on one line.
   */
  lemma AreaOfHull(unique: seq<Point>)
    requires Ordered(false, unique) && |unique| >= 2
    ensures PolygonArea(HullOf(unique)) == Shoelace(HullOf(unique), |HullOf(unique)|) / 2.0
    ensures PolygonArea(HullOf(unique)) >= 0.0
    ensures PolygonArea(HullOf(unique)) == 0.0 <==> Collinear(unique)
  {
    hide Cross, HullOf, Shoelace, FanSum, PolygonEncloses, StrictlyConvex, Collinear, Ordered, Selects;
    var hull := HullOf(unique);
    if |hull| < 3 {
      FlatHull(unique);
      TwoVertexShoelace(unique);
    } else {
      HullEncloses(unique);
      HullStrictlyConvex(unique);
      FanPositive(hull, unique, |hull|);
      ShoelaceOfAll(hull);
      ConvexNotCollinear(hull, unique);
    }
  }

  lemma ShoelaceOfAll(hull: seq<Point>)
    requires |hull| > 0
    ensures FanSum(hull, |hull|) == Shoelace(hull, |hull|)
  {
    hide Cross;
    ShoelaceIsFan(hull, |hull|);
    assert hull[0].x * hull[0].y == hull[0].y * hull[0].x;
  }

  lemma TwoVertexShoelace(unique: seq<Point>)
    requires Ordered(false, unique) && |unique| >= 2 && |HullOf(unique)| < 3
    ensures |HullOf(unique)| == 2 && Shoelace(HullOf(unique), 2) == 0.0
  {
    hide Cross, MonotoneChain, Shoelace;
    ChainsOf(unique);
    PolygonEdge(unique, 0);
    ShoelaceOfTwo(HullOf(unique));
  }

  lemma ShoelaceOfTwo(hull: seq<Point>)
    requires |hull| == 2
    ensures Shoelace(hull, 2) == 0.0
  {
    assert Shoelace(hull, 1) == hull[0].x * hull[1].y - hull[1].x * hull[0].y;
  }

  lemma ConvexNotCollinear(hull: seq<Point>, points: seq<Point>)
    requires |hull| >= 3 && Selects(hull, points) && StrictlyConvex(hull)
    ensures !Collinear(points)
  {
    hide Cross;
    assert hull[0] in points && hull[1] in points && hull[2] in points;
    var i, j, k :| 0 <= i < |points| && 0 <= j < |points| && 0 <= k < |points|
      && points[i] == hull[0] && points[j] == hull[1] && points[k] == hull[2];
    assert Cross(hull[0], hull[Next(0, |hull|)], hull[Next(1, |hull|)]) > 0.0;
    assert Cross(points[i], points[j], points[k]) != 0.0;
  }
}
