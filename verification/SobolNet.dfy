/**
  How the first two dimensions of the Sobol sequence work together (internal/parameterresearch/sobol.go):
  every rectangle of dyadic sides whose area is 2^-k holds exactly one of any 2^k consecutive points
  aligned at a multiple of 2^k, however the area is split between the two sides.
 */
module SobolNet {
  import opened Bits
  import opened Sobol
  import Counting

  // ----- the direction numbers of the first two dimensions

  /** In the first dimension number b has the one digit 31 - b. */
  lemma {:induction false} FirstNumbers(n: nat, b: nat, i: nat)
    requires b < n <= WORD
    ensures Bit(Directions(0, n)[b], i) == (i == WORD - 1 - b)
  {
    hide Bit;
    if b < n - 1 {
      FirstNumbers(n - 1, b, i);
    } else {
      OneShifted(WORD - 1 - b, i);
    }
  }

  lemma OneShifted(k: nat, i: nat)
    ensures Bit(ShiftLeft(1, k), i) == (i == k)
  {
    ShiftLeftBit(1, k, i);
    if i > k { OneHasOneDigit(i - k); }
  }

  lemma OneHasOneDigit(i: nat)
    requires i > 0
    ensures !Bit(1, i)
  {
    ZeroHasNoBits(i - 1);
  }

  /** Selecting first-dimension numbers mirrors the digits of the selector. */
  lemma {:induction false} FirstMirrors(value: nat, n: nat, b: nat)
    requires n <= WORD && b < WORD
    ensures Bit(Combination(Directions(0, WORD), value, n), WORD - 1 - b) == (b < n && Bit(value, b))
  {
    hide Directions, Bit;
    var directions := Directions(0, WORD);
    if n == 0 {
      ZeroHasNoBits(WORD - 1 - b);
    } else {
      FirstMirrors(value, n - 1, b);
      FirstNumbers(WORD, n - 1, WORD - 1 - b);
      XorBit(Combination(directions, value, n - 1), directions[n - 1], WORD - 1 - b);
    }
  }

  /** Fewer direction numbers begin more of them. */
  lemma {:induction false} SameNumber(dimension: nat, m: nat, n: nat, b: nat)
    requires dimension < MAX_DIMENSIONS && b < m <= n <= WORD
    ensures Directions(dimension, m)[b] == Directions(dimension, n)[b]
    decreases n
  {
    if m < n { SameNumber(dimension, m, n - 1, b); }
  }

  /** In the second dimension every number is the Gray code of the one before it. */
  lemma SecondNumbers(b: nat)
    requires b + 1 < WORD
    ensures Directions(1, WORD)[b + 1] == Gray(Directions(1, WORD)[b])
  {
    SameNumber(1, b + 2, WORD, b + 1);
    SameNumber(1, b + 1, WORD, b);
    NextSecond(Directions(1, b + 1));
  }

  lemma NextSecond(earlier: seq<nat>)
    requires 0 < |earlier| < WORD
    ensures NumberAfter(earlier, 1) == Gray(earlier[|earlier| - 1])
  {
    TableIsValid(1);
    XorWithZero(Gray(earlier[|earlier| - 1]));
  }

  lemma GrayOfZero()
    ensures Gray(0) == 0
  {
  }

  lemma HalvedBit(value: nat, b: nat)
    ensures Bit(value, b + 1) == Bit(value / 2, b)
  {
  }

  /** An even selector of second-dimension numbers selects the Gray code of what its half selects. */
  lemma {:induction false} SecondHalves(value: nat, n: nat)
    requires 0 < n <= WORD && value % 2 == 0
    ensures Combination(Directions(1, WORD), value, n) == Gray(Combination(Directions(1, WORD), value / 2, n - 1))
  {
    hide Directions, Gray;
    var directions := Directions(1, WORD);
    if n == 1 {
      GrayOfZero();
      NothingFirst(directions, value);
    } else {
      SecondHalves(value, n - 1);
      HalvedBit(value, n - 2);
      SecondNumbers(n - 2);
      GrayLinear(Combination(directions, value / 2, n - 2), directions[n - 2]);
    }
  }

  lemma NothingFirst(directions: seq<nat>, value: nat)
    requires |directions| > 0 && value % 2 == 0
    ensures Combination(directions, value, 1) == 0 == Combination(directions, value / 2, 0)
  {
  }

  // ----- the recurrence, digit by digit

  /** The earlier numbers that the inner coefficients of a polynomial select and that have a digit set. */
  ghost function Taps(directions: seq<nat>, p: Polynomial, b: nat, n: nat, i: nat): set<nat>
    requires n <= b + 1 && b <= |directions| && n <= p.s
  {
    set t: nat | 1 <= t < n && Tapped(directions, p, b, i, t)
  }

  ghost predicate Tapped(directions: seq<nat>, p: Polynomial, b: nat, i: nat, t: nat) {
    1 <= t < p.s && t <= b && b - t < |directions| && Bit(p.a, p.s - 1 - t) && Bit(directions[b - t], i)
  }

  lemma OneMoreTap(directions: seq<nat>, p: Polynomial, b: nat, n: nat, i: nat)
    requires 1 <= n < p.s && n <= b <= |directions|
    ensures |Taps(directions, p, b, n + 1, i)| == |Taps(directions, p, b, n, i)| + if Tapped(directions, p, b, i, n) then 1 else 0
  {
    hide Tapped;
    var few := Taps(directions, p, b, n, i);
    assert Taps(directions, p, b, n + 1, i) == if Tapped(directions, p, b, i, n) then few + {n} else few;
  }

  lemma {:induction false} InnerParity(directions: seq<nat>, p: Polynomial, b: nat, k: nat, i: nat)
    requires p.s <= b <= |directions| && 1 <= k <= p.s
    ensures Bit(InnerTerms(directions, p, b + 1, k), i) == (|Taps(directions, p, b, k, i)| % 2 == 1)
  {
    hide Bit;
    if k == 1 {
      ZeroHasNoBits(i);
      assert Taps(directions, p, b, 1, i) == {};
    } else {
      InnerParity(directions, p, b, k - 1, i);
      OneMoreTap(directions, p, b, k - 1, i);
      hide Taps;
      if Bit(p.a, p.s - k) {
        XorBit(InnerTerms(directions, p, b + 1, k - 1), directions[b + 1 - k], i);
      }
    }
  }

  lemma RecurrenceParity(directions: seq<nat>, p: Polynomial, b: nat, i: nat)
    requires 1 <= p.s <= b <= |directions|
    ensures var lead := directions[b - p.s];
            Bit(Recurrence(directions, p, b + 1), i) == ((|Taps(directions, p, b, p.s, i)| % 2 == 1) != (Bit(lead, i) != Bit(lead, i + p.s)))
  {
    hide Bit;
    var lead := directions[b - p.s];
    InnerParity(directions, p, b, p.s, i);
    ShiftRightBit(lead, p.s, i);
    XorBit(lead, ShiftRight(lead, p.s), i);
    XorBit(Xor(lead, ShiftRight(lead, p.s)), InnerTerms(directions, p, b + 1, p.s), i);
  }

  /**
    Every digit of every later direction number, in every dimension, is the parity of the same digit of the
    numbers its polynomial selects and of that digit and the one s places up of the number s places back.
   */
  lemma NumbersFollowPolynomial(dimension: nat, b: nat, i: nat)
    requires 1 <= dimension < MAX_DIMENSIONS && Row(dimension).s <= b < WORD
    ensures Row(dimension).s >= 1
    ensures var directions, p := Directions(dimension, WORD), Row(dimension);
            Bit(directions[b], i)
            == ((|Taps(directions, p, b, p.s, i)| % 2 == 1) != (Bit(directions[b - p.s], i) != Bit(directions[b - p.s], i + p.s)))
  {
    hide Row, Bit, Directions, Recurrence, Taps;
    TableIsValid(dimension);
    var p, all, earlier := Row(dimension), Directions(dimension, WORD), Directions(dimension, b);
    LaterNumber(dimension, b);
    RecurrenceParity(earlier, p, b, i);
    SameTaps(earlier, all, p, b, i);
  }

  /** A later number comes from the recurrence over the numbers before it. */
  lemma LaterNumber(dimension: nat, b: nat)
    requires 1 <= dimension < MAX_DIMENSIONS && 1 <= Row(dimension).s <= b < WORD
    ensures Directions(dimension, WORD)[b] == Recurrence(Directions(dimension, b), Row(dimension), b + 1)
    ensures forall c :: 0 <= c < b ==> Directions(dimension, b)[c] == Directions(dimension, WORD)[c]
  {
    hide Row, Recurrence;
    SameNumber(dimension, b + 1, WORD, b);
    assert Directions(dimension, b + 1)[b] == NumberAfter(Directions(dimension, b), dimension);
    hide Directions;
    forall c | 0 <= c < b ensures Directions(dimension, b)[c] == Directions(dimension, WORD)[c] {
      SameNumber(dimension, b, WORD, c);
    }
  }

  lemma SameTaps(one: seq<nat>, two: seq<nat>, p: Polynomial, b: nat, i: nat)
    requires p.s <= b <= |one| && b <= |two| && forall c :: 0 <= c < b ==> one[c] == two[c]
    ensures Taps(one, p, b, p.s, i) == Taps(two, p, b, p.s, i)
  {
    hide Bit;
  }

  // ----- both prefixes of a selector cannot vanish

  /** The highest b of 32 digits are clear. */
  ghost predicate TopClear(x: nat, b: nat) {
    b <= WORD && forall i: nat :: WORD - b <= i < WORD ==> !Bit(x, i)
  }

  /** Where the top of a Gray code is clear, so is the top of the number. */
  lemma {:induction false} GrayTopClear(x: nat, b: nat)
    requires x < Pow2(WORD) && TopClear(Gray(x), b)
    ensures TopClear(x, b)
    decreases b
  {
    hide Gray, Bit;
    if b > 0 {
      assert TopClear(Gray(x), b - 1);
      GrayTopClear(x, b - 1);
      var i := WORD - b;
      GrayBit(x, i);
      if b == 1 { BitsBelow(x, WORD, i + 1); }
      assert !Bit(Gray(x), i);
    }
  }

  lemma {:induction false} SelectorVanishes(value: nat, a: nat, b: nat)
    requires a + b <= WORD && value < Pow2(a + b)
    requires forall i: nat :: i < a ==> !Bit(value, i)
    requires TopClear(Combination(Directions(1, WORD), value, WORD), b)
    ensures value == 0
    decreases a
  {
    hide Directions, Gray, Bit, Pow2, Combination;
    var directions := Directions(1, WORD);
    DirectionsTriangular(1, WORD);
    if a == 0 {
      if value != 0 {
        var h := HighestBit(value);
        if h >= b { BitsBelow(value, b, h); }
        HighestSelectorShows(directions, value, h, WORD);
      }
    } else {
      EvenSelector(value);
      HalfFits(value, a + b);
      var half := value / 2;
      LastNotSelected(directions, half, a + b - 1);
      SecondHalves(value, WORD);
      CombinationFits(directions, half, WORD);
      GrayTopClear(Combination(directions, half, WORD), b);
      forall i: nat | i < a - 1 ensures !Bit(half, i) {
        HalvedBit(value, i);
      }
      SelectorVanishes(half, a - 1, b);
    }
  }

  lemma EvenSelector(value: nat)
    requires !Bit(value, 0)
    ensures value % 2 == 0 && (value / 2 == 0 ==> value == 0)
  {
  }

  lemma HalfFits(value: nat, n: nat)
    requires n > 0 && value < Pow2(n)
    ensures value / 2 < Pow2(n - 1)
  {
  }

  lemma LastNotSelected(directions: seq<nat>, value: nat, n: nat)
    requires |directions| == WORD && n < WORD && value < Pow2(n)
    ensures Combination(directions, value, WORD) == Combination(directions, value, WORD - 1)
  {
    BitsBelow(value, n, WORD - 1);
  }

  // ----- pairs of prefixes in a block

  lemma PrefixShows(index: nat, dimension: nat, b: nat, i: nat)
    requires dimension < MAX_DIMENSIONS && b <= WORD && WORD - b <= i
    ensures Bit(Prefix(index, dimension, b), i - (WORD - b)) == Bit(Digits(index, dimension), i)
  {
    hide Digits;
    ShiftRightBit(Digits(index, dimension), WORD - b, i - (WORD - b));
  }

  /** Where two prefixes agree, the difference of the digits is clear at the top. */
  lemma SamePrefixClears(i: nat, j: nat, dimension: nat, b: nat)
    requires dimension < MAX_DIMENSIONS && b <= WORD && Prefix(i, dimension, b) == Prefix(j, dimension, b)
    ensures TopClear(Combination(Directions(dimension, WORD), Gray(Xor(i, j)), WORD), b)
  {
    hide Directions, Combination, Gray, Prefix;
    var directions := Directions(dimension, WORD);
    GrayLinear(i, j);
    CombinationLinear(directions, Gray(i), Gray(j), WORD);
    forall d: nat | WORD - b <= d < WORD ensures !Bit(Combination(directions, Gray(Xor(i, j)), WORD), d) {
      PrefixShows(i, dimension, b, d);
      PrefixShows(j, dimension, b, d);
      XorBit(Digits(i, dimension), Digits(j, dimension), d);
    }
  }

  /** Two indices of one aligned block of 2^(a + b) differ in the first a digits of one dimension or the first b of the other. */
  lemma PairsDiffer(i: nat, j: nat, a: nat, b: nat)
    requires a + b <= WORD && i != j && ShiftRight(i, a + b) == ShiftRight(j, a + b)
    ensures Prefix(i, 0, a) != Prefix(j, 0, a) || Prefix(i, 1, b) != Prefix(j, 1, b)
  {
    hide Directions, Combination, Gray, Prefix, Bit;
    if Prefix(i, 0, a) == Prefix(j, 0, a) && Prefix(i, 1, b) == Prefix(j, 1, b) {
      var h := BlockDifference(i, j, a + b);
      var g := Gray(Xor(i, j));
      GrayKeepsHighest(Xor(i, j), h);
      BoundFromBits(g, a + b);
      SamePrefixClears(i, j, 0, a);
      SamePrefixClears(i, j, 1, b);
      forall d: nat | d < a ensures !Bit(g, d) {
        FirstMirrors(g, WORD, d);
      }
      SelectorVanishes(g, a, b);
      ZeroHasNoBits(h);
    }
  }

  // ----- every rectangle exactly once

  /** Two prefixes as one number. */
  ghost function Paired(p: nat, q: nat, b: nat): nat {
    p * Pow2(b) + q
  }

  lemma PairedOnce(p: nat, q: nat, r: nat, s: nat, b: nat)
    requires q < Pow2(b) && s < Pow2(b) && Paired(p, q, b) == Paired(r, s, b)
    ensures p == r && q == s
  {
    QuotientOf(p, q, Pow2(b), p);
    QuotientOf(r, s, Pow2(b), p);
  }

  lemma PairedFits(p: nat, q: nat, a: nat, b: nat)
    requires p < Pow2(a) && q < Pow2(b)
    ensures Paired(p, q, b) < Pow2(a + b)
  {
    Pow2Adds(a, b);
    RowBefore(p, Pow2(a), Pow2(b));
  }

  ghost function PairAt(index: nat, a: nat, b: nat): nat
    requires a <= WORD && b <= WORD
  {
    Paired(Prefix(index, 0, a), Prefix(index, 1, b), b)
  }

  /** The u-th index of an aligned block of 2^k. */
  ghost function IndexIn(start: nat, k: nat, u: nat): nat {
    start * Pow2(k) + u
  }

  ghost function BlockPairs(start: nat, a: nat, b: nat): (s: seq<int>)
    requires a + b <= WORD
    ensures |s| == Pow2(a + b)
  {
    seq(Pow2(a + b), t requires 0 <= t < Pow2(a + b) => PairAt(IndexIn(start, a + b, t), a, b))
  }

  lemma BlockPairsDistinct(start: nat, a: nat, b: nat)
    requires a + b <= WORD
    ensures Counting.AllDistinct(BlockPairs(start, a, b))
  {
    hide Prefix, Paired, Pow2;
    var s, n := BlockPairs(start, a, b), Pow2(a + b);
    forall u: nat, v: nat | u < v < n ensures s[u] != s[v] {
      BlockOf(start, u, a + b);
      BlockOf(start, v, a + b);
      var i, j := IndexIn(start, a + b, u), IndexIn(start, a + b, v);
      PairsDiffer(i, j, a, b);
      PrefixFits(i, 1, b);
      PrefixFits(j, 1, b);
      if PairAt(i, a, b) == PairAt(j, a, b) { PairedOnce(Prefix(i, 0, a), Prefix(i, 1, b), Prefix(j, 0, a), Prefix(j, 1, b), b); }
    }
  }

  lemma PairHitOnce(start: nat, a: nat, b: nat, p: nat, q: nat) returns (t: nat)
    requires a + b <= WORD && p < Pow2(a) && q < Pow2(b)
    ensures t < Pow2(a + b)
    ensures forall u: nat :: u < Pow2(a + b) ==> (BlockPairs(start, a, b)[u] == Paired(p, q, b) <==> u == t)
  {
    hide Prefix, Paired, Pow2, IndexIn;
    var s, n := BlockPairs(start, a, b), Pow2(a + b);
    forall u: nat | u < n ensures 0 <= s[u] < n {
      PairAtFits(IndexIn(start, a + b, u), a, b);
    }
    BlockPairsDistinct(start, a, b);
    PairedFits(p, q, a, b);
    Counting.DistinctFill(s, Paired(p, q, b));
    t :| 0 <= t < n && s[t] == Paired(p, q, b);
  }

  lemma PairAtFits(index: nat, a: nat, b: nat)
    requires a + b <= WORD
    ensures PairAt(index, a, b) < Pow2(a + b)
  {
    hide Prefix, Paired, Pow2;
    PrefixFits(index, 0, a);
    PrefixFits(index, 1, b);
    PairedFits(Prefix(index, 0, a), Prefix(index, 1, b), a, b);
  }

  /** A point lies in the rectangle of the p-th interval of width 2^-a and the q-th of width 2^-b. */
  ghost predicate InRectangle(index: nat, a: nat, b: nat, p: nat, q: nat) {
    Cell(Coordinate(index, 0), a) == p && Cell(Coordinate(index, 1), b) == q
  }

  lemma RectangleIsPair(index: nat, a: nat, b: nat, p: nat, q: nat)
    requires a + b <= WORD && p < Pow2(a) && q < Pow2(b)
    ensures InRectangle(index, a, b, p, q) <==> PairAt(index, a, b) == Paired(p, q, b)
  {
    hide Prefix, Paired, Pow2, Cell, Coordinate;
    CellIsPrefix(index, 0, a);
    CellIsPrefix(index, 1, b);
    PrefixFits(index, 1, b);
    if PairAt(index, a, b) == Paired(p, q, b) { PairedOnce(Prefix(index, 0, a), Prefix(index, 1, b), p, q, b); }
  }

  /**
    Of any 2^k consecutive indices aligned at a multiple of 2^k, exactly one has its first two coordinates
    in any given rectangle of sides 2^-a and 2^-b with a + b == k.
   */
  lemma RectanglesHitOnce(start: nat, a: nat, b: nat, k: nat, p: nat, q: nat) returns (t: nat)
    requires a + b == k <= WORD && p < Pow2(a) && q < Pow2(b)
    ensures t < Pow2(k)
    ensures forall u: nat :: u < Pow2(k) ==> (InRectangle(IndexIn(start, k, u), a, b, p, q) <==> u == t)
  {
    hide PairAt, Paired, Pow2, InRectangle, IndexIn;
    t := PairHitOnce(start, a, b, p, q);
    forall u: nat | u < Pow2(k) ensures InRectangle(IndexIn(start, k, u), a, b, p, q) <==> u == t {
      RectangleIsPair(IndexIn(start, k, u), a, b, p, q);
      assert BlockPairs(start, a, b)[u] == PairAt(IndexIn(start, k, u), a, b);
    }
  }
}
