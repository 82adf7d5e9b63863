/**
  The Sobol sequence of internal/parameterresearch/sobol.go: Joe-Kuo direction numbers and
  Gray-code points, and the stratification that makes the sequence low-discrepancy. Unsigned
  32-bit values are naturals below 2^32; the shifts and exclusive ors below never lose a digit.
 */
module Sobol {
  import opened Wrappers
  import opened Bits
  import Counting
  import RealMath

  const MAX_DIMENSIONS: nat := 20
  const MAX_UINT32: nat := 4294967295
  const WORD: nat := 32

  datatype SobolError = InvalidPlan

  /** A primitive polynomial of degree s with inner coefficients a, and its initial numbers m. */
  datatype Polynomial = Polynomial(s: nat, a: nat, m: seq<nat>)

  /** Row of the direction-number table; row 0 is unused. */
  function Row(dimension: nat): Polynomial
    requires dimension < MAX_DIMENSIONS
  {
    match dimension
    case 0 => Polynomial(0, 0, [])
    case 1 => Polynomial(1, 0, [1])
    case 2 => Polynomial(2, 1, [1, 3])
    case 3 => Polynomial(3, 1, [1, 3, 1])
    case 4 => Polynomial(3, 2, [1, 1, 1])
    case 5 => Polynomial(4, 1, [1, 3, 5, 13])
    case 6 => Polynomial(4, 4, [1, 1, 5, 5])
    case 7 => Polynomial(5, 2, [1, 3, 3, 9, 7])
    case 8 => Polynomial(5, 4, [1, 3, 7, 13, 3])
    case 9 => Polynomial(5, 7, [1, 1, 5, 11, 27])
    case 10 => Polynomial(5, 11, [1, 1, 7, 3, 29])
    case 11 => Polynomial(5, 13, [1, 3, 7, 7, 21])
    case 12 => Polynomial(5, 14, [1, 3, 1, 9, 23])
    case 13 => Polynomial(6, 1, [1, 3, 3, 5, 19, 33])
    case 14 => Polynomial(6, 13, [1, 1, 3, 13, 11, 7])
    case 15 => Polynomial(6, 16, [1, 1, 7, 13, 25, 5])
    case 16 => Polynomial(6, 19, [1, 3, 5, 11, 7, 11])
    case 17 => Polynomial(6, 22, [1, 1, 1, 3, 13, 39])
    case 18 => Polynomial(6, 25, [1, 3, 1, 15, 17, 63])
    case _ => Polynomial(6, 28, [1, 1, 5, 5, 1, 27])
  }

  /** The initial numbers are odd and fit their digit positions, so shifting them is exact. */
  ghost predicate ValidRow(p: Polynomial) {
    && 1 <= p.s <= WORD && |p.m| == p.s
    && forall j :: 0 <= j < p.s ==> p.m[j] % 2 == 1 && p.m[j] < Pow2(j + 1)
  }

  lemma SmallPowers()
    ensures Pow2(1) == 2 && Pow2(2) == 4 && Pow2(3) == 8 && Pow2(4) == 16 && Pow2(5) == 32 && Pow2(6) == 64
  {
    assert Pow2(0) == 1;
    assert Pow2(3) == 2 * Pow2(2);
    assert Pow2(5) == 2 * Pow2(4);
  }

  lemma TableIsValid(dimension: nat)
    requires 1 <= dimension < MAX_DIMENSIONS
    ensures ValidRow(Row(dimension))
  {
    SmallPowers();
    if dimension < 10 {
      SmallRows(dimension);
    } else if dimension < 15 {
      MiddleRows(dimension);
    } else if dimension < 18 {
      LargeRows(dimension);
    } else {
      LastRows(dimension);
    }
  }

  lemma SmallRows(dimension: nat)
    requires 1 <= dimension < 10
    ensures ValidRow(Row(dimension))
  {
    SmallPowers();
  }

  lemma MiddleRows(dimension: nat)
    requires 10 <= dimension < 15
    ensures ValidRow(Row(dimension))
  {
    SmallPowers();
  }

  lemma LargeRows(dimension: nat)
    requires 15 <= dimension < 18
    ensures ValidRow(Row(dimension))
  {
    SmallPowers();
  }

  lemma LastRows(dimension: nat)
    requires 18 <= dimension < MAX_DIMENSIONS
    ensures ValidRow(Row(dimension))
  {
    SmallPowers();
  }

  // ----- direction numbers

  /** The terms of the recurrence for number j that precede position k, after the leading two. */
  function InnerTerms(directions: seq<nat>, p: Polynomial, j: nat, k: nat): nat
    requires p.s < j <= |directions| + 1 && 1 <= k <= p.s
  {
    if k == 1 then 0
    else
      var rest := InnerTerms(directions, p, j, k - 1);
      if Bit(p.a, p.s - k) then Xor(rest, directions[j - k]) else rest
  }

  /** Direction number j (counted from 1) by the Joe-Kuo recurrence over the earlier ones. */
  function Recurrence(directions: seq<nat>, p: Polynomial, j: nat): nat
    requires 1 <= p.s < j <= |directions| + 1
  {
    var lead := directions[j - p.s - 1];
    Xor(Xor(lead, ShiftRight(lead, p.s)), InnerTerms(directions, p, j, p.s))
  }

  /** Direction number b (counted from 0) of a dimension, from the ones before it. */
  function NumberAfter(earlier: seq<nat>, dimension: nat): nat
    requires dimension < MAX_DIMENSIONS && |earlier| < WORD
  {
    var b, p := |earlier|, Row(dimension);
    if dimension == 0 then ShiftLeft(1, WORD - 1 - b)
    else
      TableIsValid(dimension);
      if b < p.s then ShiftLeft(p.m[b], WORD - 1 - b) else Recurrence(earlier, p, b + 1)
  }

  /** The first n direction numbers of a dimension, as the table and the recurrence define them. */
  function Directions(dimension: nat, n: nat): (directions: seq<nat>)
    requires dimension < MAX_DIMENSIONS && n <= WORD
    ensures |directions| == n
  {
    if n == 0 then [] else Directions(dimension, n - 1) + [NumberAfter(Directions(dimension, n - 1), dimension)]
  }

  /** The lowest set digit of direction number b (counted from 0) is digit 31 - b, and it fits a word. */
  ghost predicate Triangular(v: nat, b: nat) {
    && b < WORD
    && v < Pow2(WORD)
    && Bit(v, WORD - 1 - b)
    && forall i: nat :: i < WORD - 1 - b ==> !Bit(v, i)
  }

  lemma InitialTriangular(m: nat, b: nat)
    requires b < WORD && m % 2 == 1 && m < Pow2(b + 1)
    ensures Triangular(ShiftLeft(m, WORD - 1 - b), b)
  {
    var k := WORD - 1 - b;
    ShiftLeftBound(m, k, b + 1);
    ShiftLeftBit(m, k, k);
    forall i: nat | i < k
      ensures !Bit(ShiftLeft(m, k), i)
    {
      ShiftLeftBit(m, k, i);
    }
  }

  /** Low digits of the inner terms stay clear: each comes from a number with a higher lowest digit. */
  lemma {:induction false} InnerTermsClear(directions: seq<nat>, p: Polynomial, j: nat, k: nat, i: nat)
    requires p.s < j <= |directions| + 1 && j <= WORD && 1 <= k <= p.s
    requires forall b :: 0 <= b < j - 1 ==> Triangular(directions[b], b)
    ensures InnerTerms(directions, p, j, k) < Pow2(WORD)
    ensures i <= WORD - j ==> !Bit(InnerTerms(directions, p, j, k), i)
  {
    if k == 1 {
      ZeroHasNoBits(i);
    } else {
      InnerTermsClear(directions, p, j, k - 1, i);
      if Bit(p.a, p.s - k) {
        var rest, v := InnerTerms(directions, p, j, k - 1), directions[j - k];
        assert Triangular(v, j - k);
        XorBound(rest, v, WORD);
        XorBit(rest, v, i);
      }
    }
  }

  /** Low digits of a recurrence value come from the shifted leading term alone. */
  lemma RecurrenceDigit(directions: seq<nat>, p: Polynomial, j: nat, i: nat)
    requires 1 <= p.s < j <= |directions| + 1 && j <= WORD && i <= WORD - j
    requires forall b :: 0 <= b < j - 1 ==> Triangular(directions[b], b)
    ensures Bit(Recurrence(directions, p, j), i) == (i == WORD - j)
  {
    hide InnerTerms;
    var lead := directions[j - p.s - 1];
    assert Triangular(lead, j - p.s - 1);
    var shifted, inner := ShiftRight(lead, p.s), InnerTerms(directions, p, j, p.s);
    ShiftRightBit(lead, p.s, i);
    XorBit(lead, shifted, i);
    XorBit(Xor(lead, shifted), inner, i);
    InnerTermsClear(directions, p, j, p.s, i);
  }

  lemma RecurrenceFits(directions: seq<nat>, p: Polynomial, j: nat)
    requires 1 <= p.s < j <= |directions| + 1 && j <= WORD
    requires forall b :: 0 <= b < j - 1 ==> Triangular(directions[b], b)
    ensures Recurrence(directions, p, j) < Pow2(WORD)
  {
    hide InnerTerms, Pow2;
    var lead := directions[j - p.s - 1];
    assert Triangular(lead, j - p.s - 1);
    ShiftRightBound(lead, p.s);
    XorBound(lead, ShiftRight(lead, p.s), WORD);
    InnerTermsClear(directions, p, j, p.s, 0);
    XorBound(Xor(lead, ShiftRight(lead, p.s)), InnerTerms(directions, p, j, p.s), WORD);
  }

  lemma RecurrenceTriangular(directions: seq<nat>, p: Polynomial, j: nat)
    requires 1 <= p.s < j <= |directions| + 1 && j <= WORD
    requires forall b :: 0 <= b < j - 1 ==> Triangular(directions[b], b)
    ensures Triangular(Recurrence(directions, p, j), j - 1)
  {
    hide Recurrence, Pow2;
    RecurrenceFits(directions, p, j);
    forall i: nat | i <= WORD - j
      ensures Bit(Recurrence(directions, p, j), i) == (i == WORD - j)
    {
      RecurrenceDigit(directions, p, j, i);
    }
  }

  /** Every direction number of every dimension is triangular. */
  lemma {:induction false} DirectionsTriangular(dimension: nat, n: nat)
    requires dimension < MAX_DIMENSIONS && n <= WORD
    ensures forall b :: 0 <= b < n ==> Triangular(Directions(dimension, n)[b], b)
  {
    hide Triangular;
    if n > 0 {
      DirectionsTriangular(dimension, n - 1);
      NextTriangular(Directions(dimension, n - 1), dimension);
    }
  }

  lemma NextTriangular(earlier: seq<nat>, dimension: nat)
    requires dimension < MAX_DIMENSIONS && |earlier| < WORD
    requires forall b :: 0 <= b < |earlier| ==> Triangular(earlier[b], b)
    ensures Triangular(NumberAfter(earlier, dimension), |earlier|)
  {
    hide Triangular, Row, Recurrence;
    var b, p := |earlier|, Row(dimension);
    if dimension == 0 {
      OneFits(b + 1);
      InitialTriangular(1, b);
    } else {
      TableIsValid(dimension);
      if b < p.s { InitialTriangular(p.m[b], b); } else { RecurrenceTriangular(earlier, p, b + 1); }
    }
  }

  lemma OneFits(n: nat)
    requires n > 0
    ensures 1 < Pow2(n)
  {
    assert Pow2(n) == 2 * Pow2(n - 1);
  }

  method SobolDirections(dimension: nat) returns (directions: seq<nat>)
    requires dimension < MAX_DIMENSIONS
    ensures directions == Directions(dimension, WORD)
  {
    hide Row, Recurrence, Directions;
    var table := new nat[WORD];
    if dimension == 0 {
      FirstDimension(table);
    } else {
      var p := Row(dimension);
      TableIsValid(dimension);
      InitialNumbers(table, dimension, p);
      ContinueRecurrence(table, dimension, p);
    }
    assert table[..WORD] == table[..];
    directions := table[..];
  }

  method FirstDimension(table: array<nat>)
    requires table.Length == WORD
    modifies table
    ensures table[..WORD] == Directions(0, WORD)
  {
    for j := 0 to WORD
      invariant table[..j] == Directions(0, j)
    {
      table[j] := ShiftLeft(1, WORD - 1 - j);
      assert table[..j + 1] == table[..j] + [table[j]];
    }
  }

  method InitialNumbers(table: array<nat>, dimension: nat, p: Polynomial)
    requires 0 < dimension < MAX_DIMENSIONS && p == Row(dimension) && ValidRow(p)
    requires table.Length == WORD
    modifies table
    ensures table[..p.s] == Directions(dimension, p.s)
  {
    hide Row, Recurrence;
    for j := 1 to p.s + 1
      invariant table[..j - 1] == Directions(dimension, j - 1)
    {
      table[j - 1] := ShiftLeft(p.m[j - 1], WORD - j);
      assert table[..j] == table[..j - 1] + [table[j - 1]];
    }
  }

  method ContinueRecurrence(table: array<nat>, dimension: nat, p: Polynomial)
    requires 0 < dimension < MAX_DIMENSIONS && p == Row(dimension) && ValidRow(p)
    requires table.Length == WORD && table[..p.s] == Directions(dimension, p.s)
    modifies table
    ensures table[..WORD] == Directions(dimension, WORD)
  {
    hide Row, Recurrence;
    for j := p.s + 1 to WORD + 1
      invariant table[..j - 1] == Directions(dimension, j - 1)
    {
      var value := RecurrenceValue(table, p, j);
      table[j - 1] := value;
      assert table[..j] == table[..j - 1] + [table[j - 1]];
    }
  }

  /** One step of the recurrence: the leading two terms, then the inner ones selected by the coefficients. */
  method RecurrenceValue(table: array<nat>, p: Polynomial, j: nat) returns (value: nat)
    requires 1 <= p.s < j <= table.Length
    ensures value == Recurrence(table[..j - 1], p, j)
  {
    ghost var earlier := table[..j - 1];
    var lead := table[j - p.s - 1];
    value := Xor(lead, ShiftRight(lead, p.s));
    ghost var head := value;
    XorWithZero(head);
    for k := 1 to p.s
      invariant value == Xor(head, InnerTerms(earlier, p, j, k))
    {
      if Bit(p.a, p.s - 1 - k) {
        XorAssociates(head, InnerTerms(earlier, p, j, k), table[j - k - 1]);
        value := Xor(value, table[j - k - 1]);
      }
    }
  }

  // ----- points

  /** Exclusive or of the direction numbers selected by the first n digits of value. */
  function Combination(directions: seq<nat>, value: nat, n: nat): nat
    requires n <= |directions|
  {
    if n == 0 then 0
    else
      var rest := Combination(directions, value, n - 1);
      if Bit(value, n - 1) then Xor(rest, directions[n - 1]) else rest
  }

  /** The Gray code of an index. */
  function Gray(index: nat): nat {
    Xor(index, ShiftRight(index, 1))
  }

  /** The integer coordinate of a point: 32 digits after the binary point. */
  function Digits(index: nat, dimension: nat): nat
    requires dimension < MAX_DIMENSIONS
  {
    Combination(Directions(dimension, WORD), Gray(index), WORD)
  }

  /** The coordinate in the unit interval. */
  function Coordinate(index: nat, dimension: nat): real
    requires dimension < MAX_DIMENSIONS
  {
    Digits(index, dimension) as real / 4294967296.0
  }

  /** The first coordinates of the point with this index. */
  function PointOf(index: nat, dimensions: nat): (s: seq<real>)
    requires dimensions <= MAX_DIMENSIONS
    ensures |s| == dimensions && forall d :: 0 <= d < dimensions ==> s[d] == Coordinate(index, d)
  {
    if dimensions == 0 then [] else PointOf(index, dimensions - 1) + [Coordinate(index, dimensions - 1)]
  }

  /** Selecting one more digit. */
  lemma {:induction false} SelectBit(directions: seq<nat>, value: nat, cleared: nat, at: nat, n: nat)
    requires n <= |directions| && at < |directions| && Bit(value, at)
    requires forall i: nat :: Bit(cleared, i) == (Bit(value, i) && i != at)
    ensures Combination(directions, value, n) ==
      if at < n then Xor(directions[at], Combination(directions, cleared, n)) else Combination(directions, cleared, n)
  {
    if n > 0 {
      SelectBit(directions, value, cleared, at, n - 1);
      var rest, v := Combination(directions, cleared, n - 1), directions[n - 1];
      assert Bit(cleared, n - 1) == (Bit(value, n - 1) && n - 1 != at);
      if n - 1 == at {
        XorCommutes(rest, v);
      } else if at < n - 1 && Bit(value, n - 1) {
        XorAssociates(directions[at], rest, v);
      }
    }
  }

  lemma {:induction false} NothingSelected(directions: seq<nat>, n: nat)
    requires n <= |directions|
    ensures Combination(directions, 0, n) == 0
  {
    if n > 0 {
      ZeroHasNoBits(n - 1);
      NothingSelected(directions, n - 1);
    }
  }

  /** The accumulation loop of a point: takes the lowest digit of the Gray code until none is left. */
  method Accumulate(directions: seq<nat>, gray: nat) returns (x: nat)
    requires |directions| == WORD && gray < Pow2(WORD)
    ensures x == Combination(directions, gray, WORD)
  {
    x := 0;
    var value: nat := gray;
    ghost var target := Combination(directions, gray, WORD);
    XorCommutes(0, target);
    XorWithZero(target);
    while value != 0
      invariant value < Pow2(WORD)
      invariant Xor(x, Combination(directions, value, WORD)) == target
      decreases value
    {
      var bit := TrailingZeros(value);
      var cleared := And(value, value - 1);
      TakeLowest(directions, value, cleared, x);
      x := Xor(x, directions[bit]);
      value := cleared;
    }
    NothingSelected(directions, WORD);
    XorWithZero(x);
  }

  lemma TakeLowest(directions: seq<nat>, value: nat, cleared: nat, x: nat)
    requires |directions| == WORD && 0 < value < Pow2(WORD) && cleared == And(value, value - 1)
    ensures TrailingZeros(value) < WORD && cleared < value
    ensures Xor(x, Combination(directions, value, WORD)) == Xor(Xor(x, directions[TrailingZeros(value)]), Combination(directions, cleared, WORD))
  {
    var bit := TrailingZeros(value);
    LowestBit(value, 0);
    if bit >= WORD { BitsBelow(value, WORD, bit); }
    forall i: nat
      ensures Bit(cleared, i) == (Bit(value, i) && i != bit)
      ensures cleared < value
    {
      ClearLowest(value, i);
    }
    ClearLowest(value, 0);
    SelectBit(directions, value, cleared, bit, WORD);
    XorAssociates(x, directions[bit], Combination(directions, cleared, WORD));
  }

  lemma WordSize()
    ensures Pow2(WORD) == MAX_UINT32 + 1
  {
    assert Pow2(8) == 256 by { SmallPowers(); assert Pow2(7) == 128; }
    assert Pow2(16) == 65536 by { Pow2Adds(8, 8); }
    Pow2Adds(16, 16);
  }

  lemma {:induction false} Pow2Adds(a: nat, b: nat)
    ensures Pow2(a + b) == Pow2(a) * Pow2(b)
  {
    if a > 0 {
      Pow2Adds(a - 1, b);
      assert Pow2(a + b) == 2 * Pow2(a - 1 + b) && Pow2(a) == 2 * Pow2(a - 1);
      hide Pow2;
      DoubleFirst(Pow2(a - 1), Pow2(b));
    }
  }

  lemma DoubleFirst(x: nat, y: nat)
    ensures 2 * x * y == 2 * (x * y)
  {
  }

  lemma GrayFits(index: nat)
    requires index < Pow2(WORD)
    ensures Gray(index) < Pow2(WORD)
  {
    ShiftRightBound(index, 1);
    XorBound(index, ShiftRight(index, 1), WORD);
  }

  /** Coordinates of the point with this index, one a dimension. */
  method SobolPoint(index: nat, dimensions: int) returns (r: Result<seq<real>, SobolError>)
    ensures r.Err? <==> dimensions < 1 || dimensions > MAX_DIMENSIONS || index > MAX_UINT32 - 1
    ensures r.Ok? ==> r.value == PointOf(index, dimensions)
  {
    if dimensions < 1 || dimensions > MAX_DIMENSIONS || index > MAX_UINT32 - 1 {
      return Err(InvalidPlan);
    }
    hide Gray, Coordinate, Pow2;
    var gray := Gray(index);
    WordSize();
    GrayFits(index);
    var result: seq<real> := [];
    for dimension := 0 to dimensions
      invariant result == PointOf(index, dimension)
    {
      var coordinate := CoordinateFrom(gray, dimension, index);
      result := result + [coordinate];
    }
    r := Ok(result);
  }

  /** One coordinate of a point, from the Gray code of its index. */
  method CoordinateFrom(gray: nat, dimension: nat, ghost index: nat) returns (coordinate: real)
    requires dimension < MAX_DIMENSIONS && gray < Pow2(WORD) && gray == Gray(index)
    ensures coordinate == Coordinate(index, dimension)
  {
    hide Directions, Combination, Gray;
    var directions := SobolDirections(dimension);
    var x := Accumulate(directions, gray);
    coordinate := x as real / 4294967296.0;
  }

  // ----- stratification

  /** Combining is linear over the exclusive or of selections. */
  lemma {:induction false} CombinationLinear(directions: seq<nat>, u: nat, v: nat, n: nat)
    requires n <= |directions|
    ensures Combination(directions, Xor(u, v), n) == Xor(Combination(directions, u, n), Combination(directions, v, n))
  {
    if n == 0 {
      XorZero(0, 0);
    } else {
      CombinationLinear(directions, u, v, n - 1);
      var a, b, d := Combination(directions, u, n - 1), Combination(directions, v, n - 1), directions[n - 1];
      XorBit(u, v, n - 1);
      ExtendLinear(a, b, d);
    }
  }

  lemma ExtendLinear(a: nat, b: nat, d: nat)
    ensures Xor(Xor(a, d), b) == Xor(Xor(a, b), d)
    ensures Xor(a, Xor(b, d)) == Xor(Xor(a, b), d)
    ensures Xor(Xor(a, d), Xor(b, d)) == Xor(a, b)
  {
    forall i: nat
      ensures Bit(Xor(Xor(a, d), b), i) == Bit(Xor(Xor(a, b), d), i)
      ensures Bit(Xor(a, Xor(b, d)), i) == Bit(Xor(Xor(a, b), d), i)
      ensures Bit(Xor(Xor(a, d), Xor(b, d)), i) == Bit(Xor(a, b), i)
    {
      XorBit(a, d, i); XorBit(b, d, i); XorBit(a, b, i);
      XorBit(Xor(a, d), b, i); XorBit(Xor(a, b), d, i); XorBit(a, Xor(b, d), i); XorBit(Xor(a, d), Xor(b, d), i);
    }
    SameBits(Xor(Xor(a, d), b), Xor(Xor(a, b), d));
    SameBits(Xor(a, Xor(b, d)), Xor(Xor(a, b), d));
    SameBits(Xor(Xor(a, d), Xor(b, d)), Xor(a, b));
  }

  lemma GrayBit(index: nat, i: nat)
    ensures Bit(Gray(index), i) == (Bit(index, i) != Bit(index, i + 1))
  {
    XorBit(index, ShiftRight(index, 1), i);
    ShiftRightBit(index, 1, i);
  }

  lemma GrayLinear(i: nat, j: nat)
    ensures Gray(Xor(i, j)) == Xor(Gray(i), Gray(j))
  {
    forall b: nat
      ensures Bit(Gray(Xor(i, j)), b) == Bit(Xor(Gray(i), Gray(j)), b)
    {
      GrayBit(Xor(i, j), b); GrayBit(i, b); GrayBit(j, b);
      XorBit(i, j, b); XorBit(i, j, b + 1); XorBit(Gray(i), Gray(j), b);
    }
    SameBits(Gray(Xor(i, j)), Xor(Gray(i), Gray(j)));
  }

  /** The Gray code keeps the position of the highest digit, so it is a bijection on every 2^k indices. */
  lemma GrayKeepsHighest(x: nat, h: nat)
    requires Bit(x, h) && forall i: nat :: i > h ==> !Bit(x, i)
    ensures Bit(Gray(x), h) && forall i: nat :: i > h ==> !Bit(Gray(x), i)
  {
    GrayBit(x, h);
    forall i: nat | i > h
      ensures !Bit(Gray(x), i)
    {
      GrayBit(x, i);
    }
  }

  /** Selecting triangular numbers with highest selector h sets digit 31 - h. */
  lemma {:induction false} HighestSelectorShows(directions: seq<nat>, value: nat, h: nat, n: nat)
    requires n <= |directions| == WORD && h < WORD
    requires forall b :: 0 <= b < WORD ==> Triangular(directions[b], b)
    requires Bit(value, h) && forall i: nat :: i > h ==> !Bit(value, i)
    ensures Bit(Combination(directions, value, n), WORD - 1 - h) == (h < n)
  {
    if n == 0 {
      ZeroHasNoBits(WORD - 1 - h);
    } else {
      HighestSelectorShows(directions, value, h, n - 1);
      assert Triangular(directions[n - 1], n - 1);
      XorBit(Combination(directions, value, n - 1), directions[n - 1], WORD - 1 - h);
    }
  }

  lemma {:induction false} CombinationFits(directions: seq<nat>, value: nat, n: nat)
    requires n <= |directions| == WORD
    requires forall b :: 0 <= b < WORD ==> Triangular(directions[b], b)
    ensures Combination(directions, value, n) < Pow2(WORD)
  {
    if n > 0 {
      CombinationFits(directions, value, n - 1);
      assert Triangular(directions[n - 1], n - 1);
      XorBound(Combination(directions, value, n - 1), directions[n - 1], WORD);
    } else {
      assert Pow2(WORD) > 0;
    }
  }

  lemma DigitsFit(index: nat, dimension: nat)
    requires dimension < MAX_DIMENSIONS
    ensures Digits(index, dimension) < Pow2(WORD)
  {
    DirectionsTriangular(dimension, WORD);
    CombinationFits(Directions(dimension, WORD), Gray(index), WORD);
  }

  /** The first k binary digits of a coordinate. */
  function Prefix(index: nat, dimension: nat, k: nat): nat
    requires dimension < MAX_DIMENSIONS && k <= WORD
  {
    ShiftRight(Digits(index, dimension), WORD - k)
  }

  /** Two different indices of an aligned block of 2^k differ in a digit below k only. */
  lemma BlockDifference(i: nat, j: nat, k: nat) returns (h: nat)
    requires i != j && ShiftRight(i, k) == ShiftRight(j, k)
    ensures h < k && Bit(Xor(i, j), h) && forall b: nat :: b > h ==> !Bit(Xor(i, j), b)
  {
    XorZero(i, j);
    h := HighestBit(Xor(i, j));
    if h >= k {
      XorBit(i, j, h);
      ShiftRightBit(i, k, h - k);
      ShiftRightBit(j, k, h - k);
    }
  }

  /** Two different indices of an aligned block of 2^k have different k-digit prefixes in every dimension. */
  lemma PrefixesDiffer(i: nat, j: nat, dimension: nat, k: nat)
    requires dimension < MAX_DIMENSIONS && k <= WORD
    requires i != j && ShiftRight(i, k) == ShiftRight(j, k)
    ensures Prefix(i, dimension, k) != Prefix(j, dimension, k)
  {
    hide Directions, Combination;
    var h := BlockDifference(i, j, k);
    var directions := Directions(dimension, WORD);
    GrayLinear(i, j);
    GrayKeepsHighest(Xor(i, j), h);
    DirectionsTriangular(dimension, WORD);
    HighestSelectorShows(directions, Gray(Xor(i, j)), h, WORD);
    CombinationLinear(directions, Gray(i), Gray(j), WORD);
    XorBit(Digits(i, dimension), Digits(j, dimension), WORD - 1 - h);
    ShiftRightBit(Digits(i, dimension), WORD - k, k - 1 - h);
    ShiftRightBit(Digits(j, dimension), WORD - k, k - 1 - h);
  }

  // ----- each dyadic interval exactly once

  lemma BlockOf(start: nat, t: nat, k: nat)
    requires t < Pow2(k)
    ensures ShiftRight(start * Pow2(k) + t, k) == start
  {
    ShiftRightIsDivision(start * Pow2(k) + t, k);
    var q, p := ShiftRight(start * Pow2(k) + t, k), Pow2(k);
    QuotientOf(start, t, p, q);
  }

  lemma QuotientOf(start: nat, t: nat, p: nat, q: nat)
    requires t < p && q * p <= start * p + t < (q + 1) * p
    ensures q == start
  {
    if q > start {
      RowBefore(start, q, p);
    } else if q < start {
      RowBefore(q, start, p);
    }
  }

  lemma RowBefore(a: nat, b: nat, p: nat)
    requires a < b
    ensures (a + 1) * p <= b * p
  {
    assert b * p == (a + 1) * p + (b - a - 1) * p;
  }

  lemma PrefixFits(index: nat, dimension: nat, k: nat)
    requires dimension < MAX_DIMENSIONS && k <= WORD
    ensures Prefix(index, dimension, k) < Pow2(k)
  {
    hide Digits;
    DigitsFit(index, dimension);
    var x := Digits(index, dimension);
    forall i: nat | i >= k
      ensures !Bit(Prefix(index, dimension, k), i)
    {
      ShiftRightBit(x, WORD - k, i);
      BitsBelow(x, WORD, i + WORD - k);
    }
    BoundFromBits(Prefix(index, dimension, k), k);
  }

  /** The k-digit prefixes of an aligned block of 2^k indices, in index order. */
  ghost function BlockPrefixes(start: nat, dimension: nat, k: nat): (s: seq<int>)
    requires dimension < MAX_DIMENSIONS && k <= WORD
    ensures |s| == Pow2(k)
  {
    seq(Pow2(k), t requires 0 <= t < Pow2(k) => Prefix(start * Pow2(k) + t, dimension, k))
  }

  lemma BlockPrefixesDistinct(start: nat, dimension: nat, k: nat)
    requires dimension < MAX_DIMENSIONS && k <= WORD
    ensures Counting.AllDistinct(BlockPrefixes(start, dimension, k))
  {
    hide Prefix, Pow2;
    var s, n := BlockPrefixes(start, dimension, k), Pow2(k);
    forall u: nat, v: nat | u < v < n
      ensures s[u] != s[v]
    {
      BlockOf(start, u, k);
      BlockOf(start, v, k);
      PrefixesDiffer(start * n + u, start * n + v, dimension, k);
    }
  }

  /**
    Stratification: among any 2^k consecutive indices aligned at a multiple of 2^k, every k-digit
    prefix occurs in every dimension, at exactly one index.
   */
  lemma EachPrefixOnce(start: nat, dimension: nat, k: nat, c: nat) returns (t: nat)
    requires dimension < MAX_DIMENSIONS && k <= WORD && c < Pow2(k)
    ensures t < Pow2(k)
    ensures forall u: nat :: u < Pow2(k) ==> (BlockPrefixes(start, dimension, k)[u] == c <==> u == t)
  {
    hide Prefix;
    var s, n := BlockPrefixes(start, dimension, k), Pow2(k);
    forall u: nat | u < n
      ensures 0 <= s[u] < n
    {
      PrefixFits(start * n + u, dimension, k);
    }
    BlockPrefixesDistinct(start, dimension, k);
    Counting.DistinctFill(s, c);
    t :| 0 <= t < n && s[t] == c;
  }

  /** The dyadic interval of width 2^-k that contains x, counted from 0. */
  function Cell(x: real, k: nat): int {
    (x * Pow2(k) as real).Floor
  }

  lemma CoordinateScaled(index: nat, dimension: nat)
    requires dimension < MAX_DIMENSIONS
    ensures Coordinate(index, dimension) * 4294967296.0 == Digits(index, dimension) as real
    ensures 0.0 <= Coordinate(index, dimension) < 1.0
  {
    DigitsFit(index, dimension);
    hide Digits;
    WordSize();
    InUnit(Digits(index, dimension) as real, Coordinate(index, dimension));
  }

  lemma InUnit(x: real, y: real)
    requires 0.0 <= x < 4294967296.0 && y == x / 4294967296.0
    ensures y * 4294967296.0 == x && 0.0 <= y < 1.0
  {
  }

  /** The cell of a coordinate is its k-digit prefix. */
  lemma CellIsPrefix(index: nat, dimension: nat, k: nat)
    requires dimension < MAX_DIMENSIONS && k <= WORD
    ensures Cell(Coordinate(index, dimension), k) == Prefix(index, dimension, k)
  {
    hide Digits, Coordinate, Cell;
    CoordinateScaled(index, dimension);
    ShiftRightIsDivision(Digits(index, dimension), WORD - k);
    Pow2Adds(k, WORD - k);
    WordSize();
    CellValue(Digits(index, dimension), Prefix(index, dimension, k), k, Pow2(WORD - k), Coordinate(index, dimension));
  }

  lemma CellValue(x: nat, c: nat, k: nat, q: nat, y: real)
    requires q > 0 && Pow2(k) * q == 4294967296 && c * q <= x < (c + 1) * q
    requires y * 4294967296.0 == x as real
    ensures Cell(y, k) == c
  {
    var p := Pow2(k);
    var scaled := y * p as real;
    IntProduct(p, q);
    IntProduct(c, q);
    IntProduct(c + 1, q);
    ScaledValue(y, p as real, q as real, scaled);
    FloorBounds(scaled, c, q as real, x as real);
  }

  lemma IntProduct(a: int, b: int)
    ensures a as real * b as real == (a * b) as real
  {
  }

  lemma ScaledValue(y: real, p: real, q: real, scaled: real)
    requires p * q == 4294967296.0 && scaled == y * p
    ensures scaled * q == y * 4294967296.0
  {
    assert scaled * q == y * (p * q);
  }

  lemma FloorBounds(scaled: real, c: nat, q: real, x: real)
    requires q > 0.0 && scaled * q == x && c as real * q <= x < (c + 1) as real * q
    ensures scaled.Floor == c
  {
    if scaled < c as real {
      RealMath.MulStrict(q, scaled, c as real);
    } else if scaled >= (c + 1) as real {
      RealMath.MulMonotone(q, (c + 1) as real, scaled);
    }
  }

  /** The coordinates of an aligned block of 2^k points, in index order. */
  ghost function BlockCoordinates(start: nat, dimension: nat, k: nat): (s: seq<real>)
    requires dimension < MAX_DIMENSIONS && k <= WORD
    ensures |s| == Pow2(k)
  {
    seq(Pow2(k), t requires 0 <= t < Pow2(k) => Coordinate(start * Pow2(k) + t, dimension))
  }

  /**
    Each dyadic interval [c/2^k, (c+1)/2^k) contains the coordinate of exactly one of the 2^k
    points of an aligned block, in every dimension.
   */
  lemma DyadicIntervalsHitOnce(start: nat, dimension: nat, k: nat, c: nat) returns (t: nat)
    requires dimension < MAX_DIMENSIONS && k <= WORD && c < Pow2(k)
    ensures t < Pow2(k)
    ensures forall u: nat :: u < Pow2(k) ==>
      var x := BlockCoordinates(start, dimension, k)[u];
      0.0 <= x < 1.0 && (Cell(x, k) == c <==> u == t)
  {
    hide BlockCoordinates, BlockPrefixes, Cell;
    t := EachPrefixOnce(start, dimension, k, c);
    forall u: nat | u < Pow2(k)
      ensures var x := BlockCoordinates(start, dimension, k)[u];
              0.0 <= x < 1.0 && (Cell(x, k) == c <==> u == t)
    {
      BlockCellAt(start, dimension, k, u);
    }
  }

  lemma BlockCellAt(start: nat, dimension: nat, k: nat, u: nat)
    requires dimension < MAX_DIMENSIONS && k <= WORD && u < Pow2(k)
    ensures 0.0 <= BlockCoordinates(start, dimension, k)[u] < 1.0
    ensures Cell(BlockCoordinates(start, dimension, k)[u], k) == BlockPrefixes(start, dimension, k)[u]
  {
    hide Prefix, Coordinate, Cell, Pow2, Digits;
    var index := start * Pow2(k) + u;
    CoordinateScaled(index, dimension);
    CellIsPrefix(index, dimension, k);
    assert BlockCoordinates(start, dimension, k)[u] == Coordinate(index, dimension);
    assert BlockPrefixes(start, dimension, k)[u] == Prefix(index, dimension, k);
  }
}
