/** Binary digits of naturals: Go's unsigned bit operations, digit by digit. */
module Bits {

  function Pow2(n: nat): (p: nat)
    ensures p > 0
  {
    if n == 0 then 1 else 2 * Pow2(n - 1)
  }

  /** Binary digit i of x. */
  function Bit(x: nat, i: nat): bool
    decreases i
  {
    if i == 0 then x % 2 == 1 else Bit(x / 2, i - 1)
  }

  function Xor(a: nat, b: nat): nat
    decreases a + b
  {
    if a == 0 && b == 0 then 0 else 2 * Xor(a / 2, b / 2) + (a % 2 + b % 2) % 2
  }

  function And(a: nat, b: nat): nat
    decreases a + b
  {
    if a == 0 && b == 0 then 0 else 2 * And(a / 2, b / 2) + (a % 2) * (b % 2)
  }

  function ShiftRight(x: nat, k: nat): nat {
    if k == 0 then x else ShiftRight(x / 2, k - 1)
  }

  function ShiftLeft(x: nat, k: nat): nat {
    if k == 0 then x else 2 * ShiftLeft(x, k - 1)
  }

  /** Position of the lowest set digit. */
  function TrailingZeros(x: nat): nat
    requires x > 0
  {
    if x % 2 == 1 then 0 else 1 + TrailingZeros(x / 2)
  }

  // ----- digits determine the number

  lemma {:induction false} ZeroHasNoBits(i: nat)
    ensures !Bit(0, i)
  {
    if i > 0 { ZeroHasNoBits(i - 1); }
  }

  lemma {:induction false} SameBits(a: nat, b: nat)
    requires forall i: nat :: Bit(a, i) == Bit(b, i)
    ensures a == b
    decreases a + b
  {
    assert Bit(a, 0) == Bit(b, 0);
    if a > 0 || b > 0 {
      forall i: nat
        ensures Bit(a / 2, i) == Bit(b / 2, i)
      {
        assert Bit(a, i + 1) == Bit(b, i + 1);
      }
      SameBits(a / 2, b / 2);
    }
  }

  /** A positive number has a highest set digit. */
  lemma {:induction false} HighestBit(x: nat) returns (h: nat)
    requires x > 0
    ensures Bit(x, h) && forall i: nat :: i > h ==> !Bit(x, i)
  {
    if x == 1 {
      h := 0;
      forall i: nat | i > 0 ensures !Bit(1, i) { ZeroHasNoBits(i - 1); }
    } else {
      var k := HighestBit(x / 2);
      h := k + 1;
      forall i: nat | i > h ensures !Bit(x, i) { assert !Bit(x / 2, i - 1); }
    }
  }

  lemma {:induction false} BitsBelow(x: nat, n: nat, i: nat)
    requires x < Pow2(n) && i >= n
    ensures !Bit(x, i)
  {
    if n == 0 { ZeroHasNoBits(i); } else { BitsBelow(x / 2, n - 1, i - 1); }
  }

  lemma {:induction false} BoundFromBits(x: nat, n: nat)
    requires forall i: nat :: i >= n ==> !Bit(x, i)
    ensures x < Pow2(n)
  {
    if n == 0 {
      if x > 0 { var h := HighestBit(x); }
    } else {
      forall i: nat | i >= n - 1
        ensures !Bit(x / 2, i)
      {
        assert !Bit(x, i + 1);
      }
      BoundFromBits(x / 2, n - 1);
    }
  }

  // ----- the operations on digits

  lemma {:induction false} XorBit(a: nat, b: nat, i: nat)
    ensures Bit(Xor(a, b), i) == (Bit(a, i) != Bit(b, i))
    decreases i
  {
    if a == 0 && b == 0 {
      ZeroHasNoBits(i);
    } else {
      var r := Xor(a / 2, b / 2);
      assert Xor(a, b) / 2 == r && Xor(a, b) % 2 == (a % 2 + b % 2) % 2;
      if i > 0 { XorBit(a / 2, b / 2, i - 1); }
    }
  }

  lemma {:induction false} AndBit(a: nat, b: nat, i: nat)
    ensures Bit(And(a, b), i) == (Bit(a, i) && Bit(b, i))
    decreases i
  {
    if a == 0 && b == 0 {
      ZeroHasNoBits(i);
    } else {
      var r := And(a / 2, b / 2);
      assert And(a, b) / 2 == r && And(a, b) % 2 == (a % 2) * (b % 2);
      if i > 0 { AndBit(a / 2, b / 2, i - 1); }
    }
  }

  lemma {:induction false} ShiftRightBit(x: nat, k: nat, i: nat)
    ensures Bit(ShiftRight(x, k), i) == Bit(x, i + k)
    decreases k
  {
    if k > 0 { ShiftRightBit(x / 2, k - 1, i); }
  }

  lemma {:induction false} ShiftLeftBit(x: nat, k: nat, i: nat)
    ensures Bit(ShiftLeft(x, k), i) == (i >= k && Bit(x, i - k))
    decreases k
  {
    if k > 0 {
      var y := ShiftLeft(x, k - 1);
      assert (2 * y) / 2 == y && (2 * y) % 2 == 0;
      if i > 0 { ShiftLeftBit(x, k - 1, i - 1); }
    }
  }

  lemma {:induction false} ShiftLeftBound(x: nat, k: nat, n: nat)
    requires x < Pow2(n)
    ensures ShiftLeft(x, k) < Pow2(n + k)
  {
    if k > 0 { ShiftLeftBound(x, k - 1, n); }
  }

  lemma XorBound(a: nat, b: nat, n: nat)
    requires a < Pow2(n) && b < Pow2(n)
    ensures Xor(a, b) < Pow2(n)
  {
    forall i: nat | i >= n
      ensures !Bit(Xor(a, b), i)
    {
      XorBit(a, b, i);
      BitsBelow(a, n, i);
      BitsBelow(b, n, i);
    }
    BoundFromBits(Xor(a, b), n);
  }

  lemma {:induction false} ShiftRightBound(x: nat, k: nat)
    ensures ShiftRight(x, k) <= x
  {
    if k > 0 { ShiftRightBound(x / 2, k - 1); }
  }

  /** Shifting right is division by a power of two. */
  lemma {:induction false} ShiftRightIsDivision(x: nat, k: nat)
    ensures ShiftRight(x, k) * Pow2(k) <= x < (ShiftRight(x, k) + 1) * Pow2(k)
    decreases k
  {
    if k > 0 {
      ShiftRightIsDivision(x / 2, k - 1);
      DoubledBounds(x, ShiftRight(x / 2, k - 1), Pow2(k - 1));
    }
  }

  lemma DoubledBounds(x: nat, q: nat, p: nat)
    requires q * p <= x / 2 < (q + 1) * p
    ensures q * (2 * p) <= x < (q + 1) * (2 * p)
  {
    var low, high := q * p, (q + 1) * p;
    assert q * (2 * p) == 2 * low && (q + 1) * (2 * p) == 2 * high;
  }

  lemma XorZero(a: nat, b: nat)
    ensures Xor(a, b) == 0 <==> a == b
  {
    if a == b {
      forall i: nat ensures Bit(Xor(a, b), i) == Bit(0, i) { XorBit(a, b, i); ZeroHasNoBits(i); }
      SameBits(Xor(a, b), 0);
    }
    if Xor(a, b) == 0 {
      forall i: nat ensures Bit(a, i) == Bit(b, i) { XorBit(a, b, i); ZeroHasNoBits(i); }
      SameBits(a, b);
    }
  }

  lemma XorWithZero(a: nat)
    ensures Xor(a, 0) == a
  {
    forall i: nat ensures Bit(Xor(a, 0), i) == Bit(a, i) { XorBit(a, 0, i); ZeroHasNoBits(i); }
    SameBits(Xor(a, 0), a);
  }

  lemma XorCommutes(a: nat, b: nat)
    ensures Xor(a, b) == Xor(b, a)
  {
    forall i: nat ensures Bit(Xor(a, b), i) == Bit(Xor(b, a), i) { XorBit(a, b, i); XorBit(b, a, i); }
    SameBits(Xor(a, b), Xor(b, a));
  }

  lemma XorAssociates(a: nat, b: nat, c: nat)
    ensures Xor(Xor(a, b), c) == Xor(a, Xor(b, c))
  {
    forall i: nat
      ensures Bit(Xor(Xor(a, b), c), i) == Bit(Xor(a, Xor(b, c)), i)
    {
      XorBit(Xor(a, b), c, i); XorBit(a, b, i); XorBit(a, Xor(b, c), i); XorBit(b, c, i);
    }
    SameBits(Xor(Xor(a, b), c), Xor(a, Xor(b, c)));
  }

  // ----- clearing the lowest digit

  lemma {:induction false} LowestBit(x: nat, i: nat)
    requires x > 0
    ensures Bit(x, TrailingZeros(x))
    ensures i < TrailingZeros(x) ==> !Bit(x, i)
    decreases x
  {
    if x % 2 == 0 { LowestBit(x / 2, if i > 0 then i - 1 else 0); }
  }

  lemma {:induction false} AndSelf(x: nat)
    ensures And(x, x) == x
  {
    if x > 0 {
      AndSelf(x / 2);
      DigitSquared(x % 2);
      assert And(x, x) == 2 * And(x / 2, x / 2) + (x % 2) * (x % 2);
    }
  }

  lemma DigitSquared(d: nat)
    requires d < 2
    ensures d * d == d
  {
    if d == 1 { assert 1 * 1 == 1; }
  }

  /** x & (x - 1) clears exactly the lowest set digit. */
  lemma {:induction false} ClearLowest(x: nat, i: nat)
    requires x > 0
    ensures Bit(And(x, x - 1), i) == (Bit(x, i) && i != TrailingZeros(x))
    ensures And(x, x - 1) < x
    decreases x
  {
    if x % 2 == 1 {
      AndSelf(x / 2);
      assert (x - 1) / 2 == x / 2 && (x - 1) % 2 == 0;
      assert And(x, x - 1) == 2 * (x / 2);
    } else {
      var r := And(x / 2, x / 2 - 1);
      assert (x - 1) / 2 == x / 2 - 1;
      assert And(x, x - 1) == 2 * r;
      ClearLowest(x / 2, if i > 0 then i - 1 else 0);
    }
  }
}
