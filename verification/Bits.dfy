/** Bitwise operators on the natural numbers, characterised bit by bit. */
module Bits {

  datatype Gate = XOR | OR | AND

  function Pow2(n: nat): (r: nat)
    ensures r > 0
  {
    if n == 0 then 1 else 2 * Pow2(n - 1)
  }

  predicate Bit(x: nat, i: nat) {
    if i == 0 then x % 2 == 1 else Bit(x / 2, i - 1)
  }

  function Apply(g: Gate, a: bool, b: bool): bool {
    match g
    case XOR => a != b
    case OR => a || b
    case AND => a && b
  }

  /** The operator `g` applied to every pair of bits of `x` and `y`. */
  function Bitwise(g: Gate, x: nat, y: nat): nat
    decreases x + y
  {
    if x == 0 && y == 0 then 0
    else 2 * Bitwise(g, x / 2, y / 2) + if Apply(g, x % 2 == 1, y % 2 == 1) then 1 else 0
  }

  function Xor(x: nat, y: nat): nat { Bitwise(XOR, x, y) }

  function Or(x: nat, y: nat): nat { Bitwise(OR, x, y) }

  function And(x: nat, y: nat): nat { Bitwise(AND, x, y) }

  lemma {:induction false} BitOfZero(i: nat)
    ensures !Bit(0, i)
  {
    if i > 0 { BitOfZero(i - 1); }
  }

  lemma {:induction false} BitOfBitwise(g: Gate, x: nat, y: nat, i: nat)
    ensures Bit(Bitwise(g, x, y), i) == Apply(g, Bit(x, i), Bit(y, i))
  {
    if x == 0 && y == 0 {
      BitOfZero(i);
    } else if i > 0 {
      BitOfBitwise(g, x / 2, y / 2, i - 1);
    }
  }

  /** Two numbers with the same bits are equal. */
  lemma {:induction false} SameBits(x: nat, y: nat)
    requires forall i: nat :: Bit(x, i) == Bit(y, i)
    ensures x == y
    decreases x + y
  {
    if x != 0 || y != 0 {
      forall i: nat ensures Bit(x / 2, i) == Bit(y / 2, i) {
        assert Bit(x, i + 1) == Bit(y, i + 1);
      }
      SameBits(x / 2, y / 2);
      assert Bit(x, 0) == Bit(y, 0);
    }
  }

  lemma QuotientOfHalf(x: nat, p: nat, d: nat)
    requires p > 0 && d == 2 * p
    ensures x / d == (x / 2) / p
  {
    var h := x / 2;
    var q := h / p;
    DoubledFactor(q, p);
    assert h == p * q + h % p;
    QuotientOfSum(x, d, q, 2 * (h % p) + x % 2);
  }

  lemma QuotientOfSum(x: nat, d: nat, q: nat, r: nat)
    requires d > 0 && x == q * d + r && r < d
    ensures x / d == q
  {
    QuotientIs(x, d, q, r);
  }

  lemma RemainderOfHalf(x: nat, p: nat)
    requires p > 0
    ensures x % (2 * p) == 2 * ((x / 2) % p) + x % 2
  {
    var h := x / 2;
    var q, r := h / p, h % p;
    assert h == p * q + r;
    assert q * (2 * p) == 2 * (p * q);
    QuotientIs(x, 2 * p, q, 2 * r + x % 2);
  }

  lemma DoubledFactor(x: nat, p: nat)
    ensures x * (2 * p) == 2 * (x * p)
  {
  }

  lemma ProductAtLeast(a: int, d: int)
    requires d >= 0
    ensures a >= 1 ==> a * d >= d
    ensures a <= -1 ==> a * d <= -d
  {
    if a >= 1 {
      assert a * d == (a - 1) * d + d;
    } else if a <= -1 {
      assert a * d == (a + 1) * d - d;
    }
  }

  lemma QuotientIs(x: nat, d: nat, q: nat, r: nat)
    requires d > 0 && x == q * d + r && r < d
    ensures x / d == q && x % d == r
  {
    var q', r' := x / d, x % d;
    var diff := q' - q;
    assert diff * d == r - r' by {
      assert x == d * q' + r';
      assert diff * d == q' * d - q * d;
    }
    ProductAtLeast(diff, d);
    assert diff == 0;
  }

  function Shr(x: nat, k: nat): nat {
    if k == 0 then x else Shr(x / 2, k - 1)
  }

  function Shl(x: nat, k: nat): nat {
    if k == 0 then x else 2 * Shl(x, k - 1)
  }

  /** The `k` low bits. */
  function Low(x: nat, k: nat): nat {
    if k == 0 then 0 else 2 * Low(x / 2, k - 1) + x % 2
  }

  lemma {:induction false} ShrIsQuotient(x: nat, k: nat)
    ensures Shr(x, k) == x / Pow2(k)
  {
    if k > 0 {
      ShrIsQuotient(x / 2, k - 1);
      QuotientOfHalf(x, Pow2(k - 1), Pow2(k));
    }
  }

  lemma {:induction false} ShlIsProduct(x: nat, k: nat)
    ensures Shl(x, k) == x * Pow2(k)
  {
    if k > 0 {
      ShlIsProduct(x, k - 1);
      DoubledFactor(x, Pow2(k - 1));
    }
  }

  lemma {:induction false} LowIsRemainder(x: nat, k: nat)
    ensures Low(x, k) == x % Pow2(k)
  {
    if k > 0 {
      LowIsRemainder(x / 2, k - 1);
      RemainderOfHalf(x, Pow2(k - 1));
    }
  }

  /** A right shift moves bit `i + k` to place `i`. */
  lemma {:induction false} BitOfShr(x: nat, k: nat, i: nat)
    ensures Bit(Shr(x, k), i) == Bit(x, i + k)
  {
    if k > 0 { BitOfShr(x / 2, k - 1, i); }
  }

  /** A left shift moves bit `i` to place `i + k`. */
  lemma {:induction false} BitOfShl(x: nat, k: nat, i: nat)
    ensures Bit(Shl(x, k), i) == (i >= k && Bit(x, i - k))
  {
    if k > 0 && i > 0 { BitOfShl(x, k - 1, i - 1); }
  }

  /** The low part keeps the bits below `k` and no others. */
  lemma {:induction false} BitOfLow(x: nat, k: nat, i: nat)
    ensures Bit(Low(x, k), i) == (i < k && Bit(x, i))
  {
    if k == 0 {
      BitOfZero(i);
    } else if i > 0 {
      BitOfLow(x / 2, k - 1, i - 1);
    }
  }

  /** An index is its high part and its low part put together. */
  lemma {:induction false} SameParts(x: nat, y: nat, k: nat)
    requires Shr(x, k) == Shr(y, k) && Low(x, k) == Low(y, k)
    ensures x == y
  {
    if k > 0 { SameParts(x / 2, y / 2, k - 1); }
  }

  /** The mask `2^k - 1` has exactly the bits below `k`. */
  lemma {:induction false} BitOfMask(k: nat, i: nat)
    ensures Bit(Pow2(k) - 1, i) == (i < k)
  {
    if k == 0 {
      BitOfZero(i);
    } else {
      assert (Pow2(k) - 1) / 2 == Pow2(k - 1) - 1;
      if i > 0 { BitOfMask(k - 1, i - 1); }
    }
  }

  ghost predicate NoBitFrom(x: nat, k: nat) {
    forall i: nat | i >= k :: !Bit(x, i)
  }

  /** A number is below `2^k` exactly when it has no bit at or above `k`. */
  lemma {:induction false} BelowPow2(x: nat, k: nat)
    ensures x < Pow2(k) <==> NoBitFrom(x, k)
    decreases x, k
  {
    if x == 0 {
      forall i: nat ensures !Bit(x, i) { BitOfZero(i); }
    } else if k == 0 {
      BelowPow2(x / 2, 0);
      if x / 2 > 0 {
        var i: nat :| Bit(x / 2, i);
        assert Bit(x, i + 1);
      } else {
        assert x % 2 == 1 && Bit(x, 0);
      }
    } else {
      BelowPow2(x / 2, k - 1);
      assert x < Pow2(k) <==> x / 2 < Pow2(k - 1);
      if x / 2 < Pow2(k - 1) {
        forall i: nat | i >= k ensures !Bit(x, i) {
          assert !Bit(x / 2, i - 1);
        }
      } else {
        var i: nat :| i >= k - 1 && Bit(x / 2, i);
        var j: nat := i + 1;
        assert Bit(x, j) && j >= k;
      }
    }
  }

  lemma {:induction false} Pow2Adds(a: nat, b: nat)
    ensures Pow2(a + b) == Pow2(a) * Pow2(b)
  {
    if a > 0 { Pow2Adds(a - 1, b); }
  }

  lemma {:induction false} Pow2Monotone(a: nat, b: nat)
    requires a < b
    ensures 2 * Pow2(a) <= Pow2(b)
    decreases b
  {
    if a < b - 1 { Pow2Monotone(a, b - 1); }
  }

  /** Every positive number has a highest bit. */
  lemma {:induction false} HighestBit(x: nat) returns (k: nat)
    requires x > 0
    ensures Pow2(k) <= x < Pow2(k + 1) && Bit(x, k)
  {
    if x == 1 {
      k := 0;
      assert Pow2(1) == 2;
    } else {
      var j := HighestBit(x / 2);
      k := j + 1;
      assert Pow2(k + 1) == 2 * Pow2(j + 1);
    }
  }

  const WORD: nat := 0x1_0000_0000

  lemma Pow2Of32()
    ensures Pow2(32) == WORD
  {
    assert Pow2(8) == 256;
    Pow2Adds(8, 8);
    Pow2Adds(16, 16);
  }
}
