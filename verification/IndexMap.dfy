/** Index arithmetic of the ring buffers: rounding a requested size up to a power of two, the
    constructors' sizing, and the shuffle that spreads neighbouring indices over cache lines. */
module IndexMap {
  import opened Bits

  // ---------------------------------------------------------------- rounding up to a power of two

  function OrShifted(x: nat, u: nat): nat { Or(x, Shr(x, u)) }

  /** The variadic fold: `x |= x >> u` for each `u` in turn. */
  function OrEqual(x: nat, us: seq<nat>): nat
    decreases us
  {
    if us == [] then x else OrEqual(OrShifted(x, us[0]), us[1..])
  }

  const SHIFTS32: seq<nat> := [1, 2, 4, 8, 16]
  const SHIFTS64: seq<nat> := [1, 2, 4, 8, 16, 32]

  /** Unsigned `x - 1` and `x + 1` on `width` bits. */
  function Decrement(width: nat, x: nat): nat {
    if x == 0 then Pow2(width) - 1 else x - 1
  }

  function Increment(width: nat, x: nat): nat {
    if x + 1 == Pow2(width) then 0 else x + 1
  }

  /** Decrement, smear the highest bit downwards, increment. */
  function RoundUp(width: nat, shifts: seq<nat>, a: nat): nat {
    Increment(width, OrEqual(Decrement(width, a), shifts))
  }

  function RoundUp32(a: nat): nat { RoundUp(32, SHIFTS32, a) }

  function RoundUp64(a: nat): nat { RoundUp(64, SHIFTS64, a) }

  ghost predicate IsPow2(n: nat) {
    exists k: nat :: n == Pow2(k)
  }

  ghost predicate LeastPow2AtLeast(a: nat, r: nat) {
    && IsPow2(r)
    && a <= r
    && forall k: nat :: a <= Pow2(k) ==> r <= Pow2(k)
  }

  /** The `m` highest bits of a number whose top bit is `k` are all set, and nothing lies above `k`. */
  ghost predicate Filled(x: nat, k: nat, m: nat) {
    forall i: nat :: (i > k ==> !Bit(x, i)) && (i <= k < i + m ==> Bit(x, i))
  }

  lemma FillDoubles(x: nat, k: nat, m: nat)
    requires Filled(x, k, m)
    ensures Filled(OrShifted(x, m), k, 2 * m)
  {
    forall i: nat ensures
      var y := OrShifted(x, m);
      (i > k ==> !Bit(y, i)) && (i <= k < i + 2 * m ==> Bit(y, i))
    {
      BitOfBitwise(OR, x, Shr(x, m), i);
      BitOfShr(x, m, i);
    }
  }

  /** The shifts double: 1, 2, 4, ... */
  predicate Doubling(us: seq<nat>, m: nat) {
    us == [] || (us[0] == m && Doubling(us[1..], 2 * m))
  }

  lemma {:induction false} FillAll(x: nat, k: nat, us: seq<nat>, m: nat)
    requires Filled(x, k, m) && Doubling(us, m)
    ensures Filled(OrEqual(x, us), k, m * Pow2(|us|))
    decreases us
  {
    if us != [] {
      FillDoubles(x, k, m);
      FillAll(OrShifted(x, m), k, us[1..], 2 * m);
      assert 2 * m * Pow2(|us| - 1) == m * Pow2(|us|);
    } else {
      assert m * Pow2(0) == m;
    }
  }

  lemma AllOnes(x: nat, k: nat)
    requires Filled(x, k, k + 1)
    ensures x == Pow2(k + 1) - 1
  {
    forall i: nat ensures Bit(x, i) == Bit(Pow2(k + 1) - 1, i) {
      BitOfMask(k + 1, i);
    }
    SameBits(x, Pow2(k + 1) - 1);
  }

  /** Smearing a positive number below `2^width` gives `2^(k+1) - 1`, where `k` is its highest bit. */
  lemma Smeared(width: nat, us: seq<nat>, x: nat) returns (k: nat)
    requires Doubling(us, 1) && Pow2(|us|) >= width
    requires 0 < x < Pow2(width)
    ensures k < width && Pow2(k) <= x < Pow2(k + 1)
    ensures OrEqual(x, us) == Pow2(k + 1) - 1
  {
    k := HighestBit(x);
    if k >= width {
      if k > width { Pow2Monotone(width, k); }
      assert false;
    }
    BelowPow2(x, k + 1);
    assert Filled(x, k, 1);
    FillAll(x, k, us, 1);
    assert Filled(OrEqual(x, us), k, k + 1);
    AllOnes(OrEqual(x, us), k);
  }

  lemma {:induction false} SmearZero(us: seq<nat>)
    ensures OrEqual(0, us) == 0
    decreases us
  {
    if us != [] {
      ShrIsQuotient(0, us[0]);
      assert 0 / Pow2(us[0]) == 0 by { QuotientIs(0, Pow2(us[0]), 0, 0); }
      SmearZero(us[1..]);
    }
  }

  /** The general statement behind both widths. */
  lemma RoundUpCorrect(width: nat, us: seq<nat>, a: nat)
    requires width > 0 && Doubling(us, 1) && Pow2(|us|) >= width
    requires a < Pow2(width)
    ensures 1 <= a <= Pow2(width - 1) ==> LeastPow2AtLeast(a, RoundUp(width, us, a))
    ensures a == 0 || a > Pow2(width - 1) ==> RoundUp(width, us, a) == 0
  {
    var x := Decrement(width, a);
    if x == 0 {
      SmearZero(us);
      Pow2Monotone(0, width);
      assert RoundUp(width, us, a) == Pow2(0);
    } else {
      var k := Smeared(width, us, x);
      assert RoundUp(width, us, a) == if k + 1 == width then 0 else Pow2(k + 1) by {
        if k + 1 < width { Pow2Monotone(k + 1, width); }
      }
      if k + 1 < width {
        Pow2Monotone(k + 1, width);
        if k + 1 < width - 1 { Pow2Monotone(k + 1, width - 1); }
        NextPow2(k, a);
      }
    }
  }

  lemma NextPow2(k: nat, a: nat)
    requires Pow2(k) < a <= Pow2(k + 1)
    ensures LeastPow2AtLeast(a, Pow2(k + 1))
  {
    forall j: nat | a <= Pow2(j) ensures Pow2(k + 1) <= Pow2(j) {
      if j < k { Pow2Monotone(j, k); } else if j > k + 1 { Pow2Monotone(k + 1, j); }
    }
  }

  lemma RoundUp32Correct(a: nat)
    requires a < WORD
    ensures 1 <= a <= WORD / 2 ==> LeastPow2AtLeast(a, RoundUp32(a))
    ensures a == 0 || a > WORD / 2 ==> RoundUp32(a) == 0
  {
    Pow2Of32();
    assert Pow2(32) == 2 * Pow2(31);
    assert Pow2(5) == 32;
    assert Doubling(SHIFTS32, 1);
    RoundUpCorrect(32, SHIFTS32, a);
  }

  lemma RoundUp64Correct(a: nat)
    requires a < Pow2(64)
    ensures 1 <= a <= Pow2(63) ==> LeastPow2AtLeast(a, RoundUp64(a))
    ensures a == 0 || a > Pow2(63) ==> RoundUp64(a) == 0
  {
    assert Pow2(6) == 64;
    assert Doubling(SHIFTS64, 1);
    RoundUpCorrect(64, SHIFTS64, a);
  }

  // ---------------------------------------------------------------- the index shuffle

  /** Swaps the low `b` bits of an index with the next `b` bits, by the xor trick; 32-bit shift. */
  function RemapIndex(b: nat, index: nat): nat {
    if b == 0 then index
    else
      var mask := Pow2(b) - 1;
      var mix := And(Xor(index, Shr(index, b)), mask);
      Xor(Xor(index, mix), Low(Shl(mix, b), 32))
  }

  /** The bit of `index` that lands in place `i`. */
  function SwappedPlace(b: nat, i: nat): nat {
    if i < b then i + b else if i < 2 * b then i - b else i
  }

  lemma BitOfMix(b: nat, index: nat, i: nat)
    ensures Bit(And(Xor(index, Shr(index, b)), Pow2(b) - 1), i) == (i < b && Bit(index, i) != Bit(index, i + b))
  {
    BitOfBitwise(AND, Xor(index, Shr(index, b)), Pow2(b) - 1, i);
    BitOfBitwise(XOR, index, Shr(index, b), i);
    BitOfMask(b, i);
    BitOfShr(index, b, i);
  }

  lemma BitOfRemap(b: nat, index: nat, i: nat)
    requires b <= 16
    ensures Bit(RemapIndex(b, index), i) == Bit(index, SwappedPlace(b, i))
  {
    if b > 0 {
      var mix := And(Xor(index, Shr(index, b)), Pow2(b) - 1);
      var shifted := Low(Shl(mix, b), 32);
      BitOfBitwise(XOR, Xor(index, mix), shifted, i);
      BitOfBitwise(XOR, index, mix, i);
      BitOfLow(Shl(mix, b), 32, i);
      BitOfShl(mix, b, i);
      BitOfMix(b, index, i);
      if i >= b { BitOfMix(b, index, i - b); }
    }
  }

  /** Digit form: the two low base-`2^b` digits trade places and the rest stays. */
  lemma RemapSwapsDigits(b: nat, index: nat)
    requires b <= 16
    ensures var r := RemapIndex(b, index);
            && Low(r, b) == Low(Shr(index, b), b)
            && Low(Shr(r, b), b) == Low(index, b)
            && Shr(r, 2 * b) == Shr(index, 2 * b)
  {
    var r := RemapIndex(b, index);
    forall i: nat ensures
      && Bit(Low(r, b), i) == Bit(Low(Shr(index, b), b), i)
      && Bit(Low(Shr(r, b), b), i) == Bit(Low(index, b), i)
      && Bit(Shr(r, 2 * b), i) == Bit(Shr(index, 2 * b), i)
    {
      BitOfLow(r, b, i); BitOfLow(Shr(index, b), b, i); BitOfShr(index, b, i); BitOfRemap(b, index, i);
      BitOfLow(Shr(r, b), b, i); BitOfLow(index, b, i); BitOfShr(r, b, i); BitOfRemap(b, index, i + b);
      BitOfShr(r, 2 * b, i); BitOfShr(index, 2 * b, i); BitOfRemap(b, index, i + 2 * b);
    }
    SameBits(Low(r, b), Low(Shr(index, b), b));
    SameBits(Low(Shr(r, b), b), Low(index, b));
    SameBits(Shr(r, 2 * b), Shr(index, 2 * b));
  }

  lemma RemapIsInvolution(b: nat, index: nat)
    requires b <= 16
    ensures RemapIndex(b, RemapIndex(b, index)) == index
  {
    var r := RemapIndex(b, index);
    forall i: nat ensures Bit(RemapIndex(b, r), i) == Bit(index, i) {
      BitOfRemap(b, r, i);
      BitOfRemap(b, index, SwappedPlace(b, i));
    }
    SameBits(RemapIndex(b, r), index);
  }

  /** The shuffle permutes `[0, n)`: it stays inside, and being its own inverse it is onto and one-to-one. */
  ghost predicate Permutes(b: nat, n: nat) {
    forall i: nat | i < n :: RemapIndex(b, i) < n && RemapIndex(b, RemapIndex(b, i)) == i
  }

  lemma RemapPermutes(b: nat, k: nat)
    requires b <= 16 && 2 * b <= k
    ensures Permutes(b, Pow2(k))
  {
    forall x: nat | x < Pow2(k) ensures RemapIndex(b, x) < Pow2(k) && RemapIndex(b, RemapIndex(b, x)) == x {
      BelowPow2(x, k);
      forall i: nat | i >= k ensures !Bit(RemapIndex(b, x), i) {
        BitOfRemap(b, x, i);
      }
      BelowPow2(RemapIndex(b, x), k);
      RemapIsInvolution(b, x);
    }
  }

  /** Two different indices of one cache line (`2^b` indices each) land in different cache lines. */
  lemma RemapSpreadsCacheLine(b: nat, x: nat, y: nat)
    requires b <= 16 && x != y && Shr(x, b) == Shr(y, b)
    ensures Shr(RemapIndex(b, x), b) != Shr(RemapIndex(b, y), b)
  {
    RemapSwapsDigits(b, x);
    RemapSwapsDigits(b, y);
    if Low(x, b) == Low(y, b) { SameParts(x, y, b); }
  }

  // ---------------------------------------------------------------- sizing

  /** Bits of the index within a cache line; other element counts per line get no shuffle. */
  function CacheLineIndexBits(perLine: nat): (b: nat)
    ensures b <= 8
  {
    match perLine
    case 256 => 8 case 128 => 7 case 64 => 6 case 32 => 5
    case 16 => 4 case 8 => 3 case 4 => 2 case 2 => 1
    case _ => 0
  }

  function ShuffleBits(minimizeContention: bool, size: nat, perLine: nat): nat {
    var bits := CacheLineIndexBits(perLine);
    if !minimizeContention || size < Pow2(2 * bits) then 0 else bits
  }

  /** Compile-time size of AtomicQueue, AtomicQueue2 and AtomicQueueMutexT. */
  function StaticSize(minimizeContention: bool, requested: nat): nat {
    if minimizeContention then RoundUp32(requested) else requested
  }

  /** Run-time size chosen by the AtomicQueueB and AtomicQueueB2 constructors. */
  function DynamicSize(requested: nat, bits: nat): nat {
    var r := RoundUp32(requested);
    if r < Pow2(2 * bits) then Pow2(2 * bits) else r
  }

  /** Masking with `size - 1` is the remainder, for every power of two. */
  lemma MaskIsRemainder(t: nat, k: nat)
    ensures And(t, Pow2(k) - 1) == t % Pow2(k)
  {
    forall i: nat ensures Bit(And(t, Pow2(k) - 1), i) == Bit(Low(t, k), i) {
      BitOfBitwise(AND, t, Pow2(k) - 1, i);
      BitOfMask(k, i);
      BitOfLow(t, k, i);
    }
    SameBits(And(t, Pow2(k) - 1), Low(t, k));
    LowIsRemainder(t, k);
  }

  lemma Pow2Below(k: nat, n: nat)
    requires Pow2(k) <= Pow2(n)
    ensures k <= n
  {
    if n < k { Pow2Monotone(n, k); }
  }

  /** Whatever size is asked for, the constructor picks a power of two the mask and the shuffle are
      right for; it has room for the request exactly when the request is at most 2^31. */
  lemma DynamicSizeIsSound(requested: nat, bits: nat, t: nat)
    requires requested < WORD && bits <= 8
    ensures var n := DynamicSize(requested, bits);
            && IsPow2(n) && Pow2(2 * bits) <= n <= WORD / 2
            && Permutes(bits, n)
            && And(t, n - 1) == t % n
            && (n >= requested <==> requested <= WORD / 2)
  {
    var n := DynamicSize(requested, bits);
    RoundUp32Correct(requested);
    Pow2Of32();
    assert Pow2(32) == 2 * Pow2(31);
    assert Pow2(2 * bits) <= Pow2(31) by { Pow2Monotone(2 * bits, 31); }
    var r := RoundUp32(requested);
    if 1 <= requested <= WORD / 2 {
      assert requested <= Pow2(31);
      assert r <= Pow2(31);
    }
    var k: nat :| n == Pow2(k);
    Pow2Below(2 * bits, k);
    RemapPermutes(bits, k);
    MaskIsRemainder(t, k);
  }

  /** The compile-time queues: whenever contention is minimised and the rounded size is not zero, the
      shuffle chosen for it permutes the slots; without minimisation there is no shuffle at all. */
  lemma StaticSizeIsSound(minimizeContention: bool, requested: nat, perLine: nat)
    requires requested < WORD
    ensures var n := StaticSize(minimizeContention, requested);
            var b := ShuffleBits(minimizeContention, n, perLine);
            && (n > 0 ==> Permutes(b, n))
            && (minimizeContention ==> (n > 0 <==> 1 <= requested <= WORD / 2))
            && (minimizeContention && n > 0 ==> LeastPow2AtLeast(requested, n) && n <= WORD / 2)
  {
    var n := StaticSize(minimizeContention, requested);
    var b := ShuffleBits(minimizeContention, n, perLine);
    if minimizeContention {
      RoundUp32Correct(requested);
      Pow2Of32();
      assert Pow2(32) == 2 * Pow2(31);
      if n > 0 {
        assert requested <= Pow2(31);
        var k: nat :| n == Pow2(k);
        Pow2Below(if b == 0 then 0 else 2 * b, k);
        RemapPermutes(b, k);
      }
    }
  }

  // ---------------------------------------------------------------- placement

  /** Where each remainder of a ticket lives in the storage array. */
  function Placement(size: nat, bits: nat): (slots: seq<nat>)
    ensures |slots| == size
  {
    seq(size, k requires 0 <= k => RemapIndex(bits, k))
  }

  ghost predicate OneToOne(slots: seq<nat>) {
    && (forall k | 0 <= k < |slots| :: slots[k] < |slots|)
    && (forall j, k | 0 <= j < k < |slots| :: slots[j] != slots[k])
  }

  /** Every queue the constructors build has a one-to-one placement. */
  lemma PlacementIsOneToOne(size: nat, bits: nat)
    requires Permutes(bits, size)
    ensures OneToOne(Placement(size, bits))
  {
    var slots := Placement(size, bits);
    forall j, k | 0 <= j < k < size ensures slots[j] != slots[k] {
      assert RemapIndex(bits, RemapIndex(bits, j)) == j;
      assert RemapIndex(bits, RemapIndex(bits, k)) == k;
    }
  }
}
