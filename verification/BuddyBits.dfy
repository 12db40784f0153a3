/**
  The bit arithmetic of the buddy allocator on unbounded naturals: powers of two,
  alignment, the low bit of an address, and the buddy of a block, which the
  allocator computes as an exclusive-or with the block size.
 */
module BuddyBits {

  function Pow2(n: nat): (p: nat)
    ensures p >= 1
  {
    if n == 0 then 1 else 2 * Pow2(n - 1)
  }

  /** The low `n` bits of `a` are zero. */
  predicate Aligned(a: nat, n: nat) {
    n == 0 || (a % 2 == 0 && Aligned(a / 2, n - 1))
  }

  function Xor(a: nat, b: nat): nat {
    if a == 0 && b == 0 then 0 else 2 * Xor(a / 2, b / 2) + (a % 2 + b % 2) % 2
  }

  function And(a: nat, b: nat): nat {
    if a == 0 || b == 0 then 0 else 2 * And(a / 2, b / 2) + (a % 2) * (b % 2)
  }

  function TrailingZeros(a: nat): nat
    requires a > 0
  {
    if a % 2 == 1 then 0 else 1 + TrailingZeros(a / 2)
  }

  /** The number of bits needed to write `a`. */
  function BitLength(a: nat): nat {
    if a == 0 then 0 else 1 + BitLength(a / 2)
  }

  /** One more than the largest 64-bit word. */
  const WORD_LIMIT: nat := 0x1_0000_0000_0000_0000

  /** `x & (!x + 1)` on a 64-bit word. */
  function LowBit(x: nat): nat {
    And(x, if x <= WORD_LIMIT then WORD_LIMIT - x else 0)
  }

  /** `1 << (64 - leading_zeros(n) - 1)`. */
  function PrevPowerOfTwo(n: nat): nat
    requires n > 0
  {
    Pow2(BitLength(n) - 1)
  }

  /** The smallest power of two that is at least `n`. */
  function NextPowerOfTwo(n: nat): nat {
    if n <= 1 then 1 else Pow2(BitLength(n - 1))
  }

  function Buddy(a: nat, order: nat): nat { Xor(a, Pow2(order)) }

  // ------------------------------------------------------------ powers

  lemma {:induction false} Pow2Monotone(m: nat, n: nat)
    requires m <= n
    ensures Pow2(m) <= Pow2(n)
    decreases n
  {
    if m < n { Pow2Monotone(m, n - 1); }
  }

  lemma {:induction false} Pow2StrictlyMonotone(m: nat, n: nat)
    requires m < n
    ensures Pow2(m) < Pow2(n)
  {
    Pow2Monotone(m + 1, n);
  }

  lemma {:induction false} Pow2Order(m: nat, n: nat)
    ensures Pow2(m) <= Pow2(n) <==> m <= n
  {
    if m <= n { Pow2Monotone(m, n); } else { Pow2StrictlyMonotone(n, m); }
  }

  lemma {:induction false} TrailingZerosOfPow2(n: nat)
    ensures TrailingZeros(Pow2(n)) == n
  {
    if n > 0 { TrailingZerosOfPow2(n - 1); }
  }

  lemma {:induction false} BitLengthBounds(a: nat)
    requires a > 0
    ensures BitLength(a) >= 1
    ensures Pow2(BitLength(a) - 1) <= a < Pow2(BitLength(a))
  {
    if a > 1 { BitLengthBounds(a / 2); }
  }

  /** The largest power of two not above `n`. */
  lemma {:induction false} PrevPowerOfTwoBounds(n: nat)
    requires n > 0
    ensures PrevPowerOfTwo(n) <= n < 2 * PrevPowerOfTwo(n)
  {
    BitLengthBounds(n);
  }

  lemma {:induction false} NextPowerOfTwoBounds(n: nat)
    ensures n <= NextPowerOfTwo(n)
    ensures n >= 1 ==> NextPowerOfTwo(n) < 2 * n
  {
    if n > 1 { BitLengthBounds(n - 1); }
  }

  // ------------------------------------------------------------ alignment

  lemma {:induction false} MultipleIsAligned(q: nat, n: nat)
    ensures Aligned(q * Pow2(n), n)
  {
    if n > 0 {
      MultipleIsAligned(q, n - 1);
      DoubleProduct(q, Pow2(n - 1));
    }
  }

  lemma DoubleProduct(q: nat, p: nat)
    ensures q * (2 * p) == 2 * (q * p)
  {
  }

  lemma {:induction false} AlignedWeaken(a: nat, m: nat, n: nat)
    requires m <= n && Aligned(a, n)
    ensures Aligned(a, m)
    decreases n
  {
    if m > 0 { AlignedWeaken(a / 2, m - 1, n - 1); }
  }

  lemma {:induction false} Pow2Aligned(n: nat)
    ensures Aligned(Pow2(n), n)
  {
    if n > 0 {
      Pow2Aligned(n - 1);
      assert Pow2(n) % 2 == 0 && Pow2(n) / 2 == Pow2(n - 1);
    }
  }

  lemma {:induction false} AlignedAdd(a: nat, b: nat, n: nat)
    requires Aligned(a, n) && Aligned(b, n)
    ensures Aligned(a + b, n)
  {
    if n > 0 {
      AlignedAdd(a / 2, b / 2, n - 1);
      assert (a + b) / 2 == a / 2 + b / 2;
    }
  }

  /** An aligned address below an aligned end leaves room for a whole block. */
  lemma {:induction false} AlignedGap(a: nat, b: nat, n: nat)
    requires Aligned(a, n) && Aligned(b, n) && a < b
    ensures a + Pow2(n) <= b
  {
    if n > 0 { AlignedGap(a / 2, b / 2, n - 1); }
  }

  // ------------------------------------------------------------ buddies

  lemma {:induction false} XorZero(a: nat)
    ensures Xor(a, 0) == a
  {
    if a > 0 { XorZero(a / 2); }
  }

  /** The lower buddy of a pair is aligned one order up; the upper one follows it directly. */
  lemma {:induction false} BuddyOf(a: nat, n: nat)
    requires Aligned(a, n)
    ensures Aligned(a, n + 1) ==> Buddy(a, n) == a + Pow2(n)
    ensures !Aligned(a, n + 1) ==> a >= Pow2(n) && Buddy(a, n) == a - Pow2(n) && Aligned(a - Pow2(n), n + 1)
  {
    if n == 0 {
      BuddyOfByte(a);
    } else {
      BuddyOf(a / 2, n - 1);
      XorEven(a, n);
      if !Aligned(a, n + 1) { assert (a - Pow2(n)) / 2 == a / 2 - Pow2(n - 1); }
    }
  }

  lemma {:induction false} BuddyOfByte(a: nat)
    ensures Aligned(a, 1) <==> a % 2 == 0
    ensures Buddy(a, 0) == if a % 2 == 0 then a + 1 else a - 1
    ensures a % 2 == 1 ==> Aligned(a - 1, 1)
  {
    FlipLowBit(a, Pow2(0));
    assert Aligned(a / 2, 0) && (a % 2 == 1 ==> Aligned((a - 1) / 2, 0));
  }

  lemma {:induction false} FlipLowBit(a: nat, one: nat)
    requires one == 1
    ensures Xor(a, one) == if a % 2 == 0 then a + 1 else a - 1
  {
    XorZero(a / 2);
    assert one / 2 == 0 && one % 2 == 1;
  }

  lemma {:induction false} XorEven(a: nat, n: nat)
    requires n > 0 && a % 2 == 0
    ensures Buddy(a, n) == 2 * Buddy(a / 2, n - 1)
  {
    assert Pow2(n) % 2 == 0 && Pow2(n) / 2 == Pow2(n - 1);
  }

  /** Both halves of a block are blocks of the next lower order, and each other's buddy. */
  lemma {:induction false} Halves(a: nat, n: nat)
    requires Aligned(a, n + 1)
    ensures Aligned(a, n) && Aligned(a + Pow2(n), n)
    ensures Buddy(a, n) == a + Pow2(n) && Buddy(a + Pow2(n), n) == a
  {
    AlignedWeaken(a, n, n + 1);
    Pow2Aligned(n);
    AlignedAdd(a, Pow2(n), n);
    BuddyOf(a, n);
    BuddyOf(a + Pow2(n), n);
    UpperHalf(a, n);
  }

  lemma {:induction false} UpperHalf(a: nat, n: nat)
    requires Aligned(a, n + 1)
    ensures !Aligned(a + Pow2(n), n + 1)
  {
    if n > 0 {
      UpperHalf(a / 2, n - 1);
      assert (a + Pow2(n)) / 2 == a / 2 + Pow2(n - 1);
    } else {
      assert Aligned(a, 1) && a % 2 == 0;
      assert !Aligned(a + 1, 1);
    }
  }

  lemma {:induction false} BuddyInvolution(a: nat, n: nat)
    requires Aligned(a, n)
    ensures Aligned(Buddy(a, n), n) && Buddy(Buddy(a, n), n) == a && Buddy(a, n) != a
  {
    BuddyOf(a, n);
    var low := if Aligned(a, n + 1) then a else a - Pow2(n);
    Halves(low, n);
  }

  // ------------------------------------------------------------ low bits

  lemma {:induction false} AndTwosComplement(x: nat, k: nat)
    requires 0 < x < Pow2(k)
    ensures And(x, Pow2(k) - x) == Pow2(TrailingZeros(x))
  {
    var y := Pow2(k) - x;
    assert k > 0 && Pow2(k) == 2 * Pow2(k - 1);
    if x % 2 == 1 {
      OddComplement(x / 2, Pow2(k - 1) - 1 - x / 2, k - 1);
      assert y % 2 == 1 && y / 2 == Pow2(k - 1) - 1 - x / 2;
    } else {
      AndTwosComplement(x / 2, k - 1);
      assert y % 2 == 0 && y / 2 == Pow2(k - 1) - x / 2;
    }
  }

  /** A number and its one's complement share no bit. */
  lemma {:induction false} OddComplement(a: nat, b: nat, k: nat)
    requires a + b == Pow2(k) - 1
    ensures And(a, b) == 0
  {
    if k > 0 {
      assert Pow2(k) == 2 * Pow2(k - 1);
      assert (a % 2) + (b % 2) == 1;
      assert a / 2 + b / 2 == Pow2(k - 1) - 1;
      OddComplement(a / 2, b / 2, k - 1);
    }
  }

  lemma {:induction false} EightMoreBits(n: nat)
    ensures Pow2(n + 8) == 256 * Pow2(n)
  {
    assert Pow2(n + 2) == 4 * Pow2(n);
    assert Pow2(n + 4) == 4 * Pow2(n + 2);
    assert Pow2(n + 6) == 4 * Pow2(n + 4);
    assert Pow2(n + 8) == 4 * Pow2(n + 6);
  }

  lemma {:induction false} WordLimitIsPow2()
    ensures Pow2(64) == WORD_LIMIT
  {
    EightMoreBits(0);
    EightMoreBits(8);
    EightMoreBits(16);
    EightMoreBits(24);
    EightMoreBits(32);
    EightMoreBits(40);
    EightMoreBits(48);
    EightMoreBits(56);
  }

  lemma {:induction false} LowBitIsPow2(x: nat)
    requires 0 < x < WORD_LIMIT
    ensures LowBit(x) == Pow2(TrailingZeros(x))
  {
    WordLimitIsPow2();
    AndTwosComplement(x, 64);
  }

  lemma {:induction false} AlignedTrailing(x: nat, n: nat)
    requires x > 0
    ensures Aligned(x, n) <==> n <= TrailingZeros(x)
  {
    if n > 0 && x % 2 == 0 { AlignedTrailing(x / 2, n - 1); }
  }
}
