/** Bitwise operations on natural numbers, bit by bit from the lowest, and the masks a crossover or a
    mutation uses. */
module Bits {
  import Reals

  function Pow2(k: nat): (p: nat)
    ensures p >= 1
  {
    if k == 0 then 1 else 2 * Pow2(k - 1)
  }

  function And(x: nat, y: nat): (r: nat)
    ensures r <= x
    decreases x
  {
    if x == 0 then 0 else (if x % 2 == 1 && y % 2 == 1 then 1 else 0) + 2 * And(x / 2, y / 2)
  }

  function Xor(x: nat, y: nat): nat
    decreases x + y
  {
    if x == 0 && y == 0 then 0
    else (if x % 2 == y % 2 then 0 else 1) + 2 * Xor(x / 2, y / 2)
  }

  /** The number of bits in which two numbers differ. */
  function Differing(x: nat, y: nat): nat
    decreases x + y
  {
    if x == 0 && y == 0 then 0
    else (if x % 2 == y % 2 then 0 else 1) + Differing(x / 2, y / 2)
  }

  function Bit(x: nat, k: nat): nat
  {
    if k == 0 then x % 2 else Bit(x / 2, k - 1)
  }

  const INT_MAX: nat := 0x7fff_ffff

  function LowerMask(c: nat): nat
  {
    Pow2(c) - 1
  }

  function UpperMask(c: nat): int
  {
    INT_MAX - LowerMask(c)
  }

  /** The number made of the c low bits. */
  function Low(x: nat, c: nat): (r: nat)
    ensures r < Pow2(c) && r <= x
  {
    if c == 0 then 0 else x % 2 + 2 * Low(x / 2, c - 1)
  }

  /** What is left above the c low bits is a multiple of the place value. */
  lemma {:induction false} LowIsRemainder(x: nat, c: nat) returns (q: nat)
    ensures x == q * Pow2(c) + Low(x, c)
  {
    if c == 0 {
      q := x;
    } else {
      q := LowIsRemainder(x / 2, c - 1);
      Double(q, Pow2(c - 1));
    }
  }

  lemma Double(q: nat, p: nat)
    ensures q * (2 * p) == 2 * (q * p)
  {
  }

  lemma {:induction false} LowAll(x: nat, k: nat)
    requires x < Pow2(k)
    ensures Low(x, k) == x
  {
    if k > 0 {
      LowAll(x / 2, k - 1);
    }
  }

  lemma OddHalf(p: nat)
    requires p > 0
    ensures (2 * p - 1) % 2 == 1 && (2 * p - 1) / 2 == p - 1
  {
  }

  /** Masking with the c low bits keeps them. */
  lemma {:induction false} AndLower(x: nat, c: nat)
    ensures And(x, LowerMask(c)) == Low(x, c)
    decreases c
  {
    if c == 0 {
      AndZero(x);
    } else {
      hide And, Low, Pow2;
      PowStep(c);
      AndStep(x, LowerMask(c));
      LowStep(x, c);
      OddHalf(Pow2(c - 1));
      AndLower(x / 2, c - 1);
    }
  }

  lemma {:induction false} AndZero(x: nat)
    ensures And(x, 0) == 0
  {
    if x > 0 {
      AndZero(x / 2);
    }
  }

  lemma PowStep(k: nat)
    requires k > 0
    ensures Pow2(k) == 2 * Pow2(k - 1)
  {
  }

  lemma AndStep(x: nat, y: nat)
    ensures And(x, y) == (if x % 2 == 1 && y % 2 == 1 then 1 else 0) + 2 * And(x / 2, y / 2)
  {
  }

  lemma Halves(half: nat)
    ensures 2 * half % 2 == 0 && 2 * half / 2 == half
  {
  }

  lemma AndEven(x: nat, half: nat)
    ensures And(x, 2 * half) == 2 * And(x / 2, half)
  {
    hide And;
    AndStep(x, 2 * half);
    Halves(half);
  }

  lemma LowStep(x: nat, c: nat)
    requires c > 0
    ensures Low(x, c) == x % 2 + 2 * Low(x / 2, c - 1)
  {
  }

  lemma BandStep(x: nat, half: nat, c: nat)
    requires c > 0 && And(x / 2, half) == x / 2 - Low(x / 2, c - 1)
    ensures And(x, 2 * half) == x - Low(x, c)
  {
    hide And, Low;
    LowStep(x, c);
    AndEven(x, half);
  }

  /** Masking with the bits from c up to k removes the c low bits. */
  lemma {:induction false} AndBand(x: nat, c: nat, k: nat)
    requires c <= k && x < Pow2(k)
    ensures Pow2(c) <= Pow2(k) && And(x, Pow2(k) - Pow2(c)) == x - Low(x, c)
    decreases k
  {
    hide And, Low, Pow2;
    PowOrder(c, k);
    if c == 0 {
      AndLower(x, k);
      LowAll(x, k);
      assert Pow2(0) == 1 by { PowZero(); }
    } else {
      PowOrder(c - 1, k - 1);
      PowStep(k);
      PowStep(c);
      AndBand(x / 2, c - 1, k - 1);
      BandStep(x, Pow2(k - 1) - Pow2(c - 1), c);
    }
  }

  lemma PowZero()
    ensures Pow2(0) == 1
  {
  }

  lemma {:induction false} PowOrder(c: nat, k: nat)
    requires c <= k
    ensures Pow2(c) <= Pow2(k)
    decreases k
  {
    if c < k {
      PowOrder(c, k - 1);
    }
  }

  lemma IntMaxIsMask()
    ensures Pow2(31) - 1 == INT_MAX
  {
    assert Pow2(8) == 256;
    assert Pow2(16) == 65536;
    assert Pow2(24) == 0x100_0000;
    assert Pow2(31) == 0x8000_0000;
  }

  lemma AndUpper(x: nat, c: nat)
    requires c <= 31 && x <= INT_MAX
    ensures UpperMask(c) >= 0 && And(x, UpperMask(c)) == x - Low(x, c)
  {
    IntMaxIsMask();
    PowOrder(c, 31);
    AndBand(x, c, 31);
  }

  lemma XorEven(x: nat, half: nat)
    ensures Xor(x, 2 * half) == x % 2 + 2 * Xor(x / 2, half)
  {
    hide Xor;
    XorStep(x, 2 * half);
    Halves(half);
  }

  lemma XorStep(x: nat, y: nat)
    ensures Xor(x, y) == (if x % 2 == y % 2 then 0 else 1) + 2 * Xor(x / 2, y / 2)
  {
  }

  lemma BitStep(x: nat, k: nat)
    requires k > 0
    ensures Bit(x, k) == Bit(x / 2, k - 1)
  {
  }

  /** Flipping the lowest bit. */
  lemma XorOne(x: nat)
    ensures Xor(x, 1) == x - x % 2 + (1 - x % 2)
  {
    XorZero(x / 2);
  }

  /** Flipping bit k adds or subtracts its place value. */
  lemma {:induction false} XorBit(x: nat, k: nat)
    ensures Xor(x, Pow2(k)) == if Bit(x, k) == 1 then x - Pow2(k) else x + Pow2(k)
    ensures Bit(x, k) == 1 ==> x >= Pow2(k)
    ensures Bit(x, k) <= 1
    decreases k
  {
    if k == 0 {
      XorOne(x);
    } else {
      hide Xor, Pow2, Bit;
      XorBit(x / 2, k - 1);
      PowStep(k);
      BitStep(x, k);
      XorEven(x, Pow2(k - 1));
    }
  }

  lemma {:induction false} XorZero(x: nat)
    ensures Xor(x, 0) == x
  {
    if x > 0 {
      XorZero(x / 2);
    }
  }

  lemma {:induction false} DifferingSame(x: nat)
    ensures Differing(x, x) == 0
  {
    if x > 0 {
      DifferingSame(x / 2);
    }
  }

  lemma DifferingStep(x: nat, y: nat)
    ensures Differing(x, y) == (if x % 2 == y % 2 then 0 else 1) + Differing(x / 2, y / 2)
  {
  }

  /** A number and its mutant differ in exactly one bit. */
  lemma {:induction false} MutantDiffersOnce(x: nat, k: nat)
    ensures Differing(x, Xor(x, Pow2(k))) == 1
    decreases k
  {
    hide Xor, Differing;
    DifferingStep(x, Xor(x, Pow2(k)));
    if k == 0 {
      XorOne(x);
      DifferingSame(x / 2);
    } else {
      hide Pow2;
      PowStep(k);
      XorEven(x, Pow2(k - 1));
      MutantDiffersOnce(x / 2, k - 1);
    }
  }

  /** ... namely in bit k. */
  lemma {:induction false} MutantDiffersAt(x: nat, k: nat, j: nat)
    ensures Bit(Xor(x, Pow2(k)), j) != Bit(x, j) <==> j == k
    decreases k
  {
    if k == 0 {
      XorOne(x);
      if j > 0 {
        BitStep(x, j);
        BitStep(Xor(x, 1), j);
      }
    } else {
      hide Xor, Pow2, Bit;
      PowStep(k);
      XorEven(x, Pow2(k - 1));
      LowAndRest(x % 2, Xor(x / 2, Pow2(k - 1)));
      if j == 0 {
        LowestBit(x);
        LowestBit(Xor(x, Pow2(k)));
      } else {
        BitStep(x, j);
        BitStep(Xor(x, Pow2(k)), j);
        MutantDiffersAt(x / 2, k - 1, j - 1);
      }
    }
  }

  lemma LowestBit(x: nat)
    ensures Bit(x, 0) == x % 2
  {
  }

  lemma LowAndRest(low: nat, rest: nat)
    requires low < 2
    ensures (low + 2 * rest) % 2 == low && (low + 2 * rest) / 2 == rest
  {
  }

  /** The high bits of one number with the low bits of another: the quotient of the one by the place value, and the
      remainder of the other. */
  lemma HighAndLow(x: nat, y: nat, c: nat)
    ensures (x - Low(x, c) + Low(y, c)) / Pow2(c) == x / Pow2(c)
    ensures (x - Low(x, c) + Low(y, c)) % Pow2(c) == y % Pow2(c)
  {
    var p := Pow2(c);
    var q := LowIsRemainder(x, c);
    var r := LowIsRemainder(y, c);
    Reals.DivModUnique(x, p, q, Low(x, c));
    Reals.DivModUnique(y, p, r, Low(y, c));
    Reals.DivModUnique(x - Low(x, c) + Low(y, c), p, q, Low(y, c));
  }

  /** The high bits of one number with the low bits of another stay below a power of two. */
  lemma {:induction false} CrossBound(x: nat, y: nat, c: nat, bits: nat)
    requires c <= bits && x < Pow2(bits) && y < Pow2(bits)
    ensures x - Low(x, c) + Low(y, c) < Pow2(bits)
    decreases c
  {
    if c > 0 {
      CrossBound(x / 2, y / 2, c - 1, bits - 1);
    }
  }

  /** Flipping a bit below the top keeps a number below a power of two. */
  lemma {:induction false} FlipBound(x: nat, k: nat, bits: nat)
    requires k < bits && x < Pow2(bits)
    ensures Xor(x, Pow2(k)) < Pow2(bits)
    decreases k
  {
    PowStep(bits);
    if k == 0 {
      XorOne(x);
    } else {
      hide Xor, Pow2;
      PowStep(k);
      XorEven(x, Pow2(k - 1));
      FlipBound(x / 2, k - 1, bits - 1);
    }
  }

  /** Some bit below `bits` is zero unless they are all ones. */
  lemma {:induction false} ZeroBit(r: nat, bits: nat) returns (k: nat)
    requires r + 1 < Pow2(bits)
    ensures k < bits && Bit(r, k) == 0
  {
    if r % 2 == 0 {
      k := 0;
    } else {
      k := ZeroBit(r / 2, bits - 1);
      k := k + 1;
    }
  }

  lemma {:induction false} BitBelowTop(r: nat, bits: nat, k: nat)
    requires k < bits
    ensures Bit(r + Pow2(bits), k) == Bit(r, k)
    decreases k
  {
    assert Pow2(bits) % 2 == 0 && Pow2(bits) / 2 == Pow2(bits - 1);
    if k > 0 {
      assert (r + Pow2(bits)) / 2 == r / 2 + Pow2(bits - 1);
      BitBelowTop(r / 2, bits - 1, k - 1);
    }
  }

  /** Flipping one of the `bits` low bits keeps every number below n below n, where `bits` is the integer
      logarithm of n, exactly when n is a power of two. */
  lemma FlipsStayBelow(n: nat, bits: nat)
    requires Pow2(bits) <= n < Pow2(bits + 1)
    ensures (forall x: nat, k: nat | x < n && k < bits :: Xor(x, Pow2(k)) < n) <==> n == Pow2(bits)
  {
    if n == Pow2(bits) {
      forall x: nat, k: nat | x < n && k < bits ensures Xor(x, Pow2(k)) < n {
        FlipBound(x, k, bits);
      }
    } else {
      var r := n - 1 - Pow2(bits);
      var k := ZeroBit(r, bits);
      BitBelowTop(r, bits, k);
      XorBit(n - 1, k);
      assert !(Xor(n - 1, Pow2(k)) < n);
    }
  }
}
