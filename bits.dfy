// Integer bit arithmetic as Python performs it. Python integers are unbounded
// and `&`, `|`, `^`, `~` and the shifts act on their two's-complement form,
// in which a negative number carries infinitely many set bits. A bitboard is
// a non-negative integer whose bit i stands for square i (0 = a1, 7 = h1,
// 56 = a8, 63 = h8); `uint64` brings any integer back below 2^64.
module Bits {

  /** 2 to the power n. */
  function Pow2(n: nat): (r: int)
    ensures r >= 1
  {
    if n == 0 then 1 else 2 * Pow2(n - 1)
  }

  const Two64: int := 0x1_0000_0000_0000_0000

  /** `ones_64`, the mask of all 64 squares. */
  const Ones64: int := 0xffff_ffff_ffff_ffff

  lemma {:induction false} Pow2Add(n: nat, k: nat)
    ensures Pow2(n + k) == Pow2(n) * Pow2(k)
  {
    if k > 0 { Pow2Add(n, k - 1); }
  }

  lemma Pow2Of64()
    ensures Pow2(64) == Two64 && Ones64 == Two64 - 1
  {
    assert Pow2(8) == 256;
    Pow2Add(8, 8);
    assert Pow2(16) == 0x1_0000;
    Pow2Add(16, 16);
    assert Pow2(32) == 0x1_0000_0000;
    Pow2Add(32, 32);
  }

  /** Bit i of x in two's complement. */
  predicate Bit(x: int, i: nat)
    decreases i
  {
    if i == 0 then x % 2 == 1 else Bit(x / 2, i - 1)
  }

  /** A measure that halving decreases everywhere except at its fixed points 0 and -1. */
  function Size(x: int): nat
  {
    if x >= 0 then x else -x - 1
  }

  /** Python's `x & y`. */
  function And(x: int, y: int): int
    decreases Size(x) + Size(y)
  {
    if x == 0 || y == 0 then 0
    else if x == -1 then y
    else if y == -1 then x
    else 2 * And(x / 2, y / 2) + (if x % 2 == 1 && y % 2 == 1 then 1 else 0)
  }

  /** Python's `x | y`. */
  function Or(x: int, y: int): int
    decreases Size(x) + Size(y)
  {
    if x == 0 then y
    else if y == 0 then x
    else if x == -1 || y == -1 then -1
    else 2 * Or(x / 2, y / 2) + (if x % 2 == 1 || y % 2 == 1 then 1 else 0)
  }

  /** Python's `x ^ y`. */
  function Xor(x: int, y: int): int
    decreases Size(x) + Size(y)
  {
    if x == 0 then y
    else if y == 0 then x
    else if x == -1 then -y - 1
    else if y == -1 then -x - 1
    else 2 * Xor(x / 2, y / 2) + (if x % 2 != y % 2 then 1 else 0)
  }

  /** Python's `~x`. */
  function Not(x: int): int
  {
    -x - 1
  }

  /** Python's `x << n`. */
  function Shl(x: int, n: nat): int
  {
    if n == 0 then x else 2 * Shl(x, n - 1)
  }

  /** Python's `x >> n`, a division by 2^n rounded towards minus infinity. */
  function Shr(x: int, n: nat): int
    decreases n
  {
    if n == 0 then x else Shr(x / 2, n - 1)
  }

  // ----- the bits of the constants -----

  lemma {:induction false} BitZero(i: nat)
    ensures !Bit(0, i)
  {
    if i > 0 { BitZero(i - 1); }
  }

  lemma {:induction false} BitMinusOne(i: nat)
    ensures Bit(-1, i)
  {
    if i > 0 { BitMinusOne(i - 1); }
  }

  lemma BitOne(i: nat)
    ensures Bit(1, i) <==> i == 0
  {
    if i > 0 { BitZero(i - 1); }
  }

  /** 2^k has exactly bit k set. */
  lemma {:induction false} Pow2Bit(k: nat, i: nat)
    ensures Bit(Pow2(k), i) <==> i == k
  {
    if k == 0 { BitOne(i); }
    else if i > 0 { Pow2Bit(k - 1, i - 1); }
  }

  /** 2^k - 1 has exactly bits 0 .. k - 1 set. */
  lemma {:induction false} LowOnesBit(k: nat, i: nat)
    ensures Bit(Pow2(k) - 1, i) <==> i < k
  {
    if k == 0 { BitZero(i); }
    else if i > 0 { LowOnesBit(k - 1, i - 1); }
  }

  lemma OnesBit(i: nat)
    ensures Bit(Ones64, i) <==> i < 64
  {
    Pow2Of64();
    LowOnesBit(64, i);
  }

  // ----- bits of the results of the operations -----

  lemma {:induction false} BitAnd(x: int, y: int, i: nat)
    ensures Bit(And(x, y), i) <==> Bit(x, i) && Bit(y, i)
    decreases i
  {
    if x == 0 || y == 0 { BitZero(i); }
    else if x == -1 || y == -1 { BitMinusOne(i); }
    else if i > 0 { BitAnd(x / 2, y / 2, i - 1); }
  }

  lemma {:induction false} BitOr(x: int, y: int, i: nat)
    ensures Bit(Or(x, y), i) <==> Bit(x, i) || Bit(y, i)
    decreases i
  {
    if x == 0 || y == 0 { BitZero(i); }
    else if x == -1 || y == -1 { BitMinusOne(i); }
    else if i > 0 { BitOr(x / 2, y / 2, i - 1); }
  }

  lemma {:induction false} BitNot(x: int, i: nat)
    ensures Bit(Not(x), i) <==> !Bit(x, i)
    decreases i
  {
    if i > 0 { BitNot(x / 2, i - 1); }
  }

  lemma {:induction false} BitXor(x: int, y: int, i: nat)
    ensures Bit(Xor(x, y), i) <==> Bit(x, i) != Bit(y, i)
    decreases i
  {
    if x == 0 || y == 0 { BitZero(i); }
    else if x == -1 { BitMinusOne(i); BitNot(y, i); }
    else if y == -1 { BitMinusOne(i); BitNot(x, i); }
    else if i > 0 { BitXor(x / 2, y / 2, i - 1); }
  }

  lemma {:induction false} ShlBit(x: int, n: nat, i: nat)
    ensures Bit(Shl(x, n), i) <==> n <= i && Bit(x, i - n)
  {
    if n > 0 && i > 0 { ShlBit(x, n - 1, i - 1); }
  }

  lemma {:induction false} ShrBit(x: int, n: nat, i: nat)
    ensures Bit(Shr(x, n), i) <==> Bit(x, i + n)
    decreases n
  {
    if n > 0 { ShrBit(x / 2, n - 1, i); }
  }

  /** Python's `1 << i`, the one-square mask of square i. */
  function Single(i: nat): int
  {
    Shl(1, i)
  }

  lemma SingleBit(i: nat, j: nat)
    ensures Bit(Single(i), j) <==> j == i
  {
    ShlBit(1, i, j);
    if i <= j { BitOne(j - i); }
  }

  lemma {:induction false} SingleIsPow2(i: nat)
    ensures Single(i) == Pow2(i)
  {
    if i > 0 { SingleIsPow2(i - 1); }
  }

  /** Or-ing in a bit that is clear adds its value. */
  lemma {:induction false} OrPow2(x: int, k: nat)
    requires x >= 0 && !Bit(x, k)
    ensures Or(x, Pow2(k)) == x + Pow2(k)
    decreases k
  {
    if k > 0 && x != 0 {
      assert Pow2(k) / 2 == Pow2(k - 1) && Pow2(k) % 2 == 0;
      OrPow2(x / 2, k - 1);
    }
  }

  lemma {:induction false} AndNonNegative(x: int, y: int)
    requires x >= 0
    ensures And(x, y) >= 0
    decreases Size(x) + Size(y)
  {
    if x != 0 && y != 0 && y != -1 { AndNonNegative(x / 2, y / 2); }
  }

  lemma {:induction false} AndNonNegativeRight(x: int, y: int)
    requires y >= 0
    ensures And(x, y) >= 0
    decreases Size(x) + Size(y)
  {
    if x != 0 && y != 0 && x != -1 { AndNonNegativeRight(x / 2, y / 2); }
  }

  lemma {:induction false} XorNonNegative(x: int, y: int)
    requires x >= 0 && y >= 0
    ensures Xor(x, y) >= 0
    decreases Size(x) + Size(y)
  {
    if x != 0 && y != 0 { XorNonNegative(x / 2, y / 2); }
  }

  lemma {:induction false} OrNonNegative(x: int, y: int)
    requires x >= 0 && y >= 0
    ensures Or(x, y) >= 0
    decreases Size(x) + Size(y)
  {
    if x != 0 && y != 0 { OrNonNegative(x / 2, y / 2); }
  }

  lemma {:induction false} ShlPow2(a: nat, n: nat)
    ensures Shl(Pow2(a), n) == Pow2(a + n)
  {
    if n > 0 { ShlPow2(a, n - 1); }
  }

  lemma {:induction false} ShrPow2(a: nat, n: nat)
    requires n <= a
    ensures Shr(Pow2(a), n) == Pow2(a - n)
    decreases n
  {
    if n > 0 {
      assert Pow2(a) / 2 == Pow2(a - 1);
      ShrPow2(a - 1, n - 1);
    }
  }

  /** A left shift multiplies by a power of two. */
  lemma {:induction false} ShlMul(x: int, n: nat)
    ensures Shl(x, n) == x * Pow2(n)
  {
    if n > 0 { ShlMul(x, n - 1); }
  }

  lemma {:induction false} ShlZero(n: nat)
    ensures Shl(0, n) == 0
  {
    if n > 0 { ShlZero(n - 1); }
  }

  lemma {:induction false} ShrZero(n: nat)
    ensures Shr(0, n) == 0
    decreases n
  {
    if n > 0 { ShrZero(n - 1); }
  }

  // ----- numbers are determined by their bits -----

  lemma {:induction false} Ext(x: int, y: int)
    requires forall i: nat :: Bit(x, i) <==> Bit(y, i)
    ensures x == y
    decreases Size(x) + Size(y)
  {
    assert Bit(x, 0) <==> Bit(y, 0);
    if !((x == 0 || x == -1) && (y == 0 || y == -1)) {
      forall i: nat ensures Bit(x / 2, i) <==> Bit(y / 2, i) {
        assert Bit(x, i + 1) <==> Bit(y, i + 1);
      }
      Ext(x / 2, y / 2);
    }
  }

  lemma NoBitsZero(x: int)
    requires forall i: nat :: !Bit(x, i)
    ensures x == 0
  {
    forall i: nat ensures Bit(x, i) <==> Bit(0, i) { BitZero(i); }
    Ext(x, 0);
  }

  /** Every set bit of a number in [0, 2^k) lies below k. */
  lemma {:induction false} BoundBits(x: int, k: nat, i: nat)
    requires 0 <= x < Pow2(k) && k <= i
    ensures !Bit(x, i)
  {
    if k == 0 { BitZero(i); } else { BoundBits(x / 2, k - 1, i - 1); }
  }

  /** A number whose bits from k up are all clear lies in [0, 2^k). */
  lemma {:induction false} BitsBound(x: int, k: nat)
    requires forall i: nat :: k <= i ==> !Bit(x, i)
    ensures 0 <= x < Pow2(k)
    decreases k
  {
    if k == 0 {
      NoBitsZero(x);
    } else {
      forall i: nat | k - 1 <= i ensures !Bit(x / 2, i) {
        assert !Bit(x, i + 1);
      }
      BitsBound(x / 2, k - 1);
    }
  }

  /** A bitboard: a non-negative number below 2^64. */
  predicate IsBoard(x: int)
  {
    0 <= x < Two64
  }

  lemma BoardBits(x: int, i: nat)
    requires IsBoard(x) && 64 <= i
    ensures !Bit(x, i)
  {
    Pow2Of64();
    BoundBits(x, 64, i);
  }

  lemma BitsBoard(x: int)
    requires forall i: nat :: 64 <= i ==> !Bit(x, i)
    ensures IsBoard(x)
  {
    Pow2Of64();
    BitsBound(x, 64);
  }

  // ----- masking with 2^k - 1 is reduction modulo 2^k -----

  lemma {:induction false} MulAtLeast(m: int, k: int)
    requires m > 0 && k >= 1
    ensures m * k >= m
    decreases k
  {
    if k > 1 {
      MulAtLeast(m, k - 1);
      assert m * k == m * (k - 1) + m;
    }
  }

  /** Quotient and remainder are unique. */
  lemma DivModUnique(v: int, m: int, t: int, w: int)
    requires m > 0 && v == m * t + w && 0 <= w < m
    ensures v % m == w && v / m == t
  {
    var q, r := v / m, v % m;
    assert m * q + r == m * t + w;
    if q > t {
      assert m * (q - t) == w - r;
      MulAtLeast(m, q - t);
    } else if q < t {
      assert m * (t - q) == r - w;
      MulAtLeast(m, t - q);
    }
  }

  lemma ModHalf(v: int, p: int)
    requires p >= 1
    ensures v % (2 * p) == 2 * ((v / 2) % p) + v % 2
  {
    var q, r := v / 2, v % 2;
    var t, u := q / p, q % p;
    assert v == (2 * p) * t + (2 * u + r);
    DivModUnique(v, 2 * p, t, 2 * u + r);
  }

  /** `v & (2^k - 1)` is v modulo 2^k, for negative v too. */
  lemma {:induction false} AndLowOnes(v: int, k: nat)
    ensures And(v, Pow2(k) - 1) == v % Pow2(k)
    decreases k
  {
    if k > 0 && v != 0 {
      var p := Pow2(k - 1);
      if v == -1 {
        DivModUnique(-1, Pow2(k), -1, Pow2(k) - 1);
      } else {
        assert (Pow2(k) - 1) / 2 == p - 1 && (Pow2(k) - 1) % 2 == 1;
        AndLowOnes(v / 2, k - 1);
        ModHalf(v, p);
      }
    }
  }

  // ----- the lowest set bit: `x & -x` and `x & (x - 1)` -----

  /** Index of the lowest set bit of a positive number. */
  function LowIndex(x: int): (l: nat)
    requires x > 0
    ensures Pow2(l) <= x
    decreases x
  {
    if x % 2 == 1 then 0 else 1 + LowIndex(x / 2)
  }

  ghost predicate IsLowest(x: int, l: nat)
  {
    Bit(x, l) && forall j: nat :: j < l ==> !Bit(x, j)
  }

  ghost predicate IsHighest(x: int, h: nat)
  {
    Bit(x, h) && forall j: nat :: h < j ==> !Bit(x, j)
  }

  lemma {:induction false} LowIndexLowest(x: int)
    requires x > 0
    ensures IsLowest(x, LowIndex(x))
    decreases x
  {
    if x % 2 == 0 {
      LowIndexLowest(x / 2);
      forall j: nat | j < LowIndex(x) ensures !Bit(x, j) {
        if j > 0 { assert !Bit(x / 2, j - 1); }
      }
    }
  }

  lemma LowestUnique(x: int, l: nat, k: nat)
    requires IsLowest(x, l) && IsLowest(x, k)
    ensures l == k
  {}

  lemma HighestUnique(x: int, h: nat, k: nat)
    requires IsHighest(x, h) && IsHighest(x, k)
    ensures h == k
  {}

  lemma {:induction false} AndSelf(x: int)
    ensures And(x, x) == x
    decreases Size(x)
  {
    if x != 0 && x != -1 { AndSelf(x / 2); }
  }

  /** A number and its complement share no bit. */
  lemma {:induction false} AndNotSelf(x: int)
    ensures And(x, Not(x)) == 0
    decreases Size(x)
  {
    if x != 0 && x != -1 { AndNotSelf(x / 2); }
  }

  /** `x & -x` isolates the lowest set bit of a positive x. */
  lemma {:induction false} AndNeg(x: int)
    requires x > 0
    ensures And(x, -x) == Pow2(LowIndex(x))
    decreases x
  {
    if x % 2 == 1 {
      if x != 1 { AndNotSelf(x / 2); }
    } else {
      AndNeg(x / 2);
    }
  }

  /** `x & (x - 1)` clears the lowest set bit of a positive x. */
  lemma {:induction false} AndPred(x: int)
    requires x > 0
    ensures And(x, x - 1) == x - Pow2(LowIndex(x))
    decreases x
  {
    if x % 2 == 1 {
      if x != 1 { AndSelf(x / 2); }
    } else {
      AndPred(x / 2);
    }
  }

  /** Removing the lowest set bit keeps every other bit. */
  lemma {:induction false} ClearLowestBit(x: int, i: nat)
    requires x > 0
    ensures Bit(x - Pow2(LowIndex(x)), i) <==> Bit(x, i) && i != LowIndex(x)
    decreases x
  {
    if x % 2 == 0 && i > 0 { ClearLowestBit(x / 2, i - 1); }
  }

  // ----- `int.bit_length` -----

  function NatBitLength(x: nat): nat
  {
    if x == 0 then 0 else 1 + NatBitLength(x / 2)
  }

  /** Python's `x.bit_length()`, which measures the absolute value. */
  function BitLength(x: int): nat
  {
    NatBitLength(if x >= 0 then x else -x)
  }

  lemma {:induction false} BitLengthPow2(k: nat)
    ensures BitLength(Pow2(k)) == k + 1
  {
    if k > 0 { BitLengthPow2(k - 1); }
  }

  /** The bit length of a non-negative number is one past its highest set bit. */
  lemma {:induction false} BitLengthBounds(x: int)
    requires x >= 0
    ensures x < Pow2(BitLength(x))
    ensures x > 0 ==> Pow2(BitLength(x) - 1) <= x
  {
    if x > 0 { BitLengthBounds(x / 2); }
  }

  lemma BitLengthHighest(x: int)
    requires x > 0
    ensures BitLength(x) >= 1 && IsHighest(x, BitLength(x) - 1)
  {
    var n := BitLength(x);
    BitLengthBounds(x);
    forall j: nat | n <= j ensures !Bit(x, j) { BoundBits(x, n, j); }
    BitLengthTop(x);
  }

  lemma {:induction false} BitLengthTop(x: int)
    requires x > 0
    ensures BitLength(x) >= 1 && Bit(x, BitLength(x) - 1)
    decreases x
  {
    if x > 1 { BitLengthTop(x / 2); }
  }

  lemma BitLengthZero(x: int)
    ensures BitLength(x) == 0 <==> x == 0
  {}

  // ----- the list of set squares -----

  ghost predicate StrictlyIncreasing(s: seq<nat>)
  {
    forall i, j :: 0 <= i < j < |s| ==> s[i] < s[j]
  }

  /** The indices of the set bits of x in increasing order, each offset by `base`. */
  function Positions(x: int, base: nat): seq<nat>
    requires x >= 0
    decreases x
  {
    if x == 0 then [] else (if x % 2 == 1 then [base] else []) + Positions(x / 2, base + 1)
  }

  lemma {:induction false} PositionsMem(x: int, base: nat, p: nat)
    requires x >= 0
    ensures p in Positions(x, base) <==> base <= p && Bit(x, p - base)
    decreases x
  {
    if x == 0 {
      if base <= p { BitZero(p - base); }
    } else {
      PositionsMem(x / 2, base + 1, p);
    }
  }

  lemma {:induction false} PositionsRange(x: int, base: nat)
    requires x >= 0
    ensures forall k :: 0 <= k < |Positions(x, base)| ==> base <= Positions(x, base)[k]
    decreases x
  {
    if x > 0 { PositionsRange(x / 2, base + 1); }
  }

  lemma {:induction false} PositionsSorted(x: int, base: nat)
    requires x >= 0
    ensures StrictlyIncreasing(Positions(x, base))
    decreases x
  {
    if x > 0 {
      PositionsSorted(x / 2, base + 1);
      PositionsRange(x / 2, base + 1);
    }
  }

  /** The square list holds exactly the set squares, each once, in strictly ascending order. */
  lemma PositionsSpec(x: int, base: nat)
    requires x >= 0
    ensures StrictlyIncreasing(Positions(x, base))
    ensures forall p: nat :: p in Positions(x, base) <==> base <= p && Bit(x, p - base)
    ensures Positions(x, base) == [] <==> x == 0
  {
    PositionsSorted(x, base);
    forall p: nat ensures p in Positions(x, base) <==> base <= p && Bit(x, p - base) {
      PositionsMem(x, base, p);
    }
    if x > 0 {
      LowIndexLowest(x);
      PositionsMem(x, base, base + LowIndex(x));
    }
  }

  /** The first entry is the lowest set square. */
  lemma {:induction false} PositionsHead(x: int, base: nat)
    requires x > 0
    ensures Positions(x, base) != [] && Positions(x, base)[0] == base + LowIndex(x)
    decreases x
  {
    if x % 2 == 0 { PositionsHead(x / 2, base + 1); }
  }

  /** Clearing the lowest set bit drops the first entry. */
  lemma {:induction false} PositionsClearLowest(x: int, base: nat)
    requires x > 0
    ensures Positions(x, base) != []
    ensures Positions(x - Pow2(LowIndex(x)), base) == Positions(x, base)[1..]
    decreases x
  {
    PositionsHead(x, base);
    if x % 2 == 0 { PositionsClearLowest(x / 2, base + 1); }
  }

  /** Python's `bin(x).count('1')` for a non-negative x: the number of set bits. */
  function PopCount(x: int): nat
    requires x >= 0
  {
    |Positions(x, 0)|
  }

  /** Setting a clear bit adds one square to the list. */
  lemma {:induction false} PositionsAddBit(x: int, k: nat, base: nat)
    requires x >= 0 && !Bit(x, k)
    ensures |Positions(x + Pow2(k), base)| == |Positions(x, base)| + 1
    decreases k
  {
    if k > 0 {
      assert (x + Pow2(k)) / 2 == x / 2 + Pow2(k - 1);
      PositionsAddBit(x / 2, k - 1, base + 1);
    }
  }

  /** A bitboard's squares all lie on the board. */
  lemma BoardPositions(x: int)
    requires IsBoard(x)
    ensures forall k :: 0 <= k < |Positions(x, 0)| ==> Positions(x, 0)[k] < 64
  {
    forall k | 0 <= k < |Positions(x, 0)| ensures Positions(x, 0)[k] < 64 {
      var p := Positions(x, 0)[k];
      PositionsMem(x, 0, p);
      if p >= 64 { BoardBits(x, p); }
    }
  }

  // ----- files and ranks (0-based: file 0 = a, rank 0 = 1) -----

  function FileOf(i: nat): nat
  {
    i % 8
  }

  function RankOf(i: nat): nat
  {
    i / 8
  }

  // ----- bits and bytes as quotients -----

  /** Dividing by a and then by b is dividing by a * b. */
  lemma DivDiv(x: int, a: int, b: int)
    requires a > 0 && b > 0
    ensures x / a / b == x / (a * b)
  {
    var q1, r1 := x / a, x % a;
    var q2, r2 := q1 / b, q1 % b;
    MulAdd(a, b * q2, r2);
    MulAssoc(a, b, q2);
    MulLe(a, r2, b - 1);
    MulAdd(a, b, -1);
    DivModUnique(x, a * b, q2, a * r2 + r1);
  }

  lemma MulAdd(a: int, u: int, v: int)
    ensures a * (u + v) == a * u + a * v
  {}

  lemma MulAssoc(a: int, u: int, v: int)
    ensures a * (u * v) == (a * u) * v
  {}

  lemma MulLe(a: int, u: int, v: int)
    requires a >= 0 && u <= v
    ensures a * u <= a * v
  {
    MulAdd(a, u, v - u);
  }

  /** A right shift by n is a division by 2^n. */
  lemma {:induction false} ShrDiv(x: int, n: nat)
    ensures Shr(x, n) == x / Pow2(n)
    decreases n
  {
    if n > 0 {
      ShrDiv(x / 2, n - 1);
      DivDiv(x, 2, Pow2(n - 1));
    }
  }

  /** Bit i of x is the parity of x / 2^i. */
  lemma BitDiv(x: int, i: nat)
    ensures Bit(x, i) <==> x / Pow2(i) % 2 == 1
  {
    ShrBit(x, i, 0);
    ShrDiv(x, i);
  }

  /** The eight lowest bits of x are those of x % 256. */
  lemma LowByteBit(x: int, r: nat)
    requires r < 8
    ensures Bit(x % 256, r) <==> Bit(x, r)
  {
    assert Pow2(8) == 256;
    AndLowOnes(x, 8);
    BitAnd(x, 255, r);
    LowOnesBit(8, r);
  }

  /** Bit 8q + r of x is bit r of its byte q. */
  lemma ByteBit(x: int, q: nat, r: nat)
    requires r < 8
    ensures Bit(x, 8 * q + r) <==> Bit(x / Pow2(8 * q) % 256, r)
  {
    ShrBit(x, 8 * q, r);
    ShrDiv(x, 8 * q);
    LowByteBit(x / Pow2(8 * q), r);
  }

  /** The powers of two that start the eight bytes of a bitboard. */
  lemma Pow2Bytes()
    ensures Pow2(0) == 1 && Pow2(8) == 0x100 && Pow2(16) == 0x1_0000 && Pow2(24) == 0x100_0000
    ensures Pow2(32) == 0x1_0000_0000 && Pow2(40) == 0x100_0000_0000
    ensures Pow2(48) == 0x1_0000_0000_0000 && Pow2(56) == 0x100_0000_0000_0000
  {
    assert Pow2(8) == 0x100;
    Pow2Add(8, 8);
    Pow2Add(16, 8);
    Pow2Add(24, 8);
    Pow2Add(32, 8);
    Pow2Add(40, 8);
    Pow2Add(48, 8);
  }

  /** Byte q of x, for the eight bytes of a bitboard. */
  function ByteOf(x: int, q: nat): int
    requires q < 8
  {
    x / [1, 0x100, 0x1_0000, 0x100_0000, 0x1_0000_0000, 0x100_0000_0000,
         0x1_0000_0000_0000, 0x100_0000_0000_0000][q] % 256
  }

  /** Bit i of a bitboard is bit i % 8 of its byte i / 8. */
  lemma BoardByteBit(x: int, i: nat)
    requires IsBoard(x)
    ensures Bit(x, i) <==> i < 64 && Bit(ByteOf(x, i / 8), i % 8)
  {
    if i >= 64 {
      BoardBits(x, i);
    } else {
      Pow2Bytes();
      var q := i / 8;
      ByteBit(x, q, i % 8);
      assert Pow2(8 * q) == [1, 0x100, 0x1_0000, 0x100_0000, 0x1_0000_0000, 0x100_0000_0000,
        0x1_0000_0000_0000, 0x100_0000_0000_0000][q];
    }
  }

  /** Every byte of b * 0x0101010101010101 is b. */
  lemma UniformByte(b: int, q: nat)
    requires 0 <= b < 256 && q < 8
    ensures ByteOf(b * 0x01_01_01_01_01_01_01_01, q) == b
  {
    var c := b * 0x01_01_01_01_01_01_01_01;
    var p := [1, 0x100, 0x1_0000, 0x100_0000, 0x1_0000_0000, 0x100_0000_0000,
      0x1_0000_0000_0000, 0x100_0000_0000_0000][q];
    var hi := [0x01_01_01_01_01_01_01, 0x01_01_01_01_01_01, 0x01_01_01_01_01, 0x01_01_01_01,
      0x01_01_01, 0x01_01, 0x01, 0][q];
    var lo := [0, 0x01, 0x01_01, 0x01_01_01, 0x01_01_01_01, 0x01_01_01_01_01,
      0x01_01_01_01_01_01, 0x01_01_01_01_01_01_01][q];
    assert 0x01_01_01_01_01_01_01_01 == p * (256 * hi + 1) + lo && 0 <= 255 * lo < p by {
      if q == 0 {} else if q == 1 {} else if q == 2 {} else if q == 3 {}
      else if q == 4 {} else if q == 5 {} else if q == 6 {} else {}
    }
    MulLe(b, 0, lo);
    MulLe(lo, b, 255);
    assert c == p * (256 * (b * hi) + b) + b * lo;
    DivModUnique(c, p, 256 * (b * hi) + b, b * lo);
    DivModUnique(256 * (b * hi) + b, 256, b * hi, b);
  }

  /** The bits of a byte, read by division. */
  lemma SmallBit(b: int, r: nat)
    requires r < 8
    ensures Bit(b, r) <==> b / [1, 2, 4, 8, 16, 32, 64, 128][r] % 2 == 1
  {
    BitDiv(b, r);
    var p := [1, 2, 4, 8, 16, 32, 64, 128];
    if r == 0 { assert Pow2(0) == p[0]; }
    else if r == 1 { assert Pow2(1) == p[1]; }
    else if r == 2 { assert Pow2(2) == p[2]; }
    else if r == 3 { assert Pow2(3) == p[3]; }
    else if r == 4 { assert Pow2(4) == p[4]; }
    else if r == 5 { assert Pow2(5) == p[5]; }
    else if r == 6 { assert Pow2(6) == p[6]; }
    else { assert Pow2(7) == p[7]; }
  }
}
