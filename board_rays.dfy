// The rays of board/utils.py (`rays`, `ray`), the bit scans `lsb`, `msb`,
// `lsb_bb`, `msb_bb`, and the sliding attack `ray_moves`, which walks each
// ray up to its first occupied square.
module BoardRays {
  import opened Bits
  import opened BoardUtils

  /** The keys of the `rays` table. */
  datatype Dir = N | NE | E | SE | S | SW | W | NW

  function Min(a: int, b: int): int
  {
    if a <= b then a else b
  }

  function Abs(d: int): int
  {
    if d >= 0 then d else -d
  }

  /** The first entry of `rays[dir]`: how many squares lie beyond the 1-based (file, rank) in dir. */
  function RaySteps(dir: Dir, file: int, rank: int): int
  {
    match dir
    case N => 8 - rank
    case NE => Min(8 - file, 8 - rank)
    case E => 8 - file
    case SE => Min(8 - file, rank - 1)
    case S => rank - 1
    case SW => Min(file - 1, rank - 1)
    case W => file - 1
    case NW => Min(file - 1, 8 - rank)
  }

  /** The second entry of `rays[dir]`: how the square index changes in one step. */
  function StepSize(dir: Dir): int
  {
    match dir
    case N => 8
    case NE => 9
    case E => 1
    case SE => -7
    case S => -8
    case SW => -9
    case W => -1
    case NW => 7
  }

  /** `reduce(int.__or__, [shift(bb, step * s) for s in range(1, n + 1)], 0)`. */
  function RayUnion(bb: int, step: int, n: int): int
    decreases n
  {
    if n <= 0 then 0 else Or(RayUnion(bb, step, n - 1), Shift(bb, step * n))
  }

  /** `ray(src, dir)`: the squares beyond src in direction dir, and whether dir points to higher squares. */
  function Ray(src: nat, dir: Dir): (r: (int, bool))
    ensures r.1 <==> StepSize(dir) > 0
  {
    var srcBb := UInt64(Shl(1, src));
    var (file, rank) := FileRankInt(src);
    var steps := RaySteps(dir, file, rank);
    (RayUnion(srcBb, StepSize(dir), steps), StepSize(dir) > 0)
  }

  // ----- the ray as a set of squares -----

  /** File and rank change of one step (file towards h, rank towards 8). */
  function FileDelta(dir: Dir): int
  {
    match dir
    case N => 0
    case NE => 1
    case E => 1
    case SE => 1
    case S => 0
    case SW => -1
    case W => -1
    case NW => -1
  }

  function RankDelta(dir: Dir): int
  {
    match dir
    case N => 1
    case NE => 1
    case E => 0
    case SE => -1
    case S => -1
    case SW => -1
    case W => 0
    case NW => 1
  }

  /** The length of the ray from a square, read off the table with the square's 1-based coordinates. */
  function RayLen(src: nat, dir: Dir): int
  {
    RaySteps(dir, FileOf(src) + 1, RankOf(src) + 1)
  }

  /** How far i lies from a along steps of sign d (positive when i is ahead of a). */
  function Reach(a: int, d: int, i: int): int
  {
    if d > 0 then i - a else a - i
  }

  /** Square i is s steps of size d away from a, where s = Reach / |d|, for some s in 1..n. */
  predicate InSteps(a: int, d: int, n: int, i: int)
    requires d != 0
  {
    0 < Reach(a, d, i) && Reach(a, d, i) % Abs(d) == 0 && Reach(a, d, i) / Abs(d) <= n
  }

  /** i lies on the ray from the board square src in direction dir. */
  predicate OnRay(src: nat, dir: Dir, i: nat)
  {
    src < 64 && InSteps(src, StepSize(dir), RayLen(src, dir), i)
  }

  /** The square s steps from src in direction dir. */
  function Square(src: int, dir: Dir, s: int): int
  {
    src + StepSize(dir) * s
  }

  /** The number of steps from src to a square of its ray. */
  function StepOf(src: nat, dir: Dir, i: nat): int
  {
    Reach(src, StepSize(dir), i) / Abs(StepSize(dir))
  }

  // ----- arithmetic helpers -----

  lemma MulPositive(m: int, t: int)
    requires m > 0
    ensures m * t > 0 <==> t > 0
  {
    if t >= 1 { MulAtLeast(m, t); }
    else if t < 0 { MulAtLeast(m, -t); assert m * t == -(m * (-t)); }
  }

  /** r is n steps of size m exactly when r / m = n with no remainder. */
  lemma StepCount(r: int, m: int, n: int)
    requires m > 0 && n >= 1
    ensures r == m * n <==> (0 < r && r % m == 0 && r / m == n)
  {
    if r == m * n {
      MulPositive(m, n);
      DivModUnique(r, m, n, 0);
    }
  }

  lemma NoZeroSteps(r: int, m: int)
    requires m > 0 && 0 < r && r % m == 0
    ensures r / m >= 1
  {
    MulPositive(m, r / m);
  }

  // ----- the bits of a ray -----

  lemma {:induction false} RayUnionZero(d: int, n: int)
    ensures RayUnion(0, d, n) == 0
    decreases n
  {
    if n > 0 {
      RayUnionZero(d, n - 1);
      if d * n >= 0 { ShlZero(d * n); } else { ShrZero(-(d * n)); }
    }
  }

  /** The n shifts of 2^a by multiples of d set exactly the squares 1..n steps from a. */
  lemma {:induction false} RayUnionBit(a: nat, d: int, n: int, i: nat)
    requires d != 0
    ensures Bit(RayUnion(Pow2(a), d, n), i) <==> InSteps(a, d, n, i)
    decreases n
  {
    var r, m := Reach(a, d, i), Abs(d);
    if n <= 0 {
      BitZero(i);
      if 0 < r && r % m == 0 { NoZeroSteps(r, m); }
    } else {
      var u := RayUnion(Pow2(a), d, n - 1);
      RayUnionBit(a, d, n - 1, i);
      BitOr(u, Shift(Pow2(a), d * n), i);
      ShiftBit(Pow2(a), d * n, i);
      if i - d * n >= 0 { Pow2Bit(a, i - d * n); }
      if d < 0 { assert m * n == -(d * n); }
      StepCount(r, m, n);
    }
  }

  /** `uint64(1 << src)` is the square's mask on the board and 0 past it. */
  lemma SourceMask(src: nat)
    ensures src < 64 ==> UInt64(Shl(1, src)) == Pow2(src)
    ensures src >= 64 ==> UInt64(Shl(1, src)) == 0
  {
    SingleIsPow2(src);
    if src < 64 {
      forall i: nat | 64 <= i ensures !Bit(Pow2(src), i) { Pow2Bit(src, i); }
      BitsBoard(Pow2(src));
      UInt64Identity(Pow2(src));
    } else {
      forall i: nat ensures !Bit(UInt64(Shl(1, src)), i) {
        UInt64Bit(Shl(1, src), i);
        Pow2Bit(src, i);
      }
      NoBitsZero(UInt64(Shl(1, src)));
    }
  }

  /** `ray(src, dir)` is the union of the table's number of steps from the square's mask. */
  lemma RayIsUnion(src: nat, dir: Dir)
    ensures src < 64 ==> Ray(src, dir).0 == RayUnion(Pow2(src), StepSize(dir), RayLen(src, dir))
    ensures src >= 64 ==> Ray(src, dir).0 == 0
  {
    SourceMask(src);
    var steps := RaySteps(dir, src % 8 + 1, src / 8 + 1);
    assert FileRankInt(src) == (src % 8 + 1, src / 8 + 1);
    assert Ray(src, dir).0 == RayUnion(UInt64(Shl(1, src)), StepSize(dir), steps);
    if src >= 64 {
      RayUnionZero(StepSize(dir), steps);
    } else {
      assert steps == RayLen(src, dir);
    }
  }

  /** The bits of `ray(src, dir)` are exactly the squares of the ray. */
  lemma RayBit(src: nat, dir: Dir, i: nat)
    ensures Bit(Ray(src, dir).0, i) <==> OnRay(src, dir, i)
  {
    RayIsUnion(src, dir);
    if src < 64 {
      RayUnionBit(src, StepSize(dir), RayLen(src, dir), i);
    } else {
      BitZero(i);
    }
  }

  /** The square s steps along the ray, on the board, with the file and rank moved s times. */
  lemma RaySquare(src: nat, dir: Dir, s: int)
    requires src < 64 && 1 <= s <= RayLen(src, dir)
    ensures 0 <= Square(src, dir, s) < 64
    ensures FileOf(Square(src, dir, s)) == FileOf(src) + FileDelta(dir) * s
    ensures RankOf(Square(src, dir, s)) == RankOf(src) + RankDelta(dir) * s
  {
    var f, r := FileOf(src) + FileDelta(dir) * s, RankOf(src) + RankDelta(dir) * s;
    var q := src + StepSize(dir) * s;
    assert StepSize(dir) * s == 8 * (RankDelta(dir) * s) + FileDelta(dir) * s by {
      assert StepSize(dir) == 8 * RankDelta(dir) + FileDelta(dir);
    }
    assert 0 <= f < 8 && 0 <= r < 8 by {
      match dir
      case N =>
      case NE =>
      case E =>
      case SE =>
      case S =>
      case SW =>
      case W =>
      case NW =>
    }
    DivModUnique(q, 8, r, f);
  }

  /** A ray is never longer than the board allows, and is empty only at the edge it points to. */
  lemma RayLenRange(src: nat, dir: Dir)
    requires src < 64
    ensures 0 <= RayLen(src, dir) <= 7
  {}

  /** The ray runs to the edge: one more step would leave the board or wrap to another file. */
  lemma RayReachesEdge(src: nat, dir: Dir)
    requires src < 64
    ensures var s := RayLen(src, dir) + 1;
      !(0 <= FileOf(src) + FileDelta(dir) * s < 8 && 0 <= RankOf(src) + RankDelta(dir) * s < 8)
  {}

  /** Each step of the ray is a square of the ray, s steps away. */
  lemma SquareOnRay(src: nat, dir: Dir, s: int)
    requires src < 64 && 1 <= s <= RayLen(src, dir)
    ensures 0 <= Square(src, dir, s) < 64
    ensures OnRay(src, dir, Square(src, dir, s)) && StepOf(src, dir, Square(src, dir, s)) == s
  {
    RaySquare(src, dir, s);
    var d := StepSize(dir);
    var r := Reach(src, d, Square(src, dir, s));
    assert r == Abs(d) * s;
    StepCount(r, Abs(d), s);
  }

  /** Every square of the ray is reached by a whole number of steps within the ray's length. */
  lemma OnRaySquare(src: nat, dir: Dir, i: nat)
    requires OnRay(src, dir, i)
    ensures 1 <= StepOf(src, dir, i) <= RayLen(src, dir)
    ensures i == Square(src, dir, StepOf(src, dir, i))
  {
    var d := StepSize(dir);
    NoZeroSteps(Reach(src, d, i), Abs(d));
    ReachBack(src, d, i);
  }

  lemma ReachBack(a: int, d: int, i: int)
    requires d != 0 && Reach(a, d, i) % Abs(d) == 0
    ensures i == a + d * (Reach(a, d, i) / Abs(d))
  {
    var r, m := Reach(a, d, i), Abs(d);
    assert r == m * (r / m) + r % m;
    if d < 0 { assert d * (r / m) == -(m * (r / m)); }
  }

  lemma ReachShift(a: int, d: int, k: int, i: int)
    requires d != 0
    ensures Reach(a + d * k, d, i) == Reach(a, d, i) - Abs(d) * k
  {
    if d < 0 { assert Abs(d) * k == -(d * k); }
  }

  /** Step n of the ray is the single square a + d * n, not among the earlier steps. */
  lemma RayLayer(a: nat, d: int, n: int)
    requires d != 0 && n >= 1 && a + d * n >= 0
    ensures a + d * (n - 1) >= 0
    ensures Shift(Pow2(a), d * n) == Pow2(a + d * n)
    ensures !Bit(RayUnion(Pow2(a), d, n - 1), a + d * n)
  {
    PrevStepOnBoard(a, d, n);
    ShiftPow2(a, d * n);
    var q: nat := a + d * n;
    RayUnionBit(a, d, n - 1, q);
    LastStep(a, d, n);
    assert !InSteps(a, d, n - 1, q);
  }

  lemma PrevStepOnBoard(a: nat, d: int, n: int)
    requires d != 0 && n >= 1 && a + d * n >= 0
    ensures a + d * (n - 1) >= 0
  {
    assert d * (n - 1) == d * n - d;
    if d > 0 && n > 1 { MulAtLeast(d, n - 1); }
  }

  lemma LastStep(a: int, d: int, n: int)
    requires d != 0 && n >= 1
    ensures Reach(a, d, a + d * n) / Abs(d) == n
  {
    ReachShift(a, d, n, a + d * n);
    StepCount(Reach(a, d, a + d * n), Abs(d), n);
  }

  lemma ShiftPow2(a: nat, t: int)
    requires a + t >= 0
    ensures Shift(Pow2(a), t) == Pow2(a + t)
  {
    if t >= 0 { ShlPow2(a, t); } else { ShrPow2(a, -t); }
  }

  lemma {:induction false} RayUnionCount(a: nat, d: int, n: int)
    requires d != 0 && n >= 0 && a + d * n >= 0
    ensures RayUnion(Pow2(a), d, n) >= 0 && PopCount(RayUnion(Pow2(a), d, n)) == n
    decreases n
  {
    if n > 0 {
      var u := RayUnion(Pow2(a), d, n - 1);
      RayLayer(a, d, n);
      RayUnionCount(a, d, n - 1);
      var q: nat := a + d * n;
      OrPow2(u, q);
      PositionsAddBit(u, q, 0);
    }
  }

  /** `ray(src, dir)` has exactly as many squares as the table's step count (none off the board). */
  lemma RayCount(src: nat, dir: Dir)
    ensures Ray(src, dir).0 >= 0
    ensures PopCount(Ray(src, dir).0) == if src < 64 then RayLen(src, dir) else 0
  {
    RayIsUnion(src, dir);
    if src < 64 {
      var d, len := StepSize(dir), RayLen(src, dir);
      RayLenRange(src, dir);
      if len >= 1 {
        RaySquare(src, dir, len);
        assert src + d * len >= 0;
      }
      RayUnionCount(src, d, len);
    }
  }

  /** The source square is never on its own ray. */
  lemma RayExcludesSource(src: nat, dir: Dir)
    ensures !Bit(Ray(src, dir).0, src)
  {
    RayBit(src, dir, src);
  }

  /**
   * Removing the first k steps: the ray from the k-th square is the rest of
   * the ray, so its length drops by k.
   */
  lemma RayBeyond(src: nat, dir: Dir, k: int, i: nat)
    requires src < 64 && 1 <= k <= RayLen(src, dir)
    ensures 0 <= Square(src, dir, k) < 64
    ensures OnRay(Square(src, dir, k), dir, i) <==> OnRay(src, dir, i) && StepOf(src, dir, i) > k
  {
    RayLenAlong(src, dir, k);
    InStepsShift(src, StepSize(dir), k, RayLen(src, dir), i);
  }

  lemma InStepsShift(a: int, d: int, k: int, n: int, i: int)
    requires d != 0 && k >= 1
    ensures InSteps(a + d * k, d, n - k, i) <==> InSteps(a, d, n, i) && Reach(a, d, i) / Abs(d) > k
  {
    ReachShift(a, d, k, i);
    MoveStart(Reach(a, d, i), Abs(d), k, n);
  }

  /** After k steps the ray from the new square is k squares shorter. */
  lemma RayLenAlong(src: nat, dir: Dir, k: int)
    requires src < 64 && 1 <= k <= RayLen(src, dir)
    ensures 0 <= Square(src, dir, k) < 64
    ensures RayLen(Square(src, dir, k), dir) == RayLen(src, dir) - k
  {
    RaySquare(src, dir, k);
    match dir
    case N =>
    case NE =>
    case E =>
    case SE =>
    case S =>
    case SW =>
    case W =>
    case NW =>
  }

  lemma MoveStart(r: int, m: int, k: int, n: int)
    requires m > 0 && k >= 1
    ensures (0 < r - m * k && (r - m * k) % m == 0 && (r - m * k) / m <= n - k) <==>
            (0 < r && r % m == 0 && k < r / m <= n)
  {
    assert r == m * (r / m) + r % m;
    assert r - m * k == m * (r / m - k) + r % m;
    DivModUnique(r - m * k, m, r / m - k, r % m);
    if r % m == 0 {
      MulPositive(m, r / m - k);
      MulPositive(m, r / m);
    }
  }

  // ----- bit scans -----

  /** `lsb(p)`: the 1-based index of the lowest set bit, 0 for an empty board. */
  function Lsb(p: int): (r: int)
    ensures p == 0 ==> r == 0
    ensures p > 0 ==> r == LowIndex(p) + 1 && IsLowest(p, r - 1)
  {
    if p > 0 then
      AndNeg(p);
      BitLengthPow2(LowIndex(p));
      LowIndexLowest(p);
      BitLength(And(p, -p))
    else
      BitLength(And(p, -p))
  }

  /** `msb(p)`: the 1-based index of the highest set bit, 0 for an empty board. */
  function Msb(p: int): (r: int)
    ensures p == 0 ==> r == 0
    ensures p > 0 ==> r >= 1 && IsHighest(p, r - 1)
  {
    if p > 0 then BitLengthHighest(p); BitLength(p) else BitLength(p)
  }

  /** `lsb_bb(p)`: the lowest set bit of p as a one-square mask, 0 for an empty board. */
  function LsbBb(p: int): (r: int)
    ensures p == 0 ==> r == 0
    ensures p > 0 ==> r == Pow2(LowIndex(p)) && IsLowest(p, LowIndex(p))
  {
    if p > 0 then AndNeg(p); LowIndexLowest(p); And(p, -p) else And(p, -p)
  }

  /**
   * `msb_bb(p)`: smears the highest set bit downwards with six shifted ors,
   * adds one and halves. On a bitboard this isolates the highest set bit.
   */
  method MsbBb(p0: int) returns (r: int)
    ensures IsBoard(p0) && p0 == 0 ==> r == 0
    ensures IsBoard(p0) && p0 > 0 ==> r == Pow2(BitLength(p0) - 1) && IsHighest(p0, BitLength(p0) - 1)
  {
    var p := p0;
    ghost var n := BitLength(p0);
    if IsBoard(p0) && p0 > 0 {
      BitLengthHighest(p0);
      Pow2Of64();
      BitLengthBounds(p0);
      if n > 64 { Pow2Monotone(64, n - 1); }
    }
    for i := 0 to 6
      invariant IsBoard(p0) && p0 == 0 ==> p == 0
      invariant IsBoard(p0) && p0 > 0 ==> 1 <= n <= 64 && Smeared(p, n, Pow2(i))
    {
      if IsBoard(p0) && p0 == 0 {
        ShrZero(Pow2(i));
      } else if IsBoard(p0) && p0 > 0 {
        SmearStep(p, n, Pow2(i));
      }
      p := Or(p, Shr(p, Pow2(i)));
    }
    if IsBoard(p0) && p0 > 0 {
      assert Pow2(6) == 64;
      SmearedAll(p, n, Pow2(6));
      assert Pow2(n) / 2 == Pow2(n - 1);
      BitLengthHighest(p0);
    }
    p := p + 1;
    r := Shr(p, 1);
  }

  /** No bit at or above n, and the w bits below n all set. */
  ghost predicate Smeared(p: int, n: nat, w: nat)
  {
    (forall j: nat :: n <= j ==> !Bit(p, j)) && (forall j: nat :: j < n && n <= j + w ==> Bit(p, j))
  }

  lemma SmearStep(p: int, n: nat, w: nat)
    requires Smeared(p, n, w)
    ensures Smeared(Or(p, Shr(p, w)), n, 2 * w)
  {
    var q := Or(p, Shr(p, w));
    forall j: nat | n <= j ensures !Bit(q, j) {
      BitOr(p, Shr(p, w), j);
      ShrBit(p, w, j);
      assert !Bit(p, j) && !Bit(p, j + w);
    }
    forall j: nat | j < n && n <= j + 2 * w ensures Bit(q, j) {
      BitOr(p, Shr(p, w), j);
      ShrBit(p, w, j);
      if n > j + w { assert Bit(p, j + w); } else { assert Bit(p, j); }
    }
  }

  lemma SmearedAll(p: int, n: nat, w: nat)
    requires Smeared(p, n, w) && n <= w
    ensures p == Pow2(n) - 1
  {
    forall j: nat ensures Bit(p, j) <==> Bit(Pow2(n) - 1, j) { LowOnesBit(n, j); }
    Ext(p, Pow2(n) - 1);
  }

  lemma {:induction false} Pow2Monotone(a: nat, b: nat)
    requires a <= b
    ensures Pow2(a) <= Pow2(b)
  {
    if a < b { Pow2Monotone(a, b - 1); }
  }

  // ----- `ray_moves`: sliding attacks stopped by the first blocker -----

  /** Square q is occupied in occ; a negative index is never occupied. */
  predicate Occupied(occ: int, q: int)
  {
    q >= 0 && Bit(occ, q)
  }

  /** The first step s >= t of the ray whose square is occupied, or the ray's length if there is none. */
  function BlockFrom(src: nat, dir: Dir, occ: int, t: int): int
    decreases RayLen(src, dir) - t
  {
    if t >= RayLen(src, dir) then RayLen(src, dir)
    else if Occupied(occ, Square(src, dir, t)) then t
    else BlockFrom(src, dir, occ, t + 1)
  }

  /** The number of steps to the nearest occupied square of the ray, or the whole ray. */
  function FirstBlock(src: nat, dir: Dir, occ: int): int
  {
    BlockFrom(src, dir, occ, 1)
  }

  /**
   * The reference sliding attack: square i is attacked from src along dir iff
   * it lies on the ray no farther than the nearest occupied square.
   */
  predicate InAttack(src: nat, dir: Dir, occ: int, i: nat)
  {
    OnRay(src, dir, i) && StepOf(src, dir, i) <= FirstBlock(src, dir, occ)
  }

  /** The scan stops at the first occupied step k, or at the end of the ray. */
  lemma {:induction false} BlockFromIs(src: nat, dir: Dir, occ: int, t: int, k: int)
    requires 1 <= t <= k <= RayLen(src, dir)
    requires forall s :: t <= s < k ==> !Occupied(occ, Square(src, dir, s))
    requires k == RayLen(src, dir) || Occupied(occ, Square(src, dir, k))
    ensures BlockFrom(src, dir, occ, t) == k
    decreases k - t
  {
    if t < k { BlockFromIs(src, dir, occ, t + 1, k); }
  }

  /** One pass of the `ray_moves` loop: the ray minus the ray beyond its blocker. */
  function BlockedRay(src: nat, dir: Dir, occp: int): int
  {
    var (r, isP) := Ray(src, dir);
    var rOcc := And(r, occp);
    var blocker := if isP then Lsb(rOcc) else Msb(rOcc);
    var rBlocker := if blocker > 0 then Ray(blocker - 1, dir).0 else 0;
    Xor(r, rBlocker)
  }

  /** The bits of `ray(src, dir) & occp`: the occupied squares of the ray. */
  lemma RayOccupied(src: nat, dir: Dir, occp: int, i: nat)
    ensures And(Ray(src, dir).0, occp) >= 0
    ensures Bit(And(Ray(src, dir).0, occp), i) <==> OnRay(src, dir, i) && Bit(occp, i)
  {
    RayCount(src, dir);
    AndNonNegative(Ray(src, dir).0, occp);
    BitAnd(Ray(src, dir).0, occp, i);
    RayBit(src, dir, i);
  }

  /** A pass of `ray_moves` yields exactly the reference attack along one direction. */
  lemma BlockedRayBit(src: nat, dir: Dir, occp: int, i: nat)
    ensures Bit(BlockedRay(src, dir, occp), i) <==> InAttack(src, dir, occp, i)
  {
    RayBit(src, dir, i);
    if OnRay(src, dir, i) { OnRaySquare(src, dir, i); }
    if And(Ray(src, dir).0, occp) == 0 {
      Unblocked(src, dir, occp);
    } else {
      var b := Blocked(src, dir, occp);
      var k := StepOf(src, dir, b);
      BitXor(Ray(src, dir).0, Ray(b, dir).0, i);
      RayBit(b, dir, i);
      RayBeyond(src, dir, k, i);
    }
  }

  /** With nothing on the ray occupied, the pass keeps the whole ray, as the reference does. */
  lemma Unblocked(src: nat, dir: Dir, occp: int)
    requires And(Ray(src, dir).0, occp) == 0
    ensures BlockedRay(src, dir, occp) == Ray(src, dir).0
    ensures src < 64 && RayLen(src, dir) >= 1 ==> FirstBlock(src, dir, occp) == RayLen(src, dir)
  {
    var L := RayLen(src, dir);
    if src < 64 && L >= 1 {
      forall s | 1 <= s < L ensures !Occupied(occp, Square(src, dir, s)) {
        SquareOnRay(src, dir, s);
        RayOccupied(src, dir, occp, Square(src, dir, s));
        BitZero(Square(src, dir, s));
      }
      BlockFromIs(src, dir, occp, 1, L);
    }
  }

  /** With an occupied square on the ray, the pass removes the ray beyond the blocker. */
  lemma Blocked(src: nat, dir: Dir, occp: int) returns (b: nat)
    requires And(Ray(src, dir).0, occp) != 0
    ensures src < 64 && 1 <= StepOf(src, dir, b) <= RayLen(src, dir) && b == Square(src, dir, StepOf(src, dir, b))
    ensures FirstBlock(src, dir, occp) == StepOf(src, dir, b)
    ensures BlockedRay(src, dir, occp) == Xor(Ray(src, dir).0, Ray(b, dir).0)
  {
    b := BlockerSquare(src, dir, occp);
  }

  /**
   * The square `ray_moves` stops at when the ray has an occupied square: the
   * lowest for a ray towards higher squares, the highest otherwise; it is the
   * nearest one, so the scan stops there.
   */
  lemma BlockerSquare(src: nat, dir: Dir, occp: int) returns (b: nat)
    requires And(Ray(src, dir).0, occp) != 0
    ensures OnRay(src, dir, b) && Bit(occp, b)
    ensures var r := And(Ray(src, dir).0, occp);
      b + 1 == if StepSize(dir) > 0 then Lsb(r) else Msb(r)
    ensures 1 <= StepOf(src, dir, b) <= RayLen(src, dir) && b == Square(src, dir, StepOf(src, dir, b))
    ensures FirstBlock(src, dir, occp) == StepOf(src, dir, b)
  {
    var r := And(Ray(src, dir).0, occp);
    RayOccupied(src, dir, occp, 0);
    var d := StepSize(dir);
    if d > 0 { b := Lsb(r) - 1; } else { b := Msb(r) - 1; }
    assert d > 0 ==> IsLowest(r, b);
    assert d <= 0 ==> IsHighest(r, b);
    RayOccupied(src, dir, occp, b);
    OnRaySquare(src, dir, b);
    var k := StepOf(src, dir, b);
    forall s | 1 <= s < k ensures !Occupied(occp, Square(src, dir, s)) {
      SquareOnRay(src, dir, s);
      var q := Square(src, dir, s);
      RayOccupied(src, dir, occp, q);
      NearerSquare(src, dir, s, k);
    }
    BlockFromIs(src, dir, occp, 1, k);
  }

  /** Nearer squares of a ray have lower indices on rays towards higher squares, higher ones otherwise. */
  lemma NearerSquare(src: nat, dir: Dir, s: int, k: int)
    requires s < k
    ensures StepSize(dir) > 0 ==> Square(src, dir, s) < Square(src, dir, k)
    ensures StepSize(dir) < 0 ==> Square(src, dir, s) > Square(src, dir, k)
  {
    var d := StepSize(dir);
    assert Square(src, dir, k) - Square(src, dir, s) == d * (k - s);
    if d > 0 { MulPositive(d, k - s); } else { MulPositive(-d, k - s); assert -d * (k - s) == -(d * (k - s)); }
  }

  /**
   * `ray_moves(src, occp, dirs)`: the or over dirs of each ray cut after its
   * nearest occupied square. A square is in the result iff it is attacked
   * along one of the directions.
   */
  /** The value `ray_moves` accumulates: the passes over the directions, or-ed together in order. */
  function RayAttack(src: nat, occp: int, dirs: seq<Dir>): int
  {
    if |dirs| == 0 then 0 else Or(RayAttack(src, occp, dirs[..|dirs| - 1]), BlockedRay(src, dirs[|dirs| - 1], occp))
  }

  /** The accumulated attack is the union of the reference attacks along the directions. */
  lemma {:induction false} RayAttackBit(src: nat, occp: int, dirs: seq<Dir>, i: nat)
    ensures Bit(RayAttack(src, occp, dirs), i) <==> exists k :: 0 <= k < |dirs| && InAttack(src, dirs[k], occp, i)
  {
    if |dirs| == 0 {
      BitZero(i);
    } else {
      var init, last := dirs[..|dirs| - 1], dirs[|dirs| - 1];
      var a, b := RayAttack(src, occp, init), BlockedRay(src, last, occp);
      assert RayAttack(src, occp, dirs) == Or(a, b);
      RayAttackBit(src, occp, init, i);
      BitOr(a, b, i);
      BlockedRayBit(src, last, occp, i);
      assert dirs == init + [last];
      AttackedSplit(src, occp, init, last, i);
    }
  }

  /** Being attacked along some direction of a list, split at its last direction. */
  lemma AttackedSplit(src: nat, occp: int, init: seq<Dir>, last: Dir, i: nat)
    ensures (exists k :: 0 <= k < |init + [last]| && InAttack(src, (init + [last])[k], occp, i)) <==>
      (exists k :: 0 <= k < |init| && InAttack(src, init[k], occp, i)) || InAttack(src, last, occp, i)
  {
    var dirs := init + [last];
    if exists k :: 0 <= k < |dirs| && InAttack(src, dirs[k], occp, i) {
      var k :| 0 <= k < |dirs| && InAttack(src, dirs[k], occp, i);
      if k < |init| { assert init[k] == dirs[k]; }
    }
    if exists k :: 0 <= k < |init| && InAttack(src, init[k], occp, i) {
      var k :| 0 <= k < |init| && InAttack(src, init[k], occp, i);
      assert init[k] == dirs[k];
    }
    assert dirs[|init|] == last;
  }

  /**
   * `ray_moves(src, occp, dirs)`: the union over the directions of the ray
   * squares up to and including the nearest occupied one.
   */
  method RayMoves(src: nat, occp: int, dirs: seq<Dir>) returns (attack: int)
    ensures attack == RayAttack(src, occp, dirs)
  {
    attack := 0;
    for j := 0 to |dirs|
      invariant attack == RayAttack(src, occp, dirs[..j])
    {
      assert dirs[..j + 1][..j] == dirs[..j];
      attack := Or(attack, BlockedRay(src, dirs[j], occp));
    }
    assert dirs[..|dirs|] == dirs;
  }
}
