// board/utils.py: the bitboard helpers of the Python move generator. Python
// integers are unbounded, so a shift can push bits past square 63; the code
// brings values back to 64 bits with `uint64` only where it calls it, and
// this model does the same. Positions returned to callers
// (`get_bit_positions`, `lsb`, `msb`) are 1-based.
module BoardUtils {
  import opened Bits
  import Decimal

  datatype Option<T> = None | Some(value: T)

  /** Number of ranks, which is also the number of bytes in a bitboard. */
  const Ranks: nat := 8

  /** `uint64(v)`: `v & ones_64`. */
  function UInt64(v: int): (r: int)
    ensures IsBoard(r)
    ensures r == v % Two64
  {
    Pow2Of64();
    AndLowOnes(v, 64);
    And(v, Ones64)
  }

  /** Truncation keeps exactly the bits of the 64 squares. */
  lemma UInt64Bit(v: int, i: nat)
    ensures Bit(UInt64(v), i) <==> i < 64 && Bit(v, i)
  {
    BitAnd(v, Ones64, i);
    OnesBit(i);
  }

  /** A value already in [0, 2^64) is left alone, so truncation is idempotent. */
  lemma UInt64Identity(v: int)
    requires IsBoard(v)
    ensures UInt64(v) == v
  {}

  const FileLetters: string := "abcdefgh"

  /** 0-based file index of a file letter. */
  function FileIndex(c: char): int
  {
    (c as int) - ('a' as int)
  }

  /** `file_rank(pos)`: the file letter and the 1-based rank of a square. */
  function FileRank(pos: int): (r: (char, int))
    ensures r.0 in FileLetters && 0 <= FileIndex(r.0) < 8
    ensures pos == 8 * (r.1 - 1) + FileIndex(r.0)
  {
    (FileLetters[pos % 8], pos / 8 + 1)
  }

  /** `file_rank_int(pos)`: 1-based file and rank of a square. */
  function FileRankInt(pos: int): (r: (int, int))
    ensures 1 <= r.0 <= 8
    ensures pos == 8 * (r.1 - 1) + (r.0 - 1)
  {
    (pos % 8 + 1, pos / 8 + 1)
  }

  /** On the board both coordinates lie in 1..8 and are one past the 0-based ones. */
  lemma FileRankIntOnBoard(pos: int)
    requires 0 <= pos < 64
    ensures 1 <= FileRankInt(pos).1 <= 8
    ensures FileRankInt(pos).0 == FileOf(pos) + 1 && FileRankInt(pos).1 == RankOf(pos) + 1
  {}

  /** `file_rank_str(pos)`: the square's name such as "e4". */
  function FileRankStr(pos: int): string
  {
    var (f, r) := FileRank(pos);
    [f] + Decimal.Show(r)
  }

  /** Every board square gets a two-character name that spells out its file and rank. */
  lemma FileRankStrOnBoard(pos: int)
    requires 0 <= pos < 64
    ensures |FileRankStr(pos)| == 2
    ensures 'a' <= FileRankStr(pos)[0] <= 'h' && '1' <= FileRankStr(pos)[1] <= '8'
    ensures pos == 8 * ((FileRankStr(pos)[1] as int) - ('1' as int)) + FileIndex(FileRankStr(pos)[0])
  {
    var r := FileRank(pos);
    assert 1 <= r.1 <= 8;
    assert Decimal.Show(r.1) == [Decimal.DigitChar(r.1)];
  }

  /** `file_slide`: a shift by whole ranks, up when forward, truncated to 64 bits. */
  function FileSlide(bitboard: int, steps: nat, forward: bool): int
  {
    if forward then UInt64(Shl(bitboard, 8 * steps)) else UInt64(Shr(bitboard, 8 * steps))
  }

  /** Every square moves by `steps` ranks; squares pushed off the board are lost. */
  lemma FileSlideBit(bitboard: int, steps: nat, forward: bool, i: nat)
    ensures forward ==> (Bit(FileSlide(bitboard, steps, forward), i) <==> 8 * steps <= i < 64 && Bit(bitboard, i - 8 * steps))
    ensures !forward ==> (Bit(FileSlide(bitboard, steps, forward), i) <==> i < 64 && Bit(bitboard, i + 8 * steps))
  {
    if forward {
      UInt64Bit(Shl(bitboard, 8 * steps), i);
      ShlBit(bitboard, 8 * steps, i);
    } else {
      UInt64Bit(Shr(bitboard, 8 * steps), i);
      ShrBit(bitboard, 8 * steps, i);
    }
  }

  const FileA: int := 0x01_01_01_01_01_01_01_01
  const FileH: int := 0x80_80_80_80_80_80_80_80

  /** `shift(x, n)`: left by n for n >= 0, right by -n otherwise, not truncated. */
  function Shift(x: int, n: int): int
  {
    if n >= 0 then Shl(x, n) else Shr(x, -n)
  }

  /** Bit i of `shift(x, n)` is bit i - n of x. */
  lemma ShiftBit(x: int, n: int, i: nat)
    ensures Bit(Shift(x, n), i) <==> i - n >= 0 && Bit(x, i - n)
  {
    if n >= 0 { ShlBit(x, n, i); } else { ShrBit(x, -n, i); }
  }

  /** `shift(1, n)` is the one-square mask of square n, and empty for a negative n. */
  lemma ShiftOneBit(n: int, j: nat)
    ensures Bit(Shift(1, n), j) <==> j == n
  {
    ShiftBit(1, n, j);
    if j - n >= 0 { BitOne(j - n); }
  }

  /** `lshift_mask(x, steps, mask)`. */
  function LShiftMask(x: int, steps: nat, mask: int): int
  {
    And(mask, Shl(x, steps))
  }

  /** `rshift_mask(x, steps, mask)`. */
  function RShiftMask(x: int, steps: nat, mask: int): int
  {
    And(mask, Shr(x, steps))
  }

  /** The or of the shifts of x by the amounts of poss, before truncation. */
  function ShiftUnion(x: int, poss: seq<int>): int
    requires |poss| > 0
  {
    if |poss| == 1 then Shift(x, poss[0])
    else Or(ShiftUnion(x, poss[..|poss| - 1]), Shift(x, poss[|poss| - 1]))
  }

  /**
   * `shift_or(x, poss)`. Python's `reduce` without an initial value raises
   * TypeError on an empty list, which is `None` here.
   */
  function ShiftOr(x: int, poss: seq<int>): Option<int>
  {
    if |poss| == 0 then None else Some(UInt64(ShiftUnion(x, poss)))
  }

  /** A square is in `shift_or(x, poss)` iff some amount of poss moves a square of x onto it. */
  lemma ShiftOrBit(x: int, poss: seq<int>, i: nat)
    ensures ShiftOr(x, poss).None? <==> |poss| == 0
    ensures ShiftOr(x, poss).Some? ==> (Bit(ShiftOr(x, poss).value, i) <==>
      i < 64 && exists k :: 0 <= k < |poss| && i - poss[k] >= 0 && Bit(x, i - poss[k]))
  {
    if |poss| > 0 {
      UInt64Bit(ShiftUnion(x, poss), i);
      ShiftUnionBit(x, poss, i);
    }
  }

  lemma {:induction false} ShiftUnionBit(x: int, poss: seq<int>, i: nat)
    requires |poss| > 0
    ensures Bit(ShiftUnion(x, poss), i) <==>
      exists k :: 0 <= k < |poss| && i - poss[k] >= 0 && Bit(x, i - poss[k])
    decreases |poss|
  {
    ShiftBit(x, poss[|poss| - 1], i);
    if |poss| > 1 {
      var init := poss[..|poss| - 1];
      ShiftUnionBit(x, init, i);
      BitOr(ShiftUnion(x, init), Shift(x, poss[|poss| - 1]), i);
      if exists k :: 0 <= k < |poss| && i - poss[k] >= 0 && Bit(x, i - poss[k]) {
        var k :| 0 <= k < |poss| && i - poss[k] >= 0 && Bit(x, i - poss[k]);
        if k < |poss| - 1 { assert init[k] == poss[k]; }
      }
    }
  }

  /** x copied into each of the n lowest bytes. */
  function Repeat(x: int, n: nat): int
    requires n > 0
  {
    if n == 1 then x else Or(Repeat(x, n - 1), Shl(x, 8 * (n - 1)))
  }

  /**
   * `byte_repeat(x, n)`: the or of `x << 8 * i` for i in range(n); with n = 0
   * `reduce` raises TypeError, which is `None` here.
   */
  function ByteRepeat(x: int, n: nat): Option<int>
  {
    if n == 0 then None else Some(Repeat(x, n))
  }

  /** x fits in the lowest byte. */
  predicate IsByte(x: int)
  {
    0 <= x < 256
  }

  lemma ByteHigh(x: int, j: nat)
    requires IsByte(x)
    ensures Bit(x, j) ==> j < 8
  {
    assert Pow2(8) == 256;
    if j >= 8 { BoundBits(x, 8, j); }
  }

  /** Byte k of `byte_repeat(x, n)` is a copy of x for k < n and empty above. */
  lemma ByteRepeatBit(x: int, n: nat, i: nat)
    requires IsByte(x)
    ensures ByteRepeat(x, n).None? <==> n == 0
    ensures ByteRepeat(x, n).Some? ==> (Bit(ByteRepeat(x, n).value, i) <==> i < 8 * n && Bit(x, i % 8))
  {
    if n > 0 { RepeatBit(x, n, i); }
  }

  lemma {:induction false} RepeatBit(x: int, n: nat, i: nat)
    requires n > 0 && IsByte(x)
    ensures Bit(Repeat(x, n), i) <==> i < 8 * n && Bit(x, i % 8)
    decreases n
  {
    if n == 1 {
      RepeatLayer(x, 0, i);
    } else {
      var q := n - 1;
      RepeatBit(x, q, i);
      BitOr(Repeat(x, q), Shl(x, 8 * q), i);
      RepeatLayer(x, q, i);
    }
  }

  /** The copy shifted by q bytes covers exactly byte q. */
  lemma RepeatLayer(x: int, q: nat, i: nat)
    requires IsByte(x)
    ensures Bit(Shl(x, 8 * q), i) <==> 8 * q <= i < 8 * q + 8 && Bit(x, i % 8)
  {
    ShlBit(x, 8 * q, i);
    if 8 * q <= i {
      ByteHigh(x, i - 8 * q);
      if i < 8 * q + 8 { assert i % 8 == i - 8 * q; }
    }
  }

  /** The byte mask `clear_files` repeats: files n.. when start, files ..7-n otherwise. */
  function FileByte(files: nat, start: bool): int
  {
    if start then LShiftMask(0xff, files, 0xff) else RShiftMask(0xff, files, 0xff)
  }

  lemma FileByteBit(files: nat, start: bool, j: nat)
    ensures IsByte(FileByte(files, start))
    ensures Bit(FileByte(files, start), j) <==> j < 8 && (if start then files <= j else j + files < 8)
  {
    var m := FileByte(files, start);
    forall k: nat ensures Bit(m, k) <==> k < 8 && (if start then files <= k else k + files < 8) {
      if start { FileByteStartBit(files, k); } else { FileByteEndBit(files, k); }
    }
    BitsBound(m, 8);
    assert Pow2(8) == 256;
  }

  lemma ByteOnesBit(k: nat)
    ensures Bit(0xff, k) <==> k < 8
  {
    assert Pow2(8) - 1 == 0xff;
    LowOnesBit(8, k);
  }

  lemma FileByteStartBit(files: nat, k: nat)
    ensures Bit(LShiftMask(0xff, files, 0xff), k) <==> k < 8 && files <= k
  {
    ByteOnesBit(k);
    BitAnd(0xff, Shl(0xff, files), k);
    ShlBit(0xff, files, k);
    if files <= k { ByteOnesBit(k - files); }
  }

  lemma FileByteEndBit(files: nat, k: nat)
    ensures Bit(RShiftMask(0xff, files, 0xff), k) <==> k + files < 8
  {
    ByteOnesBit(k);
    BitAnd(0xff, Shr(0xff, files), k);
    ShrBit(0xff, files, k);
    ByteOnesBit(k + files);
  }

  /** The mask `clear_files` ands with: `byte_repeat` of the byte mask over all eight ranks. */
  function FilesMask(files: nat, start: bool): int
  {
    Repeat(FileByte(files, start), Ranks)
  }

  /** `clear_files(bb, n, start)`. */
  function ClearFiles(bitboard: int, files: nat, start: bool): int
  {
    And(bitboard, FilesMask(files, start))
  }

  /**
   * `clear_files(bb, n, True)` removes exactly the squares on the first n
   * files, `start=False` exactly those on the last n files, and every square
   * past the 64th; all other squares are kept.
   */
  lemma ClearFilesBit(bitboard: int, files: nat, start: bool, i: nat)
    ensures Bit(ClearFiles(bitboard, files, start), i) <==>
      Bit(bitboard, i) && i < 64 && (if start then FileOf(i) >= files else FileOf(i) + files < 8)
  {
    var m := FileByte(files, start);
    FileByteBit(files, start, i % 8);
    RepeatBit(m, Ranks, i);
    BitAnd(bitboard, FilesMask(files, start), i);
  }

  /**
   * `swne_slide`: both branches shift towards higher squares by 9 * steps and
   * truncate; the forward branch then clears the first `steps` files, the
   * other the last ones.
   */
  function SwneSlide(bitboard: int, steps: nat, forward: bool): int
  {
    if forward then ClearFiles(UInt64(Shl(bitboard, 9 * steps)), steps, true)
    else ClearFiles(UInt64(Shl(bitboard, 9 * steps)), steps, false)
  }

  /** `senw_slide`: up by 7 * steps clearing the last files, or down clearing the first ones. */
  function SenwSlide(bitboard: int, steps: nat, forward: bool): int
  {
    if forward then ClearFiles(UInt64(Shl(bitboard, 7 * steps)), steps, false)
    else ClearFiles(UInt64(Shr(bitboard, 7 * steps)), steps, true)
  }

  /** The slides produce bitboards. */
  lemma SlidesAreBoards(bitboard: int, steps: nat, forward: bool)
    ensures IsBoard(FileSlide(bitboard, steps, forward))
    ensures IsBoard(SwneSlide(bitboard, steps, forward))
    ensures IsBoard(SenwSlide(bitboard, steps, forward))
  {
    var a, b := UInt64(Shl(bitboard, 9 * steps)), UInt64(if forward then Shl(bitboard, 7 * steps) else Shr(bitboard, 7 * steps));
    AndNonNegative(a, FilesMask(steps, forward));
    AndNonNegative(b, FilesMask(steps, !forward));
    forall i: nat | 64 <= i ensures !Bit(SwneSlide(bitboard, steps, forward), i) && !Bit(SenwSlide(bitboard, steps, forward), i) {
      ClearFilesBit(a, steps, forward, i);
      ClearFilesBit(b, steps, !forward, i);
    }
    BitsBoard(SwneSlide(bitboard, steps, forward));
    BitsBoard(SenwSlide(bitboard, steps, forward));
  }

  /** Both directions of `swne_slide` take square i from square i - 9 * steps. */
  lemma SwneSlideBit(bitboard: int, steps: nat, forward: bool, i: nat)
    ensures Bit(SwneSlide(bitboard, steps, forward), i) <==>
      9 * steps <= i < 64 && Bit(bitboard, i - 9 * steps) &&
      (if forward then FileOf(i) >= steps else FileOf(i) + steps < 8)
  {
    var up := Shl(bitboard, 9 * steps);
    ClearFilesBit(UInt64(up), steps, forward, i);
    UInt64Bit(up, i);
    ShlBit(bitboard, 9 * steps, i);
  }

  /** `senw_slide` takes square i from i - 7 * steps when forward and from i + 7 * steps otherwise. */
  lemma SenwSlideBit(bitboard: int, steps: nat, forward: bool, i: nat)
    ensures forward ==> (Bit(SenwSlide(bitboard, steps, forward), i) <==>
      7 * steps <= i < 64 && Bit(bitboard, i - 7 * steps) && FileOf(i) + steps < 8)
    ensures !forward ==> (Bit(SenwSlide(bitboard, steps, forward), i) <==>
      i < 64 && Bit(bitboard, i + 7 * steps) && FileOf(i) >= steps)
  {
    if forward {
      var up := Shl(bitboard, 7 * steps);
      ClearFilesBit(UInt64(up), steps, false, i);
      UInt64Bit(up, i);
      ShlBit(bitboard, 7 * steps, i);
    } else {
      var down := Shr(bitboard, 7 * steps);
      ClearFilesBit(UInt64(down), steps, true, i);
      UInt64Bit(down, i);
      ShrBit(bitboard, 7 * steps, i);
    }
  }

  /** A square whose file is at least s comes 9 * s squares after a square s files west and s ranks down. */
  lemma NorthEastStep(i: nat, s: nat)
    requires 9 * s <= i && s <= FileOf(i)
    ensures FileOf(i) == FileOf(i - 9 * s) + s && RankOf(i) == RankOf(i - 9 * s) + s
  {
    DivModUnique(i - 9 * s, 8, i / 8 - s, i % 8 - s);
  }

  /** A square at least s files from file h comes 7 * s squares after a square s files east and s ranks down. */
  lemma NorthWestStep(i: nat, s: nat)
    requires 7 * s <= i && FileOf(i) + s < 8
    ensures FileOf(i) + s == FileOf(i - 7 * s) && RankOf(i) == RankOf(i - 7 * s) + s
  {
    DivModUnique(i - 7 * s, 8, i / 8 - s, i % 8 + s);
  }

  /** A square s files or more east of file a lies 7 * s squares before a square s files west and s ranks up. */
  lemma SouthEastStep(i: nat, s: nat)
    requires s <= FileOf(i)
    ensures FileOf(i) == FileOf(i + 7 * s) + s && RankOf(i) + s == RankOf(i + 7 * s)
  {
    DivModUnique(i + 7 * s, 8, i / 8 + s, i % 8 - s);
  }

  /**
   * Forward `swne_slide` is a clean north-east slide: every result square lies
   * `steps` files east and `steps` ranks north of a source square.
   */
  lemma SwneForwardNoWrap(bitboard: int, steps: nat, i: nat)
    requires steps < 8
    requires Bit(SwneSlide(bitboard, steps, true), i)
    ensures 9 * steps <= i && Bit(bitboard, i - 9 * steps)
    ensures FileOf(i) == FileOf(i - 9 * steps) + steps && RankOf(i) == RankOf(i - 9 * steps) + steps
  {
    SwneSlideBit(bitboard, steps, true, i);
    NorthEastStep(i, steps);
  }

  /**
   * The backward `swne_slide` also shifts up, so a mask on file h reappears on
   * file a two ranks higher: square 7 (h1) lands on square 16 (a3).
   */
  lemma SwneBackwardWraps()
    ensures Bit(SwneSlide(Single(7), 1, false), 16)
    ensures FileOf(7) == 7 && FileOf(16) == 0
  {
    SwneSlideBit(Single(7), 1, false, 16);
    SingleBit(7, 7);
  }

  /** Forward `senw_slide` is a clean north-west slide along the a8-h1 diagonal. */
  lemma SenwForwardNoWrap(bitboard: int, steps: nat, i: nat)
    requires steps < 8
    requires Bit(SenwSlide(bitboard, steps, true), i)
    ensures 7 * steps <= i && Bit(bitboard, i - 7 * steps)
    ensures FileOf(i) + steps == FileOf(i - 7 * steps) && RankOf(i) == RankOf(i - 7 * steps) + steps
  {
    SenwSlideBit(bitboard, steps, true, i);
    NorthWestStep(i, steps);
  }

  /** Backward `senw_slide` is a clean south-east slide. */
  lemma SenwBackwardNoWrap(bitboard: int, steps: nat, i: nat)
    requires steps < 8
    requires Bit(SenwSlide(bitboard, steps, false), i)
    ensures Bit(bitboard, i + 7 * steps)
    ensures FileOf(i) == FileOf(i + 7 * steps) + steps && RankOf(i) + steps == RankOf(i + 7 * steps)
  {
    SenwSlideBit(bitboard, steps, false, i);
    SouthEastStep(i, steps);
  }

  /** `position_bb(pos)`: the one-square mask of a 0-based square, empty for a negative one. */
  function PositionBb(pos: int): (r: int)
    ensures pos >= 0 ==> r == Pow2(pos)
    ensures pos < 0 ==> r == 0
  {
    if pos >= 0 then SingleIsPow2(pos); Single(pos) else 0
  }

  /** The mask of square pos has that square and no other. */
  lemma PositionBbBit(pos: int, i: nat)
    ensures Bit(PositionBb(pos), i) <==> pos == i
  {
    if pos >= 0 { Pow2Bit(pos, i); } else { BitZero(i); }
  }

  /**
   * `get_bit_positions(x)`: repeatedly takes the lowest set bit `x & -x`,
   * records its bit length (its 1-based index) and clears it with
   * `x &= x - 1`. A negative x never reaches 0 in Python, so the loop is
   * only defined for non-negative x.
   */
  method GetBitPositions(x: int) returns (poss: seq<nat>)
    requires x >= 0
    ensures poss == Positions(x, 1)
  {
    poss := [];
    var y := x;
    while y != 0
      invariant y >= 0
      invariant poss + Positions(y, 1) == Positions(x, 1)
      decreases y
    {
      var ls1b := And(y, -y);
      AndNeg(y);
      BitLengthPow2(LowIndex(y));
      PositionsClearLowest(y, 1);
      PositionsHead(y, 1);
      poss := poss + [BitLength(ls1b)];
      AndPred(y);
      y := And(y, y - 1);
    }
  }

  /**
   * What `get_bit_positions` promises: the 1-based indices of the set bits,
   * each once, in strictly ascending order, as many as x has set bits.
   */
  lemma GetBitPositionsSpec(x: int)
    requires x >= 0
    ensures StrictlyIncreasing(Positions(x, 1))
    ensures forall p: nat :: p in Positions(x, 1) <==> 1 <= p && Bit(x, p - 1)
    ensures |Positions(x, 1)| == PopCount(x)
  {
    PositionsSpec(x, 1);
    PositionsLength(x, 1, 0);
  }

  lemma {:induction false} PositionsLength(x: int, a: nat, b: nat)
    requires x >= 0
    ensures |Positions(x, a)| == |Positions(x, b)|
    decreases x
  {
    if x > 0 { PositionsLength(x / 2, a + 1, b + 1); }
  }

  /** The or of a non-empty list of bitboards, as `reduce(int.__or__, ...)`. */
  function Union(bbs: seq<int>): int
    requires |bbs| > 0
  {
    if |bbs| == 1 then bbs[0] else Or(Union(bbs[..|bbs| - 1]), bbs[|bbs| - 1])
  }

  lemma {:induction false} UnionBit(bbs: seq<int>, i: nat)
    requires |bbs| > 0
    ensures Bit(Union(bbs), i) <==> exists k :: 0 <= k < |bbs| && Bit(bbs[k], i)
    decreases |bbs|
  {
    if |bbs| > 1 {
      var init := bbs[..|bbs| - 1];
      UnionBit(init, i);
      BitOr(Union(init), bbs[|bbs| - 1], i);
      if exists k :: 0 <= k < |bbs| && Bit(bbs[k], i) {
        var k :| 0 <= k < |bbs| && Bit(bbs[k], i);
        if k < |bbs| - 1 { assert init[k] == bbs[k]; }
      }
    }
  }

  /**
   * `non_empty_bb(bbs)` over the values of the mapping, in its order. An empty
   * mapping makes `reduce` raise TypeError, which is `None` here.
   */
  function NonEmptyBb(bbs: seq<int>): Option<int>
  {
    if |bbs| == 0 then None else Some(UInt64(Union(bbs)))
  }

  /** `empty_bb(bbs)`: the truncated complement of the union. */
  function EmptyBb(bbs: seq<int>): Option<int>
  {
    if |bbs| == 0 then None else Some(UInt64(Not(Union(bbs))))
  }

  /** A square is occupied iff some bitboard holds it, and empty iff none does. */
  lemma OccupancyBit(bbs: seq<int>, i: nat)
    ensures NonEmptyBb(bbs).None? <==> |bbs| == 0
    ensures EmptyBb(bbs).None? <==> |bbs| == 0
    ensures |bbs| > 0 ==> (Bit(NonEmptyBb(bbs).value, i) <==> i < 64 && exists k :: 0 <= k < |bbs| && Bit(bbs[k], i))
    ensures |bbs| > 0 ==> (Bit(EmptyBb(bbs).value, i) <==> i < 64 && forall k :: 0 <= k < |bbs| ==> !Bit(bbs[k], i))
  {
    if |bbs| > 0 {
      UnionBit(bbs, i);
      UInt64Bit(Union(bbs), i);
      UInt64Bit(Not(Union(bbs)), i);
      BitNot(Union(bbs), i);
    }
  }

  /** `empty_bb` is the 64-bit complement of `non_empty_bb`: they partition the board. */
  lemma EmptyComplementsNonEmpty(bbs: seq<int>)
    requires |bbs| > 0
    ensures And(EmptyBb(bbs).value, NonEmptyBb(bbs).value) == 0
    ensures Or(EmptyBb(bbs).value, NonEmptyBb(bbs).value) == Ones64
  {
    var e, n := EmptyBb(bbs).value, NonEmptyBb(bbs).value;
    forall i: nat ensures Bit(And(e, n), i) <==> Bit(0, i) {
      OccupancyBit(bbs, i);
      BitAnd(e, n, i);
      BitZero(i);
    }
    Ext(And(e, n), 0);
    forall i: nat ensures Bit(Or(e, n), i) <==> Bit(Ones64, i) {
      OccupancyBit(bbs, i);
      BitOr(e, n, i);
      OnesBit(i);
    }
    Ext(Or(e, n), Ones64);
  }
}
