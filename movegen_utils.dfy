// movegen/src/utils/mod.rs: square names and the u64 bitboard shifts of the
// Rust move generator. A `BitBoard` is a u64, here an integer with
// `IsBoard`; a `Square` is a u8. Rust's `<<` on u64 drops the bits shifted
// past square 63, which `UInt64` writes out. Shifting by 64 or more, and
// indexing the file masks out of range, panic; those inputs are excluded
// by `requires`.
module MovegenUtils {
  import opened Bits
  import opened BoardUtils
  import opened BoardRays
  import opened MovegenDirection
  import Decimal

  /** A u8, the type of squares. */
  type Square = x: int | 0 <= x < 256

  /** `file(pos)`: the file letter of a square. */
  function File(pos: Square): (r: char)
    ensures 'a' <= r <= 'h' && FileIndex(r) == pos % 8
  {
    FileLetters[pos % 8]
  }

  /** `file_rank(pos)`: the 0-based file and rank. */
  function FileRank(pos: Square): (r: (int, int))
    ensures 0 <= r.0 < 8 && 0 <= r.1 < 32
    ensures pos == 8 * r.1 + r.0
  {
    (pos % 8, pos / 8)
  }

  /** `file_rank_str(pos)`: the file letter followed by the 1-based rank in decimal. */
  function FileRankStr(pos: Square): string
  {
    [FileLetters[pos % 8]] + Decimal.Show(pos / 8 + 1)
  }

  /** The Rust name of a square is the one board/utils.py gives it; a board square's name is two characters. */
  lemma FileRankStrAgrees(pos: Square)
    ensures FileRankStr(pos) == BoardUtils.FileRankStr(pos)
    ensures pos < 64 ==> |FileRankStr(pos)| == 2 && '1' <= FileRankStr(pos)[1] <= '8'
  {
    if pos < 64 { BoardUtils.FileRankStrOnBoard(pos); }
  }

  /** The file and rank name the square they came from. */
  lemma FileRankInverse(f: int, r: int)
    requires 0 <= f < 8 && 0 <= r < 32
    ensures FileRank(8 * r + f) == (f, r)
  {
    DivModUnique(8 * r + f, 8, r, f);
  }

  // ----- the file masks -----

  /** FILE_MASK_EAST[k - 1] keeps the squares that can move k files east. */
  const FileMaskEast: seq<int> := [
    0x7f7f7f7f7f7f7f7f, 0x3f3f3f3f3f3f3f3f, 0x1f1f1f1f1f1f1f1f, 0x0f0f0f0f0f0f0f0f,
    0x0707070707070707, 0x0303030303030303, 0x0101010101010101, 0x0]

  /** FILE_MASK_WEST[k - 1] keeps the squares that can move k files west. */
  const FileMaskWest: seq<int> := [
    0xfefefefefefefefe, 0xfcfcfcfcfcfcfcfc, 0xf8f8f8f8f8f8f8f8, 0xf0f0f0f0f0f0f0f0,
    0xe0e0e0e0e0e0e0e0, 0xc0c0c0c0c0c0c0c0, 0x8080808080808080, 0x0]

  lemma Pow2Small(k: nat)
    requires k <= 8
    ensures Pow2(k) == [1, 2, 4, 8, 16, 32, 64, 128, 256][k]
  {
    if k == 0 {} else if k == 1 {} else if k == 2 {} else if k == 3 {}
    else if k == 4 {} else if k == 5 {} else if k == 6 {} else if k == 7 {}
    else { assert Pow2(8) == 256; }
  }

  lemma MaskBytes(k: nat)
    requires 1 <= k <= 8
    ensures FileMaskEast[k - 1] == (Pow2(8 - k) - 1) * 0x01_01_01_01_01_01_01_01
    ensures FileMaskWest[k - 1] == (256 - Pow2(k)) * 0x01_01_01_01_01_01_01_01
  {
    Pow2Small(k);
    Pow2Small(8 - k);
    if k == 1 {} else if k == 2 {} else if k == 3 {} else if k == 4 {}
    else if k == 5 {} else if k == 6 {} else if k == 7 {} else {}
  }

  /** The byte 256 - 2^k holds the files k and above. */
  lemma HighFilesBit(k: nat, r: nat)
    requires k <= 8 && r < 8
    ensures Bit(256 - Pow2(k), r) <==> k <= r
  {
    var h: nat := 8 - k;
    var lo, up := Pow2(k), Pow2(h) - 1;
    Pow2Add(k, h);
    assert Pow2(8) == 256;
    MulAdd(lo, Pow2(h), -1);
    assert 256 - lo == up * lo;
    ShlMul(up, k);
    ShlBit(up, k, r);
    if k <= r { LowOnesBit(h, r - k); }
  }

  /** The east mask for k steps holds the squares at least k files from file h. */
  lemma FileMaskEastBit(k: nat, i: nat)
    requires 1 <= k <= 8
    ensures IsBoard(FileMaskEast[k - 1])
    ensures Bit(FileMaskEast[k - 1], i) <==> i < 64 && FileOf(i) + k < 8
  {
    var b := Pow2(8 - k) - 1;
    Pow2Small(8 - k);
    MaskBytes(k);
    MulLe(0x01_01_01_01_01_01_01_01, b, 255);
    BoardByteBit(FileMaskEast[k - 1], i);
    if i < 64 {
      UniformByte(b, i / 8);
      LowOnesBit(8 - k, i % 8);
    }
  }

  /** The west mask for k steps holds the squares at least k files from file a. */
  lemma FileMaskWestBit(k: nat, i: nat)
    requires 1 <= k <= 8
    ensures IsBoard(FileMaskWest[k - 1])
    ensures Bit(FileMaskWest[k - 1], i) <==> i < 64 && FileOf(i) - k >= 0
  {
    var b := 256 - Pow2(k);
    Pow2Small(k);
    MaskBytes(k);
    MulLe(0x01_01_01_01_01_01_01_01, b, 255);
    BoardByteBit(FileMaskWest[k - 1], i);
    if i < 64 {
      UniformByte(b, i / 8);
      HighFilesBit(k, i % 8);
    }
  }

  // ----- sliding -----

  /**
   * `slide(bb, steps, dir)` is defined: the east and west masks are indexed
   * with steps - 1, and the shift by the step size times steps stays below 64.
   */
  predicate SlideDefined(steps: int, dir: Dir)
  {
    0 <= steps && (FileDelta(dir) != 0 ==> 1 <= steps <= 8) && steps * Abs(StepSize(dir)) < 64
  }

  /** `file_preshift_mask(bb, steps, dir)`: drop the squares an east- or westward slide would carry off the board. */
  function FilePreshiftMask(bb: int, steps: int, dir: Dir): int
    requires FileDelta(dir) != 0 ==> 1 <= steps <= 8
  {
    match dir
    case NE | E | SE => And(bb, FileMaskEast[steps - 1])
    case NW | W | SW => And(bb, FileMaskWest[steps - 1])
    case _ => bb
  }

  /** Square i's file stays within a .. h after `steps` steps towards dir. */
  predicate FileKept(i: nat, steps: int, dir: Dir)
  {
    0 <= FileOf(i) + steps * FileDelta(dir) < 8
  }

  /** The pre-shift mask keeps exactly the squares whose file stays on the board after the slide. */
  lemma PreshiftBit(bb: int, steps: int, dir: Dir, i: nat)
    requires IsBoard(bb) && (FileDelta(dir) != 0 ==> 1 <= steps <= 8)
    ensures IsBoard(FilePreshiftMask(bb, steps, dir))
    ensures Bit(FilePreshiftMask(bb, steps, dir), i) <==> Bit(bb, i) && FileKept(i, steps, dir)
  {
    var r := FilePreshiftMask(bb, steps, dir);
    if FileDelta(dir) == 1 {
      FileMaskEastBit(steps, i);
      BitAnd(bb, FileMaskEast[steps - 1], i);
      BoardBits'(bb, i);
      AndNonNegative(bb, FileMaskEast[steps - 1]);
      AndBelow(bb, FileMaskEast[steps - 1]);
    } else if FileDelta(dir) == -1 {
      FileMaskWestBit(steps, i);
      BitAnd(bb, FileMaskWest[steps - 1], i);
      BoardBits'(bb, i);
      AndNonNegative(bb, FileMaskWest[steps - 1]);
      AndBelow(bb, FileMaskWest[steps - 1]);
    }
  }

  /** Masking a bitboard leaves a bitboard. */
  lemma AndBelow(bb: int, mask: int)
    requires IsBoard(bb)
    ensures And(bb, mask) < Two64
  {
    forall j: nat | 64 <= j ensures !Bit(And(bb, mask), j) {
      BitAnd(bb, mask, j);
      BoardBits(bb, j);
    }
    BitsBoard(And(bb, mask));
  }

  /** A set square of a bitboard lies on the board. */
  lemma BoardBits'(bb: int, i: nat)
    requires IsBoard(bb)
    ensures Bit(bb, i) ==> i < 64
  {
    if i >= 64 { BoardBits(bb, i); }
  }

  /**
   * `slide(bb, steps, dir)`: move every square `steps` squares towards dir.
   * The match in the source shifts left by 7, 8, 9 and 1 times steps for NW,
   * N, NE and E and right by 7, 8, 9 and 1 times steps for SE, S, SW and W:
   * by steps times the direction's step size, which is positive for the
   * first four.
   */
  function Slide(bb: int, steps: int, dir: Dir): int
    requires SlideDefined(steps, dir)
  {
    var m := FilePreshiftMask(bb, steps, dir);
    if StepSize(dir) > 0 then UInt64(Shl(m, steps * StepSize(dir)))
    else Shr(m, -(steps * StepSize(dir)))
  }

  /**
   * Square j lands on square i after `steps` steps towards dir: both are
   * board squares, i is the corresponding shift of j, and the file stays
   * within a .. h on the way.
   */
  predicate Lands(j: int, steps: int, dir: Dir, i: int)
  {
    0 <= j < 64 && 0 <= i < 64 && i == j + steps * StepSize(dir) && FileKept(j, steps, dir)
  }

  /**
   * A slide sets square i exactly when the square `steps` steps back lands
   * on i and is set: squares are carried along dir, those that would leave
   * the board are dropped, and nothing wraps round to the other edge.
   */
  lemma SlideBit(bb: int, steps: int, dir: Dir, i: nat)
    requires IsBoard(bb) && SlideDefined(steps, dir)
    ensures IsBoard(Slide(bb, steps, dir))
    ensures Bit(Slide(bb, steps, dir), i) <==>
      Lands(i - steps * StepSize(dir), steps, dir, i) && Bit(bb, i - steps * StepSize(dir))
  {
    var m := FilePreshiftMask(bb, steps, dir);
    var n := steps * StepSize(dir);
    PreshiftBit(bb, steps, dir, i);
    if StepSize(dir) > 0 {
      ShlBoardBit(m, n, i);
      if n <= i {
        PreshiftBit(bb, steps, dir, i - n);
        BoardBits'(bb, i - n);
      }
      LandsIff(bb, m, steps, dir, i - n, i, Bit(UInt64(Shl(m, n)), i));
    } else {
      ShrBoardBit(m, -n, i);
      PreshiftBit(bb, steps, dir, i - n);
      BoardBits'(bb, i - n);
      LandsIff(bb, m, steps, dir, i - n, i, Bit(Shr(m, -n), i));
    }
  }

  /** The bit of the shifted mask is the source's bit and its landing. */
  lemma LandsIff(bb: int, m: int, steps: int, dir: Dir, j: int, i: nat, b: bool)
    requires j == i - steps * StepSize(dir)
    requires b <==> 0 <= j && i < 64 && Bit(m, j)
    requires 0 <= j ==> (Bit(m, j) <==> Bit(bb, j) && FileKept(j, steps, dir))
    requires 0 <= j ==> (Bit(bb, j) ==> j < 64)
    ensures b <==> Lands(j, steps, dir, i) && Bit(bb, j)
  {
  }

  /** A left shift in u64 moves square i - n to square i and drops what passes square 63. */
  lemma ShlBoardBit(m: int, n: nat, i: nat)
    ensures IsBoard(UInt64(Shl(m, n)))
    ensures Bit(UInt64(Shl(m, n)), i) <==> i < 64 && n <= i && Bit(m, i - n)
  {
    UInt64Bit(Shl(m, n), i);
    ShlBit(m, n, i);
  }

  /** A right shift of a bitboard moves square i + n to square i. */
  lemma ShrBoardBit(m: int, n: nat, i: nat)
    requires IsBoard(m)
    ensures IsBoard(Shr(m, n))
    ensures Bit(Shr(m, n), i) <==> Bit(m, i + n)
  {
    ShrBit(m, n, i);
    ShrDiv(m, n);
    assert m / Pow2(n) <= m by {
      MulLe(m / Pow2(n), 1, Pow2(n));
    }
  }

  /** Landing moves the file and the rank by `steps` times the direction's file and rank step. */
  lemma LandsMoves(j: int, steps: int, dir: Dir, i: int)
    requires Lands(j, steps, dir, i)
    ensures FileOf(i) == FileOf(j) + steps * FileDelta(dir)
    ensures RankOf(i) == RankOf(j) + steps * RankDelta(dir)
  {
    StepSplit(dir);
    var f, r := FileOf(j) + steps * FileDelta(dir), RankOf(j) + steps * RankDelta(dir);
    assert steps * StepSize(dir) == 8 * (steps * RankDelta(dir)) + steps * FileDelta(dir) by {
      MulAdd(steps, 8 * RankDelta(dir), FileDelta(dir));
    }
    assert i == 8 * r + f;
    DivModUnique(i, 8, r, f);
  }

  /** A one-step slide east, north-east or south-east never lands on file a; one west never on file h. */
  lemma SlideNoWrap(bb: int, dir: Dir, i: nat)
    requires IsBoard(bb) && SlideDefined(1, dir) && Bit(Slide(bb, 1, dir), i)
    ensures FileDelta(dir) == 1 ==> FileOf(i) != 0
    ensures FileDelta(dir) == -1 ==> FileOf(i) != 7
  {
    SlideBit(bb, 1, dir, i);
    LandsMoves(i - StepSize(dir), 1, dir, i);
  }

  /** Sliding one way and then back restores the squares that survive the trip. */
  lemma SlideBack(bb: int, steps: int, dir: Dir, i: nat)
    requires IsBoard(bb) && SlideDefined(steps, dir) && SlideDefined(steps, Opp(dir))
    requires Bit(bb, i) && Lands(i, steps, dir, i + steps * StepSize(dir))
    ensures Bit(Slide(Slide(bb, steps, dir), steps, Opp(dir)), i)
  {
    var j := i + steps * StepSize(dir);
    SlideBit(bb, steps, dir, j);
    LandsBack(i, steps, dir, j);
    var s := Slide(bb, steps, dir);
    assert Bit(s, j);
    SlideBit(s, steps, Opp(dir), i);
  }

  /** Landing is reversed by the opposite direction. */
  lemma LandsBack(j: int, steps: int, dir: Dir, i: int)
    requires Lands(j, steps, dir, i)
    ensures i - steps * StepSize(dir) == j
    ensures Lands(i, steps, Opp(dir), j) && j - steps * StepSize(Opp(dir)) == i
  {
    LandsMoves(j, steps, dir, i);
    var o := Opp(dir);
    assert FileDelta(o) == -FileDelta(dir) && StepSize(o) == -StepSize(dir);
    MulNeg(steps, StepSize(dir));
    MulNeg(steps, FileDelta(dir));
    assert steps * FileDelta(o) == -(steps * FileDelta(dir));
    assert FileOf(i) + steps * FileDelta(o) == FileOf(j);
  }

  lemma MulNeg(a: int, b: int)
    ensures a * -b == -(a * b)
  {}

  // ----- single squares and castling -----

  /** `pos_mask(pos)`: the one-square bitboard of square pos. */
  function PosMask(pos: int): (r: int)
    requires 0 <= pos < 64
    ensures IsBoard(r)
  {
    Pow2Of64();
    SingleIsPow2(pos);
    Pow2Monotone(pos, 63);
    Shl(1, pos)
  }

  /** The one-square mask holds its square and nothing else. */
  lemma PosMaskBit(pos: int, j: nat)
    requires 0 <= pos < 64
    ensures Bit(PosMask(pos), j) <==> j == pos
  {
    SingleBit(pos, j);
  }

  /** The king's start and end squares of a castle: e1 and g1 (short) or c1 (long), on rank 8 for black. */
  function KingCastleSquares(player: bool, isShort: bool): (int, int)
  {
    var base := if player then 0 else 56;
    (base + 4, base + if isShort then 6 else 2)
  }

  /** The rook's start and end squares: h1 and f1 (short), a1 and d1 (long), on rank 8 for black. */
  function RookCastleSquares(player: bool, isShort: bool): (int, int)
  {
    var base := if player then 0 else 56;
    if isShort then (base + 7, base + 5) else (base + 0, base + 3)
  }

  /** `king_castle(player, is_short)`: the king's source and destination squares. */
  function KingCastle(player: bool, isShort: bool): int
  {
    match (player, isShort)
    case (true, true) => 0x50
    case (true, false) => 0x14
    case (false, true) => 0x50_00_00_00_00_00_00_00
    case (false, false) => 0x14_00_00_00_00_00_00_00
  }

  /** `rook_castle(player, is_short)`: the rook's source and destination squares. */
  function RookCastle(player: bool, isShort: bool): int
  {
    match (player, isShort)
    case (true, true) => 0xA0
    case (true, false) => 0x09
    case (false, true) => 0xA0_00_00_00_00_00_00_00
    case (false, false) => 0x09_00_00_00_00_00_00_00
  }

  /** Two distinct squares as a sum of powers of two. */
  lemma TwoSquaresBit(a: nat, b: nat, i: nat)
    requires a != b
    ensures Bit(Pow2(a) + Pow2(b), i) <==> i == a || i == b
  {
    Pow2Bit(a, b);
    OrPow2(Pow2(a), b);
    BitOr(Pow2(a), Pow2(b), i);
    Pow2Bit(a, i);
    Pow2Bit(b, i);
  }

  lemma Pow2Castles()
    ensures Pow2(0) == 1 && Pow2(2) == 4 && Pow2(3) == 8 && Pow2(4) == 16
    ensures Pow2(5) == 32 && Pow2(6) == 64 && Pow2(7) == 128
    ensures Pow2(56) == 0x100_0000_0000_0000 && Pow2(58) == 0x400_0000_0000_0000
    ensures Pow2(59) == 0x800_0000_0000_0000 && Pow2(60) == 0x1000_0000_0000_0000
    ensures Pow2(61) == 0x2000_0000_0000_0000 && Pow2(62) == 0x4000_0000_0000_0000
    ensures Pow2(63) == 0x8000_0000_0000_0000
  {
    Pow2Bytes();
    Pow2Add(56, 2);
    Pow2Add(56, 3);
    Pow2Add(56, 4);
    Pow2Add(56, 5);
    Pow2Add(56, 6);
    Pow2Add(56, 7);
  }

  /** Each castle mask is the sum of its two squares. */
  lemma CastleSums(player: bool, isShort: bool)
    ensures var (a, b) := KingCastleSquares(player, isShort); KingCastle(player, isShort) == Pow2(a) + Pow2(b)
    ensures var (a, b) := RookCastleSquares(player, isShort); RookCastle(player, isShort) == Pow2(a) + Pow2(b)
  {
    Pow2Castles();
  }

  /** The castle masks are the squares the king and the rook move between; they never overlap. */
  lemma CastleBit(player: bool, isShort: bool, i: nat)
    ensures IsBoard(KingCastle(player, isShort)) && IsBoard(RookCastle(player, isShort))
    ensures Bit(KingCastle(player, isShort), i) <==>
      i == KingCastleSquares(player, isShort).0 || i == KingCastleSquares(player, isShort).1
    ensures Bit(RookCastle(player, isShort), i) <==>
      i == RookCastleSquares(player, isShort).0 || i == RookCastleSquares(player, isShort).1
    ensures !(Bit(KingCastle(player, isShort), i) && Bit(RookCastle(player, isShort), i))
  {
    CastleSums(player, isShort);
    var (a, b) := KingCastleSquares(player, isShort);
    var (c, d) := RookCastleSquares(player, isShort);
    TwoSquaresBit(a, b, i);
    TwoSquaresBit(c, d, i);
  }
}
