// The knight and king attack masks of board/pieces.py: a one-square mask
// shifted by every offset of a fixed list. Knights drop the destinations
// that wrap around the board edge; `King.get_valid_moves` does not, while
// `get_king_patterns` does.
module BoardLeapers {
  import opened Bits
  import opened BoardUtils
  import opened BoardRays

  const KnightShifts: seq<int> := [6, 15, 17, 10, -6, -15, -17, -10]
  const KingShifts: seq<int> := [-1, 7, 8, 9, 1, -7, -8, -9]

  // ----- the reference moves, on files and ranks -----

  /** A knight move from square i to square j (0-based): one file and two ranks, or two files and one rank. */
  predicate KnightJump(i: int, j: int)
  {
    0 <= i < 64 && 0 <= j < 64 &&
    var df, dr := FileOf(j) - FileOf(i), RankOf(j) - RankOf(i);
    (Abs(df) == 1 && Abs(dr) == 2) || (Abs(df) == 2 && Abs(dr) == 1)
  }

  /** A king move from square i to square j (0-based): to a different square at most one file and one rank away. */
  predicate KingStep(i: int, j: int)
  {
    0 <= i < 64 && 0 <= j < 64 && i != j &&
    Abs(FileOf(j) - FileOf(i)) <= 1 && Abs(RankOf(j) - RankOf(i)) <= 1
  }

  /** A king shift from square i that lands on the opposite edge file: a wrap around the board, not a move. */
  predicate KingWrap(i: int, j: int)
  {
    0 <= i < 64 && 0 <= j < 64 && j - i in KingShifts && Abs(FileOf(j) - FileOf(i)) == 7
  }

  // ----- the masks -----

  /** `shift_or(shift(1, bit_pos - 1), shifts)` for a 1-based square. */
  function ShiftedSquare(p: int, shifts: seq<int>): int
    requires |shifts| > 0
  {
    ShiftOr(Shift(1, p - 1), shifts).value
  }

  /**
   * `kn_dest_bb` for the knight on 1-based square p: a knight on file a or b
   * loses files g and h, one on file g or h loses files a and b.
   */
  function KnightMask(p: int): int
  {
    var bb := ShiftedSquare(p, KnightShifts);
    var file := FileRankInt(p - 1).0;
    if file in [1, 2, 7, 8] then ClearFiles(bb, 2, file in [7, 8]) else bb
  }

  /** `attack_mask` of `King.get_valid_moves`: the eight shifts with no file mask. */
  function KingMask(p: int): int
  {
    ShiftedSquare(p, KingShifts)
  }

  /** The mask of `get_king_patterns`: a king on file a loses file h, one on file h loses file a. */
  function KingPattern(p: int): int
  {
    var bb := ShiftedSquare(p, KingShifts);
    var file := FileRankInt(p - 1).0;
    if file in [1, 8] then ClearFiles(bb, 1, file == 8) else bb
  }

  // ----- what the masks hold -----

  /** A shifted one-square mask holds exactly the squares the shifts reach on the board. */
  lemma ShiftedSquareBit(p: int, shifts: seq<int>, j: nat)
    requires p >= 1 && |shifts| > 0
    ensures Bit(ShiftedSquare(p, shifts), j) <==> j < 64 && j - (p - 1) in shifts
  {
    ShiftOrBit(Shift(1, p - 1), shifts, j);
    forall k | 0 <= k < |shifts| && j - shifts[k] >= 0
      ensures Bit(Shift(1, p - 1), j - shifts[k]) <==> j - shifts[k] == p - 1
    {
      ShiftOneBit(p - 1, j - shifts[k]);
    }
  }

  /** The masks are bitboards. */
  lemma MasksAreBoards(p: int)
    requires p >= 1
    ensures IsBoard(KnightMask(p)) && IsBoard(KingMask(p)) && IsBoard(KingPattern(p))
  {
    forall j: nat | j >= 64
      ensures !Bit(KnightMask(p), j) && !Bit(KingMask(p), j) && !Bit(KingPattern(p), j)
    {
      ShiftedSquareBit(p, KnightShifts, j);
      ShiftedSquareBit(p, KingShifts, j);
      ClearFilesBit(ShiftedSquare(p, KnightShifts), 2, true, j);
      ClearFilesBit(ShiftedSquare(p, KnightShifts), 2, false, j);
      ClearFilesBit(ShiftedSquare(p, KingShifts), 1, true, j);
      ClearFilesBit(ShiftedSquare(p, KingShifts), 1, false, j);
    }
    BitsBoard(KnightMask(p));
    BitsBoard(KingMask(p));
    BitsBoard(KingPattern(p));
  }

  /** The files a knight on file f keeps after `clear_files` (0-based files). */
  predicate KnightKeeps(f: int, fj: int)
  {
    if f <= 1 then fj + 2 < 8 else if f >= 6 then fj >= 2 else true
  }

  /** A knight shift that lands on a kept file is a knight move, and every knight move is one. */
  lemma KnightArith(i: nat, j: nat)
    requires i < 64 && j < 64
    ensures (j - i in KnightShifts && KnightKeeps(FileOf(i), FileOf(j))) <==> KnightJump(i, j)
  {
    var r, f, rj, fj := i / 8, i % 8, j / 8, j % 8;
    assert i == 8 * r + f && j == 8 * rj + fj;
    assert j - i in KnightShifts <==>
      j - i == 6 || j - i == 15 || j - i == 17 || j - i == 10 ||
      j - i == -6 || j - i == -15 || j - i == -17 || j - i == -10;
  }

  /** `kn_dest_bb` holds exactly the squares a knight on p reaches: no destination wraps around an edge. */
  lemma KnightMaskBit(p: int, j: nat)
    requires 1 <= p <= 64
    ensures Bit(KnightMask(p), j) <==> KnightJump(p - 1, j)
  {
    var i := p - 1;
    var bb := ShiftedSquare(p, KnightShifts);
    ShiftedSquareBit(p, KnightShifts, j);
    var file := FileRankInt(i).0;
    assert file == FileOf(i) + 1;
    if file in [1, 2, 7, 8] {
      assert KnightMask(p) == ClearFiles(bb, 2, file in [7, 8]);
      ClearFilesBit(bb, 2, file in [7, 8], j);
    } else {
      assert KnightMask(p) == bb;
    }
    if j < 64 { KnightArith(i, j); }
  }

  /** The files a king on file f keeps after `clear_files` in `get_king_patterns` (0-based files). */
  predicate KingKeeps(f: int, fj: int)
  {
    if f == 0 then fj + 1 < 8 else if f == 7 then fj >= 1 else true
  }

  /** A king shift that lands on a kept file is a king move, and every king move is one. */
  lemma KingArith(i: nat, j: nat)
    requires i < 64 && j < 64
    ensures (j - i in KingShifts && KingKeeps(FileOf(i), FileOf(j))) <==> KingStep(i, j)
  {
    var r, f, rj, fj := i / 8, i % 8, j / 8, j % 8;
    assert i == 8 * r + f && j == 8 * rj + fj;
    KingDelta(rj - r, fj - f, f, fj);
  }

  /** The king step condition on a rank difference dr and a file difference df. */
  lemma KingDelta(dr: int, df: int, f: int, fj: int)
    requires 0 <= f < 8 && 0 <= fj < 8 && df == fj - f && -7 <= dr <= 7
    ensures (8 * dr + df in KingShifts && KingKeeps(f, fj)) <==>
      (dr != 0 || df != 0) && Abs(df) <= 1 && Abs(dr) <= 1
  {
    assert 8 * dr + df in KingShifts <==>
      8 * dr + df == -1 || 8 * dr + df == 7 || 8 * dr + df == 8 || 8 * dr + df == 9 ||
      8 * dr + df == 1 || 8 * dr + df == -7 || 8 * dr + df == -8 || 8 * dr + df == -9;
  }

  /** A king shift is a king move or a wrap onto the opposite edge file. */
  lemma KingWrapArith(i: nat, j: nat)
    requires i < 64 && j < 64
    ensures j - i in KingShifts <==> KingStep(i, j) || KingWrap(i, j)
  {
    var r, f, rj, fj := i / 8, i % 8, j / 8, j % 8;
    assert i == 8 * r + f && j == 8 * rj + fj;
    KingWrapDelta(rj - r, fj - f);
  }

  /** A king shift changes the file by at most one, or by seven when it wraps. */
  lemma KingWrapDelta(dr: int, df: int)
    requires -7 <= df <= 7 && -7 <= dr <= 7
    ensures 8 * dr + df in KingShifts <==>
      ((dr != 0 || df != 0) && Abs(df) <= 1 && Abs(dr) <= 1) || (8 * dr + df in KingShifts && Abs(df) == 7)
  {
    assert 8 * dr + df in KingShifts <==>
      8 * dr + df == -1 || 8 * dr + df == 7 || 8 * dr + df == 8 || 8 * dr + df == 9 ||
      8 * dr + df == 1 || 8 * dr + df == -7 || 8 * dr + df == -8 || 8 * dr + df == -9;
  }

  /** The pattern mask is the shifted square, cleared of the far file on the a and h files. */
  lemma KingPatternCases(p: int)
    requires 1 <= p <= 64
    ensures var f := FileOf(p - 1);
      KingPattern(p) == if f == 0 || f == 7 then ClearFiles(ShiftedSquare(p, KingShifts), 1, f == 7)
      else ShiftedSquare(p, KingShifts)
  {
    var file := FileRankInt(p - 1).0;
    assert file == FileOf(p - 1) + 1;
    assert file in [1, 8] <==> file == 1 || file == 8;
  }

  /** The pattern mask holds exactly the squares a king on p reaches. */
  lemma KingPatternBit(p: int, j: nat)
    requires 1 <= p <= 64
    ensures Bit(KingPattern(p), j) <==> KingStep(p - 1, j)
  {
    var i := p - 1;
    KingPatternCases(p);
    ShiftedSquareBit(p, KingShifts, j);
    if FileOf(i) == 0 || FileOf(i) == 7 {
      ClearFilesBit(ShiftedSquare(p, KingShifts), 1, FileOf(i) == 7, j);
    }
    if j < 64 { KingArith(i, j); }
  }

  /**
   * The unmasked mask of `King.get_valid_moves` holds every king move and,
   * besides, the squares a shift wraps onto the opposite edge file.
   */
  lemma KingMaskBit(p: int, j: nat)
    requires 1 <= p <= 64
    ensures Bit(KingMask(p), j) <==> KingStep(p - 1, j) || KingWrap(p - 1, j)
  {
    ShiftedSquareBit(p, KingShifts, j);
    if j < 64 { KingWrapArith(p - 1, j); }
  }

  /** A king on h1 (square 8) is offered a2 (square 9, 0-based 8), which is not a king move. */
  lemma KingMaskWraps()
    ensures Bit(KingMask(8), 8) && KingWrap(7, 8) && !KingStep(7, 8)
  {
    KingMaskBit(8, 8);
  }
}
