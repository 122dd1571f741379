// The pseudo-legal move generators of board/pieces.py. A generator reads
// the board's mapping (its own bitboard, all occupied squares, the
// opponent's squares) and returns three parallel streams: 1-based source
// squares, 1-based destination squares and capture flags, non-captures
// first. A missing key (KeyError) or an empty mapping in `reduce`
// (TypeError) is `None`.
module BoardPieces {
  import opened Bits
  import opened BoardUtils
  import opened BoardRays
  import opened BoardPiece
  import opened BoardMove
  import opened BoardState

  const Rank4: int := 0x00_00_00_00_ff_00_00_00
  const Rank5: int := 0x00_00_00_ff_00_00_00_00

  /** The `attack_dirs` of Bishop, Rook and Queen. */
  const BishopDirs: seq<Dir> := [NE, SE, SW, NW]
  const RookDirs: seq<Dir> := [N, E, S, W]
  const QueenDirs: seq<Dir> := [N, NE, E, SE, S, SW, W, NW]

  /** The three streams handed to `PieceMoveList`. */
  datatype Streams = Streams(srcs: seq<int>, dests: seq<int>, captures: seq<bool>)

  /** Every item of s moved by d, as `map(lambda x: x + d, s)`. */
  function Offset(s: seq<nat>, d: int): (r: seq<int>)
    ensures |r| == |s| && forall k :: 0 <= k < |s| ==> r[k] == s[k] + d
  {
    seq(|s|, k requires 0 <= k < |s| => s[k] + d)
  }

  /** `[x] * n`. */
  function Rep(x: int, n: nat): (r: seq<int>)
    ensures |r| == n && forall k :: 0 <= k < n ==> r[k] == x
  {
    seq(n, k => x)
  }

  /** `[flag] * n`. */
  function Flags(flag: bool, n: nat): (r: seq<bool>)
    ensures |r| == n && forall k :: 0 <= k < n ==> r[k] == flag
  {
    seq(n, k => flag)
  }

  // ----- Pawn.get_valid_moves -----

  /** The square n ranks ahead of square i for the player (up for white, down for black). */
  function Ahead(forward: bool, i: int, n: int): int
  {
    if forward then i + 8 * n else i - 8 * n
  }

  /** `pp1`: own pawns whose square one rank ahead is empty. */
  function SinglePush(forward: bool, mine: int, empty: int): (r: int)
    ensures r >= 0
  {
    SlidesAreBoards(empty, 1, !forward);
    AndNonNegative(FileSlide(empty, 1, !forward), mine);
    And(FileSlide(empty, 1, !forward), mine)
  }

  /** `pp2`: own pawns whose two squares ahead are empty, the farther one on rank 4 (white) or 5 (black). */
  function DoublePush(forward: bool, mine: int, empty: int): (r: int)
    ensures r >= 0
  {
    var drank := if forward then Rank4 else Rank5;
    var emptyRank3 := And(FileSlide(And(empty, drank), 1, !forward), empty);
    SlidesAreBoards(emptyRank3, 1, !forward);
    AndNonNegative(FileSlide(emptyRank3, 1, !forward), mine);
    And(FileSlide(emptyRank3, 1, !forward), mine)
  }

  /** `cp_nw`. */
  function CaptureNorthWest(forward: bool, mine: int, opp: int): (r: int)
    ensures r >= 0
  {
    SlidesAreBoards(opp, 1, !forward);
    AndNonNegative(SenwSlide(opp, 1, !forward), mine);
    And(SenwSlide(opp, 1, !forward), mine)
  }

  /** `cp_ne`. */
  function CaptureNorthEast(forward: bool, mine: int, opp: int): (r: int)
    ensures r >= 0
  {
    SlidesAreBoards(opp, 1, !forward);
    AndNonNegative(SwneSlide(opp, 1, !forward), mine);
    And(SwneSlide(opp, 1, !forward), mine)
  }

  /** The en passant condition: the previous move was an opposing pawn moving 16 squares. */
  predicate EnPassantApplies(forward: bool, prev: Option<Move<Piece>>)
  {
    prev.Some? && prev.value.piece.kind == Pawn &&
    Abs(prev.value.src - prev.value.dest) == 16 && forward != prev.value.piece.player
  }

  /** `neighbours & mepawns`: own pawns on the squares just before and after prev.dest. */
  function EnPassantPawns(mine: int, prevDest: int): int
  {
    var neighbours := ShiftOr(Shift(1, prevDest - 1), [1, -1]).value;
    And(neighbours, mine)
  }

  /** `enpc_src` and `enpc_dest`. */
  function EnPassant(forward: bool, mine: int, prev: Option<Move<Piece>>): (r: (seq<nat>, seq<int>))
    ensures |r.0| == |r.1|
  {
    if EnPassantApplies(forward, prev) then
      var dest := if forward then prev.value.dest + 8 else prev.value.dest - 8;
      var nbs := EnPassantPawns(mine, prev.value.dest);
      UInt64Bit(0, 0);
      AndNonNegative(ShiftOr(Shift(1, prev.value.dest - 1), [1, -1]).value, mine);
      var srcs := Positions(nbs, 1);
      (srcs, Rep(dest, |srcs|))
    else ([], [])
  }

  /** The streams of `Pawn.get_valid_moves` from the bitboards it reads. */
  function PawnStreams(forward: bool, mine: int, empty: int, opp: int, prev: Option<Move<Piece>>): Streams
  {
    PawnChain(forward,
      Positions(SinglePush(forward, mine, empty), 1), Positions(DoublePush(forward, mine, empty), 1),
      Positions(CaptureNorthWest(forward, mine, opp), 1), Positions(CaptureNorthEast(forward, mine, opp), 1),
      EnPassant(forward, mine, prev))
  }

  /**
   * The chained sources, the chained destinations (pushes one or two ranks
   * ahead, then the captures), and the flags: False for the pushes, True for
   * the captures.
   */
  function PawnChain(forward: bool, s1: seq<nat>, s2: seq<nat>, s3: seq<nat>, s4: seq<nat>, ep: (seq<nat>, seq<int>)): Streams
  {
    Streams(
      s1 + s2 + s3 + s4 + ep.0,
      Offset(s1, if forward then 8 else -8) + Offset(s2, if forward then 16 else -16) +
      Offset(s3, if forward then 7 else -8) + Offset(s4, if forward then 9 else -8) + ep.1,
      Flags(false, |s1| + |s2|) + Flags(true, |s3| + |s4| + |ep.0|))
  }

  /** `Pawn(player).get_valid_moves(board, prev_move)`. */
  function PawnMoves(m: Mapping, player: bool, prev: Option<Move<Piece>>): Option<Streams>
  {
    var mine := Lookup(m, Piece(Pawn, player));
    var empty := EmptyBb(Values(m));
    var opp := NonEmptyBb(Values(Bbs4OppPlayer(m, player)));
    if mine.None? || empty.None? || opp.None? then None
    else Some(PawnStreams(player, mine.value, empty.value, opp.value, prev))
  }

  /** The body of `Pawn.get_valid_moves` once the bitboards are read. */
  method PawnGather(forward: bool, mine: int, empty: int, opp: int, prev: Option<Move<Piece>>) returns (st: Streams)
    ensures st == PawnStreams(forward, mine, empty, opp, prev)
  {
    var enpc := EnPassantGather(forward, mine, prev);
    var pp1 := GetBitPositions(SinglePush(forward, mine, empty));
    var pp2 := GetBitPositions(DoublePush(forward, mine, empty));
    var cpnw := GetBitPositions(CaptureNorthWest(forward, mine, opp));
    var cpne := GetBitPositions(CaptureNorthEast(forward, mine, opp));
    st := PawnChain(forward, pp1, pp2, cpnw, cpne, enpc);
  }

  /** `enpc_src` and `enpc_dest`, as `Pawn.get_valid_moves` builds them. */
  method EnPassantGather(forward: bool, mine: int, prev: Option<Move<Piece>>) returns (enpc: (seq<nat>, seq<int>))
    ensures enpc == EnPassant(forward, mine, prev)
  {
    if EnPassantApplies(forward, prev) {
      var last := prev.value.dest;
      var dest := if forward then last + 8 else last - 8;
      EnPassantPawnsBit(mine, last, 0);
      var enpcSrc := GetBitPositions(EnPassantPawns(mine, last));
      enpc := (enpcSrc, Rep(dest, |enpcSrc|));
      EnPassantIs(forward, mine, prev, last, dest);
    } else {
      enpc := ([], []);
    }
  }

  lemma EnPassantIs(forward: bool, mine: int, prev: Option<Move<Piece>>, last: int, dest: int)
    requires EnPassantApplies(forward, prev) && last == prev.value.dest
    requires dest == if forward then last + 8 else last - 8
    ensures EnPassantPawns(mine, last) >= 0
    ensures EnPassant(forward, mine, prev) ==
      (Positions(EnPassantPawns(mine, last), 1), Rep(dest, |Positions(EnPassantPawns(mine, last), 1)|))
  {
    EnPassantPawnsBit(mine, last, 0);
  }

  // ----- what the pawn bitboards hold -----

  /** `rank_4` and `rank_5` hold exactly the squares of the fourth and fifth rank. */
  lemma RankMaskBit(q: nat)
    ensures Bit(Rank4, q) <==> RankOf(q) == 3
    ensures Bit(Rank5, q) <==> RankOf(q) == 4
  {
    assert Pow2(8) == 0x100;
    Pow2Add(8, 8);
    Pow2Add(16, 8);
    Pow2Add(24, 8);
    ShlMul(0xff, 24);
    ShlMul(0xff, 32);
    RepeatLayer(0xff, 3, q);
    RepeatLayer(0xff, 4, q);
    ByteOnesBit(q % 8);
  }

  /** A pawn can push one rank iff it is on the board and the square ahead is empty. */
  lemma SinglePushBit(forward: bool, mine: int, empty: int, i: nat)
    ensures Bit(SinglePush(forward, mine, empty), i) <==>
      i < 64 && Bit(mine, i) && Occupied(empty, Ahead(forward, i, 1))
  {
    BitAnd(FileSlide(empty, 1, !forward), mine, i);
    FileSlideBit(empty, 1, !forward, i);
  }

  /**
   * A pawn can push two ranks iff both squares ahead are empty and the
   * farther one is on rank 4 (white) or rank 5 (black).
   */
  lemma DoublePushBit(forward: bool, mine: int, empty: int, i: nat)
    requires IsBoard(empty)
    ensures Bit(DoublePush(forward, mine, empty), i) <==>
      i < 64 && Bit(mine, i) && Occupied(empty, Ahead(forward, i, 1)) &&
      Occupied(empty, Ahead(forward, i, 2)) && Ahead(forward, i, 2) / 8 == (if forward then 3 else 4)
  {
    var drank := if forward then Rank4 else Rank5;
    var emptyRank3 := And(FileSlide(And(empty, drank), 1, !forward), empty);
    BitAnd(FileSlide(emptyRank3, 1, !forward), mine, i);
    FileSlideBit(emptyRank3, 1, !forward, i);
    var a1, a2 := Ahead(forward, i, 1), Ahead(forward, i, 2);
    if a1 >= 0 {
      BitAnd(FileSlide(And(empty, drank), 1, !forward), empty, a1);
      FileSlideBit(And(empty, drank), 1, !forward, a1);
      if a2 >= 0 {
        assert Ahead(forward, a1, 1) == a2;
        BitAnd(empty, drank, a2);
        RankMaskBit(a2);
        if a1 >= 64 { BoardBits(empty, a1); }
      }
    }
  }

  /** The north-west capture mask: own pawns with an opposing piece on the square `cp_nw` looks at. */
  lemma CaptureNorthWestBit(forward: bool, mine: int, opp: int, i: nat)
    ensures forward ==> (Bit(CaptureNorthWest(forward, mine, opp), i) <==>
      i < 64 && Bit(mine, i) && Bit(opp, i + 7) && FileOf(i) >= 1)
    ensures !forward ==> (Bit(CaptureNorthWest(forward, mine, opp), i) <==>
      7 <= i < 64 && Bit(mine, i) && Bit(opp, i - 7) && FileOf(i) + 1 < 8)
  {
    BitAnd(SenwSlide(opp, 1, !forward), mine, i);
    SenwSlideBit(opp, 1, !forward, i);
  }

  /**
   * The north-east capture mask. `swne_slide` shifts up in both branches, so
   * for white it finds own pawns with an opposing piece south-west of them
   * (i - 9), not north-east; for black it finds the pawns that can capture
   * south-west.
   */
  lemma CaptureNorthEastBit(forward: bool, mine: int, opp: int, i: nat)
    ensures forward ==> (Bit(CaptureNorthEast(forward, mine, opp), i) <==>
      9 <= i < 64 && Bit(mine, i) && Bit(opp, i - 9) && FileOf(i) + 1 < 8)
    ensures !forward ==> (Bit(CaptureNorthEast(forward, mine, opp), i) <==>
      9 <= i < 64 && Bit(mine, i) && Bit(opp, i - 9) && FileOf(i) >= 1)
  {
    if forward { CaptureNorthEastWhite(mine, opp, i); } else { CaptureNorthEastBlack(mine, opp, i); }
  }

  lemma CaptureNorthEastWhite(mine: int, opp: int, i: nat)
    ensures Bit(CaptureNorthEast(true, mine, opp), i) <==>
      9 <= i < 64 && Bit(mine, i) && Bit(opp, i - 9) && FileOf(i) + 1 < 8
  {
    BitAnd(SwneSlide(opp, 1, false), mine, i);
    SwneSlideBit(opp, 1, false, i);
  }

  lemma CaptureNorthEastBlack(mine: int, opp: int, i: nat)
    ensures Bit(CaptureNorthEast(false, mine, opp), i) <==>
      9 <= i < 64 && Bit(mine, i) && Bit(opp, i - 9) && FileOf(i) >= 1
  {
    BitAnd(SwneSlide(opp, 1, true), mine, i);
    SwneSlideBit(opp, 1, true, i);
  }

  /**
   * The en passant sources are own pawns at 1-based index prev.dest + 1 or
   * prev.dest - 1, with no check that they share the rank.
   */
  lemma EnPassantPawnsBit(mine: int, d: int, j: nat)
    ensures EnPassantPawns(mine, d) >= 0
    ensures Bit(EnPassantPawns(mine, d), j) <==> j < 64 && Bit(mine, j) && ((j == d && d >= 1) || j + 2 == d)
  {
    var one := Shift(1, d - 1);
    var poss := [1, -1];
    ShiftOrBit(one, poss, j);
    var nbs := ShiftOr(one, poss).value;
    UInt64Bit(ShiftUnion(one, poss), 0);
    AndNonNegative(nbs, mine);
    BitAnd(nbs, mine, j);
    if j >= 1 { ShiftOneBit(d - 1, j - 1); }
    ShiftOneBit(d - 1, j + 1);
    assert j - poss[0] == j - 1 && j - poss[1] == j + 1;
  }

  /**
   * En passant moves exist only after an opposing pawn moved 16 squares;
   * they go to the square the pawn passed over, from own pawns beside it.
   */
  lemma EnPassantSpec(forward: bool, mine: int, prev: Option<Move<Piece>>)
    ensures !EnPassantApplies(forward, prev) ==> EnPassant(forward, mine, prev) == ([], [])
    ensures EnPassantApplies(forward, prev) ==>
      var d := prev.value.dest;
      (forall p: nat :: p in EnPassant(forward, mine, prev).0 <==>
        1 <= p <= 64 && Bit(mine, p - 1) && ((p == d + 1 && d >= 1) || p == d - 1)) &&
      forall k :: 0 <= k < |EnPassant(forward, mine, prev).1| ==>
        EnPassant(forward, mine, prev).1[k] == (if forward then d + 8 else d - 8)
  {
    if EnPassantApplies(forward, prev) {
      var d := prev.value.dest;
      forall p: nat ensures p in EnPassant(forward, mine, prev).0 <==>
        1 <= p <= 64 && Bit(mine, p - 1) && ((p == d + 1 && d >= 1) || p == d - 1) {
        EnPassantSrcMem(mine, d, p);
      }
    }
  }

  lemma EnPassantSrcMem(mine: int, d: int, p: nat)
    ensures EnPassantPawns(mine, d) >= 0
    ensures p in Positions(EnPassantPawns(mine, d), 1) <==>
      1 <= p <= 64 && Bit(mine, p - 1) && ((p == d + 1 && d >= 1) || p == d - 1)
  {
    EnPassantPawnsBit(mine, d, 0);
    PositionsMem(EnPassantPawns(mine, d), 1, p);
    if p >= 1 { EnPassantPawnsBit(mine, d, p - 1); }
  }

  // ----- the pawn moves, square by square (1-based squares p) -----

  /** The pawn on p may step one rank ahead onto an empty square. */
  predicate PushOne(forward: bool, mine: int, empty: int, p: int)
  {
    1 <= p <= 64 && Bit(mine, p - 1) && Occupied(empty, Ahead(forward, p - 1, 1))
  }

  /** ... and on to an empty square of rank 4 (white) or 5 (black). */
  predicate PushTwo(forward: bool, mine: int, empty: int, p: int)
  {
    PushOne(forward, mine, empty, p) && Occupied(empty, Ahead(forward, p - 1, 2)) &&
    Ahead(forward, p - 1, 2) / 8 == (if forward then 3 else 4)
  }

  /** What `cp_nw` tests for the pawn on p. */
  predicate TakeNorthWest(forward: bool, mine: int, opp: int, p: int)
  {
    1 <= p <= 64 && Bit(mine, p - 1) &&
    if forward then Bit(opp, p + 6) && FileOf(p - 1) >= 1
    else 8 <= p && Bit(opp, p - 8) && FileOf(p - 1) + 1 < 8
  }

  /** What `cp_ne` tests for the pawn on p: the square nine below it, for both colours. */
  predicate TakeNorthEast(forward: bool, mine: int, opp: int, p: int)
  {
    10 <= p <= 64 && Bit(mine, p - 1) && Bit(opp, p - 10) &&
    if forward then FileOf(p - 1) + 1 < 8 else FileOf(p - 1) >= 1
  }

  /** The pawn on p sits beside the destination of an opposing double push. */
  predicate TakeEnPassant(forward: bool, mine: int, prev: Option<Move<Piece>>, p: int)
  {
    EnPassantApplies(forward, prev) && 1 <= p <= 64 && Bit(mine, p - 1) &&
    ((p == prev.value.dest + 1 && prev.value.dest >= 1) || p == prev.value.dest - 1)
  }

  /**
   * The moves `Pawn.get_valid_moves` generates, as (source, destination,
   * capture) triples. Both black capture streams go straight ahead (p - 8).
   */
  predicate PawnMove(forward: bool, mine: int, empty: int, opp: int, prev: Option<Move<Piece>>, p: int, d: int, c: bool)
  {
    (!c && PushOne(forward, mine, empty, p) && d == Ahead(forward, p, 1)) ||
    (!c && PushTwo(forward, mine, empty, p) && d == Ahead(forward, p, 2)) ||
    (c && TakeNorthWest(forward, mine, opp, p) && d == (if forward then p + 7 else p - 8)) ||
    (c && TakeNorthEast(forward, mine, opp, p) && d == (if forward then p + 9 else p - 8)) ||
    (c && TakeEnPassant(forward, mine, prev, p) && d == Ahead(forward, prev.value.dest, 1))
  }

  lemma PushOneMem(forward: bool, mine: int, empty: int, p: nat)
    ensures p in Positions(SinglePush(forward, mine, empty), 1) <==> PushOne(forward, mine, empty, p)
  {
    PositionsMem(SinglePush(forward, mine, empty), 1, p);
    if p >= 1 { SinglePushBit(forward, mine, empty, p - 1); }
  }

  lemma PushTwoMem(forward: bool, mine: int, empty: int, p: nat)
    requires IsBoard(empty)
    ensures p in Positions(DoublePush(forward, mine, empty), 1) <==> PushTwo(forward, mine, empty, p)
  {
    PositionsMem(DoublePush(forward, mine, empty), 1, p);
    if p >= 1 { PushTwoAt(forward, mine, empty, p); }
  }

  lemma PushTwoAt(forward: bool, mine: int, empty: int, p: nat)
    requires IsBoard(empty) && p >= 1
    ensures Bit(DoublePush(forward, mine, empty), p - 1) <==> PushTwo(forward, mine, empty, p)
  {
    DoublePushBit(forward, mine, empty, p - 1);
  }

  lemma TakeNorthWestMem(forward: bool, mine: int, opp: int, p: nat)
    ensures p in Positions(CaptureNorthWest(forward, mine, opp), 1) <==> TakeNorthWest(forward, mine, opp, p)
  {
    PositionsMem(CaptureNorthWest(forward, mine, opp), 1, p);
    if p >= 1 { TakeNorthWestAt(forward, mine, opp, p); }
  }

  lemma TakeNorthWestAt(forward: bool, mine: int, opp: int, p: nat)
    requires p >= 1
    ensures Bit(CaptureNorthWest(forward, mine, opp), p - 1) <==> TakeNorthWest(forward, mine, opp, p)
  {
    CaptureNorthWestBit(forward, mine, opp, p - 1);
  }

  lemma TakeNorthEastMem(forward: bool, mine: int, opp: int, p: nat)
    ensures p in Positions(CaptureNorthEast(forward, mine, opp), 1) <==> TakeNorthEast(forward, mine, opp, p)
  {
    PositionsMem(CaptureNorthEast(forward, mine, opp), 1, p);
    if p >= 1 { TakeNorthEastAt(forward, mine, opp, p); }
  }

  lemma TakeNorthEastAt(forward: bool, mine: int, opp: int, p: nat)
    requires p >= 1
    ensures Bit(CaptureNorthEast(forward, mine, opp), p - 1) <==> TakeNorthEast(forward, mine, opp, p)
  {
    CaptureNorthEastBit(forward, mine, opp, p - 1);
  }


  /** The chained streams are parallel, and the flags put every push before every capture. */
  lemma PawnChainParallel(forward: bool, s1: seq<nat>, s2: seq<nat>, s3: seq<nat>, s4: seq<nat>, ep: (seq<nat>, seq<int>))
    requires |ep.0| == |ep.1|
    ensures var st := PawnChain(forward, s1, s2, s3, s4, ep);
      |st.srcs| == |st.dests| == |st.captures| &&
      (forall k :: 0 <= k < |st.captures| ==> (st.captures[k] <==> k >= |s1| + |s2|))
  {
  }

  /** Each triple of the chained streams comes from one of the five segments, with its destination and flag. */
  lemma PawnChainSound(forward: bool, s1: seq<nat>, s2: seq<nat>, s3: seq<nat>, s4: seq<nat>, ep: (seq<nat>, seq<int>), k: nat)
    requires |ep.0| == |ep.1|
    requires k < |PawnChain(forward, s1, s2, s3, s4, ep).srcs|
    ensures var st := PawnChain(forward, s1, s2, s3, s4, ep);
      k < |st.dests| && k < |st.captures| &&
      ((!st.captures[k] && st.srcs[k] in s1 && st.dests[k] == st.srcs[k] + (if forward then 8 else -8)) ||
       (!st.captures[k] && st.srcs[k] in s2 && st.dests[k] == st.srcs[k] + (if forward then 16 else -16)) ||
       (st.captures[k] && st.srcs[k] in s3 && st.dests[k] == st.srcs[k] + (if forward then 7 else -8)) ||
       (st.captures[k] && st.srcs[k] in s4 && st.dests[k] == st.srcs[k] + (if forward then 9 else -8)) ||
       (st.captures[k] && st.srcs[k] in ep.0 && st.dests[k] in ep.1))
  {
    var st := PawnChain(forward, s1, s2, s3, s4, ep);
    var n1, n2, n3, n4 := |s1|, |s1| + |s2|, |s1| + |s2| + |s3|, |s1| + |s2| + |s3| + |s4|;
    if k < n1 { assert st.srcs[k] == s1[k]; }
    else if k < n2 { assert st.srcs[k] == s2[k - n1]; }
    else if k < n3 { assert st.srcs[k] == s3[k - n2]; }
    else if k < n4 { assert st.srcs[k] == s4[k - n3]; }
    else { assert st.srcs[k] == ep.0[k - n4] && st.dests[k] == ep.1[k - n4]; }
  }

  /** The position in the chained streams of each item of each segment. */
  function ChainIndex(s1: seq<nat>, s2: seq<nat>, s3: seq<nat>, s4: seq<nat>, segment: nat, j: nat): nat
  {
    if segment == 1 then j
    else if segment == 2 then |s1| + j
    else if segment == 3 then |s1| + |s2| + j
    else if segment == 4 then |s1| + |s2| + |s3| + j
    else |s1| + |s2| + |s3| + |s4| + j
  }

  /** Every item of every segment appears in the chained streams, with its destination and flag. */
  lemma PawnChainComplete(forward: bool, s1: seq<nat>, s2: seq<nat>, s3: seq<nat>, s4: seq<nat>, ep: (seq<nat>, seq<int>), segment: nat, j: nat)
    requires |ep.0| == |ep.1|
    requires 1 <= segment <= 5
    requires j < |[s1, s2, s3, s4, ep.0][segment - 1]|
    ensures var st := PawnChain(forward, s1, s2, s3, s4, ep);
      var k := ChainIndex(s1, s2, s3, s4, segment, j);
      var src := [s1, s2, s3, s4, ep.0][segment - 1][j];
      k < |st.srcs| && k < |st.dests| && k < |st.captures| && st.srcs[k] == src &&
      st.captures[k] == (segment >= 3) &&
      st.dests[k] == (if segment == 1 then src + (if forward then 8 else -8)
        else if segment == 2 then src + (if forward then 16 else -16)
        else if segment == 3 then src + (if forward then 7 else -8)
        else if segment == 4 then src + (if forward then 9 else -8)
        else ep.1[j])
  {
  }

  /** Every triple the pawn streams hold is a pawn move. */
  lemma PawnStreamsSound(forward: bool, mine: int, empty: int, opp: int, prev: Option<Move<Piece>>, k: nat)
    requires IsBoard(empty)
    requires k < |PawnStreams(forward, mine, empty, opp, prev).srcs|
    ensures var st := PawnStreams(forward, mine, empty, opp, prev);
      k < |st.dests| && k < |st.captures| &&
      PawnMove(forward, mine, empty, opp, prev, st.srcs[k], st.dests[k], st.captures[k])
  {
    var s1 := Positions(SinglePush(forward, mine, empty), 1);
    var s2 := Positions(DoublePush(forward, mine, empty), 1);
    var s3 := Positions(CaptureNorthWest(forward, mine, opp), 1);
    var s4 := Positions(CaptureNorthEast(forward, mine, opp), 1);
    var ep := EnPassant(forward, mine, prev);
    var st := PawnChain(forward, s1, s2, s3, s4, ep);
    assert st == PawnStreams(forward, mine, empty, opp, prev);
    PawnChainSound(forward, s1, s2, s3, s4, ep, k);
    PawnTripleSound(forward, mine, empty, opp, prev, st.srcs[k], st.dests[k], st.captures[k]);
  }

  /** A triple of one of the five pawn segments is a pawn move. */
  lemma PawnTripleSound(forward: bool, mine: int, empty: int, opp: int, prev: Option<Move<Piece>>, p: int, d: int, c: bool)
    requires IsBoard(empty)
    requires
      (!c && p in Positions(SinglePush(forward, mine, empty), 1) && d == p + (if forward then 8 else -8)) ||
      (!c && p in Positions(DoublePush(forward, mine, empty), 1) && d == p + (if forward then 16 else -16)) ||
      (c && p in Positions(CaptureNorthWest(forward, mine, opp), 1) && d == p + (if forward then 7 else -8)) ||
      (c && p in Positions(CaptureNorthEast(forward, mine, opp), 1) && d == p + (if forward then 9 else -8)) ||
      (c && p in EnPassant(forward, mine, prev).0 && d in EnPassant(forward, mine, prev).1)
    ensures PawnMove(forward, mine, empty, opp, prev, p, d, c)
  {
    if !c && p in Positions(SinglePush(forward, mine, empty), 1) && d == p + (if forward then 8 else -8) {
      PushOneMem(forward, mine, empty, p);
      PushOneIsMove(forward, mine, empty, opp, prev, p, d);
    } else if !c && p in Positions(DoublePush(forward, mine, empty), 1) && d == p + (if forward then 16 else -16) {
      PushTwoMem(forward, mine, empty, p);
      PushTwoIsMove(forward, mine, empty, opp, prev, p, d);
    } else if c && p in Positions(CaptureNorthWest(forward, mine, opp), 1) && d == p + (if forward then 7 else -8) {
      TakeNorthWestMem(forward, mine, opp, p);
    } else if c && p in Positions(CaptureNorthEast(forward, mine, opp), 1) && d == p + (if forward then 9 else -8) {
      TakeNorthEastMem(forward, mine, opp, p);
    } else {
      EnPassantMove(forward, mine, prev, p, d);
    }
  }

  lemma PushOneIsMove(forward: bool, mine: int, empty: int, opp: int, prev: Option<Move<Piece>>, p: int, d: int)
    requires PushOne(forward, mine, empty, p) && d == p + (if forward then 8 else -8)
    ensures PawnMove(forward, mine, empty, opp, prev, p, d, false)
  {
    assert d == Ahead(forward, p, 1);
  }

  lemma PushTwoIsMove(forward: bool, mine: int, empty: int, opp: int, prev: Option<Move<Piece>>, p: int, d: int)
    requires PushTwo(forward, mine, empty, p) && d == p + (if forward then 16 else -16)
    ensures PawnMove(forward, mine, empty, opp, prev, p, d, false)
  {
    assert d == Ahead(forward, p, 2);
  }

  /** A source and a destination of the en passant streams form an en passant capture. */
  lemma EnPassantMove(forward: bool, mine: int, prev: Option<Move<Piece>>, p: int, d: int)
    requires p in EnPassant(forward, mine, prev).0 && d in EnPassant(forward, mine, prev).1
    ensures TakeEnPassant(forward, mine, prev, p) && d == Ahead(forward, prev.value.dest, 1)
  {
    EnPassantSpec(forward, mine, prev);
    var ep := EnPassant(forward, mine, prev);
    var j :| 0 <= j < |ep.1| && ep.1[j] == d;
  }

  /** Every pawn move is in the pawn streams. */
  lemma PawnStreamsComplete(forward: bool, mine: int, empty: int, opp: int, prev: Option<Move<Piece>>, p: int, d: int, c: bool)
    requires IsBoard(empty)
    requires PawnMove(forward, mine, empty, opp, prev, p, d, c)
    ensures var st := PawnStreams(forward, mine, empty, opp, prev);
      exists k :: 0 <= k < |st.srcs| && k < |st.dests| && k < |st.captures| &&
        st.srcs[k] == p && st.dests[k] == d && st.captures[k] == c
  {
    var s1 := Positions(SinglePush(forward, mine, empty), 1);
    var s2 := Positions(DoublePush(forward, mine, empty), 1);
    var s3 := Positions(CaptureNorthWest(forward, mine, opp), 1);
    var s4 := Positions(CaptureNorthEast(forward, mine, opp), 1);
    var ep := EnPassant(forward, mine, prev);
    var segment := PawnSegment(forward, mine, empty, opp, prev, p, d, c);
    SegmentInChain(forward, s1, s2, s3, s4, ep, segment, p, d, c);
    assert PawnStreams(forward, mine, empty, opp, prev) == PawnChain(forward, s1, s2, s3, s4, ep);
  }

  /** The segment a pawn move is generated in, with the facts SegmentInChain needs. */
  lemma PawnSegment(forward: bool, mine: int, empty: int, opp: int, prev: Option<Move<Piece>>, p: int, d: int, c: bool)
    returns (segment: nat)
    requires IsBoard(empty)
    requires PawnMove(forward, mine, empty, opp, prev, p, d, c)
    ensures 1 <= segment <= 5
    ensures segment == 1 ==> p in Positions(SinglePush(forward, mine, empty), 1)
    ensures segment == 2 ==> p in Positions(DoublePush(forward, mine, empty), 1)
    ensures segment == 3 ==> p in Positions(CaptureNorthWest(forward, mine, opp), 1)
    ensures segment == 4 ==> p in Positions(CaptureNorthEast(forward, mine, opp), 1)
    ensures segment == 5 ==> (p in EnPassant(forward, mine, prev).0 &&
      forall k :: 0 <= k < |EnPassant(forward, mine, prev).1| ==> EnPassant(forward, mine, prev).1[k] == d)
    ensures c == (segment >= 3)
    ensures segment == 1 ==> d == p + (if forward then 8 else -8)
    ensures segment == 2 ==> d == p + (if forward then 16 else -16)
    ensures segment == 3 ==> d == p + (if forward then 7 else -8)
    ensures segment == 4 ==> d == p + (if forward then 9 else -8)
  {
    if p >= 0 {
      PushOneMem(forward, mine, empty, p);
      PushTwoMem(forward, mine, empty, p);
      TakeNorthWestMem(forward, mine, opp, p);
      TakeNorthEastMem(forward, mine, opp, p);
    }
    if !c && PushOne(forward, mine, empty, p) && d == Ahead(forward, p, 1) {
      segment := 1;
    } else if !c && PushTwo(forward, mine, empty, p) && d == Ahead(forward, p, 2) {
      segment := 2;
    } else if c && TakeNorthWest(forward, mine, opp, p) && d == (if forward then p + 7 else p - 8) {
      segment := 3;
    } else if c && TakeNorthEast(forward, mine, opp, p) && d == (if forward then p + 9 else p - 8) {
      segment := 4;
    } else {
      EnPassantSpec(forward, mine, prev);
      segment := 5;
    }
  }

  /** A source of a segment, with that segment's destination and flag, is in the chain. */
  lemma SegmentInChain(forward: bool, s1: seq<nat>, s2: seq<nat>, s3: seq<nat>, s4: seq<nat>, ep: (seq<nat>, seq<int>),
                       segment: nat, p: int, d: int, c: bool)
    requires |ep.0| == |ep.1|
    requires 1 <= segment <= 5
    requires segment == 1 ==> p in s1
    requires segment == 2 ==> p in s2
    requires segment == 3 ==> p in s3
    requires segment == 4 ==> p in s4
    requires segment == 5 ==> p in ep.0
    requires c == (segment >= 3)
    requires segment == 1 ==> d == p + (if forward then 8 else -8)
    requires segment == 2 ==> d == p + (if forward then 16 else -16)
    requires segment == 3 ==> d == p + (if forward then 7 else -8)
    requires segment == 4 ==> d == p + (if forward then 9 else -8)
    requires segment == 5 ==> forall k :: 0 <= k < |ep.1| ==> ep.1[k] == d
    ensures var st := PawnChain(forward, s1, s2, s3, s4, ep);
      exists k :: 0 <= k < |st.srcs| && k < |st.dests| && k < |st.captures| &&
        st.srcs[k] == p && st.dests[k] == d && st.captures[k] == c
  {
    var seg := [s1, s2, s3, s4, ep.0][segment - 1];
    assert p in seg;
    var j :| 0 <= j < |seg| && seg[j] == p;
    PawnChainComplete(forward, s1, s2, s3, s4, ep, segment, j);
    var st := PawnChain(forward, s1, s2, s3, s4, ep);
    var k := ChainIndex(s1, s2, s3, s4, segment, j);
    assert st.srcs[k] == p && st.dests[k] == d && st.captures[k] == c;
  }

  /**
   * The pawn streams are parallel, list every push before every capture, and
   * hold exactly the pawn moves: every generated triple is one, and every one
   * is generated.
   */
  lemma PawnStreamsSpec(forward: bool, mine: int, empty: int, opp: int, prev: Option<Move<Piece>>)
    requires IsBoard(empty)
    ensures var st := PawnStreams(forward, mine, empty, opp, prev);
      |st.srcs| == |st.dests| == |st.captures| &&
      (forall k, k' :: 0 <= k < k' < |st.captures| && st.captures[k] ==> st.captures[k']) &&
      (forall k :: 0 <= k < |st.srcs| ==>
        PawnMove(forward, mine, empty, opp, prev, st.srcs[k], st.dests[k], st.captures[k])) &&
      (forall p, d, c :: PawnMove(forward, mine, empty, opp, prev, p, d, c) ==>
        exists k :: 0 <= k < |st.srcs| && st.srcs[k] == p && st.dests[k] == d && st.captures[k] == c)
  {
    var st := PawnStreams(forward, mine, empty, opp, prev);
    var s1 := Positions(SinglePush(forward, mine, empty), 1);
    var s2 := Positions(DoublePush(forward, mine, empty), 1);
    PawnChainParallel(forward, s1, s2, Positions(CaptureNorthWest(forward, mine, opp), 1),
      Positions(CaptureNorthEast(forward, mine, opp), 1), EnPassant(forward, mine, prev));
    forall k | 0 <= k < |st.srcs|
      ensures PawnMove(forward, mine, empty, opp, prev, st.srcs[k], st.dests[k], st.captures[k])
    {
      PawnStreamsSound(forward, mine, empty, opp, prev, k);
    }
    forall p, d, c | PawnMove(forward, mine, empty, opp, prev, p, d, c)
      ensures exists k :: 0 <= k < |st.srcs| && st.srcs[k] == p && st.dests[k] == d && st.captures[k] == c
    {
      PawnStreamsComplete(forward, mine, empty, opp, prev, p, d, c);
    }
  }

  /**
   * `Pawn.get_valid_moves` fails (KeyError, TypeError) exactly when the
   * player has no pawn entry or the opponent no entry at all; otherwise its
   * streams hold exactly the pawn moves over the board's empty squares and
   * the opponent's squares.
   */
  lemma PawnMovesSpec(m: Mapping, player: bool, prev: Option<Move<Piece>>)
    ensures PawnMoves(m, player, prev).None? <==>
      Lookup(m, Piece(Pawn, player)).None? || |Bbs4OppPlayer(m, player)| == 0
    ensures PawnMoves(m, player, prev).Some? ==>
      var st := PawnMoves(m, player, prev).value;
      var mine := Lookup(m, Piece(Pawn, player)).value;
      var empty := EmptyBb(Values(m)).value;
      var opp := NonEmptyBb(Values(Bbs4OppPlayer(m, player))).value;
      |st.srcs| == |st.dests| == |st.captures| &&
      (forall k :: 0 <= k < |st.srcs| ==>
        PawnMove(player, mine, empty, opp, prev, st.srcs[k], st.dests[k], st.captures[k])) &&
      (forall p, d, c :: PawnMove(player, mine, empty, opp, prev, p, d, c) ==>
        exists k :: 0 <= k < |st.srcs| && st.srcs[k] == p && st.dests[k] == d && st.captures[k] == c)
  {
    if PawnMoves(m, player, prev).Some? {
      PawnStreamsSpec(player, Lookup(m, Piece(Pawn, player)).value, EmptyBb(Values(m)).value,
        NonEmptyBb(Values(Bbs4OppPlayer(m, player))).value, prev);
    }
  }

  /**
   * `cp_ne` for white looks back: a white pawn on b2 (square 10) with an
   * opposing piece on a1 (square 1) is given the "capture" b2-c3 although
   * nothing stands on c3 (square 19).
   */
  lemma WhiteNorthEastLooksBack(empty: int)
    ensures PawnMove(White, Single(9), empty, Single(0), None, 10, 19, true)
    ensures !Bit(Single(0), 18)
  {
    SingleBit(9, 9);
    SingleBit(0, 0);
    SingleBit(0, 18);
    assert TakeNorthEast(White, Single(9), Single(0), 10);
  }
}
