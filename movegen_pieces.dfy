// movegen/src/pieces.rs, `Piece::move_list`: the pseudo-legal moves of one
// kind of piece of one colour, appended to a move list. Pawns are generated
// set-wise: every stream of sources is one bitboard expression, its
// destinations are the same squares slid one or two steps forward, and each
// pair of streams is zipped into moves. The other pieces walk their squares
// and zip the square, repeated, with its quiet and capture destinations.
//
// The knight and king tables and the bishop and rook attack functions come
// from modules outside this model; they are parameters (`Tables`), and
// `Agrees` states their contract: the Python reference generator's
// `get_knight_patterns`/`get_king_patterns` masks and `ray_moves` attacks.
module MovegenPieces {
  import opened Bits
  import opened BoardUtils
  import opened BoardRays
  import BoardPieces
  import BoardLeapers
  import BoardGenerators
  import BoardPiece
  import opened MovegenDirection
  import opened MovegenUtils
  import opened MovegenPiece
  import opened MovegenMoves
  import opened MovegenBoard

  // ----- the attack tables -----

  /**
   * `patterns::KNIGHT_PATTERNS`, `patterns::KING_PATTERNS`,
   * `magic::bishop_attack` and `magic::rook_attack`.
   */
  datatype Tables = Tables(knight: seq<int>, king: seq<int>, bishop: (int, int) -> int, rook: (int, int) -> int)

  /** What the Rust types give: 64 u64 entries per table, and u64 attacks. */
  ghost predicate Wf(t: Tables)
  {
    |t.knight| == 64 && |t.king| == 64 &&
    (forall p :: 0 <= p < 64 ==> IsBoard(t.knight[p]) && IsBoard(t.king[p])) &&
    (forall p, occ :: IsBoard(t.bishop(p, occ)) && IsBoard(t.rook(p, occ)))
  }

  /**
   * The contract of the tables: the Python generator's knight mask and king
   * pattern of each square, and its ray attack along the bishop and rook
   * directions.
   */
  ghost predicate Agrees(t: Tables)
  {
    Wf(t) &&
    (forall p :: 0 <= p < 64 ==> t.knight[p] == BoardLeapers.KnightMask(p + 1) && t.king[p] == BoardLeapers.KingPattern(p + 1)) &&
    (forall p: nat, occ :: p < 64 ==>
      t.bishop(p, occ) == RayAttack(p, occ, BoardPieces.BishopDirs) && t.rook(p, occ) == RayAttack(p, occ, BoardPieces.RookDirs))
  }

  /** `get_knight_patterns(ones_64)` and `get_king_patterns(ones_64)`: the mask of every square. */
  function KnightTable(): (r: seq<int>)
    ensures |r| == 64 && forall p :: 0 <= p < 64 ==> r[p] == BoardLeapers.KnightMask(p + 1)
  {
    Tabulate(p => BoardLeapers.KnightMask(p + 1), 64)
  }

  function KingTable(): (r: seq<int>)
    ensures |r| == 64 && forall p :: 0 <= p < 64 ==> r[p] == BoardLeapers.KingPattern(p + 1)
  {
    Tabulate(p => BoardLeapers.KingPattern(p + 1), 64)
  }

  /** The list of f(0), .., f(n - 1). */
  function Tabulate(f: int -> int, n: nat): (r: seq<int>)
    ensures |r| == n && forall p :: 0 <= p < n ==> r[p] == f(p)
  {
    seq(n, p => f(p))
  }

  /** `ray_moves` along the bishop's or the rook's directions. */
  function RayTable(dirs: seq<Dir>): (r: (int, int) -> int)
    ensures forall p: nat, occ :: p < 64 ==> r(p, occ) == RayAttack(p, occ, dirs)
  {
    (p: int, occ: int) => if 0 <= p < 64 then RayAttack(p, occ, dirs) else 0
  }

  /** Tables that meet the contract: those the Python generator computes. */
  function Reference(): (t: Tables)
    ensures Agrees(t)
  {
    var t := Tables(KnightTable(), KingTable(), RayTable(BoardPieces.BishopDirs), RayTable(BoardPieces.RookDirs));
    forall p | 0 <= p < 64 ensures IsBoard(t.knight[p]) && IsBoard(t.king[p]) {
      BoardLeapers.MasksAreBoards(p + 1);
    }
    forall p, occ ensures IsBoard(t.bishop(p, occ)) && IsBoard(t.rook(p, occ)) {
      RayTableBoard(BoardPieces.BishopDirs, p, occ);
      RayTableBoard(BoardPieces.RookDirs, p, occ);
    }
    t
  }

  lemma RayTableBoard(dirs: seq<Dir>, p: int, occ: int)
    ensures IsBoard(RayTable(dirs)(p, occ))
  {
    if 0 <= p < 64 { RayAttackBoard(p, occ, dirs); }
  }

  /** A ray attack holds only board squares. */
  lemma RayAttackBoard(src: nat, occ: int, dirs: seq<Dir>)
    requires src < 64
    ensures IsBoard(RayAttack(src, occ, dirs))
  {
    var a := RayAttack(src, occ, dirs);
    forall i: nat | 64 <= i ensures !Bit(a, i) {
      RayAttackBit(src, occ, dirs, i);
      if Bit(a, i) {
        var k :| 0 <= k < |dirs| && InAttack(src, dirs[k], occ, i);
        OnRaySquare(src, dirs[k], i);
        SquareOnRay(src, dirs[k], StepOf(src, dirs[k], i));
      }
    }
    BitsBoard(a);
  }

  // ----- bitboards as square lists -----

  /** Masking with a bitboard leaves a bitboard. */
  lemma AndBoard(x: int, y: int)
    requires IsBoard(x) || IsBoard(y)
    ensures IsBoard(And(x, y))
  {
    forall i: nat | 64 <= i ensures !Bit(And(x, y), i) {
      BitAnd(x, y, i);
      if IsBoard(x) { BoardBits(x, i); } else { BoardBits(y, i); }
    }
    BitsBoard(And(x, y));
  }

  /** `BitPositions(bb)`, drained: the squares of bb in ascending order. */
  function Sq(bb: int): (r: seq<nat>)
    requires IsBoard(bb)
    ensures forall k :: 0 <= k < |r| ==> r[k] < 64
  {
    BoardPositions(bb);
    Positions(bb, 0)
  }

  /** `iter::repeat(x)`, cut to the n items the zip with a stream of n squares takes. */
  function Repeat(x: Square, n: nat): (r: seq<Square>)
    ensures |r| == n && forall k :: 0 <= k < n ==> r[k] == x
  {
    seq(n, k => x)
  }

  // ----- pawns -----

  /** `rank7`: the rank from which a push or capture promotes. */
  function Rank7(player: bool): int
  {
    if player then RankBBs[6] else RankBBs[1]
  }

  /** The rank a double push lands on. */
  function DoubleRank(player: bool): int
  {
    if player then RankBBs[3] else RankBBs[4]
  }

  /** The direction from the target squares back to the pawns, and the pawns' forward direction. */
  function Back(player: bool): Dir { if player then S else N }
  function Ahead(player: bool): Dir { if player then N else S }

  /** The two capture directions, seen from the target square back to the pawn and from the pawn forward. */
  function LeftBack(player: bool): Dir { if player then SE else NW }
  function LeftAhead(player: bool): Dir { if player then NW else SE }
  function RightBack(player: bool): Dir { if player then SW else NE }
  function RightAhead(player: bool): Dir { if player then NE else SW }

  /** The previous move was an en-passant move of the opponent. */
  predicate EpFires(player: bool, prev: Move)
  {
    MoveMetaOf(prev) == Enpassant && MovePiece(prev).player == !player
  }

  /**
   * The en-passant arm does not panic: `dest - 8` must not underflow for
   * black, and `pos_mask(dest)` must not shift by 64 or more.
   */
  predicate EpDefined(player: bool, prev: Move)
  {
    EpFires(player, prev) ==> Dest(prev) < 64 && (player || Dest(prev) >= 8)
  }

  /** The bitboards of the pawn arm: each source stream and its destination stream. */
  datatype PawnMasks = PawnMasks(
    pp1: int, pp1Dest: int, pp2: int, pp2Dest: int,
    cpL: int, cpLDest: int, cpR: int, cpRDest: int,
    cpEnp: int, cpEnpDest: int,
    ppPromo: int, ppPromoDest: int, cpLPromo: int, cpLPromoDest: int, cpRPromo: int, cpRPromoDest: int)
  {
    predicate Valid()
    {
      IsBoard(pp1) && IsBoard(pp1Dest) && IsBoard(pp2) && IsBoard(pp2Dest) &&
      IsBoard(cpL) && IsBoard(cpLDest) && IsBoard(cpR) && IsBoard(cpRDest) &&
      IsBoard(cpEnp) && 0 <= cpEnpDest < 256 &&
      IsBoard(ppPromo) && IsBoard(ppPromoDest) && IsBoard(cpLPromo) && IsBoard(cpLPromoDest) &&
      IsBoard(cpRPromo) && IsBoard(cpRPromoDest)
    }
  }

  /** The pawns that can move one step along back onto the targets, split by the promotion rank. */
  function Stepping(targets: int, back: Dir, pm: int, keep: int): (r: int)
    requires IsBoard(pm)
    ensures IsBoard(r)
  {
    AndBoard(Slide(targets, 1, back), pm);
    AndBoard(And(Slide(targets, 1, back), pm), keep);
    And(And(Slide(targets, 1, back), pm), keep)
  }

  /** `slide(bb, steps, dir)` of a bitboard, as a bitboard. */
  function SlideBoard(bb: int, steps: int, dir: Dir): (r: int)
    requires IsBoard(bb) && SlideDefined(steps, dir)
    ensures IsBoard(r) && r == Slide(bb, steps, dir)
  {
    SlideBit(bb, steps, dir, 0);
    Slide(bb, steps, dir)
  }

  /** The en-passant sources: own pawns one step diagonally back from the previous move's destination. */
  function EpSources(player: bool, pm: int, dest: int): (r: int)
    requires IsBoard(pm) && 0 <= dest < 64
    ensures IsBoard(r)
  {
    var dm := PosMask(dest);
    var a := if player then Or(SlideBoard(dm, 1, SW), SlideBoard(dm, 1, SE))
             else Or(SlideBoard(dm, 1, NW), SlideBoard(dm, 1, NE));
    AndBoard(a, pm);
    And(a, pm)
  }

  lemma RankBoards(player: bool)
    ensures IsBoard(Rank7(player)) && IsBoard(DoubleRank(player))
  {
    RankBBBit(6, 0);
    RankBBBit(1, 0);
    RankBBBit(3, 0);
    RankBBBit(4, 0);
  }

  /** `pp2`: the pawns two empty squares behind an empty square of the double-push rank. */
  function DoublePushes(player: bool, pm: int, empty: int): (r: int)
    requires IsBoard(pm) && IsBoard(empty)
    ensures IsBoard(r)
  {
    RankBoards(player);
    AndBoard(DoubleRank(player), empty);
    var a := SlideBoard(And(DoubleRank(player), empty), 1, Back(player));
    AndBoard(a, empty);
    var b := SlideBoard(And(a, empty), 1, Back(player));
    AndBoard(b, pm);
    And(b, pm)
  }

  /** `cp_enp` and `cp_enp_dest`: both 0 unless the previous move was the opponent's en-passant move. */
  function EnpassantMasks(player: bool, pm: int, prev: Move): (r: (int, int))
    requires IsBoard(pm) && EpDefined(player, prev)
    ensures IsBoard(r.0) && 0 <= r.1 < 256
  {
    if EpFires(player, prev) then
      var d := Dest(prev);
      (EpSources(player, pm, d), if player then d + 8 else d - 8)
    else (0, 0)
  }

  /** Every slide of the pawn arm is defined. */
  lemma PawnSlides(player: bool)
    ensures SlideDefined(1, Ahead(player)) && SlideDefined(2, Ahead(player))
    ensures SlideDefined(1, LeftAhead(player)) && SlideDefined(1, RightAhead(player))
  {
  }

  /** The pawn arm's bitboards, computed as `move_list` computes them. */
  function PawnMasksOf(player: bool, pm: int, empty: int, oppnt: int, prev: Move): (r: PawnMasks)
    requires IsBoard(pm) && IsBoard(empty) && IsBoard(oppnt) && EpDefined(player, prev)
    ensures r.Valid()
  {
    RankBoards(player);
    PawnSlides(player);
    var rank7, notRank7 := Rank7(player), UInt64(Not(Rank7(player)));
    var pp1 := Stepping(empty, Back(player), pm, notRank7);
    var ppPromo := Stepping(empty, Back(player), pm, rank7);
    var pp2 := DoublePushes(player, pm, empty);
    var cpL := Stepping(oppnt, LeftBack(player), pm, notRank7);
    var cpLPromo := Stepping(oppnt, LeftBack(player), pm, rank7);
    var cpR := Stepping(oppnt, RightBack(player), pm, notRank7);
    var cpRPromo := Stepping(oppnt, RightBack(player), pm, rank7);
    var (cpEnp, cpEnpDest) := EnpassantMasks(player, pm, prev);
    PawnMasks(
      pp1, SlideBoard(pp1, 1, Ahead(player)), pp2, SlideBoard(pp2, 2, Ahead(player)),
      cpL, SlideBoard(cpL, 1, LeftAhead(player)), cpR, SlideBoard(cpR, 1, RightAhead(player)),
      cpEnp, cpEnpDest,
      ppPromo, SlideBoard(ppPromo, 1, Ahead(player)),
      cpLPromo, SlideBoard(cpLPromo, 1, LeftAhead(player)),
      cpRPromo, SlideBoard(cpRPromo, 1, RightAhead(player)))
  }

  /** The moves of one bitboard stream zipped with another. */
  function Zip(piece: Piece, meta: MoveMeta, srcs: int, dests: int): seq<Move>
    requires IsBoard(srcs) && IsBoard(dests)
  {
    ZipMoves(piece, meta, Sq(srcs), Sq(dests))
  }

  /** One pass of the promotion loop: the pushes, left captures and right captures promoting to t. */
  function PromoRound(piece: Piece, m: PawnMasks, t: PieceType): seq<Move>
    requires m.Valid()
  {
    Zip(piece, Promotion(false, t), m.ppPromo, m.ppPromoDest) +
    Zip(piece, Promotion(true, t), m.cpLPromo, m.cpLPromoDest) +
    Zip(piece, Promotion(true, t), m.cpRPromo, m.cpRPromoDest)
  }

  /** The promotion loop over the targets, in order. */
  function PromoMoves(piece: Piece, m: PawnMasks, targets: seq<PieceType>): seq<Move>
    requires m.Valid()
  {
    if |targets| == 0 then []
    else PromoMoves(piece, m, targets[..|targets| - 1]) + PromoRound(piece, m, targets[|targets| - 1])
  }

  /**
   * The pawn arm's moves in push order: single pushes, double pushes, left
   * and right captures, en-passant captures, then the promotions.
   */
  function PawnMoves(piece: Piece, m: PawnMasks): seq<Move>
    requires m.Valid()
  {
    PawnHead(piece, m) + PromoMoves(piece, m, PromoTargets)
  }

  /** The pawn moves before the promotions. */
  function PawnHead(piece: Piece, m: PawnMasks): seq<Move>
    requires m.Valid()
  {
    Zip(piece, Quiet, m.pp1, m.pp1Dest) + Zip(piece, Quiet, m.pp2, m.pp2Dest) +
    Zip(piece, Capture, m.cpL, m.cpLDest) + Zip(piece, Capture, m.cpR, m.cpRDest) +
    ZipMoves(piece, Enpassant, Sq(m.cpEnp), Repeat(m.cpEnpDest, |Sq(m.cpEnp)|))
  }

  // ----- knights, bishops, rooks, queens and kings -----

  /** The kinds that walk their squares. */
  predicate Walks(kind: PieceType)
  {
    kind == Knight || kind == Bishop || kind == Rook || kind == Queen || kind == King
  }

  /**
   * The attack mask of the piece on pos: the pattern table entry for knights
   * and kings, the magic attack on the occupied squares for the sliders, and
   * for the queen the bishop attack xor the rook attack.
   */
  function Attack(t: Tables, kind: PieceType, pos: nat, empty: int): (r: int)
    requires Wf(t) && Walks(kind) && pos < 64
    ensures IsBoard(r)
  {
    var occ := UInt64(Not(empty));
    match kind
    case Knight => t.knight[pos]
    case Bishop => t.bishop(pos, occ)
    case Rook => t.rook(pos, occ)
    case Queen => XorBoard(t.bishop(pos, occ), t.rook(pos, occ)); Xor(t.bishop(pos, occ), t.rook(pos, occ))
    case King => t.king[pos]
  }

  /** The moves of the piece on pos: its quiet moves, then its captures. */
  function PosMoves(piece: Piece, pos: nat, empty: int, oppnt: int, t: Tables): seq<Move>
    requires Wf(t) && Walks(piece.pieceType) && pos < 64 && IsBoard(empty) && IsBoard(oppnt)
  {
    var a := Attack(t, piece.pieceType, pos, empty);
    AndBoard(a, empty);
    AndBoard(a, oppnt);
    var quiet, capture := Sq(And(a, empty)), Sq(And(a, oppnt));
    ZipMoves(piece, Quiet, Repeat(pos, |quiet|), quiet) + ZipMoves(piece, Capture, Repeat(pos, |capture|), capture)
  }

  /** The `for pos in BitPositions(piece_mask)` loop over the squares ps, in order. */
  function WalkMoves(piece: Piece, ps: seq<nat>, empty: int, oppnt: int, t: Tables): seq<Move>
    requires Wf(t) && Walks(piece.pieceType) && IsBoard(empty) && IsBoard(oppnt)
    requires forall k :: 0 <= k < |ps| ==> ps[k] < 64
  {
    if |ps| == 0 then []
    else WalkMoves(piece, ps[..|ps| - 1], empty, oppnt, t) + PosMoves(piece, ps[|ps| - 1], empty, oppnt, t)
  }

  lemma WalkMovesStep(piece: Piece, ps: seq<nat>, j: nat, empty: int, oppnt: int, t: Tables)
    requires Wf(t) && Walks(piece.pieceType) && IsBoard(empty) && IsBoard(oppnt)
    requires forall k :: 0 <= k < |ps| ==> ps[k] < 64
    requires j < |ps|
    ensures WalkMoves(piece, ps[..j + 1], empty, oppnt, t) ==
      WalkMoves(piece, ps[..j], empty, oppnt, t) + PosMoves(piece, ps[j], empty, oppnt, t)
  {
    assert ps[..j + 1][..j] == ps[..j];
  }

  /** Every move `move_list` appends for the piece, given its bitboard, the empty and the opponent's squares. */
  function GenMoves(piece: Piece, pm: int, empty: int, oppnt: int, prev: Move, t: Tables): seq<Move>
    requires IsBoard(pm) && IsBoard(empty) && IsBoard(oppnt) && Wf(t)
    requires piece.pieceType == Pawn ==> EpDefined(piece.player, prev)
  {
    match piece.pieceType
    case Pawn => PawnMoves(piece, PawnMasksOf(piece.player, pm, empty, oppnt, prev))
    case Knight | Bishop | Rook | Queen | King =>
      WalkMoves(piece, Sq(pm), empty, oppnt, t)
    case Invalid => []
  }

  // ----- the methods -----

  /** `push_from_forpiece(piece, meta, BitPositions(srcs), BitPositions(dests))`. */
  method PushZip(ml: MoveList, piece: Piece, meta: MoveMeta, srcs: int, dests: int)
    requires IsBoard(srcs) && IsBoard(dests)
    modifies ml
    ensures ml.moves == old(ml.moves) + Zip(piece, meta, srcs, dests)
  {
    var s := new BitPositions(srcs);
    var ss := s.Collect();
    var d := new BitPositions(dests);
    var ds := d.Collect();
    ml.PushFromForpiece(piece, meta, ss, ds);
  }

  /** `push_from_forpiece(piece, meta, iter::repeat(src), BitPositions(dests))`. */
  method PushRepeatSrc(ml: MoveList, piece: Piece, meta: MoveMeta, src: Square, dests: int)
    requires IsBoard(dests)
    modifies ml
    ensures ml.moves == old(ml.moves) + ZipMoves(piece, meta, Repeat(src, |Sq(dests)|), Sq(dests))
  {
    var d := new BitPositions(dests);
    var ds := d.Collect();
    ml.PushFromForpiece(piece, meta, Repeat(src, |ds|), ds);
  }

  /** `push_from_forpiece(piece, meta, BitPositions(srcs), iter::repeat(dest))`. */
  method PushRepeatDest(ml: MoveList, piece: Piece, meta: MoveMeta, srcs: int, dest: Square)
    requires IsBoard(srcs)
    modifies ml
    ensures ml.moves == old(ml.moves) + ZipMoves(piece, meta, Sq(srcs), Repeat(dest, |Sq(srcs)|))
  {
    var s := new BitPositions(srcs);
    var ss := s.Collect();
    ml.PushFromForpiece(piece, meta, ss, Repeat(dest, |ss|));
  }

  /** The pawn arm of `move_list`. */
  method PawnMoveList(piece: Piece, pm: int, empty: int, oppnt: int, prev: Move, ml: MoveList)
    requires IsBoard(pm) && IsBoard(empty) && IsBoard(oppnt) && EpDefined(piece.player, prev)
    modifies ml
    ensures ml.moves == old(ml.moves) + PawnMoves(piece, PawnMasksOf(piece.player, pm, empty, oppnt, prev))
  {
    var m := PawnMasksOf(piece.player, pm, empty, oppnt, prev);
    ghost var o := ml.moves;
    PushPawnHead(piece, m, ml);
    PushPromotions(piece, m, ml);
    Assoc2(o, PawnHead(piece, m), PromoMoves(piece, m, PromoTargets));
  }

  /** The promotion loop of the pawn arm: one round per target in `PROMO_TARGETS`. */
  method PushPromotions(piece: Piece, m: PawnMasks, ml: MoveList)
    requires m.Valid()
    modifies ml
    ensures ml.moves == old(ml.moves) + PromoMoves(piece, m, PromoTargets)
  {
    ghost var o := ml.moves;
    for j := 0 to |PromoTargets|
      invariant ml.moves == o + PromoMoves(piece, m, PromoTargets[..j])
    {
      PushPromoRound(piece, m, PromoTargets[j], ml);
      PromoMovesStep(piece, m, PromoTargets, j);
      Assoc2(o, PromoMoves(piece, m, PromoTargets[..j]), PromoRound(piece, m, PromoTargets[j]));
    }
    assert PromoTargets[..|PromoTargets|] == PromoTargets;
  }

  /** One round of the promotion loop. */
  method PushPromoRound(piece: Piece, m: PawnMasks, promoTo: PieceType, ml: MoveList)
    requires m.Valid()
    modifies ml
    ensures ml.moves == old(ml.moves) + PromoRound(piece, m, promoTo)
  {
    ghost var o := ml.moves;
    PushZip(ml, piece, Promotion(false, promoTo), m.ppPromo, m.ppPromoDest);
    PushZip(ml, piece, Promotion(true, promoTo), m.cpLPromo, m.cpLPromoDest);
    PushZip(ml, piece, Promotion(true, promoTo), m.cpRPromo, m.cpRPromoDest);
    Assoc3(o, Zip(piece, Promotion(false, promoTo), m.ppPromo, m.ppPromoDest),
      Zip(piece, Promotion(true, promoTo), m.cpLPromo, m.cpLPromoDest),
      Zip(piece, Promotion(true, promoTo), m.cpRPromo, m.cpRPromoDest));
  }

  lemma PromoMovesStep(piece: Piece, m: PawnMasks, ts: seq<PieceType>, j: nat)
    requires m.Valid() && j < |ts|
    ensures PromoMoves(piece, m, ts[..j + 1]) == PromoMoves(piece, m, ts[..j]) + PromoRound(piece, m, ts[j])
  {
    assert ts[..j + 1][..j] == ts[..j];
  }

  /** The pushes of the pawn arm before the promotion loop. */
  method PushPawnHead(piece: Piece, m: PawnMasks, ml: MoveList)
    requires m.Valid()
    modifies ml
    ensures ml.moves == old(ml.moves) + PawnHead(piece, m)
  {
    ghost var o := ml.moves;
    PushZip(ml, piece, Quiet, m.pp1, m.pp1Dest);
    PushZip(ml, piece, Quiet, m.pp2, m.pp2Dest);
    PushZip(ml, piece, Capture, m.cpL, m.cpLDest);
    PushZip(ml, piece, Capture, m.cpR, m.cpRDest);
    var cpEnpDest: Square := m.cpEnpDest;
    PushRepeatDest(ml, piece, Enpassant, m.cpEnp, cpEnpDest);
    Assoc5(o, Zip(piece, Quiet, m.pp1, m.pp1Dest), Zip(piece, Quiet, m.pp2, m.pp2Dest),
      Zip(piece, Capture, m.cpL, m.cpLDest), Zip(piece, Capture, m.cpR, m.cpRDest),
      ZipMoves(piece, Enpassant, Sq(m.cpEnp), Repeat(m.cpEnpDest, |Sq(m.cpEnp)|)));
  }

  lemma Assoc5<T>(o: seq<T>, a: seq<T>, b: seq<T>, c: seq<T>, d: seq<T>, e: seq<T>)
    ensures o + a + b + c + d + e == o + (a + b + c + d + e)
  {
  }

  lemma Assoc3<T>(o: seq<T>, a: seq<T>, b: seq<T>, c: seq<T>)
    ensures o + a + b + c == o + (a + b + c)
  {
  }

  lemma Assoc2<T>(o: seq<T>, a: seq<T>, b: seq<T>)
    ensures o + a + b == o + (a + b)
  {
  }

  /** One pass of a walking piece's loop: the piece on pos pushes its quiet moves, then its captures. */
  method PosMoveList(piece: Piece, pos: nat, empty: int, oppnt: int, t: Tables, ml: MoveList)
    requires Wf(t) && Walks(piece.pieceType) && pos < 64 && IsBoard(empty) && IsBoard(oppnt)
    modifies ml
    ensures ml.moves == old(ml.moves) + PosMoves(piece, pos, empty, oppnt, t)
  {
    var attack := Attack(t, piece.pieceType, pos, empty);
    AndBoard(attack, empty);
    AndBoard(attack, oppnt);
    var ncpDest, cpDest := And(attack, empty), And(attack, oppnt);
    PushRepeatSrc(ml, piece, Quiet, pos, ncpDest);
    PushRepeatSrc(ml, piece, Capture, pos, cpDest);
  }

  /** The knight, bishop, rook, queen and king arms: the loop over `BitPositions(piece_mask)`. */
  method WalkMoveList(piece: Piece, pm: int, empty: int, oppnt: int, t: Tables, ml: MoveList)
    requires Wf(t) && Walks(piece.pieceType) && IsBoard(pm) && IsBoard(empty) && IsBoard(oppnt)
    modifies ml
    ensures ml.moves == old(ml.moves) + WalkMoves(piece, Sq(pm), empty, oppnt, t)
  {
    var it := new BitPositions(pm);
    var ps := it.Collect();
    PushWalk(piece, ps, empty, oppnt, t, ml);
  }

  /** The body of the walking arms' loop, run over the squares ps in order. */
  method PushWalk(piece: Piece, ps: seq<nat>, empty: int, oppnt: int, t: Tables, ml: MoveList)
    requires Wf(t) && Walks(piece.pieceType) && IsBoard(empty) && IsBoard(oppnt)
    requires forall k :: 0 <= k < |ps| ==> ps[k] < 64
    modifies ml
    ensures ml.moves == old(ml.moves) + WalkMoves(piece, ps, empty, oppnt, t)
  {
    ghost var o := ml.moves;
    for j := 0 to |ps|
      invariant ml.moves == o + WalkMoves(piece, ps[..j], empty, oppnt, t)
    {
      PosMoveList(piece, ps[j], empty, oppnt, t, ml);
      WalkMovesStep(piece, ps, j, empty, oppnt, t);
      Assoc2(o, WalkMoves(piece, ps[..j], empty, oppnt, t), PosMoves(piece, ps[j], empty, oppnt, t));
    }
    assert ps[..|ps|] == ps;
  }

  /** `Piece::move_list`: appends the piece's moves on the board, given its bitboard and the previous move. */
  method PieceMoveList(piece: Piece, pm: int, board: Board, prev: Move, ml: MoveList, t: Tables)
    requires board.Valid() && IsBoard(pm) && Wf(t)
    requires piece.pieceType == Pawn ==> EpDefined(piece.player, prev)
    modifies ml
    ensures ml.moves == old(ml.moves) + GenMoves(piece, pm, board.EmptyMask(), board.PlayerMask(!piece.player), prev, t)
  {
    var empty := board.EmptyMask();
    var oppnt := board.PlayerMask(!piece.player);
    match piece.pieceType
    case Pawn => PawnMoveList(piece, pm, empty, oppnt, prev, ml);
    case Knight | Bishop | Rook | Queen | King => WalkMoveList(piece, pm, empty, oppnt, t, ml);
    case Invalid =>
  }
}
