// The moves of movegen/src/moves.rs: the 4-bit move kind codes, the packed
// two-field `Move` (a byte of piece and kind, a u16 of source and
// destination square), the growable `MoveList`, and the `BitPositions`
// iterator over the set bits of a bitboard. A u8 is a `bv8`, a u16 a `bv16`.
module MovegenMoves {
  import opened Bits
  import opened BoardUtils
  import opened MovegenPiece
  import opened MovegenUtils

  const MoveIllegal: bv8 := 0
  const MoveQuiet: bv8 := 1
  const MoveCapture: bv8 := 2
  const MoveCastleS: bv8 := 3
  const MoveCastleL: bv8 := 4
  const MoveEnpassant: bv8 := 5
  const MovePromoteN: bv8 := 6
  const MovePromoteB: bv8 := 7
  const MovePromoteR: bv8 := 8
  const MovePromoteQ: bv8 := 9
  const MovePromoteNX: bv8 := 10
  const MovePromoteBX: bv8 := 11
  const MovePromoteRX: bv8 := 12
  const MovePromoteQX: bv8 := 13

  /** `MoveMeta`: what kind of move a move is. */
  datatype MoveMeta =
    | Quiet
    | Capture
    | Castle(isShort: bool)
    | Enpassant
    | Promotion(isCapture: bool, pieceType: PieceType)
    | Illegal

  /** A kind the encoding can carry: a promotion only to a knight, bishop, rook or queen. */
  predicate Encodable(m: MoveMeta)
  {
    m.Promotion? ==> m.pieceType in PromoTargets
  }

  /** The kind a move keeps through encoding: a promotion to any other type becomes one to a queen. */
  function Canonical(m: MoveMeta): MoveMeta
  {
    if m.Promotion? && m.pieceType !in PromoTargets then Promotion(m.isCapture, Queen) else m
  }

  /** `MoveMeta::to_bits`. */
  function MetaToBits(m: MoveMeta): (r: bv8)
    ensures r <= MovePromoteQX
    ensures r == MoveIllegal <==> m == Illegal
  {
    match m
    case Quiet => MoveQuiet
    case Capture => MoveCapture
    case Castle(isShort) => if isShort then MoveCastleS else MoveCastleL
    case Enpassant => MoveEnpassant
    case Promotion(false, Knight) => MovePromoteN
    case Promotion(false, Bishop) => MovePromoteB
    case Promotion(false, Rook) => MovePromoteR
    case Promotion(false, Queen) => MovePromoteQ
    case Promotion(false, _) => MovePromoteQ
    case Promotion(true, Knight) => MovePromoteNX
    case Promotion(true, Bishop) => MovePromoteBX
    case Promotion(true, Rook) => MovePromoteRX
    case Promotion(true, Queen) => MovePromoteQX
    case Promotion(true, _) => MovePromoteQX
    case Illegal => MoveIllegal
  }

  /** `MoveMeta::from_bits`: codes 1 .. 13 name their kinds, every other byte `Illegal`. */
  function MetaFromBits(b: bv8): (r: MoveMeta)
    ensures Encodable(r)
    ensures r == Illegal <==> !(MoveQuiet <= b <= MovePromoteQX)
  {
    match b
    case 1 => Quiet
    case 2 => Capture
    case 3 => Castle(true)
    case 4 => Castle(false)
    case 5 => Enpassant
    case 6 => Promotion(false, Knight)
    case 7 => Promotion(false, Bishop)
    case 8 => Promotion(false, Rook)
    case 9 => Promotion(false, Queen)
    case 10 => Promotion(true, Knight)
    case 11 => Promotion(true, Bishop)
    case 12 => Promotion(true, Rook)
    case 13 => Promotion(true, Queen)
    case _ => Illegal
  }

  /** Decoding an encoded kind gives it back, up to the queen default for promotions. */
  lemma MetaRoundTrip(m: MoveMeta)
    ensures MetaFromBits(MetaToBits(m)) == Canonical(m)
    ensures Encodable(m) ==> MetaFromBits(MetaToBits(m)) == m
  {
  }

  /** Codes 1 .. 13 survive decoding and encoding; any other byte re-encodes as 0. */
  lemma MetaBitsRoundTrip(b: bv8)
    ensures MetaToBits(MetaFromBits(b)) == if MoveQuiet <= b <= MovePromoteQX then b else MoveIllegal
  {
  }

  /** `MoveMeta::is_capture`. */
  function IsCapture(m: MoveMeta): bool
  {
    match m
    case Capture => true
    case Promotion(isCapture, _) => isCapture
    case Enpassant => true
    case _ => false
  }

  /** A kind captures exactly when its code is that of a capture, an en-passant capture or a capturing promotion. */
  lemma IsCaptureCodes(m: MoveMeta)
    ensures IsCapture(m) <==> MetaToBits(m) in {MoveCapture, MoveEnpassant, MovePromoteNX, MovePromoteBX, MovePromoteRX, MovePromoteQX}
  {
  }

  const PieceMask: bv8 := 0xF0
  const PieceMaskShift: bv8 := 4
  const MoveMetaMask: bv8 := 0x0F

  /** The source and destination masks are seven bits wide, although a square needs only six. */
  const SrcMask: bv16 := 0x7F00
  const SrcMaskShift: bv16 := 8
  const DestMask: bv16 := 0x7F

  /** `Move`: the piece in the high and the kind in the low nibble of `meta`; the source in bits 8 .. 14 and the destination in bits 0 .. 6 of `srcdest`. */
  datatype Move = Move(meta: bv8, srcdest: bv16)

  /** `Move::invalid()`. */
  function InvalidMove(): Move
  {
    Move(MetaToBits(Illegal), 0)
  }

  /** `Move::new`. */
  function NewMove(piece: Piece, meta: MoveMeta, src: Square, dest: Square): Move
  {
    Move(((ToBits(piece) << PieceMaskShift) & PieceMask) | (MetaToBits(meta) & MoveMetaMask),
         (((src as bv16) << SrcMaskShift) & SrcMask) | ((dest as bv16) & DestMask))
  }

  /** `Move::piece`. */
  function MovePiece(m: Move): Piece
  {
    FromBits((m.meta & PieceMask) >> PieceMaskShift)
  }

  /** `Move::move_meta`. */
  function MoveMetaOf(m: Move): MoveMeta
  {
    MetaFromBits(m.meta & MoveMetaMask)
  }

  /** `Move::src`: a seven-bit square. */
  function Src(m: Move): (r: Square)
    ensures r < 128
  {
    ((m.srcdest & SrcMask) >> SrcMaskShift) as int
  }

  /** `Move::dest`: a seven-bit square. */
  function Dest(m: Move): (r: Square)
    ensures r < 128
  {
    (m.srcdest & DestMask) as int
  }

  /** `Move::src_bb`: the source square's bitboard. The shift panics for a source of 64 or more. */
  function SrcBb(m: Move): (r: int)
    requires Src(m) < 64
    ensures IsBoard(r)
  {
    PosMask(Src(m))
  }

  /** `Move::dest_bb`: the destination square's bitboard. The shift panics for a destination of 64 or more. */
  function DestBb(m: Move): (r: int)
    requires Dest(m) < 64
    ensures IsBoard(r)
  {
    PosMask(Dest(m))
  }

  /** `Move::is_invalid`. */
  predicate IsInvalid(m: Move)
  {
    m.meta == 0 && m.srcdest == 0
  }

  /** The bit-level half of packing two squares: each field comes back as its low seven bits. */
  lemma SrcDestFields(s: bv16, d: bv16)
    ensures (((((s << 8) & 0x7F00) | (d & 0x7F)) & 0x7F00) >> 8) == s & 0x7F
    ensures ((((s << 8) & 0x7F00) | (d & 0x7F)) & 0x7F) == d & 0x7F
  {
  }

  /** The arithmetic half: the low seven bits of a square are the square modulo 128. */
  lemma Low7(x: Square)
    ensures ((x as bv16) & 0x7F) as int == x % 128
  {
    var c := x as bv8;
    ByteOfSquare(x);
    WidenSquare(x);
    WidenLow7(c);
    WidenValue(c & 0x7F);
    ByteLow7(c);
  }

  // The steps of Low7 go through the square's byte, where the solver's
  // conversions between integers and bit-vectors are cheap.

  lemma ByteOfSquare(x: Square)
    ensures (x as bv8) as int == x
  {
    if x < 128 {
      var c := x as bv8;
      assert c as int == x;
    } else {
      var c := x as bv8;
      assert c as int == x;
    }
  }

  lemma WidenSquare(x: Square)
    ensures x as bv16 == (x as bv8) as bv16
  {
  }

  lemma WidenLow7(c: bv8)
    ensures (c as bv16) & 0x7F == (c & 0x7F) as bv16
  {
  }

  lemma WidenValue(c: bv8)
    ensures (c as bv16) as int == c as int
  {
  }

  lemma ByteLow7(c: bv8)
    ensures (c & 0x7F) as int == (c as int) % 128
  {
  }

  /** `src()` and `dest()` of a new move return its squares, modulo 128. */
  lemma NewSquares(piece: Piece, meta: MoveMeta, src: Square, dest: Square)
    ensures Src(NewMove(piece, meta, src, dest)) == src % 128
    ensures Dest(NewMove(piece, meta, src, dest)) == dest % 128
  {
    SrcDestFields(src as bv16, dest as bv16);
    Low7(src);
    Low7(dest);
  }

  /** The bit-level half of packing the piece and the kind into one byte. */
  lemma MetaFields(p: bv8, k: bv8)
    requires p < 16 && k < 16
    ensures ((((p << 4) & 0xF0) | (k & 0x0F)) & 0xF0) >> 4 == p
    ensures (((p << 4) & 0xF0) | (k & 0x0F)) & 0x0F == k
  {
  }

  /** `piece()` and `move_meta()` of a new move return its piece and kind, the kind up to the queen default. */
  lemma NewPieceMeta(piece: Piece, meta: MoveMeta, src: Square, dest: Square)
    ensures MovePiece(NewMove(piece, meta, src, dest)) == piece
    ensures MoveMetaOf(NewMove(piece, meta, src, dest)) == Canonical(meta)
  {
    MetaFields(ToBits(piece), MetaToBits(meta));
    PieceRoundTrip(piece);
    MetaRoundTrip(meta);
  }

  /** The invalid move is the only one `is_invalid` holds of. */
  lemma InvalidMoveIs(m: Move)
    ensures IsInvalid(InvalidMove())
    ensures IsInvalid(m) <==> m == InvalidMove()
  {
  }

  /**
   * A new move is invalid only for the all-zero piece code (a black piece of
   * the invalid type), the illegal kind and two squares that are multiples of 128.
   */
  lemma NewInvalid(piece: Piece, meta: MoveMeta, src: Square, dest: Square)
    ensures IsInvalid(NewMove(piece, meta, src, dest)) <==>
      piece == Piece(Invalid, Black) && meta == Illegal && src % 128 == 0 && dest % 128 == 0
  {
    var m := NewMove(piece, meta, src, dest);
    NewSquares(piece, meta, src, dest);
    MetaFields(ToBits(piece), MetaToBits(meta));
    PieceRoundTrip(piece);
    if IsInvalid(m) {
      assert ToBits(piece) == 0 && MetaToBits(meta) == 0;
    }
    if src % 128 == 0 && dest % 128 == 0 {
      assert Src(m) == 0 && Dest(m) == 0;
      SquaresZero(m);
    }
  }

  lemma SquaresZero(m: Move)
    requires Src(m) == 0 && Dest(m) == 0
    ensures m.srcdest & 0x7F7F == 0
  {
    assert (m.srcdest & SrcMask) >> SrcMaskShift == 0;
    assert m.srcdest & DestMask == 0;
  }

  /**
   * The invalid move does not decode to `Piece::invalid()`: its piece code 0
   * is a black piece of the invalid type.
   */
  lemma InvalidMovePiece()
    ensures MovePiece(InvalidMove()) == Piece(Invalid, Black)
    ensures MovePiece(InvalidMove()) != InvalidPiece()
    ensures MoveMetaOf(InvalidMove()) == Illegal
    ensures Src(InvalidMove()) == 0 && Dest(InvalidMove()) == 0
  {
  }

  // ----- move lists -----

  /** What `srcs.zip(dests)` mapped through `Move::new` yields. */
  function ZipMoves(piece: Piece, meta: MoveMeta, srcs: seq<Square>, dests: seq<Square>): seq<Move>
    decreases |srcs|
  {
    if |srcs| == 0 || |dests| == 0 then []
    else [NewMove(piece, meta, srcs[0], dests[0])] + ZipMoves(piece, meta, srcs[1..], dests[1..])
  }

  function Min(a: nat, b: nat): nat
  {
    if a <= b then a else b
  }

  /**
   * The zip yields one move per index below the shorter stream's length,
   * pairing the streams positionally, every move of the given piece and kind.
   */
  lemma {:induction false} ZipMovesSpec(piece: Piece, meta: MoveMeta, srcs: seq<Square>, dests: seq<Square>)
    ensures |ZipMoves(piece, meta, srcs, dests)| == Min(|srcs|, |dests|)
    ensures forall i :: 0 <= i < |ZipMoves(piece, meta, srcs, dests)| ==>
      ZipMoves(piece, meta, srcs, dests)[i] == NewMove(piece, meta, srcs[i], dests[i])
    decreases |srcs|
  {
    if |srcs| > 0 && |dests| > 0 {
      ZipMovesSpec(piece, meta, srcs[1..], dests[1..]);
    }
  }

  /** Every zipped move carries the piece, the kind (up to the queen default) and its squares modulo 128. */
  lemma ZipMovesFields(piece: Piece, meta: MoveMeta, srcs: seq<Square>, dests: seq<Square>, i: nat)
    requires i < |ZipMoves(piece, meta, srcs, dests)|
    ensures i < |srcs| && i < |dests|
    ensures MovePiece(ZipMoves(piece, meta, srcs, dests)[i]) == piece
    ensures MoveMetaOf(ZipMoves(piece, meta, srcs, dests)[i]) == Canonical(meta)
    ensures Src(ZipMoves(piece, meta, srcs, dests)[i]) == srcs[i] % 128
    ensures Dest(ZipMoves(piece, meta, srcs, dests)[i]) == dests[i] % 128
  {
    ZipMovesSpec(piece, meta, srcs, dests);
    NewPieceMeta(piece, meta, srcs[i], dests[i]);
    NewSquares(piece, meta, srcs[i], dests[i]);
  }

  /** One more pair at the end of both streams adds one move at the end. */
  lemma ZipMovesSnoc(piece: Piece, meta: MoveMeta, srcs: seq<Square>, dests: seq<Square>, s: Square, d: Square)
    requires |srcs| == |dests|
    ensures ZipMoves(piece, meta, srcs + [s], dests + [d]) == ZipMoves(piece, meta, srcs, dests) + [NewMove(piece, meta, s, d)]
    decreases |srcs|
  {
    if |srcs| > 0 {
      assert (srcs + [s])[1..] == srcs[1..] + [s];
      assert (dests + [d])[1..] == dests[1..] + [d];
      ZipMovesSnoc(piece, meta, srcs[1..], dests[1..], s, d);
    }
  }

  /** The zip of two streams is the zip of their prefixes of the shorter length. */
  lemma ZipMovesPrefix(piece: Piece, meta: MoveMeta, srcs: seq<Square>, dests: seq<Square>)
    ensures ZipMoves(piece, meta, srcs, dests) ==
      ZipMoves(piece, meta, srcs[..Min(|srcs|, |dests|)], dests[..Min(|srcs|, |dests|)])
    decreases |srcs|
  {
    if |srcs| > 0 && |dests| > 0 {
      var n := Min(|srcs|, |dests|);
      assert srcs[..n][1..] == srcs[1..][..n - 1];
      assert dests[..n][1..] == dests[1..][..n - 1];
      ZipMovesPrefix(piece, meta, srcs[1..], dests[1..]);
    }
  }

  lemma ZipMovesStep(piece: Piece, meta: MoveMeta, srcs: seq<Square>, dests: seq<Square>, k: nat)
    requires k < |srcs| && k < |dests|
    ensures ZipMoves(piece, meta, srcs[..k + 1], dests[..k + 1]) ==
      ZipMoves(piece, meta, srcs[..k], dests[..k]) + [NewMove(piece, meta, srcs[k], dests[k])]
  {
    assert srcs[..k + 1] == srcs[..k] + [srcs[k]];
    assert dests[..k + 1] == dests[..k] + [dests[k]];
    ZipMovesSnoc(piece, meta, srcs[..k], dests[..k], srcs[k], dests[k]);
  }

  /** `MoveList`: a vector of moves. */
  class MoveList {
    var moves: seq<Move>

    /** `MoveList::new()`: empty. */
    constructor ()
      ensures moves == []
    {
      moves := [];
    }

    /** `clear`. */
    method Clear()
      modifies this
      ensures moves == []
    {
      moves := [];
    }

    /** `push`: appends one move. */
    method Push(m: Move)
      modifies this
      ensures moves == old(moves) + [m]
    {
      moves := moves + [m];
    }

    /** `push_from`: appends the moves in order. */
    method PushFrom(ms: seq<Move>)
      modifies this
      ensures moves == old(moves) + ms
    {
      var k := 0;
      while k < |ms|
        invariant 0 <= k <= |ms|
        invariant moves == old(moves) + ms[..k]
      {
        Push(ms[k]);
        k := k + 1;
      }
      assert ms[..k] == ms;
    }

    /**
     * `push_from_forpiece`: one new move of the given piece and kind per pair
     * of the zipped streams, appended in order; earlier entries are untouched.
     */
    method PushFromForpiece(piece: Piece, meta: MoveMeta, srcs: seq<Square>, dests: seq<Square>)
      modifies this
      ensures moves == old(moves) + ZipMoves(piece, meta, srcs, dests)
      ensures |moves| == |old(moves)| + Min(|srcs|, |dests|)
      ensures moves[..|old(moves)|] == old(moves)
    {
      var n := Min(|srcs|, |dests|);
      var k := 0;
      while k < n
        invariant 0 <= k <= n
        invariant moves == old(moves) + ZipMoves(piece, meta, srcs[..k], dests[..k])
      {
        ZipMovesStep(piece, meta, srcs, dests, k);
        Push(NewMove(piece, meta, srcs[k], dests[k]));
        k := k + 1;
      }
      ZipMovesPrefix(piece, meta, srcs, dests);
      ZipMovesSpec(piece, meta, srcs, dests);
    }

    /** `get`: the first move. Indexing an empty list panics. */
    method Get() returns (m: Move)
      requires |moves| > 0
      ensures m == moves[0]
    {
      m := moves[0];
    }
  }

  // ----- iterating over set bits -----

  /** `BitPositions`: the bitboard of squares not yet yielded. */
  class BitPositions {
    var bits: int

    /** A u64. */
    predicate Valid()
      reads this
    {
      IsBoard(bits)
    }

    /** The squares the iterator has still to yield. */
    function Pending(): seq<nat>
      reads this
      requires Valid()
    {
      Positions(bits, 0)
    }

    constructor (bb: int)
      requires IsBoard(bb)
      ensures Valid() && bits == bb
    {
      bits := bb;
    }

    /**
     * `next`: the index of the lowest set bit (`tzcnt`), which is then
     * cleared (`blsr`); `None` once no bit is left, and then nothing changes.
     */
    method Next() returns (r: Option<nat>)
      requires Valid()
      modifies this
      ensures Valid()
      ensures r.None? <==> old(bits) == 0
      ensures r.None? ==> bits == old(bits)
      ensures old(Pending()) == if r.Some? then [r.value] + Pending() else []
      ensures r.Some? ==> r.value < 64 && bits < old(bits)
    {
      if bits != 0 {
        var lsb := LowIndex(bits);
        ghost var b := bits;
        PositionsClearLowest(b, 0);
        PositionsHead(b, 0);
        BoardPositions(b);
        AndPred(bits);
        bits := And(bits, bits - 1);
        AndNonNegative(b, b - 1);
        r := Some(lsb);
      } else {
        PositionsSpec(bits, 0);
        r := None;
      }
    }

    /**
     * Runs the iterator to the end: the set-bit indices in strictly
     * increasing order, each below 64, as many as there are set bits.
     */
    method Collect() returns (ps: seq<nat>)
      requires Valid()
      modifies this
      ensures ps == old(Pending())
      ensures Valid() && bits == 0
      ensures StrictlyIncreasing(ps) && |ps| == PopCount(old(bits))
      ensures forall k :: 0 <= k < |ps| ==> ps[k] < 64 && Bit(old(bits), ps[k])
    {
      ghost var b0 := bits;
      PositionsSpec(b0, 0);
      BoardPositions(b0);
      ps := [];
      while true
        invariant Valid()
        invariant ps + Pending() == old(Pending())
        decreases bits
      {
        var r := Next();
        if r.None? {
          break;
        }
        ps := ps + [r.value];
      }
      forall k | 0 <= k < |ps| ensures ps[k] < 64 && Bit(b0, ps[k]) {
        assert ps[k] in Positions(b0, 0);
      }
    }
  }

}
