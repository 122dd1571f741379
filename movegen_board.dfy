// `Board` of movegen/src/board.rs: twelve u64 bitboards in `get_piece`
// index order and a link to the board the last move was made on. The board
// is never changed after it is built (`make_move` builds a new one), so it
// is a value; `make_move` works on a cloned array, which it updates in place.
module MovegenBoard {
  import opened Bits
  import opened BoardUtils
  import opened MovegenPiece
  import opened MovegenMoves
  import opened MovegenUtils
  import BoardPiece

  /** Twelve u64 bitboards. */
  predicate IsBoards(bbs: seq<int>)
  {
    |bbs| == StdPieceCount && forall k :: 0 <= k < |bbs| ==> IsBoard(bbs[k])
  }

  /** `fold(0, |acc, v| acc | v)` over the entries, first to last. */
  function FoldOr(bbs: seq<int>): int
    decreases |bbs|
  {
    if |bbs| == 0 then 0 else Or(FoldOr(bbs[..|bbs| - 1]), bbs[|bbs| - 1])
  }

  /** The fold of the entries whose piece belongs to the player, as `player_mask` filters them. */
  function FoldOrPlayer(bbs: seq<int>, player: bool): int
    decreases |bbs|
  {
    if |bbs| == 0 then 0
    else
      var acc := FoldOrPlayer(bbs[..|bbs| - 1], player);
      if GetPiece(|bbs| - 1).player == player then Or(acc, bbs[|bbs| - 1]) else acc
  }

  /** A square is in the union exactly when some entry has it. */
  lemma {:induction false} FoldOrBit(bbs: seq<int>, i: nat)
    ensures Bit(FoldOr(bbs), i) <==> exists k :: 0 <= k < |bbs| && Bit(bbs[k], i)
    decreases |bbs|
  {
    if |bbs| == 0 {
      BitZero(i);
    } else {
      var n := |bbs| - 1;
      var front := bbs[..n];
      FoldOrBit(front, i);
      BitOr(FoldOr(front), bbs[n], i);
      if exists k :: 0 <= k < |bbs| && Bit(bbs[k], i) {
        var k :| 0 <= k < |bbs| && Bit(bbs[k], i);
        if k < n { assert front[k] == bbs[k]; }
      }
    }
  }

  /** A square is in the player's union exactly when an entry of one of the player's pieces has it. */
  lemma {:induction false} FoldOrPlayerBit(bbs: seq<int>, player: bool, i: nat)
    ensures Bit(FoldOrPlayer(bbs, player), i) <==>
      exists k :: 0 <= k < |bbs| && GetPiece(k).player == player && Bit(bbs[k], i)
    decreases |bbs|
  {
    if |bbs| == 0 {
      BitZero(i);
    } else {
      var n := |bbs| - 1;
      var front := bbs[..n];
      FoldOrPlayerBit(front, player, i);
      BitOr(FoldOrPlayer(front, player), bbs[n], i);
      if exists k :: 0 <= k < |bbs| && GetPiece(k).player == player && Bit(bbs[k], i) {
        var k :| 0 <= k < |bbs| && GetPiece(k).player == player && Bit(bbs[k], i);
        if k < n { assert front[k] == bbs[k]; }
      }
    }
  }

  lemma FoldOrBoard(bbs: seq<int>)
    requires IsBoards(bbs)
    ensures IsBoard(FoldOr(bbs))
  {
    forall i: nat | 64 <= i ensures !Bit(FoldOr(bbs), i) {
      FoldOrBit(bbs, i);
      forall k | 0 <= k < |bbs| ensures !Bit(bbs[k], i) { BoardBits(bbs[k], i); }
    }
    BitsBoard(FoldOr(bbs));
  }

  lemma FoldOrPlayerBoard(bbs: seq<int>, player: bool)
    requires IsBoards(bbs)
    ensures IsBoard(FoldOrPlayer(bbs, player))
  {
    forall i: nat | 64 <= i ensures !Bit(FoldOrPlayer(bbs, player), i) {
      FoldOrPlayerBit(bbs, player, i);
      forall k | 0 <= k < |bbs| ensures !Bit(bbs[k], i) { BoardBits(bbs[k], i); }
    }
    BitsBoard(FoldOrPlayer(bbs, player));
  }

  lemma XorBoard(a: int, b: int)
    requires IsBoard(a) && IsBoard(b)
    ensures IsBoard(Xor(a, b))
  {
    forall i: nat | 64 <= i ensures !Bit(Xor(a, b), i) {
      BitXor(a, b, i);
      BoardBits(a, i);
      BoardBits(b, i);
    }
    BitsBoard(Xor(a, b));
  }

  /** `Board`: the twelve bitboards and the board before the last move, if any. */
  datatype Board = Board(bitboards: seq<int>, previous: Option<Board>)
  {
    predicate Valid()
    {
      IsBoards(bitboards)
    }

    /** `is_root`: no move has been made on the way to this board. */
    predicate IsRoot()
    {
      previous.None?
    }

    /** `piece_mask`: the bitboard at the piece's index, 0 for a piece of the invalid type. */
    function PieceMask(p: Piece): (r: int)
      requires Valid()
      ensures IsBoard(r)
      ensures p.pieceType == Invalid ==> r == 0
    {
      var k := GetPieceI(p);
      if k < |bitboards| then bitboards[k] else 0
    }

    /** `empty_mask`: the u64 complement of the union of all twelve bitboards. */
    function EmptyMask(): (r: int)
      requires Valid()
      ensures IsBoard(r)
    {
      UInt64(Not(FoldOr(bitboards)))
    }

    /** `player_mask`: the union of the bitboards of the player's six pieces. */
    function PlayerMask(player: bool): (r: int)
      requires Valid()
      ensures IsBoard(r)
    {
      FoldOrPlayerBoard(bitboards, player);
      FoldOrPlayer(bitboards, player)
    }

    /** The piece at each index has that index's bitboard as its mask. */
    lemma PieceMaskAt(k: nat)
      requires Valid() && k < StdPieceCount
      ensures PieceMask(GetPiece(k)) == bitboards[k]
    {
      GetPieceRoundTrip(k);
    }

    /** A square is empty exactly when it is on the board and no bitboard has it. */
    lemma EmptyMaskBit(i: nat)
      requires Valid()
      ensures Bit(EmptyMask(), i) <==> i < 64 && forall k :: 0 <= k < StdPieceCount ==> !Bit(bitboards[k], i)
    {
      UInt64Bit(Not(FoldOr(bitboards)), i);
      BitNot(FoldOr(bitboards), i);
      FoldOrBit(bitboards, i);
    }

    /** A square is the player's exactly when a bitboard of one of the player's six pieces has it. */
    lemma PlayerMaskBit(player: bool, i: nat)
      requires Valid()
      ensures Bit(PlayerMask(player), i) <==>
        exists k :: 0 <= k < StdPieceCount && GetPiece(k).player == player && Bit(bitboards[k], i)
      ensures Bit(PlayerMask(player), i) <==>
        exists k :: (if player then 0 else 6) <= k < (if player then 6 else 12) && Bit(bitboards[k], i)
    {
      FoldOrPlayerBit(bitboards, player, i);
    }

    /** Both players' masks together are the occupied squares, the complement of `empty_mask`. */
    lemma PlayerMasksCover()
      requires Valid()
      ensures Or(PlayerMask(true), PlayerMask(false)) == UInt64(Not(EmptyMask()))
    {
      forall i: nat ensures Bit(Or(PlayerMask(true), PlayerMask(false)), i) <==> Bit(UInt64(Not(EmptyMask())), i) {
        BitOr(PlayerMask(true), PlayerMask(false), i);
        PlayerMaskBit(true, i);
        PlayerMaskBit(false, i);
        UInt64Bit(Not(EmptyMask()), i);
        BitNot(EmptyMask(), i);
        EmptyMaskBit(i);
        if i >= 64 {
          BoardBits(PlayerMask(true), i);
          BoardBits(PlayerMask(false), i);
        } else if exists k :: 0 <= k < StdPieceCount && Bit(bitboards[k], i) {
          var k :| 0 <= k < StdPieceCount && Bit(bitboards[k], i);
          assert GetPiece(k).player || !GetPiece(k).player;
        }
      }
      Ext(Or(PlayerMask(true), PlayerMask(false)), UInt64(Not(EmptyMask())));
    }

    /**
     * `make_move`, as the source writes it, on a clone of the bitboards; the
     * new board links back to this one.
     */
    method MakeMove(mov: Move) returns (r: Board)
      requires Valid() && MoveDefined(mov)
      ensures r.Valid()
      ensures r.bitboards == MadeAsWritten(bitboards, mov)
      ensures r.previous == Some(this)
    {
      var piece, meta, src, dest := MovePiece(mov), MoveMetaOf(mov), Src(mov), Dest(mov);
      var player := piece.player;
      var bbs := CloneBoards(bitboards);
      var srcMask := PosMask(src);
      var destMask := PosMask(dest);
      match meta {
        case Castle(isShort) =>
          var ki := MatchPieceI(King, player);
          Update(bbs, ki, KingCastle(player, isShort));
          var ri := MatchPieceI(Rook, player);
          Update(bbs, ri, RookCastle(player, isShort));
          ArmIs(bitboards, piece, meta, src, dest);
        case Enpassant =>
          var pi := MatchPieceI(Pawn, !player);
          Update(bbs, pi, PosMask(if player then dest - 8 else dest + 8));
          var mi := GetPieceI(piece);
          Update(bbs, mi, Or(srcMask, destMask));
          ArmIs(bitboards, piece, meta, src, dest);
        case Promotion(_, pieceType) =>
          // "first clear all dest", which the XOR toggles instead
          ToggleAll(bbs, destMask);
          var ti := MatchPieceI(pieceType, player);
          Update(bbs, ti, destMask);
          var mi := GetPieceI(piece);
          Update(bbs, mi, srcMask);
          ArmIs(bitboards, piece, meta, src, dest);
        case _ =>
          ToggleAll(bbs, destMask);
          var mi := GetPieceI(piece);
          Update(bbs, mi, Or(srcMask, destMask));
          ArmIs(bitboards, piece, meta, src, dest);
      }
      MadeWithBoards(bitboards, piece, meta, src, dest);
      r := Board(bbs[..], Some(this));
    }
  }

  /**
   * `Board::standard()`, on `STD_BITBOARDS` as written: a root board whose
   * bitboards hold the start squares of their pieces, except that the white
   * pawns' bitboard is empty.
   */
  function Standard(): (r: Board)
    ensures r.Valid() && r.IsRoot()
    ensures forall sq: nat :: !Bit(r.bitboards[0], sq)
    ensures forall k: nat, sq: nat :: 0 < k < StdPieceCount ==>
      (Bit(r.bitboards[k], sq) <==> BoardPiece.StartPiece(sq) == Some(AsBoardPiece(GetPiece(k))))
  {
    var r := Board(StdBitboardsAsWritten, None);
    StdBitboardsAsWrittenAll();
    forall sq: nat ensures !Bit(r.bitboards[0], sq) {
      StdBitboardsAsWrittenStart(0, sq);
    }
    forall k: nat, sq: nat | 0 < k < StdPieceCount
      ensures Bit(r.bitboards[k], sq) <==> BoardPiece.StartPiece(sq) == Some(AsBoardPiece(GetPiece(k)))
    {
      StdBitboardsAsWrittenStart(k, sq);
    }
    r
  }

  /**
   * The standard board the table evidently means: a root board whose
   * bitboard k holds exactly the start squares of piece k.
   */
  function StandardIntended(): (r: Board)
    ensures r.Valid() && r.IsRoot()
    ensures forall k: nat, sq: nat :: k < StdPieceCount ==>
      (Bit(r.bitboards[k], sq) <==> BoardPiece.StartPiece(sq) == Some(AsBoardPiece(GetPiece(k))))
  {
    var r := Board(StdBitboards, None);
    StdBitboardsAll();
    forall k: nat, sq: nat | k < StdPieceCount
      ensures Bit(r.bitboards[k], sq) <==> BoardPiece.StartPiece(sq) == Some(AsBoardPiece(GetPiece(k)))
    {
      StdBitboardsStart(k, sq);
    }
    r
  }

  // ----- make_move -----

  /** `bitboards[k] ^= mask`. */
  method Update(bbs: array<int>, k: nat, mask: int)
    requires k < bbs.Length
    modifies bbs
    ensures bbs[..] == old(bbs[..])[k := Xor(old(bbs[k]), mask)]
  {
    bbs[k] := Xor(bbs[k], mask);
  }

  /** `bitboards.clone()`: a fresh array holding the entries. */
  method CloneBoards(bbs: seq<int>) returns (a: array<int>)
    ensures fresh(a) && a[..] == bbs
  {
    a := new int[|bbs|];
    for k := 0 to |bbs|
      invariant a[..k] == bbs[..k]
    {
      a[k] := bbs[k];
    }
    assert a[..] == a[..|bbs|];
  }

  /** `for bb in &mut bitboards { *bb ^= mask }`. */
  method ToggleAll(bbs: array<int>, mask: int)
    modifies bbs
    ensures bbs[..] == Toggled(old(bbs[..]), mask)
  {
    for k := 0 to bbs.Length
      invariant forall j :: 0 <= j < k ==> bbs[j] == Xor(old(bbs[j]), mask)
      invariant forall j :: k <= j < bbs.Length ==> bbs[j] == old(bbs[j])
    {
      bbs[k] := Xor(bbs[k], mask);
    }
  }

  /** Every entry with the mask's bits flipped. */
  function Toggled(bbs: seq<int>, mask: int): (r: seq<int>)
    ensures |r| == |bbs|
  {
    seq(|bbs|, k requires 0 <= k < |bbs| => Xor(bbs[k], mask))
  }

  /** Every entry with the mask's squares cleared (`*bb &= !mask`). */
  function Cleared(bbs: seq<int>, mask: int): (r: seq<int>)
    ensures |r| == |bbs|
  {
    seq(|bbs|, k requires 0 <= k < |bbs| => And(bbs[k], UInt64(Not(mask))))
  }

  /**
   * The moves `make_move` accepts without panicking: both squares on the
   * board (`pos_mask` shifts by them), an en-passant capture square that
   * neither underflows nor leaves the board, and a mover of a real type
   * except in a castle (otherwise its index 12 is out of bounds).
   */
  predicate Defined(piece: Piece, meta: MoveMeta, src: int, dest: int)
  {
    0 <= src < 64 && 0 <= dest < 64 && Encodable(meta) &&
    (meta == Enpassant ==> if piece.player then dest >= 8 else dest < 56) &&
    (!meta.Castle? ==> piece.pieceType != Invalid)
  }

  /** The same, for a packed move, read through its decoders. */
  predicate MoveDefined(mov: Move)
  {
    Defined(MovePiece(mov), MoveMetaOf(mov), Src(mov), Dest(mov))
  }

  /** The square of the pawn an en-passant capture removes: behind the destination. */
  function CapturedSquare(player: bool, dest: int): (r: int)
    requires if player then 8 <= dest < 64 else 0 <= dest < 56
    ensures 0 <= r < 64
  {
    if player then dest - 8 else dest + 8
  }

  /** The bitboards `make_move` produces, arm by arm, as the source writes it, for a decoded move. */
  function MadeWith(bbs: seq<int>, piece: Piece, meta: MoveMeta, src: int, dest: int): (r: seq<int>)
    requires |bbs| == StdPieceCount && Defined(piece, meta, src, dest)
    ensures |r| == StdPieceCount
  {
    var player := piece.player;
    var s, d := PosMask(src), PosMask(dest);
    match meta
    case Castle(isShort) =>
      var ki, ri := MatchPieceI(King, player), MatchPieceI(Rook, player);
      var t := bbs[ki := Xor(bbs[ki], KingCastle(player, isShort))];
      t[ri := Xor(t[ri], RookCastle(player, isShort))]
    case Enpassant =>
      var pi, mi := MatchPieceI(Pawn, !player), GetPieceI(piece);
      var t := bbs[pi := Xor(bbs[pi], PosMask(CapturedSquare(player, dest)))];
      t[mi := Xor(t[mi], Or(s, d))]
    case Promotion(_, pieceType) =>
      var ti, mi := MatchPieceI(pieceType, player), GetPieceI(piece);
      var t := Toggled(bbs, d);
      var t' := t[ti := Xor(t[ti], d)];
      t'[mi := Xor(t'[mi], s)]
    case _ =>
      var mi := GetPieceI(piece);
      var t := Toggled(bbs, d);
      t[mi := Xor(t[mi], Or(s, d))]
  }

  /** The arm of `MadeWith` the kind selects, spelled out for the method that computes it. */
  lemma ArmIs(bbs: seq<int>, piece: Piece, meta: MoveMeta, src: int, dest: int)
    requires |bbs| == StdPieceCount && Defined(piece, meta, src, dest)
    ensures var player, s, d := piece.player, PosMask(src), PosMask(dest);
      MadeWith(bbs, piece, meta, src, dest) ==
        match meta
        case Castle(isShort) =>
          var ki, ri := MatchPieceI(King, player), MatchPieceI(Rook, player);
          var t := bbs[ki := Xor(bbs[ki], KingCastle(player, isShort))];
          t[ri := Xor(t[ri], RookCastle(player, isShort))]
        case Enpassant =>
          var pi, mi := MatchPieceI(Pawn, !player), GetPieceI(piece);
          var t := bbs[pi := Xor(bbs[pi], PosMask(if player then dest - 8 else dest + 8))];
          t[mi := Xor(t[mi], Or(s, d))]
        case Promotion(_, pieceType) =>
          var ti, mi := MatchPieceI(pieceType, player), GetPieceI(piece);
          var t := Toggled(bbs, d);
          var t' := t[ti := Xor(t[ti], d)];
          t'[mi := Xor(t'[mi], s)]
        case _ =>
          var mi := GetPieceI(piece);
          var t := Toggled(bbs, d);
          t[mi := Xor(t[mi], Or(s, d))]
  {
  }

  /** `make_move`'s bitboards for a packed move. */
  function MadeAsWritten(bbs: seq<int>, mov: Move): (r: seq<int>)
    requires |bbs| == StdPieceCount && MoveDefined(mov)
    ensures |r| == StdPieceCount
  {
    MadeWith(bbs, MovePiece(mov), MoveMetaOf(mov), Src(mov), Dest(mov))
  }

  lemma MadeWithBoards(bbs: seq<int>, piece: Piece, meta: MoveMeta, src: int, dest: int)
    requires IsBoards(bbs) && Defined(piece, meta, src, dest)
    ensures IsBoards(MadeWith(bbs, piece, meta, src, dest))
  {
    var player := piece.player;
    var s, d := PosMask(src), PosMask(dest);
    forall k | 0 <= k < StdPieceCount ensures IsBoard(Xor(bbs[k], d)) { XorBoard(bbs[k], d); }
    OrBoard(s, d);
    match meta
    case Castle(isShort) =>
      CastleBit(player, isShort, 0);
      XorBoard(bbs[MatchPieceI(King, player)], KingCastle(player, isShort));
      XorBoard(bbs[MatchPieceI(Rook, player)], RookCastle(player, isShort));
    case Enpassant =>
      var pi, mi := MatchPieceI(Pawn, !player), GetPieceI(piece);
      var t := bbs[pi := Xor(bbs[pi], PosMask(CapturedSquare(player, dest)))];
      XorBoard(bbs[pi], PosMask(CapturedSquare(player, dest)));
      XorBoard(t[mi], Or(s, d));
    case Promotion(_, pieceType) =>
      var ti, mi := MatchPieceI(pieceType, player), GetPieceI(piece);
      var t := Toggled(bbs, d);
      var t' := t[ti := Xor(t[ti], d)];
      XorBoard(t[ti], d);
      XorBoard(t'[mi], s);
    case _ =>
      var t := Toggled(bbs, d);
      XorBoard(t[GetPieceI(piece)], Or(s, d));
  }

  lemma OrBoard(a: int, b: int)
    requires IsBoard(a) && IsBoard(b)
    ensures IsBoard(Or(a, b))
  {
    forall i: nat | 64 <= i ensures !Bit(Or(a, b), i) {
      BitOr(a, b, i);
      BoardBits(a, i);
      BoardBits(b, i);
    }
    BitsBoard(Or(a, b));
  }

  /**
   * The castle arm flips the king's two castle squares (from and to) in the
   * mover's king bitboard and the rook's two in its rook bitboard; the other
   * ten bitboards are unchanged.
   */
  lemma CastleEffect(bbs: seq<int>, piece: Piece, isShort: bool, src: int, dest: int, k: nat, i: nat)
    requires IsBoards(bbs) && Defined(piece, Castle(isShort), src, dest) && k < StdPieceCount
    ensures var (ka, kb) := KingCastleSquares(piece.player, isShort);
      var (ra, rb) := RookCastleSquares(piece.player, isShort);
      Bit(MadeWith(bbs, piece, Castle(isShort), src, dest)[k], i) <==> (Bit(bbs[k], i) !=
        ((k == MatchPieceI(King, piece.player) && (i == ka || i == kb)) ||
         (k == MatchPieceI(Rook, piece.player) && (i == ra || i == rb))))
    ensures k != MatchPieceI(King, piece.player) && k != MatchPieceI(Rook, piece.player) ==>
      MadeWith(bbs, piece, Castle(isShort), src, dest)[k] == bbs[k]
  {
    var player := piece.player;
    CastleBit(player, isShort, i);
    BitXor(bbs[k], KingCastle(player, isShort), i);
    BitXor(bbs[k], RookCastle(player, isShort), i);
  }

  /**
   * The en-passant arm flips the captured pawn's square (dest-8 for white,
   * dest+8 for black) in the opponent's pawn bitboard, and the source and
   * destination in the mover's, and changes nothing else.
   */
  lemma EnpassantEffect(bbs: seq<int>, piece: Piece, src: int, dest: int, k: nat, i: nat)
    requires IsBoards(bbs) && Defined(piece, Enpassant, src, dest) && k < StdPieceCount
    ensures Bit(MadeWith(bbs, piece, Enpassant, src, dest)[k], i) <==> (Bit(bbs[k], i) !=
      ((k == MatchPieceI(Pawn, !piece.player) && i == CapturedSquare(piece.player, dest)) ||
       (k == GetPieceI(piece) && (i == src || i == dest))))
    ensures MatchPieceI(Pawn, !piece.player) != GetPieceI(piece)
  {
    var player := piece.player;
    var pi, mi := MatchPieceI(Pawn, !player), GetPieceI(piece);
    var s, d, c := PosMask(src), PosMask(dest), PosMask(CapturedSquare(player, dest));
    GetPieceIRoundTrip(piece);
    var t := bbs[pi := Xor(bbs[pi], c)];
    PosMaskBit(CapturedSquare(player, dest), i);
    PosMaskBit(src, i);
    PosMaskBit(dest, i);
    BitOr(s, d, i);
    BitXor(bbs[k], c, i);
    BitXor(t[k], Or(s, d), i);
  }

  /**
   * The quiet, capture and illegal arm, as written: every bitboard but the
   * mover's has the destination flipped, and the mover's has only the
   * source flipped (the destination is flipped twice).
   */
  lemma QuietEffect(bbs: seq<int>, piece: Piece, meta: MoveMeta, src: int, dest: int, k: nat, i: nat)
    requires IsBoards(bbs) && Defined(piece, meta, src, dest) && k < StdPieceCount
    requires meta in {Quiet, Capture, Illegal}
    ensures Bit(MadeWith(bbs, piece, meta, src, dest)[k], i) <==> (Bit(bbs[k], i) !=
      if k == GetPieceI(piece) then i == src && src != dest else i == dest)
  {
    var s, d := PosMask(src), PosMask(dest);
    var t := Toggled(bbs, d);
    PosMaskBit(src, i);
    PosMaskBit(dest, i);
    BitOr(s, d, i);
    BitXor(bbs[k], d, i);
    BitXor(t[k], Or(s, d), i);
  }

  /**
   * The promotion arm, as written: the destination is flipped in every
   * bitboard but the promotion type's (where it is flipped twice), and the
   * source in the mover's.
   */
  lemma PromotionEffect(bbs: seq<int>, piece: Piece, isCapture: bool, pieceType: PieceType, src: int, dest: int, k: nat, i: nat)
    requires IsBoards(bbs) && Defined(piece, Promotion(isCapture, pieceType), src, dest) && k < StdPieceCount
    ensures Bit(MadeWith(bbs, piece, Promotion(isCapture, pieceType), src, dest)[k], i) <==> (Bit(bbs[k], i) !=
      ((i == dest && k != MatchPieceI(pieceType, piece.player)) != (i == src && k == GetPieceI(piece))))
  {
    var ti, mi := MatchPieceI(pieceType, piece.player), GetPieceI(piece);
    var s, d := PosMask(src), PosMask(dest);
    var t := Toggled(bbs, d);
    var t' := t[ti := Xor(t[ti], d)];
    PosMaskBit(src, i);
    PosMaskBit(dest, i);
    BitXor(bbs[k], d, i);
    BitXor(t[k], d, i);
    BitXor(t'[k], s, i);
  }

  // ----- the clearing loop as intended -----

  /**
   * `make_move` with the loop doing what its comment says ("first clear
   * all dest", `*bb &= !dest_mask`); the castle and en-passant arms are
   * unchanged.
   */
  function Made(bbs: seq<int>, piece: Piece, meta: MoveMeta, src: int, dest: int): (r: seq<int>)
    requires |bbs| == StdPieceCount && Defined(piece, meta, src, dest)
    ensures |r| == StdPieceCount
  {
    var player := piece.player;
    var s, d := PosMask(src), PosMask(dest);
    match meta
    case Promotion(_, pieceType) =>
      var ti, mi := MatchPieceI(pieceType, player), GetPieceI(piece);
      var t := Cleared(bbs, d);
      var t' := t[ti := Xor(t[ti], d)];
      t'[mi := Xor(t'[mi], s)]
    case Castle(_) => MadeWith(bbs, piece, meta, src, dest)
    case Enpassant => MadeWith(bbs, piece, meta, src, dest)
    case _ =>
      var mi := GetPieceI(piece);
      var t := Cleared(bbs, d);
      t[mi := Xor(t[mi], Or(s, d))]
  }

  lemma ClearedBit(bbs: seq<int>, dest: int, k: nat, i: nat)
    requires 0 <= dest < 64 && k < |bbs| && IsBoard(bbs[k])
    ensures Bit(Cleared(bbs, PosMask(dest))[k], i) <==> Bit(bbs[k], i) && i != dest
  {
    var d := PosMask(dest);
    var nd := Not(d);
    BitAnd(bbs[k], UInt64(nd), i);
    UInt64Bit(nd, i);
    BitNot(d, i);
    PosMaskBit(dest, i);
    if i >= 64 {
      BoardBits(bbs[k], i);
    }
  }

  /** No square is on two of the bitboards. */
  ghost predicate Disjoint(bbs: seq<int>)
  {
    forall j, k, i: nat :: 0 <= j < k < |bbs| ==> !(Bit(bbs[j], i) && Bit(bbs[k], i))
  }

  /**
   * As intended, a quiet move or capture takes the destination off every
   * bitboard and moves the mover from its source to the destination.
   */
  lemma MadeMovesPiece(bbs: seq<int>, piece: Piece, meta: MoveMeta, src: int, dest: int, k: nat, i: nat)
    requires IsBoards(bbs) && Defined(piece, meta, src, dest) && k < StdPieceCount
    requires meta in {Quiet, Capture, Illegal}
    requires Bit(bbs[GetPieceI(piece)], src) && src != dest
    ensures Bit(Made(bbs, piece, meta, src, dest)[k], i) <==>
      if k == GetPieceI(piece) then (Bit(bbs[k], i) && i != src) || i == dest
      else Bit(bbs[k], i) && i != dest
  {
    var s, d := PosMask(src), PosMask(dest);
    var t := Cleared(bbs, d);
    ClearedBit(bbs, dest, k, i);
    PosMaskBit(src, i);
    PosMaskBit(dest, i);
    BitOr(s, d, i);
    BitXor(t[k], Or(s, d), i);
  }

  /**
   * As intended, a promotion takes the destination off every bitboard,
   * puts the promotion type there and takes the mover off its source.
   */
  lemma MadePromotes(bbs: seq<int>, piece: Piece, isCapture: bool, pieceType: PieceType, src: int, dest: int, k: nat, i: nat)
    requires IsBoards(bbs) && Defined(piece, Promotion(isCapture, pieceType), src, dest) && k < StdPieceCount
    requires MatchPieceI(pieceType, piece.player) != GetPieceI(piece)
    requires Bit(bbs[GetPieceI(piece)], src) && src != dest
    ensures Bit(Made(bbs, piece, Promotion(isCapture, pieceType), src, dest)[k], i) <==>
      if k == MatchPieceI(pieceType, piece.player) then Bit(bbs[k], i) || i == dest
      else if k == GetPieceI(piece) then Bit(bbs[k], i) && i != src && i != dest
      else Bit(bbs[k], i) && i != dest
  {
    var ti, mi := MatchPieceI(pieceType, piece.player), GetPieceI(piece);
    var s, d := PosMask(src), PosMask(dest);
    var t := Cleared(bbs, d);
    var t' := t[ti := Xor(t[ti], d)];
    ClearedBit(bbs, dest, k, i);
    PosMaskBit(src, i);
    PosMaskBit(dest, i);
    BitXor(t[k], d, i);
    BitXor(t'[k], s, i);
  }

  /** As intended, a quiet move or capture keeps the bitboards disjoint. */
  lemma MadeKeepsDisjoint(bbs: seq<int>, piece: Piece, meta: MoveMeta, src: int, dest: int)
    requires IsBoards(bbs) && Defined(piece, meta, src, dest) && Disjoint(bbs)
    requires meta in {Quiet, Capture, Illegal}
    requires Bit(bbs[GetPieceI(piece)], src) && src != dest
    ensures Disjoint(Made(bbs, piece, meta, src, dest))
  {
    var r := Made(bbs, piece, meta, src, dest);
    forall j, k, i: nat | 0 <= j < k < |r| ensures !(Bit(r[j], i) && Bit(r[k], i)) {
      MadeMovesPiece(bbs, piece, meta, src, dest, j, i);
      MadeMovesPiece(bbs, piece, meta, src, dest, k, i);
    }
  }

  /**
   * From the start position, the knight move b1-c3 shows the difference:
   * as written, the knight leaves b1 but does not reach c3, and the other
   * eleven bitboards all gain c3; as intended only the knight's has it.
   */
  lemma KnightMoveShowsToggle()
    ensures var mov := NewMove(Piece(Knight, White), Quiet, 1, 18);
      MoveDefined(mov) &&
      MovePiece(mov) == Piece(Knight, White) && MoveMetaOf(mov) == Quiet && Src(mov) == 1 && Dest(mov) == 18 &&
      var r := MadeAsWritten(StdBitboards, mov);
      !Bit(r[1], 1) && !Bit(r[1], 18) && (forall k :: 0 <= k < StdPieceCount && k != 1 ==> Bit(r[k], 18)) &&
      var c := Made(StdBitboards, Piece(Knight, White), Quiet, 1, 18);
      !Bit(c[1], 1) && Bit(c[1], 18) && (forall k :: 0 <= k < StdPieceCount && k != 1 ==> !Bit(c[k], 18))
  {
    var piece := Piece(Knight, White);
    var mov := NewMove(piece, Quiet, 1, 18);
    NewSquares(piece, Quiet, 1, 18);
    NewPieceMeta(piece, Quiet, 1, 18);
    assert IsBoards(StdBitboards) by {
      forall k | 0 <= k < StdPieceCount ensures IsBoard(StdBitboards[k]) { StdBitboardsStart(k, 0); }
    }
    StdBitboardsStart(1, 1);
    assert Bit(StdBitboards[1], 1);
    forall k | 0 <= k < StdPieceCount
      ensures (Bit(MadeAsWritten(StdBitboards, mov)[k], 18) <==> k != 1)
      ensures (Bit(Made(StdBitboards, piece, Quiet, 1, 18)[k], 18) <==> k == 1)
    {
      StdBitboardsStart(k, 18);
      QuietEffect(StdBitboards, piece, Quiet, 1, 18, k, 18);
      MadeMovesPiece(StdBitboards, piece, Quiet, 1, 18, k, 18);
    }
    QuietEffect(StdBitboards, piece, Quiet, 1, 18, 1, 1);
    MadeMovesPiece(StdBitboards, piece, Quiet, 1, 18, 1, 1);
  }
}
