// `Board::move_list` of movegen/src/board.rs: the pseudo-legal moves of one
// side, generated bitboard by bitboard in `get_piece` index order, each
// piece's `move_list` given the invalid move as the previous move. It lives
// in a module of its own because it calls the piece generator, which in turn
// reads the board's masks.
module MovegenBoardMoves {
  import opened Bits
  import opened MovegenPiece
  import opened MovegenMoves
  import opened MovegenBoard
  import opened MovegenPieces
  import MovegenPiecesProps

  /** The invalid move's kind is `Illegal`, so it never opens en passant. */
  lemma InvalidNoEnpassant(player: bool)
    ensures !EpFires(player, InvalidMove()) && EpDefined(player, InvalidMove())
  {
    MetaFields(0, MetaToBits(Illegal));
  }

  /** The moves the bitboard at index i contributes: none when its piece belongs to the other side. */
  function IndexMoves(board: Board, player: bool, t: Tables, i: nat): seq<Move>
    requires board.Valid() && Wf(t) && i < StdPieceCount
  {
    var piece := GetPiece(i);
    if piece.player == player then
      InvalidNoEnpassant(player);
      GenMoves(piece, board.bitboards[i], board.EmptyMask(), board.PlayerMask(!piece.player), InvalidMove(), t)
    else []
  }

  /** The moves of every index as one function; indices past the last have none. */
  function IndexFn(board: Board, player: bool, t: Tables): nat -> seq<Move>
    requires board.Valid() && Wf(t)
  {
    (i: nat) => if i < StdPieceCount then IndexMoves(board, player, t, i) else []
  }

  /** f(0) + .. + f(n - 1). */
  function Concat(f: nat -> seq<Move>, n: nat): seq<Move>
  {
    if n == 0 then [] else Concat(f, n - 1) + f(n - 1)
  }

  /** Appending the next part to a prefix of the concatenation extends it by one. */
  lemma ConcatAppend(f: nat -> seq<Move>, n: nat, start: seq<Move>, before: seq<Move>, after: seq<Move>, part: seq<Move>)
    requires before == start + Concat(f, n) && after == before + part && part == f(n)
    ensures after == start + Concat(f, n + 1)
  {}

  lemma {:induction false} ConcatMem(f: nat -> seq<Move>, n: nat, m: Move)
    ensures m in Concat(f, n) <==> exists i :: 0 <= i < n && m in f(i)
  {
    if n > 0 {
      ConcatMem(f, n - 1, m);
      if m in f(n - 1) {
        assert 0 <= n - 1 < n;
      }
    }
  }

  /** The moves of the first n bitboards, in index order. */
  function BoardMoves(board: Board, player: bool, t: Tables, n: nat): seq<Move>
    requires board.Valid() && Wf(t)
  {
    Concat(IndexFn(board, player, t), n)
  }

  /** `Board::move_list`: appends the moves of every bitboard of the player, in index order. */
  method BoardMoveList(board: Board, player: bool, ml: MoveList, t: Tables)
    requires board.Valid() && Wf(t)
    modifies ml
    ensures ml.moves == old(ml.moves) + BoardMoves(board, player, t, StdPieceCount)
  {
    ghost var f := IndexFn(board, player, t);
    for i := 0 to StdPieceCount
      invariant ml.moves == old(ml.moves) + Concat(f, i)
    {
      ghost var before := ml.moves;
      PushIndex(board, player, i, ml, t);
      ConcatAppend(f, i, old(ml.moves), before, ml.moves, IndexMoves(board, player, t, i));
    }
  }

  /** One pass of the loop: the moves of the bitboard at index i, if its piece is the player's. */
  method PushIndex(board: Board, player: bool, i: nat, ml: MoveList, t: Tables)
    requires board.Valid() && Wf(t) && i < StdPieceCount
    modifies ml
    ensures ml.moves == old(ml.moves) + IndexMoves(board, player, t, i)
  {
    var piece := GetPiece(i);
    if piece.player == player {
      InvalidNoEnpassant(player);
      PieceMoveList(piece, board.bitboards[i], board, InvalidMove(), ml, t);
    }
  }

  /** The moves of the list are those of the player's pieces, bitboard by bitboard. */
  lemma BoardMovesMem(board: Board, player: bool, t: Tables, m: Move)
    requires board.Valid() && Wf(t)
    ensures m in BoardMoves(board, player, t, StdPieceCount) <==>
      exists i :: 0 <= i < StdPieceCount && GetPiece(i).player == player && m in IndexMoves(board, player, t, i)
  {
    var f := IndexFn(board, player, t);
    ConcatMem(f, StdPieceCount, m);
    forall i | 0 <= i < StdPieceCount ensures m in f(i) <==> GetPiece(i).player == player && m in IndexMoves(board, player, t, i) {
    }
  }

  /**
   * Every move of the list moves one of the player's pieces from a square of
   * that piece's bitboard to an empty square or one of the opponent's: with
   * the invalid previous move no en-passant capture is generated, and no
   * move lands on the mover's own side through its own bitboard masks.
   */
  lemma BoardMovesOwn(board: Board, player: bool, t: Tables, m: Move)
    requires board.Valid() && Wf(t)
    requires m in BoardMoves(board, player, t, StdPieceCount)
    ensures MovePiece(m).player == player && MovePiece(m).pieceType != Invalid
    ensures Src(m) < 64 && Bit(board.PieceMask(MovePiece(m)), Src(m))
    ensures Dest(m) < 64 && (Bit(board.EmptyMask(), Dest(m)) || Bit(board.PlayerMask(!player), Dest(m)))
  {
    BoardMovesMem(board, player, t, m);
    var i :| 0 <= i < StdPieceCount && GetPiece(i).player == player && m in IndexMoves(board, player, t, i);
    var piece := GetPiece(i);
    InvalidNoEnpassant(player);
    MovegenPiecesProps.GenMovesOwn(piece, board.bitboards[i], board.EmptyMask(), board.PlayerMask(!piece.player), InvalidMove(), t, m);
    board.PieceMaskAt(i);
  }
}
