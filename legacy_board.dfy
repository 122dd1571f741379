// board.py, the first version of the board: the piece -> bitboard mapping,
// built once and only queried. Its move list chains one generator per piece
// of the mapping (or of one player's part of it), always with no previous
// move.
module LegacyBoard {
  import opened Bits
  import opened BoardUtils
  import opened BoardPiece
  import opened BoardState
  import opened BoardPieces
  import opened BoardBoard
  import LegacyMove
  import LegacyPieces

  datatype Board = Board(bitboards: Mapping)

  /**
   * `Board(pieceList, bitboards)`: without bitboards every listed piece maps
   * to 0; with them pieces and bitboards pair up positionally, `zip` cutting
   * off at the shorter list. A dict has distinct keys.
   */
  function NewBoard(pieceList: seq<Piece>, bbs: Option<seq<int>>): (b: Board)
    ensures KeysDistinct(b.bitboards)
    ensures bbs.None? ==> forall q :: q in Keys(b.bitboards) <==> q in pieceList
    ensures bbs.None? ==> forall q :: q in pieceList ==> Lookup(b.bitboards, q) == Some(0)
    ensures bbs.Some? ==> forall q :: q in Keys(b.bitboards) <==> q in pieceList[..ZipLen(pieceList, bbs.value)]
    ensures bbs.Some? && (forall i, j :: 0 <= i < j < ZipLen(pieceList, bbs.value) ==> pieceList[i] != pieceList[j]) ==>
      forall k :: 0 <= k < ZipLen(pieceList, bbs.value) ==> Lookup(b.bitboards, pieceList[k]) == Some(bbs.value[k])
  {
    if bbs.None? then
      ZeroBoards(pieceList);
      Board(FromZip(pieceList, Rep(0, |pieceList|)))
    else
      FromZipSpec(pieceList, bbs.value);
      Board(FromZip(pieceList, bbs.value))
  }

  /**
   * `Board.standardFull()`: the twelve pieces, white then black, each on its
   * `standard_full` mask, which holds exactly its start squares; no square
   * is in two bitboards.
   */
  function StandardFull(): (b: Board)
    ensures KeysDistinct(b.bitboards) && Keys(b.bitboards) == StdPieceList
    ensures forall p :: Lookup(b.bitboards, p) == Some(BoardPiece.StandardFull(p))
    ensures forall p, i: nat :: Bit(Lookup(b.bitboards, p).value, i) <==> StartPiece(i) == Some(p)
    ensures Disjoint(b.bitboards)
  {
    StandardMappingSpec();
    NewBoard(StdPieceList, Some(StdBbs()))
  }

  /** `bb4piece(piece)`: the piece's bitboard; a piece without an entry raises KeyError (`None`). */
  function Bb4Piece(b: Board, piece: Piece): (r: Option<int>)
    requires KeysDistinct(b.bitboards)
    ensures r.Some? <==> piece in Keys(b.bitboards)
    ensures forall i :: 0 <= i < |b.bitboards| && b.bitboards[i].piece == piece ==> r == Some(b.bitboards[i].bb)
  {
    LookupSpec(b.bitboards, piece);
    Lookup(b.bitboards, piece)
  }

  /** `bbs4_player(player)`: the entries of that player's pieces, in order. */
  function Bbs4Player(b: Board, player: bool): (r: Mapping)
    ensures forall e :: e in r <==> e in b.bitboards && e.piece.player == player
  {
    PlayerPartition(b.bitboards, player);
    BoardState.Bbs4Player(b.bitboards, player)
  }

  /** `bbs4_opp_player(player)`: the entries of the other player's pieces, in order. */
  function Bbs4OppPlayer(b: Board, player: bool): (r: Mapping)
    ensures forall e :: e in r <==> e in b.bitboards && e.piece.player != player
    ensures r == Bbs4Player(b, !player)
    ensures |Bbs4Player(b, player)| + |r| == |b.bitboards|
  {
    PlayerPartition(b.bitboards, player);
    BoardState.Bbs4OppPlayer(b.bitboards, player)
  }

  // ----- the moves of the whole board -----

  /** The moves one piece's generator hands out, or its failure. */
  function PieceResult(m: Mapping, piece: Piece): Option<seq<LegacyMove.Move<Piece>>>
  {
    match LegacyPieces.ValidMoves(m, piece)
    case None => None
    case Some(ps) => Some(LegacyMove.Zip(piece, ps.0, ps.1))
  }

  /** Every listed piece's generator result, in order. */
  function PieceResults(m: Mapping, pieces: seq<Piece>): (r: seq<Option<seq<LegacyMove.Move<Piece>>>>)
    ensures |r| == |pieces| && forall k :: 0 <= k < |pieces| ==> r[k] == PieceResult(m, pieces[k])
  {
    seq(|pieces|, k requires 0 <= k < |pieces| => PieceResult(m, pieces[k]))
  }

  /** The moves of `get_valid_moves` for the pieces listed, generator after generator. */
  function BoardMoves(m: Mapping, pieces: seq<Piece>): Option<seq<LegacyMove.Move<Piece>>>
  {
    Concat(PieceResults(m, pieces))
  }

  /** A move the piece's generator pairs up: a pawn's push or diagonal capture. */
  predicate Generated(m: Mapping, piece: Piece, mv: LegacyMove.Move<Piece>)
  {
    mv.piece == piece && LegacyPieces.ValidMoves(m, piece).Some? &&
    LegacyMove.PairsHold(LegacyPieces.ValidMoves(m, piece).value.0, LegacyPieces.ValidMoves(m, piece).value.1, mv.src, mv.dest)
  }

  lemma PieceResultIs(m: Mapping, piece: Piece)
    ensures PieceResult(m, piece) ==
      if LegacyPieces.ValidMoves(m, piece).None? then None
      else Some(LegacyMove.Zip(piece, LegacyPieces.ValidMoves(m, piece).value.0, LegacyPieces.ValidMoves(m, piece).value.1))
  {
  }

  /** A piece's moves are exactly those its streams pair up. */
  lemma PieceResultMem(m: Mapping, piece: Piece, mv: LegacyMove.Move<Piece>)
    ensures PieceResult(m, piece).Some? <==> LegacyPieces.ValidMoves(m, piece).Some?
    ensures PieceResult(m, piece).Some? ==> (mv in PieceResult(m, piece).value <==> Generated(m, piece, mv))
  {
    PieceResultIs(m, piece);
    var v := LegacyPieces.ValidMoves(m, piece);
    if v.Some? {
      LegacyMove.ZipMem(piece, v.value.0, v.value.1, mv);
    }
  }

  /**
   * The board's moves exist exactly when every listed piece's generator
   * succeeds, and then they are exactly the moves some listed piece's
   * generator pairs up.
   */
  lemma BoardMovesSpec(m: Mapping, pieces: seq<Piece>)
    ensures BoardMoves(m, pieces).Some? <==> forall k :: 0 <= k < |pieces| ==> LegacyPieces.ValidMoves(m, pieces[k]).Some?
    ensures BoardMoves(m, pieces).Some? ==> forall mv ::
      mv in BoardMoves(m, pieces).value <==> exists k :: 0 <= k < |pieces| && Generated(m, pieces[k], mv)
  {
    var rs := PieceResults(m, pieces);
    ConcatSome(rs);
    forall k | 0 <= k < |pieces| {
      PieceResultMem(m, pieces[k], LegacyMove.Move(pieces[k], 0, 0));
    }
    if BoardMoves(m, pieces).Some? {
      forall mv ensures mv in BoardMoves(m, pieces).value <==> exists k :: 0 <= k < |pieces| && Generated(m, pieces[k], mv) {
        ConcatMem(rs, mv);
        forall k | 0 <= k < |pieces| { PieceResultMem(m, pieces[k], mv); }
      }
    }
  }

  /**
   * Only pawns move, and a move is a push or diagonal capture of the
   * mover's colour on the mapping's bitboards.
   */
  lemma GeneratedPawnMove(m: Mapping, piece: Piece, mv: LegacyMove.Move<Piece>)
    requires Generated(m, piece, mv)
    ensures piece.kind == Pawn && mv.piece == piece
    ensures var mine := Lookup(m, piece).value;
      var empty := EmptyBb(Values(m)).value;
      var opp := NonEmptyBb(Values(BoardState.Bbs4OppPlayer(m, piece.player))).value;
      LegacyPieces.PawnMove(piece.player, mine, empty, opp, mv.src, mv.dest)
  {
    var mine := Lookup(m, piece);
    var empty := EmptyBb(Values(m));
    var opp := NonEmptyBb(Values(BoardState.Bbs4OppPlayer(m, piece.player)));
    OccupancyBit(Values(m), 0);
    UInt64Bit(Not(Union(Values(m))), 0);
    var ps := LegacyPieces.PawnPairs(piece.player, mine.value, empty.value, opp.value);
    assert LegacyPieces.ValidMoves(m, piece) == Some(ps);
    LegacyPieces.PawnPairsSpec(piece.player, mine.value, empty.value, opp.value);
    assert LegacyMove.PairsHold(ps.0, ps.1, mv.src, mv.dest);
    var k :| 0 <= k < |ps.0| && k < |ps.1| && ps.0[k] == mv.src && ps.1[k] == mv.dest;
  }

  /** Drawing from one player's entries yields only that player's moves. */
  lemma PlayerMovesOwn(m: Mapping, player: bool, mv: LegacyMove.Move<Piece>)
    requires BoardMoves(m, Keys(PlayerEntries(m, Some(player)))).Some?
    requires mv in BoardMoves(m, Keys(PlayerEntries(m, Some(player)))).value
    ensures mv.piece.player == player && mv.piece.kind == Pawn
  {
    var es := PlayerEntries(m, Some(player));
    BoardMovesSpec(m, Keys(es));
    PlayerPartition(m, player);
    KeysIndex(es);
    var k :| 0 <= k < |Keys(es)| && Generated(m, Keys(es)[k], mv);
    assert es[k] in es;
    GeneratedPawnMove(m, Keys(es)[k], mv);
  }

  /** Appending a piece's list extends the chained moves by that piece's result. */
  lemma ListStep(rs: seq<Option<seq<LegacyMove.Move<Piece>>>>, k: nat, lists: seq<LegacyMove.PieceMoveList<Piece>>, l: LegacyMove.PieceMoveList<Piece>)
    requires k < |rs| && Concat(rs[..k]) == Some(LegacyMove.Chained(lists)) && rs[k] == Some(l.Pending())
    ensures Concat(rs[..k + 1]) == Some(LegacyMove.Chained(lists + [l]))
  {
    ConcatSnoc(rs, k);
    LegacyMove.ChainedSnoc(lists, l);
  }

  /**
   * The generator expression of `get_valid_moves`, run to the end: one fresh
   * move list per piece, in order; `None` when a generator fails.
   */
  method MoveLists(m: Mapping, pieces: seq<Piece>) returns (r: Option<seq<LegacyMove.PieceMoveList<Piece>>>)
    ensures r.None? <==> BoardMoves(m, pieces).None?
    ensures r.Some? ==> forall l :: l in r.value ==> fresh(l)
    ensures r.Some? ==> forall i, j :: 0 <= i < j < |r.value| ==> r.value[i] != r.value[j]
    ensures r.Some? ==> LegacyMove.Chained(r.value) == BoardMoves(m, pieces).value
  {
    ghost var rs := PieceResults(m, pieces);
    var lists: seq<LegacyMove.PieceMoveList<Piece>> := [];
    for k := 0 to |pieces|
      invariant Concat(rs[..k]) == Some(LegacyMove.Chained(lists))
      invariant forall l :: l in lists ==> fresh(l)
      invariant forall i, j :: 0 <= i < j < |lists| ==> lists[i] != lists[j]
    {
      var l := LegacyPieces.GetValidMoves(m, pieces[k]);
      PieceResultIs(m, pieces[k]);
      if l.None? {
        ConcatSnoc(rs, k);
        ConcatPrefixNone(rs, k + 1);
        return None;
      }
      assert rs[k] == Some(l.value.Pending());
      ListStep(rs, k, lists, l.value);
      lists := lists + [l.value];
    }
    assert rs[..|pieces|] == rs;
    r := Some(lists);
  }

  /**
   * `get_valid_moves(player)`: the move list over all keys, or over one
   * player's keys, in key order; `None` when one of the generators fails.
   */
  method GetValidMoves(b: Board, player: Option<bool>) returns (r: Option<LegacyMove.MoveList<Piece>>)
    ensures r.None? <==> BoardMoves(b.bitboards, Keys(PlayerEntries(b.bitboards, player))).None?
    ensures r.Some? ==> fresh(r.value) && r.value.Distinct() && forall l :: l in r.value.lists ==> fresh(l)
    ensures r.Some? ==> LegacyMove.Chained(r.value.lists) == BoardMoves(b.bitboards, Keys(PlayerEntries(b.bitboards, player))).value
  {
    var lists := MoveLists(b.bitboards, Keys(PlayerEntries(b.bitboards, player)));
    if lists.None? {
      return None;
    }
    var ml := new LegacyMove.MoveList(lists.value);
    r := Some(ml);
  }
}
