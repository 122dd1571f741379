// pieces.py, the first version of the generators: only the pawn moves; the
// other five kinds hand back an empty generator. The pawn generator reads
// the same bitboards and builds the same four masks as board/pieces.py
// (pushes one and two ranks ahead, the two diagonal captures), but has no
// en passant and no capture flags: it pairs sources and destinations
// positionally in two streams. The player is its `forward` flag.
module LegacyPieces {
  import opened Bits
  import opened BoardUtils
  import opened BoardPiece
  import opened BoardState
  import BoardMove
  import opened BoardPieces
  import LegacyMove

  /** The source and destination streams of `Pawn.get_valid_moves`: push1, push2, nw, ne. */
  function PawnPairs(forward: bool, mine: int, empty: int, opp: int): (seq<int>, seq<int>)
  {
    var s1 := Positions(SinglePush(forward, mine, empty), 1);
    var s2 := Positions(DoublePush(forward, mine, empty), 1);
    var s3 := Positions(CaptureNorthWest(forward, mine, opp), 1);
    var s4 := Positions(CaptureNorthEast(forward, mine, opp), 1);
    (s1 + s2 + s3 + s4,
     Offset(s1, if forward then 8 else -8) + Offset(s2, if forward then 16 else -16) +
     Offset(s3, if forward then 7 else -8) + Offset(s4, if forward then 9 else -8))
  }

  /**
   * The old pawn streams are the sources and destinations board/pieces.py
   * generates when there is no previous move, capture flags dropped.
   */
  lemma PawnPairsAgree(forward: bool, mine: int, empty: int, opp: int)
    ensures PawnPairs(forward, mine, empty, opp).0 == PawnStreams(forward, mine, empty, opp, None).srcs
    ensures PawnPairs(forward, mine, empty, opp).1 == PawnStreams(forward, mine, empty, opp, None).dests
  {
    assert EnPassant(forward, mine, None) == ([], []);
    ChainWithoutEnPassant(forward,
      Positions(SinglePush(forward, mine, empty), 1), Positions(DoublePush(forward, mine, empty), 1),
      Positions(CaptureNorthWest(forward, mine, opp), 1), Positions(CaptureNorthEast(forward, mine, opp), 1));
  }

  /** With no en-passant streams the chain is the four pushes and captures alone. */
  lemma ChainWithoutEnPassant(forward: bool, s1: seq<nat>, s2: seq<nat>, s3: seq<nat>, s4: seq<nat>)
    ensures PawnChain(forward, s1, s2, s3, s4, ([], [])).srcs == s1 + s2 + s3 + s4
    ensures PawnChain(forward, s1, s2, s3, s4, ([], [])).dests ==
      Offset(s1, if forward then 8 else -8) + Offset(s2, if forward then 16 else -16) +
      Offset(s3, if forward then 7 else -8) + Offset(s4, if forward then 9 else -8)
  {
    assert s1 + s2 + s3 + s4 + [] == s1 + s2 + s3 + s4;
    var ds := Offset(s1, if forward then 8 else -8) + Offset(s2, if forward then 16 else -16) +
      Offset(s3, if forward then 7 else -8) + Offset(s4, if forward then 9 else -8);
    assert ds + [] == ds;
  }

  /** A pawn push or diagonal capture, without en passant. */
  predicate PawnMove(forward: bool, mine: int, empty: int, opp: int, p: int, d: int)
  {
    BoardPieces.PawnMove(forward, mine, empty, opp, None, p, d, false) ||
    BoardPieces.PawnMove(forward, mine, empty, opp, None, p, d, true)
  }

  /**
   * The two streams have equal length, every pair is a pawn push or
   * diagonal capture, and every such move is one of the pairs.
   */
  lemma PawnPairsSpec(forward: bool, mine: int, empty: int, opp: int)
    requires IsBoard(empty)
    ensures var ps := PawnPairs(forward, mine, empty, opp);
      |ps.0| == |ps.1| &&
      (forall k :: 0 <= k < |ps.0| ==> PawnMove(forward, mine, empty, opp, ps.0[k], ps.1[k])) &&
      (forall p, d :: PawnMove(forward, mine, empty, opp, p, d) ==>
        exists k :: 0 <= k < |ps.0| && ps.0[k] == p && ps.1[k] == d)
  {
    PawnPairsAgree(forward, mine, empty, opp);
    PawnStreamsSpec(forward, mine, empty, opp, None);
    var ps := PawnPairs(forward, mine, empty, opp);
    forall k | 0 <= k < |ps.0| ensures PawnMove(forward, mine, empty, opp, ps.0[k], ps.1[k]) {
      PawnStreamsSound(forward, mine, empty, opp, None, k);
      var st := PawnStreams(forward, mine, empty, opp, None);
      FlagDropped(forward, mine, empty, opp, st.srcs[k], st.dests[k], st.captures[k]);
    }
    forall p, d | PawnMove(forward, mine, empty, opp, p, d)
      ensures exists k :: 0 <= k < |ps.0| && ps.0[k] == p && ps.1[k] == d
    {
      var c := !BoardPieces.PawnMove(forward, mine, empty, opp, None, p, d, false);
      PawnStreamsComplete(forward, mine, empty, opp, None, p, d, c);
    }
  }

  /** A pawn move with either flag is a move of the old generator. */
  lemma FlagDropped(forward: bool, mine: int, empty: int, opp: int, p: int, d: int, c: bool)
    requires BoardPieces.PawnMove(forward, mine, empty, opp, None, p, d, c)
    ensures PawnMove(forward, mine, empty, opp, p, d)
  {
    if c {} else {}
  }

  /**
   * `Pawn.get_valid_moves(board, prevMove)` on the board's mapping: the
   * player's pawn bitboard (KeyError when absent), the empty squares and the
   * opponent's squares (TypeError when the opponent has no entries) are
   * `None` on failure. `prevMove` is not read.
   */
  function PawnMoves(m: Mapping, player: bool): Option<(seq<int>, seq<int>)>
  {
    var mine := Lookup(m, Piece(Pawn, player));
    var empty := EmptyBb(Values(m));
    var opp := NonEmptyBb(Values(Bbs4OppPlayer(m, player)));
    if mine.None? || empty.None? || opp.None? then None
    else Some(PawnPairs(player, mine.value, empty.value, opp.value))
  }

  /** `piece.get_valid_moves(board, prevMove)`: pawns generate, the other kinds yield nothing. */
  function ValidMoves(m: Mapping, piece: Piece): Option<(seq<int>, seq<int>)>
  {
    if piece.kind == Pawn then PawnMoves(m, piece.player) else Some(([], []))
  }

  /**
   * The old pawn generator fails exactly when the new one does, and then
   * yields the new one's sources and destinations for a board without a
   * previous move.
   */
  lemma PawnMovesAgree(m: Mapping, player: bool)
    ensures PawnMoves(m, player).None? <==> BoardPieces.PawnMoves(m, player, None).None?
    ensures PawnMoves(m, player).Some? ==>
      PawnMoves(m, player).value.0 == BoardPieces.PawnMoves(m, player, None).value.srcs &&
      PawnMoves(m, player).value.1 == BoardPieces.PawnMoves(m, player, None).value.dests
  {
    var mine := Lookup(m, Piece(Pawn, player));
    var empty := EmptyBb(Values(m));
    var opp := NonEmptyBb(Values(Bbs4OppPlayer(m, player)));
    if mine.Some? && empty.Some? && opp.Some? {
      var ps := PawnPairs(player, mine.value, empty.value, opp.value);
      var st := PawnStreams(player, mine.value, empty.value, opp.value, None);
      assert PawnMoves(m, player) == Some(ps);
      assert BoardPieces.PawnMoves(m, player, None) == Some(st);
      PawnPairsAgree(player, mine.value, empty.value, opp.value);
    } else {
      assert PawnMoves(m, player).None?;
      assert BoardPieces.PawnMoves(m, player, None).None?;
    }
  }

  /** Only pawns have moves: the other five kinds yield an empty pair of streams. */
  lemma OnlyPawnsMove(m: Mapping, piece: Piece)
    ensures piece.kind != Pawn ==> ValidMoves(m, piece) == Some(([], []))
    ensures piece.kind == Pawn ==> ValidMoves(m, piece) == PawnMoves(m, piece.player)
  {
  }

  /**
   * `get_valid_moves` as the board calls it: a fresh single-pass move list
   * over the streams, or the failure. The other kinds' empty generator is
   * a list with no items.
   */
  method GetValidMoves(m: Mapping, piece: Piece) returns (r: Option<LegacyMove.PieceMoveList<Piece>>)
    ensures r.None? <==> ValidMoves(m, piece).None?
    ensures r.Some? ==> fresh(r.value) && r.value.piece == piece
    ensures r.Some? ==> r.value.srcs == ValidMoves(m, piece).value.0 && r.value.dests == ValidMoves(m, piece).value.1
  {
    if piece.kind != Pawn {
      var l := new LegacyMove.PieceMoveList(piece, [], []);
      return Some(l);
    }
    var mine := Lookup(m, piece);
    var empty := EmptyBb(Values(m));
    var opp := NonEmptyBb(Values(Bbs4OppPlayer(m, piece.player)));
    if mine.None? || empty.None? || opp.None? {
      return None;
    }
    var pp1 := GetBitPositions(SinglePush(piece.player, mine.value, empty.value));
    var pp2 := GetBitPositions(DoublePush(piece.player, mine.value, empty.value));
    var cpnw := GetBitPositions(CaptureNorthWest(piece.player, mine.value, opp.value));
    var cpne := GetBitPositions(CaptureNorthEast(piece.player, mine.value, opp.value));
    var forward := piece.player;
    var dests := Offset(pp1, if forward then 8 else -8) + Offset(pp2, if forward then 16 else -16) +
      Offset(cpnw, if forward then 7 else -8) + Offset(cpne, if forward then 9 else -8);
    var l := new LegacyMove.PieceMoveList(piece, pp1 + pp2 + cpnw + cpne, dests);
    r := Some(l);
  }
}
