// board/board.py: the board as a mutable piece -> bitboard mapping with a
// stack of earlier mappings. `make_move` pushes the current mapping and
// rebinds the field to a fresh one, so a pushed snapshot is never changed
// afterwards; `unmake_move` pops it back.
module BoardBoard {
  import opened Bits
  import opened BoardUtils
  import opened BoardPiece
  import opened BoardMove
  import opened BoardState
  import opened BoardPieces
  import opened BoardGenerators

  // ----- the mapping after a move -----

  /**
   * The comprehension of `make_move`: every bitboard with the squares of the
   * mask cleared and truncated to 64 bits, under the same keys in the same order.
   */
  function ClearSquare(m: Mapping, mask: int): (r: Mapping)
    ensures |r| == |m| && forall i :: 0 <= i < |m| ==> r[i].piece == m[i].piece
  {
    seq(|m|, i requires 0 <= i < |m| => Entry(m[i].piece, UInt64(And(m[i].bb, Not(mask)))))
  }

  /** The bitboard the mover gets: its cleared bitboard with the source and the destination toggled. */
  function Toggled(bb: int, move: Move<Piece>): int
  {
    Xor(Xor(bb, PositionBb(move.src - 1)), PositionBb(move.dest - 1))
  }

  /**
   * The mapping `make_move` leaves: the destination cleared everywhere, then
   * the mover's entry toggled; `None` when the mover has no entry, where the
   * lookup raises KeyError after the clearing.
   */
  function Moved(m: Mapping, move: Move<Piece>): Option<Mapping>
  {
    var cleared := ClearSquare(m, PositionBb(move.dest - 1));
    match Lookup(cleared, move.piece)
    case None => None
    case Some(bb) => Some(Store(cleared, move.piece, Toggled(bb, move)))
  }

  /** Two mappings with the same pieces in the same places have the same keys. */
  lemma {:induction false} SameKeys(m: Mapping, n: Mapping)
    requires |m| == |n| && forall i :: 0 <= i < |m| ==> m[i].piece == n[i].piece
    ensures Keys(m) == Keys(n)
  {
    KeysIndex(m);
    KeysIndex(n);
  }

  lemma {:induction false} ClearSquareLookup(m: Mapping, mask: int, q: Piece)
    ensures Lookup(ClearSquare(m, mask), q).Some? <==> Lookup(m, q).Some?
    ensures Lookup(m, q).Some? ==> Lookup(ClearSquare(m, mask), q) == Some(UInt64(And(Lookup(m, q).value, Not(mask))))
  {
    if |m| > 0 {
      ClearSquareLookup(m[1..], mask, q);
      assert ClearSquare(m, mask)[1..] == ClearSquare(m[1..], mask);
    }
  }

  /** A cleared bitboard keeps exactly its board squares outside the mask. */
  lemma ClearedBit(bb: int, mask: int, j: nat)
    ensures Bit(UInt64(And(bb, Not(mask))), j) <==> j < 64 && Bit(bb, j) && !Bit(mask, j)
  {
    UInt64Bit(And(bb, Not(mask)), j);
    BitAnd(bb, Not(mask), j);
    BitNot(mask, j);
  }

  /** The mover's bitboard: the destination and the source toggled, on a board square. */
  lemma ToggledBit(bb: int, move: Move<Piece>, j: nat)
    requires 1 <= move.src <= 64 && 1 <= move.dest <= 64
    ensures Bit(Toggled(bb, move), j) <==> (Bit(bb, j) != (j == move.src - 1)) != (j == move.dest - 1)
  {
    var s, d := PositionBb(move.src - 1), PositionBb(move.dest - 1);
    BitXor(Xor(bb, s), d, j);
    BitXor(bb, s, j);
    PositionBbBit(move.src - 1, j);
    PositionBbBit(move.dest - 1, j);
  }

  /**
   * `make_move` fails exactly when the mover has no entry, and keeps the keys.
   * Afterwards the destination square is clear in every bitboard but the
   * mover's, which holds it unless source and destination coincide; the
   * mover's source square is toggled; every other square of every bitboard
   * is kept, and nothing lies off the board.
   */
  lemma MovedBit(m: Mapping, move: Move<Piece>, q: Piece, j: nat)
    requires KeysDistinct(m)
    requires 1 <= move.src <= 64 && 1 <= move.dest <= 64
    ensures Moved(m, move).None? <==> Lookup(m, move.piece).None?
    ensures Moved(m, move).Some? ==> Keys(Moved(m, move).value) == Keys(m)
    ensures Moved(m, move).Some? && Lookup(m, q).Some? ==>
      var r := Moved(m, move).value;
      var old_ := Lookup(m, q).value;
      var s, d := move.src - 1, move.dest - 1;
      Lookup(r, q).Some? &&
      (Bit(Lookup(r, q).value, j) <==>
        if q == move.piece then (if j == d then s != d else (j < 64 && Bit(old_, j)) != (j == s))
        else j < 64 && j != d && Bit(old_, j))
  {
    var mask := PositionBb(move.dest - 1);
    var cleared := ClearSquare(m, mask);
    ClearSquareLookup(m, mask, move.piece);
    ClearSquareLookup(m, mask, q);
    SameKeys(m, cleared);
    if Lookup(m, move.piece).Some? {
      var bb := Lookup(cleared, move.piece).value;
      StoreKeys(cleared, move.piece, Toggled(bb, move));
      KeysIndex(cleared);
      LookupSpec(cleared, move.piece);
      StoreLookup(cleared, move.piece, Toggled(bb, move), q);
      if Lookup(m, q).Some? {
        PositionBbBit(move.dest - 1, j);
        if q == move.piece {
          ToggledBit(bb, move, j);
          ClearedBit(Lookup(m, q).value, mask, j);
        } else {
          ClearedBit(Lookup(m, q).value, mask, j);
        }
      }
    }
  }

  /** No square lies in two bitboards. */
  ghost predicate Disjoint(m: Mapping)
  {
    forall i, j, s: nat :: 0 <= i < j < |m| ==> !(Bit(m[i].bb, s) && Bit(m[j].bb, s))
  }

  /** The entry at index i of a mapping with distinct keys is what a lookup of its key finds. */
  lemma EntryLookup(m: Mapping, i: nat)
    requires KeysDistinct(m) && i < |m|
    ensures Lookup(m, m[i].piece) == Some(m[i].bb)
  {
    LookupSpec(m, m[i].piece);
  }

  /**
   * A quiet move or a capture of a piece standing on its source square
   * keeps the bitboards disjoint: the captured piece loses the destination.
   */
  lemma MoveKeepsDisjoint(m: Mapping, move: Move<Piece>)
    requires KeysDistinct(m) && Disjoint(m)
    requires 1 <= move.src <= 64 && 1 <= move.dest <= 64
    requires Lookup(m, move.piece).Some? && Bit(Lookup(m, move.piece).value, move.src - 1)
    ensures Moved(m, move).Some? && Disjoint(Moved(m, move).value)
  {
    MovedKeys(m, move);
    var r := Moved(m, move).value;
    forall i, j, s: nat | 0 <= i < j < |r| ensures !(Bit(r[i].bb, s) && Bit(r[j].bb, s)) {
      MovedPair(m, move, i, j, s);
    }
  }

  /** A successful move keeps the keys, in order, and so keeps them distinct. */
  lemma MovedKeys(m: Mapping, move: Move<Piece>)
    requires KeysDistinct(m) && Lookup(m, move.piece).Some?
    ensures Moved(m, move).Some?
    ensures Keys(Moved(m, move).value) == Keys(m) && KeysDistinct(Moved(m, move).value)
    ensures |Moved(m, move).value| == |m|
  {
    var cleared := ClearSquare(m, PositionBb(move.dest - 1));
    ClearSquareLookup(m, PositionBb(move.dest - 1), move.piece);
    SameKeys(m, cleared);
    LookupSpec(cleared, move.piece);
    var bb := Lookup(cleared, move.piece).value;
    var r := Store(cleared, move.piece, Toggled(bb, move));
    assert Moved(m, move) == Some(r);
    StoreKeys(cleared, move.piece, Toggled(bb, move));
    assert Keys(r) == Keys(m);
    KeysIndex(r);
    KeysIndex(m);
  }

  lemma MovedPair(m: Mapping, move: Move<Piece>, i: nat, j: nat, s: nat)
    requires KeysDistinct(m) && Disjoint(m)
    requires 1 <= move.src <= 64 && 1 <= move.dest <= 64
    requires Lookup(m, move.piece).Some? && Bit(Lookup(m, move.piece).value, move.src - 1)
    requires Moved(m, move).Some? && KeysDistinct(Moved(m, move).value)
    requires Keys(Moved(m, move).value) == Keys(m)
    requires i < j < |m|
    ensures i < j < |Moved(m, move).value|
    ensures !(Bit(Moved(m, move).value[i].bb, s) && Bit(Moved(m, move).value[j].bb, s))
  {
    var r := Moved(m, move).value;
    KeysIndex(m);
    KeysIndex(r);
    EntryLookup(m, i);
    EntryLookup(m, j);
    EntryLookup(r, i);
    EntryLookup(r, j);
    MovedBit(m, move, m[i].piece, s);
    MovedBit(m, move, m[j].piece, s);
    assert !(Bit(m[i].bb, s) && Bit(m[j].bb, s));
    if m[i].piece == move.piece || m[j].piece == move.piece {
      assert m[i].piece != m[j].piece;
    }
  }

  /** After a move on board squares every bitboard is a 64-bit board, so the generators apply again. */
  lemma MovedBoards(m: Mapping, move: Move<Piece>)
    requires KeysDistinct(m) && Lookup(m, move.piece).Some?
    requires 1 <= move.src <= 64 && 1 <= move.dest <= 64
    ensures Moved(m, move).Some?
    ensures forall k :: 0 <= k < |Moved(m, move).value| ==> IsBoard(Moved(m, move).value[k].bb)
    ensures NonNegative(Moved(m, move).value)
  {
    MovedKeys(m, move);
    forall k | 0 <= k < |Moved(m, move).value| ensures IsBoard(Moved(m, move).value[k].bb) {
      MovedEntryBoard(m, move, k);
    }
  }

  lemma MovedEntryBoard(m: Mapping, move: Move<Piece>, k: nat)
    requires KeysDistinct(m) && Lookup(m, move.piece).Some?
    requires 1 <= move.src <= 64 && 1 <= move.dest <= 64
    requires Moved(m, move).Some? && Keys(Moved(m, move).value) == Keys(m) && KeysDistinct(Moved(m, move).value)
    requires k < |Moved(m, move).value| == |m|
    ensures IsBoard(Moved(m, move).value[k].bb)
  {
    var r := Moved(m, move).value;
    KeysIndex(m);
    KeysIndex(r);
    EntryLookup(m, k);
    EntryLookup(r, k);
    forall j: nat | 64 <= j ensures !Bit(r[k].bb, j) {
      MovedBit(m, move, m[k].piece, j);
    }
    BitsBoard(r[k].bb);
  }

  // ----- the board -----

  class Board {
    /** `_bitboards`, the current piece -> bitboard mapping. */
    var bitboards: Mapping
    /** `__history_bbs`, the mappings before each move not yet taken back, oldest first. */
    var history: seq<Mapping>

    /** Every mapping the board holds, current or saved, has distinct keys, as a dict does. */
    predicate Valid()
      reads this
    {
      KeysDistinct(bitboards) && forall k :: 0 <= k < |history| ==> KeysDistinct(history[k])
    }

    /**
     * `Board(pieceList, bitboards)`: without bitboards every piece gets an
     * empty bitboard; with them pieces and bitboards pair up positionally.
     * The history starts empty.
     */
    constructor (pieceList: seq<Piece>, bbs: Option<seq<int>>)
      ensures bitboards == FromZip(pieceList, if bbs.None? then Rep(0, |pieceList|) else bbs.value)
      ensures history == []
      ensures Valid()
    {
      var values := if bbs.None? then Rep(0, |pieceList|) else bbs.value;
      FromZipSpec(pieceList, values);
      bitboards := FromZip(pieceList, values);
      history := [];
    }

    /**
     * `make_move(move)`: saves the current mapping, clears the destination
     * in every bitboard and toggles the mover's source and destination. A
     * mover without an entry raises KeyError (`keyError`) after the save and
     * the clearing.
     */
    method MakeMove(move: Move<Piece>) returns (keyError: bool)
      requires Valid()
      modifies this
      ensures Valid()
      ensures history == old(history) + [old(bitboards)]
      ensures keyError <==> Moved(old(bitboards), move).None?
      ensures keyError ==> bitboards == ClearSquare(old(bitboards), PositionBb(move.dest - 1))
      ensures !keyError ==> bitboards == Moved(old(bitboards), move).value
    {
      var srcBb := PositionBb(move.src - 1);
      var destBb := PositionBb(move.dest - 1);
      ghost var m := bitboards;
      history := history + [bitboards];
      bitboards := ClearSquare(bitboards, destBb);
      SameKeys(m, bitboards);
      var bb := Lookup(bitboards, move.piece);
      if bb.None? {
        keyError := true;
        return;
      }
      StoreDistinct(bitboards, move.piece, Xor(Xor(bb.value, srcBb), destBb));
      bitboards := Store(bitboards, move.piece, Xor(Xor(bb.value, srcBb), destBb));
      keyError := false;
    }

    /**
     * `unmake_move()`: pops the last saved mapping back; on an empty history
     * `list.pop` raises IndexError (`indexError`) and nothing changes.
     */
    method UnmakeMove() returns (indexError: bool)
      requires Valid()
      modifies this
      ensures Valid()
      ensures indexError <==> old(history) == []
      ensures indexError ==> bitboards == old(bitboards) && history == old(history)
      ensures !indexError ==>
        bitboards == old(history)[|old(history)| - 1] && history == old(history)[..|old(history)| - 1]
    {
      if history == [] {
        return true;
      }
      bitboards := history[|history| - 1];
      history := history[..|history| - 1];
      indexError := false;
    }

    /** `bb4piece(piece)`: the piece's bitboard; a piece without an entry raises KeyError (`None`). */
    function Bb4Piece(piece: Piece): (r: Option<int>)
      reads this
      requires Valid()
      ensures r.Some? <==> piece in Keys(bitboards)
      ensures forall i :: 0 <= i < |bitboards| && bitboards[i].piece == piece ==> r == Some(bitboards[i].bb)
    {
      LookupSpec(bitboards, piece);
      Lookup(bitboards, piece)
    }

    /** `bbs4_player(player)`: the entries of that player's pieces, in order. */
    function Bbs4Player(player: bool): (r: Mapping)
      reads this
      ensures forall e :: e in r <==> e in bitboards && e.piece.player == player
    {
      PlayerPartition(bitboards, player);
      BoardState.Bbs4Player(bitboards, player)
    }

    /** `bbs4_opp_player(player)`: the entries of the other player's pieces, in order. */
    function Bbs4OppPlayer(player: bool): (r: Mapping)
      reads this
      ensures forall e :: e in r <==> e in bitboards && e.piece.player != player
      ensures r == Bbs4Player(!player)
      ensures |Bbs4Player(player)| + |r| == |bitboards|
    {
      PlayerPartition(bitboards, player);
      BoardState.Bbs4OppPlayer(bitboards, player)
    }

    /** `piece_count()`: every key, in order, with the number of squares of its bitboard. */
    function PieceCount(): (r: seq<(Piece, nat)>)
      reads this
      ensures |r| == |bitboards|
      ensures forall i :: 0 <= i < |bitboards| && bitboards[i].bb >= 0 ==>
        r[i].0 == bitboards[i].piece && r[i].1 == |Positions(bitboards[i].bb, 1)|
    {
      PieceCountSpec(bitboards);
      BoardState.PieceCount(bitboards)
    }

    /**
     * `get_valid_moves(player, prev_move)`: one generator per key of the
     * player's entries (all entries for no player), in key order, chained
     * into a move list. The list yields the board's moves for those pieces;
     * `None` when one of the generators fails.
     */
    method GetValidMoves(player: Option<bool>, prev: Option<Move<Piece>>) returns (r: Option<MoveList<Piece>>)
      requires NonNegative(bitboards)
      ensures r.None? <==> BoardMoves(bitboards, Keys(PlayerEntries(bitboards, player)), prev).None?
      ensures r.Some? ==> fresh(r.value) && r.value.Distinct() && forall l :: l in r.value.lists ==> fresh(l)
      ensures r.Some? ==> Chained(r.value.lists) == BoardMoves(bitboards, Keys(PlayerEntries(bitboards, player)), prev).value
    {
      var lists := MoveLists(bitboards, Keys(PlayerEntries(bitboards, player)), prev);
      if lists.None? {
        return None;
      }
      var ml := new MoveList(lists.value);
      r := Some(ml);
    }
  }

  /** Taking a move back restores the mapping and the history exactly, whether or not the move raised. */
  method MakeThenUnmake(b: Board, move: Move<Piece>) returns (keyError: bool)
    requires b.Valid()
    modifies b
    ensures b.Valid()
    ensures b.bitboards == old(b.bitboards) && b.history == old(b.history)
    ensures keyError <==> Lookup(old(b.bitboards), move.piece).None?
  {
    keyError := b.MakeMove(move);
    ghost var m := old(b.bitboards);
    ClearSquareLookup(m, PositionBb(move.dest - 1), move.piece);
    var indexError := b.UnmakeMove();
    assert !indexError;
    assert old(b.history) + [m] == b.history + [m];
  }

  // ----- construction -----

  /** A key of a mapping with distinct keys is found with the value of its entry. */
  lemma KeyLookup(m: Mapping, q: Piece)
    requires KeysDistinct(m) && q in Keys(m)
    ensures exists i :: 0 <= i < |m| && m[i].piece == q && Lookup(m, q) == Some(m[i].bb)
  {
    KeysIndex(m);
    LookupSpec(m, q);
    var i :| 0 <= i < |Keys(m)| && Keys(m)[i] == q;
    assert m[i].piece == q;
  }

  /** Without bitboards every listed piece is a key and maps to the empty bitboard, and no other piece does. */
  lemma ZeroBoards(pieceList: seq<Piece>)
    ensures var m := FromZip(pieceList, Rep(0, |pieceList|));
      KeysDistinct(m) &&
      (forall q :: q in Keys(m) <==> q in pieceList) &&
      forall q :: q in pieceList ==> Lookup(m, q) == Some(0)
  {
    var zeros := Rep(0, |pieceList|);
    var m := FromZip(pieceList, zeros);
    FromZipSpec(pieceList, zeros);
    FromZipValues(pieceList, zeros);
    assert pieceList[..ZipLen(pieceList, zeros)] == pieceList;
    forall q | q in pieceList ensures Lookup(m, q) == Some(0) {
      KeyLookup(m, q);
    }
  }

  /** The pieces of `standardFull`: the six white kinds, then the six black ones. */
  const StdPieceList: seq<Piece> := [
    Piece(Pawn, White), Piece(Knight, White), Piece(Bishop, White),
    Piece(Rook, White), Piece(Queen, White), Piece(King, White),
    Piece(Pawn, Black), Piece(Knight, Black), Piece(Bishop, Black),
    Piece(Rook, Black), Piece(Queen, Black), Piece(King, Black)]

  /** `[p.standard_full for p in std_piece_list]`. */
  function StdBbs(): (r: seq<int>)
    ensures |r| == |StdPieceList| && forall i :: 0 <= i < |r| ==> r[i] == StandardFull(StdPieceList[i])
  {
    seq(|StdPieceList|, i requires 0 <= i < |StdPieceList| => StandardFull(StdPieceList[i]))
  }

  /** `Board.standardFull()`: the twelve pieces on their start masks. */
  method StandardBoard() returns (b: Board)
    ensures fresh(b) && b.bitboards == FromZip(StdPieceList, StdBbs()) && b.history == [] && b.Valid()
  {
    b := new Board(StdPieceList, Some(StdBbs()));
  }

  /** Where a piece stands in `StdPieceList`: every piece is there. */
  function StdIndex(p: Piece): (k: nat)
    ensures k < |StdPieceList| && StdPieceList[k] == p
  {
    var base := if p.player then 0 else 6;
    match p.kind
    case Pawn => base
    case Knight => base + 1
    case Bishop => base + 2
    case Rook => base + 3
    case Queen => base + 4
    case King => base + 5
  }

  lemma StdPiecesDistinct()
    ensures forall i, j :: 0 <= i < j < |StdPieceList| ==> StdPieceList[i] != StdPieceList[j]
  {}

  /**
   * The standard board has all twelve pieces as keys, in list order, each
   * on its `standard_full` mask, which holds exactly the squares the start
   * position gives it; no square is in two bitboards.
   */
  lemma StandardMappingSpec()
    ensures var m := FromZip(StdPieceList, StdBbs());
      KeysDistinct(m) && Keys(m) == StdPieceList &&
      (forall p :: Lookup(m, p) == Some(StandardFull(p))) &&
      (forall p, i: nat :: Bit(Lookup(m, p).value, i) <==> StartPiece(i) == Some(p)) &&
      Disjoint(m)
  {
    StandardLookup();
    var m := FromZip(StdPieceList, StdBbs());
    forall p, i: nat ensures Bit(Lookup(m, p).value, i) <==> StartPiece(i) == Some(p) {
      StandardFullBit(p, i);
    }
    StandardDisjointMapping();
  }

  lemma StandardLookup()
    ensures var m := FromZip(StdPieceList, StdBbs());
      KeysDistinct(m) && Keys(m) == StdPieceList && forall p :: Lookup(m, p) == Some(StandardFull(p))
  {
    var m := FromZip(StdPieceList, StdBbs());
    StdPiecesDistinct();
    assert ZipLen(StdPieceList, StdBbs()) == 12;
    assert StdPieceList[..12] == StdPieceList;
    FromZipSpec(StdPieceList, StdBbs());
    forall p ensures Lookup(m, p) == Some(StandardFull(p)) {
      var k := StdIndex(p);
      assert Lookup(m, StdPieceList[k]) == Some(StdBbs()[k]);
    }
  }

  lemma StandardDisjointMapping()
    ensures Disjoint(FromZip(StdPieceList, StdBbs()))
  {
    var m := FromZip(StdPieceList, StdBbs());
    StandardLookup();
    KeysIndex(m);
    forall i, j, s: nat | 0 <= i < j < |m| ensures !(Bit(m[i].bb, s) && Bit(m[j].bb, s)) {
      EntryLookup(m, i);
      EntryLookup(m, j);
      StandardDisjoint(m[i].piece, m[j].piece);
      BitAnd(StandardFull(m[i].piece), StandardFull(m[j].piece), s);
      BitZero(s);
    }
  }

  // ----- the moves of the whole board -----

  /** The entries `get_valid_moves` draws from: all of them, or one player's. */
  function PlayerEntries(m: Mapping, player: Option<bool>): Mapping
  {
    if player.None? then m else BoardState.Bbs4Player(m, player.value)
  }

  /** The moves a piece's generator hands out, in order. */
  function StreamMoves(piece: Piece, st: Streams): seq<Move<Piece>>
  {
    Zip(piece, st.srcs, st.dests, st.captures)
  }

  /** The moves one piece's generator hands out, or its failure. */
  function PieceResult(m: Mapping, piece: Piece, prev: Option<Move<Piece>>): Option<seq<Move<Piece>>>
    requires NonNegative(m)
  {
    match ValidMoves(m, piece, prev)
    case None => None
    case Some(st) => Some(StreamMoves(piece, st))
  }

  /** One result after another, as `chain.from_iterable`; `None` once any part fails. */
  function Concat<T>(rs: seq<Option<seq<T>>>): Option<seq<T>>
    decreases |rs|
  {
    if |rs| == 0 then Some([])
    else
      match Concat(rs[..|rs| - 1])
      case None => None
      case Some(xs) =>
        match rs[|rs| - 1]
        case None => None
        case Some(ys) => Some(xs + ys)
  }

  /** The chain exists exactly when every part does. */
  lemma {:induction false} ConcatSome<T>(rs: seq<Option<seq<T>>>)
    ensures Concat(rs).Some? <==> forall k :: 0 <= k < |rs| ==> rs[k].Some?
    decreases |rs|
  {
    if |rs| > 0 {
      var n := |rs| - 1;
      ConcatSome(rs[..n]);
      assert forall k :: 0 <= k < n ==> rs[..n][k] == rs[k];
    }
  }

  /** The chain holds exactly the items of its parts. */
  lemma {:induction false} ConcatMem<T>(rs: seq<Option<seq<T>>>, x: T)
    requires Concat(rs).Some?
    ensures x in Concat(rs).value <==> exists k :: 0 <= k < |rs| && rs[k].Some? && x in rs[k].value
    decreases |rs|
  {
    if |rs| > 0 {
      var n := |rs| - 1;
      var init := rs[..n];
      ConcatMem(init, x);
      assert Concat(rs).value == Concat(init).value + rs[n].value;
      if exists k :: 0 <= k < |rs| && rs[k].Some? && x in rs[k].value {
        var k :| 0 <= k < |rs| && rs[k].Some? && x in rs[k].value;
        if k < n { assert init[k] == rs[k]; }
      }
      if exists k :: 0 <= k < n && init[k].Some? && x in init[k].value {
        var k :| 0 <= k < n && init[k].Some? && x in init[k].value;
        assert init[k] == rs[k];
      }
    }
  }

  /** A failing prefix makes the whole chain fail. */
  lemma ConcatPrefixNone<T>(rs: seq<Option<seq<T>>>, k: nat)
    requires k <= |rs| && Concat(rs[..k]).None?
    ensures Concat(rs).None?
    decreases |rs| - k
  {
    if k < |rs| {
      assert rs[..k + 1][..k] == rs[..k];
      ConcatPrefixNone(rs, k + 1);
    } else {
      assert rs[..k] == rs;
    }
  }

  /** One more part of the chain. */
  lemma ConcatSnoc<T>(rs: seq<Option<seq<T>>>, k: nat)
    requires k < |rs|
    ensures Concat(rs[..k + 1]) ==
      if Concat(rs[..k]).None? || rs[k].None? then None else Some(Concat(rs[..k]).value + rs[k].value)
  {
    assert rs[..k + 1][..k] == rs[..k];
  }

  /** A piece's result is its generator's failure or the moves of its streams. */
  lemma PieceResultIs(m: Mapping, piece: Piece, prev: Option<Move<Piece>>)
    requires NonNegative(m)
    ensures PieceResult(m, piece, prev) ==
      if ValidMoves(m, piece, prev).None? then None else Some(StreamMoves(piece, ValidMoves(m, piece, prev).value))
  {
  }

  /** Every listed piece's generator result, in order. */
  function PieceResults(m: Mapping, pieces: seq<Piece>, prev: Option<Move<Piece>>): (r: seq<Option<seq<Move<Piece>>>>)
    requires NonNegative(m)
    ensures |r| == |pieces| && forall k :: 0 <= k < |pieces| ==> r[k] == PieceResult(m, pieces[k], prev)
  {
    seq(|pieces|, k requires 0 <= k < |pieces| => PieceResult(m, pieces[k], prev))
  }

  /**
   * The moves of `get_valid_moves` for the pieces listed, generator after
   * generator; `None` when some generator fails.
   */
  function BoardMoves(m: Mapping, pieces: seq<Piece>, prev: Option<Move<Piece>>): Option<seq<Move<Piece>>>
    requires NonNegative(m)
  {
    Concat(PieceResults(m, pieces, prev))
  }

  /**
   * The generator expression of `get_valid_moves`, run to the end: one fresh
   * move list per piece, in order; `None` when a generator fails.
   */
  method MoveLists(m: Mapping, pieces: seq<Piece>, prev: Option<Move<Piece>>) returns (r: Option<seq<PieceMoveList<Piece>>>)
    requires NonNegative(m)
    ensures r.None? <==> BoardMoves(m, pieces, prev).None?
    ensures r.Some? ==> forall l :: l in r.value ==> fresh(l)
    ensures r.Some? ==> forall i, j :: 0 <= i < j < |r.value| ==> r.value[i] != r.value[j]
    ensures r.Some? ==> Chained(r.value) == BoardMoves(m, pieces, prev).value
  {
    ghost var rs := PieceResults(m, pieces, prev);
    var lists: seq<PieceMoveList<Piece>> := [];
    for k := 0 to |pieces|
      invariant Concat(rs[..k]) == Some(Chained(lists))
      invariant forall l :: l in lists ==> fresh(l)
      invariant forall i, j :: 0 <= i < j < |lists| ==> lists[i] != lists[j]
    {
      var l := BoardGenerators.GetValidMoves(m, pieces[k], prev);
      PieceResultIs(m, pieces[k], prev);
      ConcatSnoc(rs, k);
      if l.None? {
        ConcatPrefixNone(rs, k + 1);
        return None;
      }
      assert rs[k] == Some(l.value.Pending());
      ChainedSnoc(lists, l.value);
      lists := lists + [l.value];
    }
    assert rs[..|pieces|] == rs;
    r := Some(lists);
  }

  /** The streams hold the move's squares and flag at a common index. */
  predicate StreamsHold(st: Streams, mv: Move<Piece>)
  {
    exists k :: 0 <= k < |st.srcs| && k < |st.dests| && k < |st.captures| &&
      st.srcs[k] == mv.src && st.dests[k] == mv.dest && st.captures[k] == mv.isCapture
  }

  /** A move one of the piece's streams holds at a common index. */
  predicate Generated(m: Mapping, piece: Piece, prev: Option<Move<Piece>>, mv: Move<Piece>)
    requires NonNegative(m)
  {
    mv.piece == piece && ValidMoves(m, piece, prev).Some? && StreamsHold(ValidMoves(m, piece, prev).value, mv)
  }

  /** A piece's stream moves are exactly its moves the streams hold. */
  lemma StreamMovesMem(piece: Piece, st: Streams, mv: Move<Piece>)
    ensures mv in StreamMoves(piece, st) <==> mv.piece == piece && StreamsHold(st, mv)
  {
    ZipSpec(piece, st.srcs, st.dests, st.captures);
    var z := StreamMoves(piece, st);
    if mv in z {
      var k :| 0 <= k < |z| && z[k] == mv;
      assert z[k] == Move(piece, st.srcs[k], st.dests[k], st.captures[k]);
    }
    if mv.piece == piece && StreamsHold(st, mv) {
      var k :| 0 <= k < |st.srcs| && k < |st.dests| && k < |st.captures| &&
        st.srcs[k] == mv.src && st.dests[k] == mv.dest && st.captures[k] == mv.isCapture;
      assert z[k] == mv;
    }
  }

  /** A piece's moves are exactly those its streams generate. */
  lemma PieceResultMem(m: Mapping, piece: Piece, prev: Option<Move<Piece>>, mv: Move<Piece>)
    requires NonNegative(m)
    ensures PieceResult(m, piece, prev).Some? <==> ValidMoves(m, piece, prev).Some?
    ensures PieceResult(m, piece, prev).Some? ==>
      (mv in PieceResult(m, piece, prev).value <==> Generated(m, piece, prev, mv))
  {
    var v := ValidMoves(m, piece, prev);
    if v.Some? {
      assert PieceResult(m, piece, prev) == Some(StreamMoves(piece, v.value));
      StreamMovesMem(piece, v.value, mv);
    }
  }

  /**
   * The board's moves exist exactly when every listed piece's generator
   * succeeds, and then they are exactly the moves some listed piece's
   * streams generate.
   */
  lemma BoardMovesSpec(m: Mapping, pieces: seq<Piece>, prev: Option<Move<Piece>>)
    requires NonNegative(m)
    ensures BoardMoves(m, pieces, prev).Some? <==> forall k :: 0 <= k < |pieces| ==> ValidMoves(m, pieces[k], prev).Some?
    ensures BoardMoves(m, pieces, prev).Some? ==> forall mv ::
      mv in BoardMoves(m, pieces, prev).value <==> exists k :: 0 <= k < |pieces| && Generated(m, pieces[k], prev, mv)
  {
    var rs := PieceResults(m, pieces, prev);
    ConcatSome(rs);
    forall k | 0 <= k < |pieces| {
      PieceResultMem(m, pieces[k], prev, Move(pieces[k], 0, 0, false));
    }
    if BoardMoves(m, pieces, prev).Some? {
      forall mv ensures mv in BoardMoves(m, pieces, prev).value <==>
        exists k :: 0 <= k < |pieces| && Generated(m, pieces[k], prev, mv) {
        ConcatMem(rs, mv);
        forall k | 0 <= k < |pieces| { PieceResultMem(m, pieces[k], prev, mv); }
      }
    }
  }

  /** Drawing from one player's entries yields only that player's moves. */
  lemma PlayerMovesOwn(m: Mapping, player: bool, prev: Option<Move<Piece>>, mv: Move<Piece>)
    requires NonNegative(m)
    requires BoardMoves(m, Keys(PlayerEntries(m, Some(player))), prev).Some?
    requires mv in BoardMoves(m, Keys(PlayerEntries(m, Some(player))), prev).value
    ensures mv.piece.player == player
  {
    var es := PlayerEntries(m, Some(player));
    BoardMovesSpec(m, Keys(es), prev);
    PlayerPartition(m, player);
    KeysIndex(es);
    var k :| 0 <= k < |Keys(es)| && Generated(m, Keys(es)[k], prev, mv);
    assert es[k] in es;
  }

  lemma ChainedSnoc<P>(lists: seq<PieceMoveList<P>>, l: PieceMoveList<P>)
    ensures Chained(lists + [l]) == Chained(lists) + l.Pending()
    decreases |lists|
  {
    if |lists| > 0 {
      assert (lists + [l])[1..] == lists[1..] + [l];
      ChainedSnoc(lists[1..], l);
    }
  }
}
