// The piece values of movegen/src/pieces.rs: piece types and their u8
// codes, pieces (type and colour) and their 4-bit encoding, the fixed index
// order of the twelve standard pieces, and the start-position bitboards.
// A u8 is a `bv8`.
module MovegenPiece {
  import opened Bits
  import opened BoardUtils
  import BoardPiece

  const White: bool := true
  const Black: bool := false

  /** `PieceType`, with its `repr(u8)` discriminants 0 .. 6 in declaration order. */
  datatype PieceType = Invalid | Pawn | Knight | Bishop | Rook | Queen | King

  /** `PieceType::value`: the discriminant. */
  function Value(t: PieceType): (r: bv8)
    ensures r <= 6
    ensures r == 0 <==> t == Invalid
  {
    match t
    case Invalid => 0
    case Pawn => 1
    case Knight => 2
    case Bishop => 3
    case Rook => 4
    case Queen => 5
    case King => 6
  }

  /** `PieceType::from_value`: codes 1 .. 6 name the real types, every other byte `Invalid`. */
  function FromValue(v: bv8): (r: PieceType)
    ensures r == Invalid <==> !(1 <= v <= 6)
    ensures 1 <= v <= 6 ==> Value(r) == v
  {
    match v
    case 1 => Pawn
    case 2 => Knight
    case 3 => Bishop
    case 4 => Rook
    case 5 => Queen
    case 6 => King
    case _ => Invalid
  }

  /** Decoding a type's own code gives the type back. */
  lemma ValueRoundTrip(t: PieceType)
    ensures FromValue(Value(t)) == t
  {
  }

  /** `PROMO_TARGETS`: the types a pawn may promote to. */
  const PromoTargets: seq<PieceType> := [Knight, Bishop, Rook, Queen]

  const PieceTypeBits: bv8 := 3
  const PieceTypeMask: bv8 := 0x07

  /** `Piece`: a type and a player, true for white. */
  datatype Piece = Piece(pieceType: PieceType, player: bool)

  /** `Piece::from_bits`: the low three bits are the type, anything above them makes the piece white. */
  function FromBits(b: bv8): (r: Piece)
    ensures r.player <==> b >= 8
    ensures (1 <= b & 7 <= 6) <==> r.pieceType != Invalid
  {
    Piece(FromValue(b & PieceTypeMask), b > PieceTypeMask)
  }

  /** `Piece::to_bits`: bit 3 is the player, bits 0 .. 2 the type. */
  function ToBits(p: Piece): (r: bv8)
    ensures r < 16
    ensures r & 7 == Value(p.pieceType)
    ensures r >= 8 <==> p.player
  {
    ((if p.player then 1 else 0) << PieceTypeBits) | Value(p.pieceType)
  }

  /** Every piece survives encoding and decoding. */
  lemma PieceRoundTrip(p: Piece)
    ensures FromBits(ToBits(p)) == p
  {
    ValueRoundTrip(p.pieceType);
  }

  /** Every 4-bit code of a real type survives decoding and encoding. */
  lemma BitsRoundTrip(b: bv8)
    requires b < 16 && 1 <= b & 7 <= 6
    ensures ToBits(FromBits(b)) == b
  {
    var p := FromBits(b);
    assert ToBits(p) & 7 == b & 7;
    assert (ToBits(p) >= 8) == (b >= 8);
    assert ToBits(p) == (ToBits(p) & 8) | (ToBits(p) & 7);
    assert b == (b & 8) | (b & 7);
  }

  /** `Piece::invalid()`: the invalid type, on the white side. */
  function InvalidPiece(): Piece
  {
    Piece(Invalid, White)
  }

  /** `STD_PIECECOUNT`. */
  const StdPieceCount: nat := 12

  /** `get_piece`: indices 0 .. 5 are the white pawn, knight, bishop, rook, queen and king, 6 .. 11 the black ones. */
  function GetPiece(i: nat): (r: Piece)
    ensures i < StdPieceCount ==> r.pieceType != Invalid && (r.player <==> i < 6)
    ensures i >= StdPieceCount ==> r == InvalidPiece()
  {
    match i
    case 0 => Piece(Pawn, White)
    case 1 => Piece(Knight, White)
    case 2 => Piece(Bishop, White)
    case 3 => Piece(Rook, White)
    case 4 => Piece(Queen, White)
    case 5 => Piece(King, White)
    case 6 => Piece(Pawn, Black)
    case 7 => Piece(Knight, Black)
    case 8 => Piece(Bishop, Black)
    case 9 => Piece(Rook, Black)
    case 10 => Piece(Queen, Black)
    case 11 => Piece(King, Black)
    case _ => InvalidPiece()
  }

  /** `get_piece_i`: the index of a standard piece, 12 for any piece of the invalid type. */
  function GetPieceI(p: Piece): (r: nat)
    ensures r <= StdPieceCount
    ensures r == StdPieceCount <==> p.pieceType == Invalid
  {
    match p
    case Piece(Pawn, true) => 0
    case Piece(Knight, true) => 1
    case Piece(Bishop, true) => 2
    case Piece(Rook, true) => 3
    case Piece(Queen, true) => 4
    case Piece(King, true) => 5
    case Piece(Pawn, false) => 6
    case Piece(Knight, false) => 7
    case Piece(Bishop, false) => 8
    case Piece(Rook, false) => 9
    case Piece(Queen, false) => 10
    case Piece(King, false) => 11
    case Piece(Invalid, _) => 12
  }

  /** The index of the piece at an index is that index. */
  lemma GetPieceRoundTrip(i: nat)
    requires i < StdPieceCount
    ensures GetPieceI(GetPiece(i)) == i
  {
  }

  /** Every piece of a real type sits at its own index. */
  lemma GetPieceIRoundTrip(p: Piece)
    requires p.pieceType != Invalid
    ensures GetPiece(GetPieceI(p)) == p
  {
  }

  /** `match_piece_i`: the index of the piece of the given type and player, 12 for the invalid type. */
  function MatchPieceI(t: PieceType, player: bool): (r: nat)
    ensures r < StdPieceCount ==> GetPiece(r) == Piece(t, player)
    ensures r == StdPieceCount <==> t == Invalid
  {
    var r := GetPieceI(Piece(t, player));
    if r < 12 then GetPieceIRoundTrip(Piece(t, player)); r else r
  }

  // ----- the Python generator's pieces -----

  /** The kind a real type names in the Python generator's piece model. */
  function Kind(t: PieceType): BoardPiece.Kind
    requires t != Invalid
  {
    match t
    case Pawn => BoardPiece.Pawn
    case Knight => BoardPiece.Knight
    case Bishop => BoardPiece.Bishop
    case Rook => BoardPiece.Rook
    case Queen => BoardPiece.Queen
    case King => BoardPiece.King
  }

  function AsBoardPiece(p: Piece): BoardPiece.Piece
    requires p.pieceType != Invalid
  {
    BoardPiece.Piece(Kind(p.pieceType), p.player)
  }

  /** The twelve indices name the twelve pieces of the Python model, each once. */
  lemma GetPieceOnto(q: BoardPiece.Piece)
    ensures exists i: nat :: i < StdPieceCount && AsBoardPiece(GetPiece(i)) == q
  {
    var t := match q.kind
      case Pawn => Pawn case Knight => Knight case Bishop => Bishop
      case Rook => Rook case Queen => Queen case King => King;
    var i := GetPieceI(Piece(t, q.player));
    GetPieceIRoundTrip(Piece(t, q.player));
    assert AsBoardPiece(GetPiece(i)) == q;
  }

  // ----- the start position -----

  /**
   * `STD_BITBOARDS` as the source writes it: the white-pawn entry is the
   * literal 0, and `STD_PAWNS_WHITE` (0xff_00) is declared but never used.
   */
  const StdBitboardsAsWritten: seq<int> := [
    0, 0x42, 0x24, 0x81, 0x08, 0x10,
    0x00_ff_00_00_00_00_00_00, 0x42_00_00_00_00_00_00_00, 0x24_00_00_00_00_00_00_00,
    0x81_00_00_00_00_00_00_00, 0x08_00_00_00_00_00_00_00, 0x10_00_00_00_00_00_00_00]

  /** The start position the table evidently means: white pawns on the second rank. */
  const StdBitboards: seq<int> := [
    0xff_00, 0x42, 0x24, 0x81, 0x08, 0x10,
    0x00_ff_00_00_00_00_00_00, 0x42_00_00_00_00_00_00_00, 0x24_00_00_00_00_00_00_00,
    0x81_00_00_00_00_00_00_00, 0x08_00_00_00_00_00_00_00, 0x10_00_00_00_00_00_00_00]

  /**
   * As written, the table gives the white pawns no square: a2 (square 8)
   * holds a white pawn at the start, yet no bitboard of the table has it,
   * while the table differs from the corrected one in that entry only.
   */
  lemma WhitePawnsMissing()
    ensures BoardPiece.StartPiece(8) == Some(BoardPiece.Piece(BoardPiece.Pawn, White))
    ensures forall k :: 0 <= k < |StdBitboardsAsWritten| ==> !Bit(StdBitboardsAsWritten[k], 8)
    ensures |StdBitboardsAsWritten| == |StdBitboards| == StdPieceCount
    ensures forall k :: 1 <= k < StdPieceCount ==> StdBitboardsAsWritten[k] == StdBitboards[k]
    ensures StdBitboardsAsWritten[0] == 0 != StdBitboards[0]
  {
    forall k | 0 <= k < |StdBitboardsAsWritten| ensures !Bit(StdBitboardsAsWritten[k], 8) {
      if k == 0 {
        BitZero(8);
      } else {
        assert StdBitboardsAsWritten[k] == StdBitboards[k];
        StdEntry(k);
        BoardPiece.StandardFullBit(AsBoardPiece(GetPiece(k)), 8);
      }
    }
  }

  /**
   * Entry i of the table as written holds exactly the start squares of its
   * piece, except entry 0 (the white pawns), which holds none.
   */
  lemma StdBitboardsAsWrittenStart(i: nat, sq: nat)
    requires i < StdPieceCount
    ensures IsBoard(StdBitboardsAsWritten[i])
    ensures Bit(StdBitboardsAsWritten[i], sq) <==> i != 0 && BoardPiece.StartPiece(sq) == Some(AsBoardPiece(GetPiece(i)))
  {
    if i == 0 {
      BitZero(sq);
    } else {
      assert StdBitboardsAsWritten[i] == StdBitboards[i];
      StdBitboardsStart(i, sq);
    }
  }

  /** Every entry of the table as written, at every square. */
  lemma StdBitboardsAsWrittenAll()
    ensures |StdBitboardsAsWritten| == StdPieceCount
    ensures forall k: nat :: k < StdPieceCount ==> IsBoard(StdBitboardsAsWritten[k])
    ensures forall k: nat, sq: nat :: k < StdPieceCount ==>
      (Bit(StdBitboardsAsWritten[k], sq) <==> k != 0 && BoardPiece.StartPiece(sq) == Some(AsBoardPiece(GetPiece(k))))
  {
    forall k: nat | k < StdPieceCount ensures IsBoard(StdBitboardsAsWritten[k]) {
      StdBitboardsAsWrittenStart(k, 0);
    }
    forall k: nat, sq: nat | k < StdPieceCount
      ensures Bit(StdBitboardsAsWritten[k], sq) <==> k != 0 && BoardPiece.StartPiece(sq) == Some(AsBoardPiece(GetPiece(k)))
    {
      StdBitboardsAsWrittenStart(k, sq);
    }
  }

  /** Every corrected entry, at every square. */
  lemma StdBitboardsAll()
    ensures |StdBitboards| == StdPieceCount
    ensures forall k: nat :: k < StdPieceCount ==> IsBoard(StdBitboards[k])
    ensures forall k: nat, sq: nat :: k < StdPieceCount ==>
      (Bit(StdBitboards[k], sq) <==> BoardPiece.StartPiece(sq) == Some(AsBoardPiece(GetPiece(k))))
  {
    forall k: nat | k < StdPieceCount ensures IsBoard(StdBitboards[k]) {
      StdBitboardsStart(k, 0);
    }
    forall k: nat, sq: nat | k < StdPieceCount
      ensures Bit(StdBitboards[k], sq) <==> BoardPiece.StartPiece(sq) == Some(AsBoardPiece(GetPiece(k)))
    {
      StdBitboardsStart(k, sq);
    }
  }

  /** Each corrected entry is the Python model's start mask of the piece at that index. */
  lemma StdEntry(i: nat)
    requires i < StdPieceCount
    ensures StdBitboards[i] == BoardPiece.StandardFull(AsBoardPiece(GetPiece(i)))
  {
    if i < 6 { StdEntryWhite(i); } else { StdEntryBlack(i); }
  }

  /** The white half of the table. */
  lemma StdEntryWhite(i: nat)
    requires i < 6
    ensures StdBitboards[i] == BoardPiece.StandardFull(AsBoardPiece(GetPiece(i)))
  {
    match i
    case 0 => {
      assert StdBitboards[i] == BoardPiece.StandardFull(AsBoardPiece(GetPiece(i))) by {
        assert AsBoardPiece(GetPiece(i)) == BoardPiece.Piece(BoardPiece.Pawn, White);
        UInt64Identity(0xff_00);
      }
    }
    case 1 => {
      assert StdBitboards[i] == BoardPiece.StandardFull(AsBoardPiece(GetPiece(i))) by {
        assert AsBoardPiece(GetPiece(i)) == BoardPiece.Piece(BoardPiece.Knight, White);
        UInt64Identity(0x42);
      }
    }
    case 2 => {
      assert StdBitboards[i] == BoardPiece.StandardFull(AsBoardPiece(GetPiece(i))) by {
        assert AsBoardPiece(GetPiece(i)) == BoardPiece.Piece(BoardPiece.Bishop, White);
        UInt64Identity(0x24);
      }
    }
    case 3 => {
      assert StdBitboards[i] == BoardPiece.StandardFull(AsBoardPiece(GetPiece(i))) by {
        assert AsBoardPiece(GetPiece(i)) == BoardPiece.Piece(BoardPiece.Rook, White);
        UInt64Identity(0x81);
      }
    }
    case 4 => {
      assert StdBitboards[i] == BoardPiece.StandardFull(AsBoardPiece(GetPiece(i))) by {
        assert AsBoardPiece(GetPiece(i)) == BoardPiece.Piece(BoardPiece.Queen, White);
        UInt64Identity(0x08);
      }
    }
    case 5 => {
      assert StdBitboards[i] == BoardPiece.StandardFull(AsBoardPiece(GetPiece(i))) by {
        assert AsBoardPiece(GetPiece(i)) == BoardPiece.Piece(BoardPiece.King, White);
        UInt64Identity(0x10);
      }
    }
  }

  /** The black half of the table. */
  lemma StdEntryBlack(i: nat)
    requires 6 <= i < StdPieceCount
    ensures StdBitboards[i] == BoardPiece.StandardFull(AsBoardPiece(GetPiece(i)))
  {
    if i == 6 {
      assert AsBoardPiece(GetPiece(i)) == BoardPiece.Piece(BoardPiece.Pawn, Black);
      UInt64Identity(0x00_ff_00_00_00_00_00_00);
    } else if i == 7 {
      assert AsBoardPiece(GetPiece(i)) == BoardPiece.Piece(BoardPiece.Knight, Black);
      UInt64Identity(0x42_00_00_00_00_00_00_00);
    } else if i == 8 {
      assert AsBoardPiece(GetPiece(i)) == BoardPiece.Piece(BoardPiece.Bishop, Black);
      UInt64Identity(0x24_00_00_00_00_00_00_00);
    } else if i == 9 {
      assert AsBoardPiece(GetPiece(i)) == BoardPiece.Piece(BoardPiece.Rook, Black);
      UInt64Identity(0x81_00_00_00_00_00_00_00);
    } else if i == 10 {
      assert AsBoardPiece(GetPiece(i)) == BoardPiece.Piece(BoardPiece.Queen, Black);
      UInt64Identity(0x08_00_00_00_00_00_00_00);
    } else {
      assert AsBoardPiece(GetPiece(i)) == BoardPiece.Piece(BoardPiece.King, Black);
      UInt64Identity(0x10_00_00_00_00_00_00_00);
    }
  }

  /**
   * The corrected table sets, in entry i, exactly the squares the standard
   * start position gives the piece with index i.
   */
  lemma StdBitboardsStart(i: nat, sq: nat)
    requires i < StdPieceCount
    ensures IsBoard(StdBitboards[i])
    ensures Bit(StdBitboards[i], sq) <==> BoardPiece.StartPiece(sq) == Some(AsBoardPiece(GetPiece(i)))
  {
    StdEntry(i);
    BoardPiece.StandardFullBit(AsBoardPiece(GetPiece(i)), sq);
  }

  /** The twelve entries are pairwise disjoint. */
  lemma StdBitboardsDisjoint(i: nat, j: nat)
    requires i < StdPieceCount && j < StdPieceCount && i != j
    ensures And(StdBitboards[i], StdBitboards[j]) == 0
  {
    StdEntry(i);
    StdEntry(j);
    GetPieceRoundTrip(i);
    GetPieceRoundTrip(j);
    assert AsBoardPiece(GetPiece(i)) != AsBoardPiece(GetPiece(j));
    BoardPiece.StandardDisjoint(AsBoardPiece(GetPiece(i)), AsBoardPiece(GetPiece(j)));
  }

  /** The as-written entries are pairwise disjoint too: a zero entry meets nothing. */
  lemma StdBitboardsAsWrittenDisjoint(i: nat, j: nat)
    requires i < StdPieceCount && j < StdPieceCount && i != j
    ensures And(StdBitboardsAsWritten[i], StdBitboardsAsWritten[j]) == 0
  {
    if i == 0 || j == 0 {
      var a, b := StdBitboardsAsWritten[i], StdBitboardsAsWritten[j];
      assert a == 0 || b == 0;
      forall k: nat ensures !Bit(And(a, b), k) {
        BitAnd(a, b, k);
        BitZero(k);
      }
      NoBitsZero(And(a, b));
    } else {
      assert StdBitboardsAsWritten[i] == StdBitboards[i] && StdBitboardsAsWritten[j] == StdBitboards[j];
      StdBitboardsDisjoint(i, j);
    }
  }
}
