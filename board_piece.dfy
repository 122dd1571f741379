// The pieces of board/pieces.py as values. Each Python piece class is a
// singleton per colour, so a piece is identified by its kind and its player
// (True = white, which moves towards higher squares).
module BoardPiece {
  import opened Bits
  import opened BoardUtils

  datatype Kind = Pawn | Knight | Bishop | Rook | Queen | King

  datatype Piece = Piece(kind: Kind, player: bool)

  const White: bool := true
  const Black: bool := false

  /** The `abbr` property: '' for a pawn, a lower-case letter otherwise. */
  function Abbr(kind: Kind): string
  {
    match kind
    case Pawn => ""
    case Knight => "n"
    case Bishop => "b"
    case Rook => "r"
    case Queen => "q"
    case King => "k"
  }

  /** The `key` property: `(abbr, player)`. */
  function Key(p: Piece): (string, bool)
  {
    (Abbr(p.kind), p.player)
  }

  /** Different pieces have different keys. */
  lemma KeyInjective(p: Piece, q: Piece)
    ensures Key(p) == Key(q) <==> p == q
  {
    if Key(p) == Key(q) {
      assert Abbr(p.kind) == Abbr(q.kind);
      assert |Abbr(p.kind)| == |Abbr(q.kind)|;
      if p.kind != Pawn { assert Abbr(p.kind)[0] == Abbr(q.kind)[0]; }
    }
  }

  /** The `standard_full` property: the squares the piece starts on. */
  function StandardFull(p: Piece): (r: int)
    ensures IsBoard(r)
  {
    match p.kind
    case Pawn => if p.player then UInt64(0xff_00) else UInt64(0x00_ff_00_00_00_00_00_00)
    case Knight => if p.player then UInt64(0x42) else UInt64(0x42_00_00_00_00_00_00_00)
    case Bishop => if p.player then UInt64(0x24) else UInt64(0x24_00_00_00_00_00_00_00)
    case Rook => if p.player then UInt64(0x81) else UInt64(0x81_00_00_00_00_00_00_00)
    case Queen => if p.player then UInt64(0x08) else UInt64(0x08_00_00_00_00_00_00_00)
    case King => if p.player then UInt64(0x10) else UInt64(0x10_00_00_00_00_00_00_00)
  }

  // ----- the reference start position -----

  /** The kind on file f (0 = a) of a back rank. */
  function BackRank(f: nat): Kind
    requires f < 8
  {
    if f == 0 || f == 7 then Rook
    else if f == 1 || f == 6 then Knight
    else if f == 2 || f == 5 then Bishop
    else if f == 3 then Queen
    else King
  }

  /** The piece on square i in the standard start position. */
  function StartPiece(i: nat): Option<Piece>
  {
    if i < 8 then Some(Piece(BackRank(i), White))
    else if i < 16 then Some(Piece(Pawn, White))
    else if 48 <= i < 56 then Some(Piece(Pawn, Black))
    else if 56 <= i < 64 then Some(Piece(BackRank(i - 56), Black))
    else None
  }

  /** The rank byte of a kind's start squares and the rank it sits on. */
  function KindByte(kind: Kind): int
  {
    match kind
    case Pawn => 0xff
    case Knight => 0x42
    case Bishop => 0x24
    case Rook => 0x81
    case Queen => 0x08
    case King => 0x10
  }

  function HomeRank(p: Piece): nat
  {
    if p.kind == Pawn then (if p.player then 1 else 6) else (if p.player then 0 else 7)
  }

  lemma KindByteBit(kind: Kind, f: nat)
    requires f < 8
    ensures IsByte(KindByte(kind))
    ensures Bit(KindByte(kind), f) <==> kind == Pawn || BackRank(f) == kind
  {
    var b := KindByte(kind);
    if f == 0 { assert Bit(b, 0) == (b % 2 == 1); }
    else if f == 1 { assert Bit(b, 1) == ((b / 2) % 2 == 1); }
    else if f == 2 { assert Bit(b, 2) == ((b / 4) % 2 == 1); }
    else if f == 3 { assert Bit(b, 3) == ((b / 8) % 2 == 1); }
    else if f == 4 { assert Bit(b, 4) == ((b / 16) % 2 == 1); }
    else if f == 5 { assert Bit(b, 5) == ((b / 32) % 2 == 1); }
    else if f == 6 { assert Bit(b, 6) == ((b / 64) % 2 == 1); }
    else { assert Bit(b, 7) == ((b / 128) % 2 == 1); }
  }

  lemma Pow2Ranks()
    ensures Pow2(8) == 0x100 && Pow2(48) == 0x1_00_00_00_00_00_00 && Pow2(56) == 0x1_00_00_00_00_00_00_00
  {
    assert Pow2(8) == 0x100;
    Pow2Add(8, 8);
    Pow2Add(16, 16);
    Pow2Add(32, 16);
    Pow2Add(48, 8);
  }

  /** Every start mask is its kind's byte shifted onto its home rank. */
  lemma StandardFullLayer(p: Piece)
    ensures StandardFull(p) == Shl(KindByte(p.kind), 8 * HomeRank(p))
  {
    Pow2Ranks();
    ShlMul(KindByte(p.kind), 8 * HomeRank(p));
    if p.player { assert Pow2(0) == 1; }
  }

  /**
   * `standard_full` sets exactly the squares the standard start position
   * gives the piece.
   */
  lemma StandardFullBit(p: Piece, i: nat)
    ensures Bit(StandardFull(p), i) <==> StartPiece(i) == Some(p)
  {
    StandardFullLayer(p);
    var r := HomeRank(p);
    KindByteBit(p.kind, i % 8);
    RepeatLayer(KindByte(p.kind), r, i);
    StartPieceIs(p, i);
  }

  lemma StartPieceIs(p: Piece, i: nat)
    ensures StartPiece(i) == Some(p) <==>
      8 * HomeRank(p) <= i < 8 * HomeRank(p) + 8 && (p.kind == Pawn || BackRank(i % 8) == p.kind)
  {
    if 56 <= i < 64 { assert i % 8 == i - 56; }
  }

  /** The twelve start masks are pairwise disjoint. */
  lemma StandardDisjoint(p: Piece, q: Piece)
    requires p != q
    ensures And(StandardFull(p), StandardFull(q)) == 0
  {
    forall i: nat ensures !Bit(And(StandardFull(p), StandardFull(q)), i) {
      BitAnd(StandardFull(p), StandardFull(q), i);
      StandardFullBit(p, i);
      StandardFullBit(q, i);
    }
    NoBitsZero(And(StandardFull(p), StandardFull(q)));
  }
}
