// What `Piece::move_list` generates, square by square: for each of the
// streams the pawn arm zips, which pawns it moves and where; for the walking
// pieces, that a move is exactly a pattern or ray square that is empty (a
// quiet move) or the opponent's (a capture); and that with the reference
// tables the patterns are the knight jumps and king steps and the magic
// attacks are the rays up to the first blocker.

module MovegenPiecesProps {
  import opened Bits
  import BoardUtils
  import opened BoardRays
  import BoardPieces
  import BoardGenerators
  import BoardLeapers
  import BoardPiece
  import opened MovegenDirection
  import opened MovegenUtils
  import opened MovegenPiece
  import opened MovegenMoves
  import opened MovegenPieces

  // ----- square lists -----

  predicate Increasing(s: seq<int>)
  {
    forall i, j :: 0 <= i < j < |s| ==> s[i] < s[j]
  }

  /** The tail of an increasing sequence holds exactly its elements above the head. */
  lemma InTail(a: seq<int>, x: int)
    requires Increasing(a) && |a| > 0
    ensures x in a[1..] <==> (x in a && x > a[0])
  {
    if x in a[1..] {
      var i :| 0 <= i < |a[1..]| && a[1..][i] == x;
      assert a[i + 1] == x;
    }
    if x in a && x > a[0] {
      var i :| 0 <= i < |a| && a[i] == x;
      assert a[1..][i - 1] == x;
    }
  }

  /** An increasing sequence is determined by its elements. */
  lemma {:induction false} IncreasingUnique(a: seq<int>, b: seq<int>)
    requires Increasing(a) && Increasing(b)
    requires forall x :: x in a <==> x in b
    ensures a == b
    decreases |a|
  {
    if |a| > 0 {
      assert a[0] in a;
    }
    if |b| > 0 {
      assert b[0] in b;
    }
    if |a| > 0 && |b| > 0 {
      assert a[0] == b[0] by {
        assert a[0] in b;
        var i :| 0 <= i < |b| && b[i] == a[0];
        assert b[0] in a;
        var j :| 0 <= j < |a| && a[j] == b[0];
        assert b[0] <= b[i] && a[0] <= a[j];
      }
      forall x ensures x in a[1..] <==> x in b[1..] {
        InTail(a, x);
        InTail(b, x);
      }
      IncreasingUnique(a[1..], b[1..]);
    }
  }

  /** Every element of s moved by d. */
  function Shift(s: seq<nat>, d: int): (r: seq<int>)
    ensures |r| == |s| && forall k :: 0 <= k < |s| ==> r[k] == s[k] + d
  {
    seq(|s|, k requires 0 <= k < |s| => s[k] + d)
  }

  /** A square is listed by `BitPositions` exactly when its bit is set. */
  lemma SqMem(bb: int, x: int)
    requires IsBoard(bb)
    ensures x in Sq(bb) <==> (0 <= x && Bit(bb, x))
    ensures Increasing(Sq(bb))
  {
    PositionsSpec(bb, 0);
  }

  /**
   * When the bits of dst are those of src moved by d, the squares of dst are
   * those of src moved by d, position by position.
   */
  lemma SqShift(src: int, dst: int, d: int)
    requires IsBoard(src) && IsBoard(dst)
    requires forall x: nat :: Bit(src, x) ==> x + d >= 0
    requires forall y: nat :: Bit(dst, y) <==> (y - d >= 0 && Bit(src, y - d))
    ensures |Sq(dst)| == |Sq(src)|
    ensures forall k :: 0 <= k < |Sq(src)| ==> Sq(dst)[k] == Sq(src)[k] + d
  {
    var a, b := Sq(src), Sq(dst);
    var s := Shift(a, d);
    SqMem(src, 0);
    SqMem(dst, 0);
    forall x ensures x in b <==> x in s {
      SqMem(dst, x);
      if x in b {
        SqMem(src, x - d);
        var i :| 0 <= i < |a| && a[i] == x - d;
        assert s[i] == x;
      }
      if x in s {
        var i :| 0 <= i < |s| && s[i] == x;
        SqMem(src, a[i]);
      }
    }
    IncreasingUnique(b, s);
  }

  /**
   * A slide under which every square of src lands moves the list of squares:
   * the k-th destination is the k-th source plus the slide's offset.
   */
  lemma SlideSq(src: int, steps: int, dir: Dir)
    requires IsBoard(src) && SlideDefined(steps, dir)
    requires forall x: nat :: Bit(src, x) ==> Lands(x, steps, dir, x + steps * StepSize(dir))
    ensures |Sq(SlideBoard(src, steps, dir))| == |Sq(src)|
    ensures forall k :: 0 <= k < |Sq(src)| ==>
      Sq(SlideBoard(src, steps, dir))[k] == Sq(src)[k] + steps * StepSize(dir)
  {
    var d := steps * StepSize(dir);
    var dst := SlideBoard(src, steps, dir);
    forall y: nat ensures Bit(dst, y) <==> (y - d >= 0 && Bit(src, y - d)) {
      SlideBit(src, steps, dir, y);
    }
    SqShift(src, dst, d);
  }

  /** A zip of two streams of equal length holds exactly the moves of the pairs at the same position. */
  lemma ZipMem(piece: Piece, meta: MoveMeta, a: seq<Square>, b: seq<Square>, m: Move)
    requires |a| == |b|
    ensures m in ZipMoves(piece, meta, a, b) <==> exists k :: 0 <= k < |a| && m == NewMove(piece, meta, a[k], b[k])
  {
    ZipMovesSpec(piece, meta, a, b);
    var z := ZipMoves(piece, meta, a, b);
    if exists k :: 0 <= k < |a| && m == NewMove(piece, meta, a[k], b[k]) {
      var k :| 0 <= k < |a| && m == NewMove(piece, meta, a[k], b[k]);
      assert z[k] == m;
    }
  }

  /** The moves of a zip of src with dst, whose squares are those of src moved by d: one per square of src. */
  lemma ZipShiftMem(piece: Piece, meta: MoveMeta, src: int, dst: int, d: int, m: Move)
    requires IsBoard(src) && IsBoard(dst)
    requires |Sq(dst)| == |Sq(src)|
    requires forall k :: 0 <= k < |Sq(src)| ==> Sq(dst)[k] == Sq(src)[k] + d
    ensures m in Zip(piece, meta, src, dst) ==>
      exists x: nat :: x < 64 && 0 <= x + d < 64 && Bit(src, x) && m == NewMove(piece, meta, x, x + d)
    ensures (exists x: nat :: x < 64 && 0 <= x + d < 64 && Bit(src, x) && m == NewMove(piece, meta, x, x + d)) ==>
      m in Zip(piece, meta, src, dst)
  {
    if m in Zip(piece, meta, src, dst) {
      var x := ZipShiftSound(piece, meta, src, dst, d, m);
    }
    if exists x: nat :: x < 64 && 0 <= x + d < 64 && Bit(src, x) && m == NewMove(piece, meta, x, x + d) {
      var x: nat :| x < 64 && 0 <= x + d < 64 && Bit(src, x) && m == NewMove(piece, meta, x, x + d);
      ZipShiftComplete(piece, meta, src, dst, d, x);
      assert m in Zip(piece, meta, src, dst);
    }
  }

  lemma ZipShiftSound(piece: Piece, meta: MoveMeta, src: int, dst: int, d: int, m: Move) returns (x: nat)
    requires IsBoard(src) && IsBoard(dst)
    requires |Sq(dst)| == |Sq(src)|
    requires forall k :: 0 <= k < |Sq(src)| ==> Sq(dst)[k] == Sq(src)[k] + d
    requires m in Zip(piece, meta, src, dst)
    ensures x < 64 && 0 <= x + d < 64 && Bit(src, x) && m == NewMove(piece, meta, x, x + d)
  {
    var a, b := Sq(src), Sq(dst);
    ZipMem(piece, meta, a, b, m);
    var k :| 0 <= k < |a| && m == NewMove(piece, meta, a[k], b[k]);
    x := a[k];
    SqMem(src, x);
    assert b[k] == x + d && b[k] < 64;
  }

  lemma ZipShiftComplete(piece: Piece, meta: MoveMeta, src: int, dst: int, d: int, x: nat)
    requires IsBoard(src) && IsBoard(dst)
    requires |Sq(dst)| == |Sq(src)|
    requires forall k :: 0 <= k < |Sq(src)| ==> Sq(dst)[k] == Sq(src)[k] + d
    requires x < 64 && 0 <= x + d < 64 && Bit(src, x)
    ensures NewMove(piece, meta, x, x + d) in Zip(piece, meta, src, dst)
  {
    var a, b := Sq(src), Sq(dst);
    SqMem(src, x);
    var k :| 0 <= k < |a| && a[k] == x;
    assert b[k] == x + d;
    ZipMem(piece, meta, a, b, NewMove(piece, meta, a[k], b[k]));
  }

  /** The moves of a zip of a fixed square with the squares of bb: one per square of bb. */
  lemma ZipRepeatSrcMem(piece: Piece, meta: MoveMeta, src: Square, bb: int, m: Move)
    requires IsBoard(bb)
    ensures m in ZipMoves(piece, meta, Repeat(src, |Sq(bb)|), Sq(bb)) <==>
      exists j: nat :: j < 64 && Bit(bb, j) && m == NewMove(piece, meta, src, j)
  {
    var b := Sq(bb);
    var a := Repeat(src, |b|);
    ZipMem(piece, meta, a, b, m);
    if exists k :: 0 <= k < |a| && m == NewMove(piece, meta, a[k], b[k]) {
      var k :| 0 <= k < |a| && m == NewMove(piece, meta, a[k], b[k]);
      SqMem(bb, b[k]);
      assert b[k] < 64 && Bit(bb, b[k]) && m == NewMove(piece, meta, src, b[k]);
    }
    if exists j: nat :: j < 64 && Bit(bb, j) && m == NewMove(piece, meta, src, j) {
      var j: nat :| j < 64 && Bit(bb, j) && m == NewMove(piece, meta, src, j);
      SqMem(bb, j);
      var k :| 0 <= k < |b| && b[k] == j;
      assert m == NewMove(piece, meta, a[k], b[k]);
    }
  }

  /** The moves of a zip of the squares of bb with a fixed square: one per square of bb. */
  lemma ZipRepeatDestMem(piece: Piece, meta: MoveMeta, bb: int, dest: Square, m: Move)
    requires IsBoard(bb)
    ensures m in ZipMoves(piece, meta, Sq(bb), Repeat(dest, |Sq(bb)|)) <==>
      exists x: nat :: x < 64 && Bit(bb, x) && m == NewMove(piece, meta, x, dest)
  {
    var a := Sq(bb);
    var b := Repeat(dest, |a|);
    ZipMem(piece, meta, a, b, m);
    if exists k :: 0 <= k < |a| && m == NewMove(piece, meta, a[k], b[k]) {
      var k :| 0 <= k < |a| && m == NewMove(piece, meta, a[k], b[k]);
      SqMem(bb, a[k]);
      assert a[k] < 64 && Bit(bb, a[k]) && m == NewMove(piece, meta, a[k], dest);
    }
    if exists x: nat :: x < 64 && Bit(bb, x) && m == NewMove(piece, meta, x, dest) {
      var x: nat :| x < 64 && Bit(bb, x) && m == NewMove(piece, meta, x, dest);
      SqMem(bb, x);
      var k :| 0 <= k < |a| && a[k] == x;
      assert m == NewMove(piece, meta, a[k], b[k]);
    }
  }

  // ----- pawns: the stepping streams -----

  /** The rank (0-based) from which a pawn of the player promotes when it steps forward. */
  function PromoRank(player: bool): nat
  {
    if player then 6 else 1
  }

  /**
   * A pawn of pm on x that steps along dir onto a square of targets: promo
   * says whether x is on the rank from which the step promotes.
   */
  ghost predicate PawnStep(player: bool, pm: int, targets: int, dir: Dir, promo: bool, x: nat)
  {
    Bit(pm, x) && (RankOf(x) == PromoRank(player)) == promo &&
    Lands(x, 1, dir, x + StepSize(dir)) && Bit(targets, x + StepSize(dir))
  }

  /** `rank7` holds the promotion rank's squares, and its complement in 64 bits all the others. */
  lemma RankKeep(player: bool, x: nat)
    ensures Bit(Rank7(player), x) <==> (x < 64 && RankOf(x) == PromoRank(player))
    ensures Bit(BoardUtils.UInt64(Not(Rank7(player))), x) <==> (x < 64 && RankOf(x) != PromoRank(player))
  {
    RankBBBit(6, x);
    RankBBBit(1, x);
    BoardUtils.UInt64Bit(Not(Rank7(player)), x);
    BitNot(Rank7(player), x);
  }

  /** The rank filter of a stepping stream: `rank7` for the promoting streams, its complement for the others. */
  function Keep(player: bool, promo: bool): int
  {
    if promo then Rank7(player) else BoardUtils.UInt64(Not(Rank7(player)))
  }

  /** Square x is one step along back from x - back's step exactly when that square is one step forward from x. */
  lemma LandsFlip(x: nat, back: Dir)
    ensures Lands(x - StepSize(back), 1, back, x) <==> Lands(x, 1, Opp(back), x + StepSize(Opp(back)))
  {
    var j := x - StepSize(back);
    if Lands(j, 1, back, x) {
      LandsBack(j, 1, back, x);
    }
    if Lands(x, 1, Opp(back), x + StepSize(Opp(back))) {
      LandsBack(x, 1, Opp(back), x + StepSize(Opp(back)));
      assert Opp(Opp(back)) == back;
    }
  }

  /** A stepping stream holds the pawns whose step forward along the opposite of back reaches a target. */
  lemma SteppingBit(player: bool, targets: int, back: Dir, pm: int, promo: bool, x: nat)
    requires IsBoard(targets) && IsBoard(pm)
    ensures Bit(Stepping(targets, back, pm, Keep(player, promo)), x) <==>
      PawnStep(player, pm, targets, Opp(back), promo, x)
  {
    var keep := Keep(player, promo);
    var sl := Slide(targets, 1, back);
    var dir := Opp(back);
    assert Bit(Stepping(targets, back, pm, keep), x) <==> (Bit(sl, x) && Bit(pm, x) && Bit(keep, x)) by {
      assert Stepping(targets, back, pm, keep) == And(And(sl, pm), keep);
      BitAnd(And(sl, pm), keep, x);
      BitAnd(sl, pm, x);
    }
    SlideBackBit(targets, back, x);
    assert Bit(keep, x) <==> (x < 64 && (RankOf(x) == PromoRank(player)) == promo) by {
      RankKeep(player, x);
    }
  }

  /** A square is set in the slide of targets one step along back when the square one step forward from it is a target. */
  lemma SlideBackBit(targets: int, back: Dir, x: nat)
    requires IsBoard(targets)
    ensures Bit(Slide(targets, 1, back), x) <==>
      (Lands(x, 1, Opp(back), x + StepSize(Opp(back))) && Bit(targets, x + StepSize(Opp(back))))
  {
    SlideBitOne(targets, back, x);
    LandsFlip(x, back);
  }

  /** SlideBit for one step. */
  lemma SlideBitOne(targets: int, back: Dir, x: nat)
    requires IsBoard(targets)
    ensures Bit(Slide(targets, 1, back), x) <==>
      (Lands(x - StepSize(back), 1, back, x) && Bit(targets, x - StepSize(back)))
  {
    SlideBit(targets, 1, back, x);
  }

  /** m is the move of the pawn on x one step along dir, as PawnStep describes it. */
  ghost predicate PawnStepMove(piece: Piece, meta: MoveMeta, pm: int, targets: int, dir: Dir, promo: bool, x: nat, m: Move)
  {
    PawnStep(piece.player, pm, targets, dir, promo, x) && m == NewMove(piece, meta, x, x + StepSize(dir))
  }

  /** m is the move of some pawn of pm one step along dir onto a square of targets. */
  ghost predicate Steps(piece: Piece, meta: MoveMeta, pm: int, targets: int, dir: Dir, promo: bool, m: Move)
  {
    exists x: nat :: PawnStepMove(piece, meta, pm, targets, dir, promo, x, m)
  }

  /**
   * The zip of a stepping stream with its slide forward: exactly the moves
   * of the stepping pawns to the target square one step ahead.
   */
  lemma StepStream(piece: Piece, meta: MoveMeta, targets: int, back: Dir, pm: int, promo: bool, m: Move)
    requires IsBoard(targets) && IsBoard(pm)
    ensures var src := Stepping(targets, back, pm, Keep(piece.player, promo));
      m in Zip(piece, meta, src, SlideBoard(src, 1, Opp(back))) <==>
      Steps(piece, meta, pm, targets, Opp(back), promo, m)
  {
    var src := Stepping(targets, back, pm, Keep(piece.player, promo));
    var dst := SlideBoard(src, 1, Opp(back));
    if m in Zip(piece, meta, src, dst) {
      var x := StepStreamSound(piece, meta, targets, back, pm, promo, m);
    }
    if Steps(piece, meta, pm, targets, Opp(back), promo, m) {
      StepStreamComplete(piece, meta, targets, back, pm, promo, m);
    }
  }

  /** A stepping stream's squares, moved one step forward, are its slide's squares. */
  lemma StepShift(player: bool, targets: int, back: Dir, pm: int, promo: bool)
    requires IsBoard(targets) && IsBoard(pm)
    ensures var src := Stepping(targets, back, pm, Keep(player, promo));
      var dst := SlideBoard(src, 1, Opp(back));
      |Sq(dst)| == |Sq(src)| && forall k :: 0 <= k < |Sq(src)| ==> Sq(dst)[k] == Sq(src)[k] + StepSize(Opp(back))
  {
    var src := Stepping(targets, back, pm, Keep(player, promo));
    var dir := Opp(back);
    forall x: nat | Bit(src, x) ensures Lands(x, 1, dir, x + 1 * StepSize(dir)) {
      SteppingBit(player, targets, back, pm, promo, x);
    }
    SlideSq(src, 1, dir);
  }

  lemma StepStreamSound(piece: Piece, meta: MoveMeta, targets: int, back: Dir, pm: int, promo: bool, m: Move)
    returns (x: nat)
    requires IsBoard(targets) && IsBoard(pm)
    requires var src := Stepping(targets, back, pm, Keep(piece.player, promo));
      m in Zip(piece, meta, src, SlideBoard(src, 1, Opp(back)))
    ensures PawnStepMove(piece, meta, pm, targets, Opp(back), promo, x, m)
  {
    var src := Stepping(targets, back, pm, Keep(piece.player, promo));
    var d := StepSize(Opp(back));
    StepShift(piece.player, targets, back, pm, promo);
    x := ZipShiftSound(piece, meta, src, SlideBoard(src, 1, Opp(back)), d, m);
    SteppingBit(piece.player, targets, back, pm, promo, x);
  }

  lemma StepStreamComplete(piece: Piece, meta: MoveMeta, targets: int, back: Dir, pm: int, promo: bool, m: Move)
    requires IsBoard(targets) && IsBoard(pm)
    requires Steps(piece, meta, pm, targets, Opp(back), promo, m)
    ensures var src := Stepping(targets, back, pm, Keep(piece.player, promo));
      m in Zip(piece, meta, src, SlideBoard(src, 1, Opp(back)))
  {
    var x: nat :| PawnStepMove(piece, meta, pm, targets, Opp(back), promo, x, m);
    var src := Stepping(targets, back, pm, Keep(piece.player, promo));
    var d := StepSize(Opp(back));
    StepShift(piece.player, targets, back, pm, promo);
    assert Bit(src, x) by {
      SteppingBit(piece.player, targets, back, pm, promo, x);
    }
    ZipShiftComplete(piece, meta, src, SlideBoard(src, 1, Opp(back)), d, x);
  }

  // ----- pawns: the arm's streams -----

  /**
   * The four stepping streams of the pawn arm and their promoting twins:
   * single pushes onto empty squares, and captures of the opponent's pieces
   * one step diagonally ahead to the left and to the right, each split by
   * whether the pawn stands on the rank from which it promotes.
   */
  lemma PawnStreams(piece: Piece, pm: int, empty: int, oppnt: int, prev: Move, t: PieceType, m: Move)
    requires IsBoard(pm) && IsBoard(empty) && IsBoard(oppnt) && EpDefined(piece.player, prev)
    ensures var M, p := PawnMasksOf(piece.player, pm, empty, oppnt, prev), piece.player;
      (m in Zip(piece, Quiet, M.pp1, M.pp1Dest) <==> Steps(piece, Quiet, pm, empty, Ahead(p), false, m)) &&
      (m in Zip(piece, Capture, M.cpL, M.cpLDest) <==> Steps(piece, Capture, pm, oppnt, LeftAhead(p), false, m)) &&
      (m in Zip(piece, Capture, M.cpR, M.cpRDest) <==> Steps(piece, Capture, pm, oppnt, RightAhead(p), false, m)) &&
      (m in Zip(piece, Promotion(false, t), M.ppPromo, M.ppPromoDest) <==>
        Steps(piece, Promotion(false, t), pm, empty, Ahead(p), true, m)) &&
      (m in Zip(piece, Promotion(true, t), M.cpLPromo, M.cpLPromoDest) <==>
        Steps(piece, Promotion(true, t), pm, oppnt, LeftAhead(p), true, m)) &&
      (m in Zip(piece, Promotion(true, t), M.cpRPromo, M.cpRPromoDest) <==>
        Steps(piece, Promotion(true, t), pm, oppnt, RightAhead(p), true, m))
  {
    var p := piece.player;
    assert Opp(Back(p)) == Ahead(p) && Opp(LeftBack(p)) == LeftAhead(p) && Opp(RightBack(p)) == RightAhead(p);
    StepStream(piece, Quiet, empty, Back(p), pm, false, m);
    StepStream(piece, Capture, oppnt, LeftBack(p), pm, false, m);
    StepStream(piece, Capture, oppnt, RightBack(p), pm, false, m);
    StepStream(piece, Promotion(false, t), empty, Back(p), pm, true, m);
    StepStream(piece, Promotion(true, t), oppnt, LeftBack(p), pm, true, m);
    StepStream(piece, Promotion(true, t), oppnt, RightBack(p), pm, true, m);
  }

  // ----- pawns: double pushes -----

  /** The rank (0-based) a double push lands on. */
  function DoubleRankOf(player: bool): nat
  {
    if player then 3 else 4
  }

  /**
   * A pawn of pm on x pushes two squares ahead: both squares are empty and
   * the second lies on the double-push rank.
   */
  ghost predicate DoublePush(player: bool, pm: int, empty: int, x: nat)
  {
    var d := StepSize(Ahead(player));
    Bit(pm, x) && Lands(x, 1, Ahead(player), x + d) && Bit(empty, x + d) &&
    Lands(x + d, 1, Ahead(player), x + 2 * d) && Bit(empty, x + 2 * d) && RankOf(x + 2 * d) == DoubleRankOf(player)
  }

  ghost predicate DoublePushMove(piece: Piece, pm: int, empty: int, x: nat, m: Move)
  {
    DoublePush(piece.player, pm, empty, x) && m == NewMove(piece, Quiet, x, x + 2 * StepSize(Ahead(piece.player)))
  }

  /** m is the double push of some pawn of pm. */
  ghost predicate Doubles(piece: Piece, pm: int, empty: int, m: Move)
  {
    exists x: nat :: DoublePushMove(piece, pm, empty, x, m)
  }

  /** The double-push rank's squares, and the same squares that are empty. */
  lemma DoubleRankBit(player: bool, empty: int, z: nat)
    requires IsBoard(empty)
    ensures Bit(And(DoubleRank(player), empty), z) <==> (Bit(empty, z) && z < 64 && RankOf(z) == DoubleRankOf(player))
  {
    BitAnd(DoubleRank(player), empty, z);
    RankBBBit(3, z);
    RankBBBit(4, z);
  }

  /** `pp2` holds exactly the pawns that can push two squares. */
  lemma DoublePushesBit(player: bool, pm: int, empty: int, x: nat)
    requires IsBoard(pm) && IsBoard(empty)
    ensures Bit(DoublePushes(player, pm, empty), x) <==> DoublePush(player, pm, empty, x)
  {
    RankBoards(player);
    var dir := Ahead(player);
    var d := StepSize(dir);
    assert Opp(Back(player)) == dir;
    AndBoard(DoubleRank(player), empty);
    var a := SlideBoard(And(DoubleRank(player), empty), 1, Back(player));
    AndBoard(a, empty);
    var b := SlideBoard(And(a, empty), 1, Back(player));
    assert Bit(DoublePushes(player, pm, empty), x) <==> (Bit(b, x) && Bit(pm, x)) by {
      BitAnd(b, pm, x);
    }
    assert Bit(b, x) <==> (Lands(x, 1, dir, x + d) && Bit(And(a, empty), x + d)) by {
      SlideBackBit(And(a, empty), Back(player), x);
    }
    if Lands(x, 1, dir, x + d) {
      var y: nat := x + d;
      assert Bit(And(a, empty), y) <==> (Bit(a, y) && Bit(empty, y)) by {
        BitAnd(a, empty, y);
      }
      assert Bit(a, y) <==> (Lands(y, 1, dir, y + d) && Bit(And(DoubleRank(player), empty), y + d)) by {
        SlideBackBit(And(DoubleRank(player), empty), Back(player), y);
      }
      if Lands(y, 1, dir, y + d) {
        DoubleRankBit(player, empty, y + d);
        assert y + d == x + 2 * d;
      }
    }
  }

  /** Every double-pushing pawn lands two squares ahead. */
  lemma DoubleShift(player: bool, pm: int, empty: int)
    requires IsBoard(pm) && IsBoard(empty)
    ensures var src := DoublePushes(player, pm, empty);
      var dst := SlideBoard(src, 2, Ahead(player));
      |Sq(dst)| == |Sq(src)| && forall k :: 0 <= k < |Sq(src)| ==> Sq(dst)[k] == Sq(src)[k] + 2 * StepSize(Ahead(player))
  {
    var src := DoublePushes(player, pm, empty);
    var dir := Ahead(player);
    forall x: nat | Bit(src, x) ensures Lands(x, 2, dir, x + 2 * StepSize(dir)) {
      DoublePushesBit(player, pm, empty, x);
    }
    SlideSq(src, 2, dir);
  }

  /** The zip of `pp2` with its slide two squares ahead: exactly the double pushes. */
  lemma DoubleStream(piece: Piece, pm: int, empty: int, m: Move)
    requires IsBoard(pm) && IsBoard(empty)
    ensures var src := DoublePushes(piece.player, pm, empty);
      m in Zip(piece, Quiet, src, SlideBoard(src, 2, Ahead(piece.player))) <==> Doubles(piece, pm, empty, m)
  {
    var src := DoublePushes(piece.player, pm, empty);
    if m in Zip(piece, Quiet, src, SlideBoard(src, 2, Ahead(piece.player))) {
      var x := DoubleStreamSound(piece, pm, empty, m);
    }
    if Doubles(piece, pm, empty, m) {
      DoubleStreamComplete(piece, pm, empty, m);
    }
  }

  lemma DoubleStreamSound(piece: Piece, pm: int, empty: int, m: Move) returns (x: nat)
    requires IsBoard(pm) && IsBoard(empty)
    requires var src := DoublePushes(piece.player, pm, empty);
      m in Zip(piece, Quiet, src, SlideBoard(src, 2, Ahead(piece.player)))
    ensures DoublePushMove(piece, pm, empty, x, m)
  {
    var src := DoublePushes(piece.player, pm, empty);
    DoubleShift(piece.player, pm, empty);
    x := ZipShiftSound(piece, Quiet, src, SlideBoard(src, 2, Ahead(piece.player)), 2 * StepSize(Ahead(piece.player)), m);
    DoublePushesBit(piece.player, pm, empty, x);
  }

  lemma DoubleStreamComplete(piece: Piece, pm: int, empty: int, m: Move)
    requires IsBoard(pm) && IsBoard(empty)
    requires Doubles(piece, pm, empty, m)
    ensures var src := DoublePushes(piece.player, pm, empty);
      m in Zip(piece, Quiet, src, SlideBoard(src, 2, Ahead(piece.player)))
  {
    var x: nat :| DoublePushMove(piece, pm, empty, x, m);
    var src := DoublePushes(piece.player, pm, empty);
    DoubleShift(piece.player, pm, empty);
    assert Bit(src, x) by {
      DoublePushesBit(piece.player, pm, empty, x);
    }
    ZipShiftComplete(piece, Quiet, src, SlideBoard(src, 2, Ahead(piece.player)), 2 * StepSize(Ahead(piece.player)), x);
  }

  // ----- pawns: en passant -----

  /** The two directions from the previous move's destination to the pawns that capture en passant. */
  function EpLeft(player: bool): Dir { if player then SW else NW }
  function EpRight(player: bool): Dir { if player then SE else NE }

  /** A pawn of pm on x one step diagonally back from d, as the en-passant arm looks for it. */
  ghost predicate EpSource(player: bool, pm: int, d: int, x: nat)
  {
    Bit(pm, x) && (Lands(d, 1, EpLeft(player), x) || Lands(d, 1, EpRight(player), x))
  }

  ghost predicate EpMove(piece: Piece, pm: int, d: int, target: Square, x: nat, m: Move)
  {
    EpSource(piece.player, pm, d, x) && x < 64 && m == NewMove(piece, Enpassant, x, target)
  }

  /** The single square of d, slid one step: the square it lands on, if any. */
  lemma PosSlideBit(d: int, dir: Dir, x: nat)
    requires 0 <= d < 64
    ensures Bit(Slide(PosMask(d), 1, dir), x) <==> Lands(d, 1, dir, x)
  {
    var j := x - StepSize(dir);
    SlideBitOne(PosMask(d), dir, x);
    if j >= 0 {
      PosMaskBit(d, j);
    }
    LandsFromSingle(Bit(Slide(PosMask(d), 1, dir), x), 0 <= j && Bit(PosMask(d), j), d, dir, x);
  }

  /** The step of PosSlideBit past the bit lemmas: landing from the one set square d. */
  lemma LandsFromSingle(landed: bool, fromSet: bool, d: int, dir: Dir, x: nat)
    requires landed <==> Lands(x - StepSize(dir), 1, dir, x) && fromSet
    requires 0 <= x - StepSize(dir) ==> (fromSet <==> x - StepSize(dir) == d)
    ensures landed <==> Lands(d, 1, dir, x)
  {
  }

  /** `cp_enp` holds exactly the pawns one step diagonally back from d. */
  lemma EpSourcesBit(player: bool, pm: int, d: int, x: nat)
    requires IsBoard(pm) && 0 <= d < 64
    ensures Bit(EpSources(player, pm, d), x) <==> EpSource(player, pm, d, x)
  {
    var dm := PosMask(d);
    var l, r := SlideBoard(dm, 1, EpLeft(player)), SlideBoard(dm, 1, EpRight(player));
    assert EpSources(player, pm, d) == And(Or(l, r), pm);
    BitAnd(Or(l, r), pm, x);
    BitOr(l, r, x);
    PosSlideBit(d, EpLeft(player), x);
    PosSlideBit(d, EpRight(player), x);
  }

  /**
   * The en-passant stream: nothing unless the opponent's previous move was
   * an en-passant move; then one move for each own pawn one step diagonally
   * back from that move's destination d, all to the square d + 8 (white) or
   * d - 8 (black).
   */
  lemma EnpassantStream(piece: Piece, pm: int, empty: int, oppnt: int, prev: Move, m: Move)
    requires IsBoard(pm) && IsBoard(empty) && IsBoard(oppnt) && EpDefined(piece.player, prev)
    ensures var M := PawnMasksOf(piece.player, pm, empty, oppnt, prev);
      !EpFires(piece.player, prev) ==> M.cpEnp == 0 && M.cpEnpDest == 0
    ensures var M := PawnMasksOf(piece.player, pm, empty, oppnt, prev);
      EpFires(piece.player, prev) ==> M.cpEnpDest == if piece.player then Dest(prev) + 8 else Dest(prev) - 8
    ensures var M := PawnMasksOf(piece.player, pm, empty, oppnt, prev);
      m in ZipMoves(piece, Enpassant, Sq(M.cpEnp), Repeat(M.cpEnpDest, |Sq(M.cpEnp)|)) <==>
      EpFires(piece.player, prev) && exists x: nat :: EpMove(piece, pm, Dest(prev), M.cpEnpDest, x, m)
  {
    var M := PawnMasksOf(piece.player, pm, empty, oppnt, prev);
    assert (M.cpEnp, M.cpEnpDest) == EnpassantMasks(piece.player, pm, prev);
    EpStreamMem(piece, pm, prev, M.cpEnp, M.cpEnpDest, m);
  }

  /** The en-passant zip of cp_enp with its repeated destination, given the masks EnpassantMasks computes. */
  lemma EpStreamMem(piece: Piece, pm: int, prev: Move, cpEnp: int, cpEnpDest: Square, m: Move)
    requires IsBoard(pm) && EpDefined(piece.player, prev)
    requires (cpEnp, cpEnpDest) == EnpassantMasks(piece.player, pm, prev)
    ensures m in ZipMoves(piece, Enpassant, Sq(cpEnp), Repeat(cpEnpDest, |Sq(cpEnp)|)) <==>
      EpFires(piece.player, prev) && exists x: nat :: EpMove(piece, pm, Dest(prev), cpEnpDest, x, m)
  {
    ZipRepeatDestMem(piece, Enpassant, cpEnp, cpEnpDest, m);
    var z := ZipMoves(piece, Enpassant, Sq(cpEnp), Repeat(cpEnpDest, |Sq(cpEnp)|));
    if EpFires(piece.player, prev) {
      var d := Dest(prev);
      assert cpEnp == EpSources(piece.player, pm, d);
      if m in z {
        var x: nat :| x < 64 && Bit(cpEnp, x) && m == NewMove(piece, Enpassant, x, cpEnpDest);
        EpSourcesBit(piece.player, pm, d, x);
        assert EpMove(piece, pm, d, cpEnpDest, x, m);
      }
      if exists x: nat :: EpMove(piece, pm, d, cpEnpDest, x, m) {
        var x: nat :| EpMove(piece, pm, d, cpEnpDest, x, m);
        EpSourcesBit(piece.player, pm, d, x);
        assert x < 64 && Bit(cpEnp, x) && m == NewMove(piece, Enpassant, x, cpEnpDest);
      }
    } else {
      forall x: nat ensures !Bit(cpEnp, x) {
        BitZero(x);
      }
    }
  }

  // ----- pawns: promotions and the whole arm -----

  /** The concatenation of f's rounds over ts, in order. */
  function Rounds(f: PieceType -> seq<Move>, ts: seq<PieceType>): seq<Move>
  {
    if |ts| == 0 then [] else Rounds(f, ts[..|ts| - 1]) + f(ts[|ts| - 1])
  }

  /** A move is in the concatenated rounds exactly when it is in one of them. */
  lemma {:induction false} RoundsMem(f: PieceType -> seq<Move>, ts: seq<PieceType>, m: Move)
    ensures m in Rounds(f, ts) <==> exists k :: 0 <= k < |ts| && m in f(ts[k])
  {
    if |ts| > 0 {
      var init := ts[..|ts| - 1];
      RoundsMem(f, init, m);
      if exists k :: 0 <= k < |init| && m in f(init[k]) {
        var k :| 0 <= k < |init| && m in f(init[k]);
        assert ts[k] == init[k];
      }
      if exists k :: 0 <= k < |ts| && m in f(ts[k]) {
        var k :| 0 <= k < |ts| && m in f(ts[k]);
        if k < |init| {
          assert init[k] == ts[k];
        }
      }
    }
  }

  /** The promotion loop is the concatenation of its rounds. */
  lemma {:induction false} PromoMovesRounds(piece: Piece, M: PawnMasks, ts: seq<PieceType>)
    requires M.Valid()
    ensures PromoMoves(piece, M, ts) == Rounds(t => PromoRound(piece, M, t), ts)
  {
    if |ts| > 0 {
      PromoMovesRounds(piece, M, ts[..|ts| - 1]);
    }
  }

  /** The promotion loop's moves are those of its rounds. */
  lemma PromoMovesMem(piece: Piece, M: PawnMasks, ts: seq<PieceType>, m: Move)
    requires M.Valid()
    ensures m in PromoMoves(piece, M, ts) <==> exists k :: 0 <= k < |ts| && m in PromoRound(piece, M, ts[k])
  {
    var f := t => PromoRound(piece, M, t);
    PromoMovesRounds(piece, M, ts);
    RoundsMem(f, ts, m);
    assert forall k :: 0 <= k < |ts| ==> f(ts[k]) == PromoRound(piece, M, ts[k]);
  }

  /** m is a promotion of the player's pawns of pm to t: a push onto an empty square or a capture ahead left or right. */
  ghost predicate Promotes(piece: Piece, pm: int, empty: int, oppnt: int, t: PieceType, m: Move)
  {
    var p := piece.player;
    Steps(piece, Promotion(false, t), pm, empty, Ahead(p), true, m) ||
    Steps(piece, Promotion(true, t), pm, oppnt, LeftAhead(p), true, m) ||
    Steps(piece, Promotion(true, t), pm, oppnt, RightAhead(p), true, m)
  }

  /** The double-push streams of the pawn arm. */
  lemma PawnDoubleMasks(player: bool, pm: int, empty: int, oppnt: int, prev: Move)
    requires IsBoard(pm) && IsBoard(empty) && IsBoard(oppnt) && EpDefined(player, prev)
    ensures var M := PawnMasksOf(player, pm, empty, oppnt, prev);
      M.pp2 == DoublePushes(player, pm, empty) && M.pp2Dest == SlideBoard(DoublePushes(player, pm, empty), 2, Ahead(player))
  {
  }

  /**
   * Every move of the pawn arm, and only those: single pushes and captures
   * from off the promotion rank, double pushes, the en-passant moves, and
   * from the promotion rank the pushes and captures promoting to each of
   * the four targets.
   */
  lemma PawnMoveSet(piece: Piece, pm: int, empty: int, oppnt: int, prev: Move, m: Move)
    requires IsBoard(pm) && IsBoard(empty) && IsBoard(oppnt) && EpDefined(piece.player, prev)
    ensures var M, p := PawnMasksOf(piece.player, pm, empty, oppnt, prev), piece.player;
      m in PawnMoves(piece, M) <==>
        Steps(piece, Quiet, pm, empty, Ahead(p), false, m) ||
        Doubles(piece, pm, empty, m) ||
        Steps(piece, Capture, pm, oppnt, LeftAhead(p), false, m) ||
        Steps(piece, Capture, pm, oppnt, RightAhead(p), false, m) ||
        (EpFires(p, prev) && exists x: nat :: EpMove(piece, pm, Dest(prev), M.cpEnpDest, x, m)) ||
        exists k :: 0 <= k < |PromoTargets| && Promotes(piece, pm, empty, oppnt, PromoTargets[k], m)
  {
    var M := PawnMasksOf(piece.player, pm, empty, oppnt, prev);
    PawnHeadSet(piece, pm, empty, oppnt, prev, m);
    PawnPromoSet(piece, pm, empty, oppnt, prev, m);
  }

  /** The moves before the promotion loop: pushes, double pushes, captures, en passant. */
  lemma PawnHeadSet(piece: Piece, pm: int, empty: int, oppnt: int, prev: Move, m: Move)
    requires IsBoard(pm) && IsBoard(empty) && IsBoard(oppnt) && EpDefined(piece.player, prev)
    ensures var M, p := PawnMasksOf(piece.player, pm, empty, oppnt, prev), piece.player;
      m in PawnHead(piece, M) <==>
        Steps(piece, Quiet, pm, empty, Ahead(p), false, m) ||
        Doubles(piece, pm, empty, m) ||
        Steps(piece, Capture, pm, oppnt, LeftAhead(p), false, m) ||
        Steps(piece, Capture, pm, oppnt, RightAhead(p), false, m) ||
        (EpFires(p, prev) && exists x: nat :: EpMove(piece, pm, Dest(prev), M.cpEnpDest, x, m))
  {
    var M, p := PawnMasksOf(piece.player, pm, empty, oppnt, prev), piece.player;
    var z1, z2 := Zip(piece, Quiet, M.pp1, M.pp1Dest), Zip(piece, Quiet, M.pp2, M.pp2Dest);
    var z3, z4 := Zip(piece, Capture, M.cpL, M.cpLDest), Zip(piece, Capture, M.cpR, M.cpRDest);
    var z5 := ZipMoves(piece, Enpassant, Sq(M.cpEnp), Repeat(M.cpEnpDest, |Sq(M.cpEnp)|));
    assert PawnHead(piece, M) == z1 + z2 + z3 + z4 + z5;
    assert m in z2 <==> Doubles(piece, pm, empty, m) by {
      PawnDoubleMasks(p, pm, empty, oppnt, prev);
      DoubleStream(piece, pm, empty, m);
    }
    assert m in z5 <==> (EpFires(p, prev) && exists x: nat :: EpMove(piece, pm, Dest(prev), M.cpEnpDest, x, m)) by {
      EnpassantStream(piece, pm, empty, oppnt, prev, m);
    }
    assert (m in z1 <==> Steps(piece, Quiet, pm, empty, Ahead(p), false, m)) &&
      (m in z3 <==> Steps(piece, Capture, pm, oppnt, LeftAhead(p), false, m)) &&
      (m in z4 <==> Steps(piece, Capture, pm, oppnt, RightAhead(p), false, m)) by {
      PawnStreams(piece, pm, empty, oppnt, prev, Queen, m);
    }
  }

  /** The moves of the promotion loop: the promoting pushes and captures to each target. */
  lemma PawnPromoSet(piece: Piece, pm: int, empty: int, oppnt: int, prev: Move, m: Move)
    requires IsBoard(pm) && IsBoard(empty) && IsBoard(oppnt) && EpDefined(piece.player, prev)
    ensures var M := PawnMasksOf(piece.player, pm, empty, oppnt, prev);
      m in PromoMoves(piece, M, PromoTargets) <==>
        exists k :: 0 <= k < |PromoTargets| && Promotes(piece, pm, empty, oppnt, PromoTargets[k], m)
  {
    var M := PawnMasksOf(piece.player, pm, empty, oppnt, prev);
    PromoMovesMem(piece, M, PromoTargets, m);
    forall k | 0 <= k < |PromoTargets|
      ensures m in PromoRound(piece, M, PromoTargets[k]) <==> Promotes(piece, pm, empty, oppnt, PromoTargets[k], m)
    {
      PawnStreams(piece, pm, empty, oppnt, prev, PromoTargets[k], m);
    }
  }

  // ----- knights, bishops, rooks, queens and kings -----

  /**
   * m is a move of the piece on pos to a square j of its attack mask: a
   * quiet move when j is empty, a capture when j is the opponent's.
   */
  ghost predicate AttackMove(piece: Piece, pos: nat, empty: int, oppnt: int, t: Tables, j: nat, m: Move)
    requires Wf(t) && Walks(piece.pieceType) && pos < 64
  {
    j < 64 && Bit(Attack(t, piece.pieceType, pos, empty), j) &&
    ((Bit(empty, j) && m == NewMove(piece, Quiet, pos, j)) || (Bit(oppnt, j) && m == NewMove(piece, Capture, pos, j)))
  }

  /** The moves of one square of a walking piece are its quiet moves and captures. */
  lemma PosMovesMem(piece: Piece, pos: nat, empty: int, oppnt: int, t: Tables, m: Move)
    requires Wf(t) && Walks(piece.pieceType) && pos < 64 && IsBoard(empty) && IsBoard(oppnt)
    ensures m in PosMoves(piece, pos, empty, oppnt, t) <==> exists j: nat :: AttackMove(piece, pos, empty, oppnt, t, j, m)
  {
    var a := Attack(t, piece.pieceType, pos, empty);
    AndBoard(a, empty);
    AndBoard(a, oppnt);
    var qb, cb := And(a, empty), And(a, oppnt);
    var quiet, capture := Sq(qb), Sq(cb);
    var zq := ZipMoves(piece, Quiet, Repeat(pos, |quiet|), quiet);
    var zc := ZipMoves(piece, Capture, Repeat(pos, |capture|), capture);
    assert PosMoves(piece, pos, empty, oppnt, t) == zq + zc;
    ZipRepeatSrcMem(piece, Quiet, pos, qb, m);
    ZipRepeatSrcMem(piece, Capture, pos, cb, m);
    if m in zq {
      var j: nat :| j < 64 && Bit(qb, j) && m == NewMove(piece, Quiet, pos, j);
      BitAnd(a, empty, j);
      assert AttackMove(piece, pos, empty, oppnt, t, j, m);
    }
    if m in zc {
      var j: nat :| j < 64 && Bit(cb, j) && m == NewMove(piece, Capture, pos, j);
      BitAnd(a, oppnt, j);
      assert AttackMove(piece, pos, empty, oppnt, t, j, m);
    }
    if exists j: nat :: AttackMove(piece, pos, empty, oppnt, t, j, m) {
      var j: nat :| AttackMove(piece, pos, empty, oppnt, t, j, m);
      BitAnd(a, empty, j);
      BitAnd(a, oppnt, j);
    }
  }

  /** The concatenation of f over the squares ps, in order. */
  function Each(f: nat -> seq<Move>, ps: seq<nat>): seq<Move>
  {
    if |ps| == 0 then [] else Each(f, ps[..|ps| - 1]) + f(ps[|ps| - 1])
  }

  /** A move is in the concatenation exactly when it is among the moves of one of the squares. */
  lemma {:induction false} EachMem(f: nat -> seq<Move>, ps: seq<nat>, m: Move)
    ensures m in Each(f, ps) <==> exists k :: 0 <= k < |ps| && m in f(ps[k])
  {
    if |ps| > 0 {
      var init := ps[..|ps| - 1];
      EachMem(f, init, m);
      if exists k :: 0 <= k < |init| && m in f(init[k]) {
        var k :| 0 <= k < |init| && m in f(init[k]);
        assert ps[k] == init[k];
      }
      if exists k :: 0 <= k < |ps| && m in f(ps[k]) {
        var k :| 0 <= k < |ps| && m in f(ps[k]);
        if k < |init| {
          assert init[k] == ps[k];
        }
      }
    }
  }

  /** The moves of each square, as a function. */
  function WalkFn(piece: Piece, empty: int, oppnt: int, t: Tables): nat -> seq<Move>
    requires Wf(t) && Walks(piece.pieceType) && IsBoard(empty) && IsBoard(oppnt)
  {
    (pos: nat) => if pos < 64 then PosMoves(piece, pos, empty, oppnt, t) else []
  }

  /** The walking loop is the concatenation of the squares' moves. */
  lemma {:induction false} WalkMovesEach(piece: Piece, ps: seq<nat>, empty: int, oppnt: int, t: Tables)
    requires Wf(t) && Walks(piece.pieceType) && IsBoard(empty) && IsBoard(oppnt)
    requires forall k :: 0 <= k < |ps| ==> ps[k] < 64
    ensures WalkMoves(piece, ps, empty, oppnt, t) ==
      Each(WalkFn(piece, empty, oppnt, t), ps)
  {
    if |ps| > 0 {
      WalkMovesEach(piece, ps[..|ps| - 1], empty, oppnt, t);
    }
  }

  /** m is a move of the piece from some square of pm. */
  ghost predicate WalkMove(piece: Piece, pm: int, empty: int, oppnt: int, t: Tables, m: Move)
    requires Wf(t) && Walks(piece.pieceType)
  {
    exists pos: nat, j: nat :: pos < 64 && Bit(pm, pos) && AttackMove(piece, pos, empty, oppnt, t, j, m)
  }

  /**
   * The walking arms generate exactly the moves of the pieces on pm to the
   * squares of their attack masks: quiet moves to the empty squares and
   * captures of the opponent's pieces.
   */
  lemma WalkMoveSet(piece: Piece, pm: int, empty: int, oppnt: int, t: Tables, m: Move)
    requires Wf(t) && Walks(piece.pieceType) && IsBoard(pm) && IsBoard(empty) && IsBoard(oppnt)
    ensures m in WalkMoves(piece, Sq(pm), empty, oppnt, t) <==> WalkMove(piece, pm, empty, oppnt, t, m)
  {
    if m in WalkMoves(piece, Sq(pm), empty, oppnt, t) {
      WalkMoveSound(piece, pm, empty, oppnt, t, m);
    }
    if WalkMove(piece, pm, empty, oppnt, t, m) {
      WalkMoveComplete(piece, pm, empty, oppnt, t, m);
    }
  }

  lemma WalkMoveSound(piece: Piece, pm: int, empty: int, oppnt: int, t: Tables, m: Move)
    requires Wf(t) && Walks(piece.pieceType) && IsBoard(pm) && IsBoard(empty) && IsBoard(oppnt)
    requires m in WalkMoves(piece, Sq(pm), empty, oppnt, t)
    ensures WalkMove(piece, pm, empty, oppnt, t, m)
  {
    var ps := Sq(pm);
    var f := WalkFn(piece, empty, oppnt, t);
    WalkMovesEach(piece, ps, empty, oppnt, t);
    EachMem(f, ps, m);
    var k :| 0 <= k < |ps| && m in f(ps[k]);
    var pos := ps[k];
    SqMem(pm, pos);
    PosMovesMem(piece, pos, empty, oppnt, t, m);
    var j: nat :| AttackMove(piece, pos, empty, oppnt, t, j, m);
    assert pos < 64 && Bit(pm, pos) && AttackMove(piece, pos, empty, oppnt, t, j, m);
  }

  lemma WalkMoveComplete(piece: Piece, pm: int, empty: int, oppnt: int, t: Tables, m: Move)
    requires Wf(t) && Walks(piece.pieceType) && IsBoard(pm) && IsBoard(empty) && IsBoard(oppnt)
    requires WalkMove(piece, pm, empty, oppnt, t, m)
    ensures m in WalkMoves(piece, Sq(pm), empty, oppnt, t)
  {
    var ps := Sq(pm);
    var f := WalkFn(piece, empty, oppnt, t);
    var pos: nat, j: nat :| pos < 64 && Bit(pm, pos) && AttackMove(piece, pos, empty, oppnt, t, j, m);
    SqMem(pm, pos);
    var k :| 0 <= k < |ps| && ps[k] == pos;
    PosMovesMem(piece, pos, empty, oppnt, t, m);
    assert m in f(ps[k]);
    WalkMovesEach(piece, ps, empty, oppnt, t);
    EachMem(f, ps, m);
  }

  // ----- what the attack masks hold -----

  /**
   * Square j is attacked from pos by the kind, given the occupied squares: a
   * knight's jump, a king's step, or a slide that stops at the first blocker
   * along the kind's directions.
   */
  ghost predicate Reaches(kind: PieceType, pos: nat, occ: int, j: nat)
  {
    match kind
    case Knight => BoardLeapers.KnightJump(pos, j)
    case King => BoardLeapers.KingStep(pos, j)
    case Bishop => BoardGenerators.SliderReach(BoardPiece.Bishop, occ, pos, j)
    case Rook => BoardGenerators.SliderReach(BoardPiece.Rook, occ, pos, j)
    case Queen => BoardGenerators.SliderReach(BoardPiece.Queen, occ, pos, j)
    case _ => false
  }

  /** The file and rank moved by the steps to a square of a ray. */
  lemma RayDelta(src: nat, dir: Dir, i: nat)
    requires OnRay(src, dir, i)
    ensures var s := StepOf(src, dir, i);
      s >= 1 && FileOf(i) - FileOf(src) == FileDelta(dir) * s && RankOf(i) - RankOf(src) == RankDelta(dir) * s
  {
    OnRaySquare(src, dir, i);
    RaySquare(src, dir, StepOf(src, dir, i));
  }

  /** A diagonal step moves the file and the rank equally far. */
  lemma DiagonalDelta(src: nat, d: Dir, i: nat)
    requires d in BoardPieces.BishopDirs && OnRay(src, d, i)
    ensures Abs(FileOf(i) - FileOf(src)) == Abs(RankOf(i) - RankOf(src)) >= 1
  {
    RayDelta(src, d, i);
  }

  /** A straight step moves exactly one of the file and the rank. */
  lemma StraightDelta(src: nat, e: Dir, i: nat)
    requires e in BoardPieces.RookDirs && OnRay(src, e, i)
    ensures (FileOf(i) == FileOf(src)) != (RankOf(i) == RankOf(src))
  {
    RayDelta(src, e, i);
  }

  /** No square lies both on a diagonal and on a straight line from the same square. */
  lemma DiagonalNotStraight(src: nat, d: Dir, e: Dir, occ: int, i: nat)
    requires d in BoardPieces.BishopDirs && e in BoardPieces.RookDirs
    ensures !(InAttack(src, d, occ, i) && InAttack(src, e, occ, i))
  {
    if OnRay(src, d, i) { DiagonalDelta(src, d, i); }
    if OnRay(src, e, i) { StraightDelta(src, e, i); }
  }

  /** Attacked along some direction of a list. */
  ghost predicate AlongSome(pos: nat, dirs: seq<Dir>, occ: int, j: nat)
  {
    exists k :: 0 <= k < |dirs| && InAttack(pos, dirs[k], occ, j)
  }

  lemma AlongQueen(pos: nat, occ: int, j: nat)
    requires AlongSome(pos, BoardPieces.QueenDirs, occ, j)
    ensures AlongSome(pos, BoardPieces.BishopDirs, occ, j) || AlongSome(pos, BoardPieces.RookDirs, occ, j)
  {
    var B, R, Q := BoardPieces.BishopDirs, BoardPieces.RookDirs, BoardPieces.QueenDirs;
    var k :| 0 <= k < |Q| && InAttack(pos, Q[k], occ, j);
    if k % 2 == 1 {
      assert Q[k] == B[k / 2];
    } else {
      assert Q[k] == R[k / 2];
    }
  }

  lemma AlongBishop(pos: nat, occ: int, j: nat)
    requires AlongSome(pos, BoardPieces.BishopDirs, occ, j)
    ensures AlongSome(pos, BoardPieces.QueenDirs, occ, j)
  {
    var B, Q := BoardPieces.BishopDirs, BoardPieces.QueenDirs;
    var k :| 0 <= k < |B| && InAttack(pos, B[k], occ, j);
    assert Q[2 * k + 1] == B[k];
  }

  lemma AlongRook(pos: nat, occ: int, j: nat)
    requires AlongSome(pos, BoardPieces.RookDirs, occ, j)
    ensures AlongSome(pos, BoardPieces.QueenDirs, occ, j)
  {
    var R, Q := BoardPieces.RookDirs, BoardPieces.QueenDirs;
    var k :| 0 <= k < |R| && InAttack(pos, R[k], occ, j);
    assert Q[2 * k] == R[k];
  }

  lemma AlongDisjoint(pos: nat, occ: int, j: nat)
    ensures !(AlongSome(pos, BoardPieces.BishopDirs, occ, j) && AlongSome(pos, BoardPieces.RookDirs, occ, j))
  {
    var B, R := BoardPieces.BishopDirs, BoardPieces.RookDirs;
    forall a, b | 0 <= a < |B| && 0 <= b < |R|
      ensures !(InAttack(pos, B[a], occ, j) && InAttack(pos, R[b], occ, j))
    {
      DiagonalNotStraight(pos, B[a], R[b], occ, j);
    }
  }

  /** The slider reach of a kind is being attacked along one of its directions. */
  lemma SliderAlong(kind: BoardPiece.Kind, occ: int, pos: nat, j: nat)
    requires kind == BoardPiece.Bishop || kind == BoardPiece.Rook || kind == BoardPiece.Queen
    ensures BoardGenerators.SliderReach(kind, occ, pos, j) <==> AlongSome(pos, BoardGenerators.AttackDirs(kind), occ, j)
  {}

  /** The queen reaches what the bishop or the rook reaches, and never both. */
  lemma QueenReach(pos: nat, occ: int, j: nat)
    ensures BoardGenerators.SliderReach(BoardPiece.Queen, occ, pos, j) <==>
      (BoardGenerators.SliderReach(BoardPiece.Bishop, occ, pos, j) || BoardGenerators.SliderReach(BoardPiece.Rook, occ, pos, j))
    ensures !(BoardGenerators.SliderReach(BoardPiece.Bishop, occ, pos, j) && BoardGenerators.SliderReach(BoardPiece.Rook, occ, pos, j))
  {
    SliderAlong(BoardPiece.Queen, occ, pos, j);
    SliderAlong(BoardPiece.Bishop, occ, pos, j);
    SliderAlong(BoardPiece.Rook, occ, pos, j);
    if AlongSome(pos, BoardPieces.QueenDirs, occ, j) { AlongQueen(pos, occ, j); }
    if AlongSome(pos, BoardPieces.BishopDirs, occ, j) { AlongBishop(pos, occ, j); }
    if AlongSome(pos, BoardPieces.RookDirs, occ, j) { AlongRook(pos, occ, j); }
    AlongDisjoint(pos, occ, j);
  }

  /**
   * With tables that meet their contract, the attack mask of a walking piece
   * holds exactly the squares it reaches from pos over the occupied squares
   * (the complement of `empty`). For the queen this rests on the bishop and
   * rook attacks being disjoint, so that their xor is their union.
   */
  lemma AttackBit(t: Tables, kind: PieceType, pos: nat, empty: int, j: nat)
    requires Agrees(t) && Walks(kind) && pos < 64
    ensures Bit(Attack(t, kind, pos, empty), j) <==> Reaches(kind, pos, BoardUtils.UInt64(Not(empty)), j)
  {
    var occ := BoardUtils.UInt64(Not(empty));
    match kind
    case Knight => BoardLeapers.KnightMaskBit(pos + 1, j);
    case King => BoardLeapers.KingPatternBit(pos + 1, j);
    case Bishop =>
      RayAttackBit(pos, occ, BoardPieces.BishopDirs, j);
      assert BoardGenerators.AttackDirs(BoardPiece.Bishop) == BoardPieces.BishopDirs;
    case Rook =>
      RayAttackBit(pos, occ, BoardPieces.RookDirs, j);
      assert BoardGenerators.AttackDirs(BoardPiece.Rook) == BoardPieces.RookDirs;
    case Queen =>
      var b, r := t.bishop(pos, occ), t.rook(pos, occ);
      assert Attack(t, kind, pos, empty) == Xor(b, r);
      BitXor(b, r, j);
      RayAttackBit(pos, occ, BoardPieces.BishopDirs, j);
      RayAttackBit(pos, occ, BoardPieces.RookDirs, j);
      assert BoardGenerators.AttackDirs(BoardPiece.Bishop) == BoardPieces.BishopDirs;
      assert BoardGenerators.AttackDirs(BoardPiece.Rook) == BoardPieces.RookDirs;
      QueenReach(pos, occ, j);
  }

  // ----- every generated move belongs to the piece -----

  /** m is a move of the piece from one of the squares of pm. */
  predicate Owns(piece: Piece, pm: int, m: Move)
  {
    MovePiece(m) == piece && Src(m) < 64 && Bit(pm, Src(m))
  }

  /** m ends on an empty square or on one of the opponent's. */
  predicate Lawful(empty: int, oppnt: int, m: Move)
  {
    Dest(m) < 64 && (Bit(empty, Dest(m)) || Bit(oppnt, Dest(m)))
  }

  /** A move made from a square of pm to a square of a board carries the piece and those squares. */
  lemma NewMoveOwn(piece: Piece, meta: MoveMeta, pm: int, x: Square, y: Square, m: Move)
    requires IsBoard(pm) && Bit(pm, x) && m == NewMove(piece, meta, x, y)
    ensures Owns(piece, pm, m) && Src(m) == x && Dest(m) == y % 128
  {
    if x >= 64 { BoardBits(pm, x); }
    NewPieceMeta(piece, meta, x, y);
    NewSquares(piece, meta, x, y);
  }

  /** A destination on a board is its own seven-bit field. */
  lemma OnBoardDest(targets: int, y: Square)
    requires IsBoard(targets) && Bit(targets, y)
    ensures y < 64 && y % 128 == y
  {
    if y >= 64 { BoardBits(targets, y); }
  }

  lemma StepsOwn(piece: Piece, meta: MoveMeta, pm: int, targets: int, dir: Dir, promo: bool, m: Move)
    requires IsBoard(pm) && IsBoard(targets) && Steps(piece, meta, pm, targets, dir, promo, m)
    ensures Owns(piece, pm, m) && Dest(m) < 64 && Bit(targets, Dest(m))
  {
    var x: nat :| PawnStepMove(piece, meta, pm, targets, dir, promo, x, m);
    NewMoveOwn(piece, meta, pm, x, x + StepSize(dir), m);
    OnBoardDest(targets, x + StepSize(dir));
  }

  lemma DoublesOwn(piece: Piece, pm: int, empty: int, m: Move)
    requires IsBoard(pm) && IsBoard(empty) && Doubles(piece, pm, empty, m)
    ensures Owns(piece, pm, m) && Dest(m) < 64 && Bit(empty, Dest(m))
  {
    var x: nat :| DoublePushMove(piece, pm, empty, x, m);
    var y := x + 2 * StepSize(Ahead(piece.player));
    NewMoveOwn(piece, Quiet, pm, x, y, m);
    OnBoardDest(empty, y);
  }

  lemma EpOwn(piece: Piece, pm: int, d: int, target: Square, m: Move)
    requires IsBoard(pm) && exists x: nat :: EpMove(piece, pm, d, target, x, m)
    ensures Owns(piece, pm, m)
  {
    var x: nat :| EpMove(piece, pm, d, target, x, m);
    NewMoveOwn(piece, Enpassant, pm, x, target, m);
  }

  lemma PawnOwn(piece: Piece, pm: int, empty: int, oppnt: int, prev: Move, m: Move)
    requires IsBoard(pm) && IsBoard(empty) && IsBoard(oppnt) && EpDefined(piece.player, prev)
    ensures m in PawnMoves(piece, PawnMasksOf(piece.player, pm, empty, oppnt, prev)) ==>
      Owns(piece, pm, m) && (!EpFires(piece.player, prev) ==> Lawful(empty, oppnt, m))
  {
    var M := PawnMasksOf(piece.player, pm, empty, oppnt, prev);
    var h, q := PawnHead(piece, M), PromoMoves(piece, M, PromoTargets);
    assert PawnMoves(piece, M) == h + q;
    PawnHeadOwn(piece, pm, empty, oppnt, prev, m);
    PawnPromoOwn(piece, pm, empty, oppnt, prev, m);
  }

  lemma PawnHeadOwn(piece: Piece, pm: int, empty: int, oppnt: int, prev: Move, m: Move)
    requires IsBoard(pm) && IsBoard(empty) && IsBoard(oppnt) && EpDefined(piece.player, prev)
    ensures m in PawnHead(piece, PawnMasksOf(piece.player, pm, empty, oppnt, prev)) ==>
      Owns(piece, pm, m) && (!EpFires(piece.player, prev) ==> Lawful(empty, oppnt, m))
  {
    var M, p := PawnMasksOf(piece.player, pm, empty, oppnt, prev), piece.player;
    PawnHeadSet(piece, pm, empty, oppnt, prev, m);
    if m !in PawnHead(piece, M) {
    } else if Steps(piece, Quiet, pm, empty, Ahead(p), false, m) {
      StepsOwn(piece, Quiet, pm, empty, Ahead(p), false, m);
    } else if Doubles(piece, pm, empty, m) {
      DoublesOwn(piece, pm, empty, m);
    } else if Steps(piece, Capture, pm, oppnt, LeftAhead(p), false, m) {
      StepsOwn(piece, Capture, pm, oppnt, LeftAhead(p), false, m);
    } else if Steps(piece, Capture, pm, oppnt, RightAhead(p), false, m) {
      StepsOwn(piece, Capture, pm, oppnt, RightAhead(p), false, m);
    } else {
      EpOwn(piece, pm, Dest(prev), M.cpEnpDest, m);
    }
  }

  lemma PawnPromoOwn(piece: Piece, pm: int, empty: int, oppnt: int, prev: Move, m: Move)
    requires IsBoard(pm) && IsBoard(empty) && IsBoard(oppnt) && EpDefined(piece.player, prev)
    ensures m in PromoMoves(piece, PawnMasksOf(piece.player, pm, empty, oppnt, prev), PromoTargets) ==>
      Owns(piece, pm, m) && Lawful(empty, oppnt, m)
  {
    var p := piece.player;
    PawnPromoSet(piece, pm, empty, oppnt, prev, m);
    if m !in PromoMoves(piece, PawnMasksOf(piece.player, pm, empty, oppnt, prev), PromoTargets) { return; }
    var k :| 0 <= k < |PromoTargets| && Promotes(piece, pm, empty, oppnt, PromoTargets[k], m);
    var tk := PromoTargets[k];
    if Steps(piece, Promotion(false, tk), pm, empty, Ahead(p), true, m) {
      StepsOwn(piece, Promotion(false, tk), pm, empty, Ahead(p), true, m);
    } else if Steps(piece, Promotion(true, tk), pm, oppnt, LeftAhead(p), true, m) {
      StepsOwn(piece, Promotion(true, tk), pm, oppnt, LeftAhead(p), true, m);
    } else {
      StepsOwn(piece, Promotion(true, tk), pm, oppnt, RightAhead(p), true, m);
    }
  }

  lemma WalkOwn(piece: Piece, pm: int, empty: int, oppnt: int, t: Tables, m: Move)
    requires Wf(t) && Walks(piece.pieceType) && IsBoard(pm) && IsBoard(empty) && IsBoard(oppnt)
    requires m in WalkMoves(piece, Sq(pm), empty, oppnt, t)
    ensures Owns(piece, pm, m) && Lawful(empty, oppnt, m)
  {
    WalkMoveSet(piece, pm, empty, oppnt, t, m);
    var pos: nat, j: nat :| pos < 64 && Bit(pm, pos) && AttackMove(piece, pos, empty, oppnt, t, j, m);
    if Bit(empty, j) && m == NewMove(piece, Quiet, pos, j) {
      NewMoveOwn(piece, Quiet, pm, pos, j, m);
    } else {
      NewMoveOwn(piece, Capture, pm, pos, j, m);
    }
  }

  /**
   * Every move `move_list` appends is a move of the given piece from one of
   * the squares of its bitboard, and unless the previous move was a
   * double push open to en passant it ends on an empty square or an
   * opponent's: no piece captures its own side. The invalid piece type
   * appends nothing.
   */
  lemma GenMovesOwn(piece: Piece, pm: int, empty: int, oppnt: int, prev: Move, t: Tables, m: Move)
    requires IsBoard(pm) && IsBoard(empty) && IsBoard(oppnt) && Wf(t)
    requires piece.pieceType == Pawn ==> EpDefined(piece.player, prev)
    ensures piece.pieceType == Invalid ==> GenMoves(piece, pm, empty, oppnt, prev, t) == []
    ensures m in GenMoves(piece, pm, empty, oppnt, prev, t) ==> Owns(piece, pm, m)
    ensures m in GenMoves(piece, pm, empty, oppnt, prev, t) && !EpFires(piece.player, prev) ==> Lawful(empty, oppnt, m)
  {
    if m in GenMoves(piece, pm, empty, oppnt, prev, t) {
      match piece.pieceType
      case Pawn => PawnOwn(piece, pm, empty, oppnt, prev, m);
      case Knight | Bishop | Rook | Queen | King => WalkOwn(piece, pm, empty, oppnt, t, m);
    }
  }
}
