// The generators of board/pieces.py for knights, bishops, rooks, queens and
// kings, and the dispatch over all six kinds. Each walks the piece's squares
// in ascending order; for the piece on square p it takes its attack mask,
// finds the empty squares and the opponent's squares in it, and extends four
// lists: quiet sources and destinations, capture sources and destinations.
// The streams are the quiet moves followed by the captures. The knight and
// king masks are fixed; the sliders' masks stop at the first occupied square
// of each ray, which is included.
module BoardGenerators {
  import opened Bits
  import opened BoardUtils
  import opened BoardRays
  import opened BoardPiece
  import opened BoardMove
  import opened BoardState
  import opened BoardPieces
  import opened BoardLeapers

  /** The `attack_dirs` of a slider. */
  function AttackDirs(kind: Kind): seq<Dir>
  {
    if kind == Bishop then BishopDirs else if kind == Rook then RookDirs else QueenDirs
  }

  /**
   * The attack mask of the non-pawn piece on 0-based square i, given the
   * occupied squares: `kn_dest_bb`, the king's `attack_mask`, or `ray_moves`.
   */
  function AttackAt(kind: Kind, occp: int, i: nat): int
    requires kind != Pawn
  {
    if kind == Knight then KnightMask(i + 1)
    else if kind == King then KingMask(i + 1)
    else RayAttack(i, occp, AttackDirs(kind))
  }

  /** The attack masks of a kind, square by square. */
  function AttackOf(kind: Kind, occp: int): nat -> int
    requires kind != Pawn
  {
    (i: nat) => AttackAt(kind, occp, i)
  }

  /** All items of the list are 1-based squares. */
  predicate Positive(ps: seq<nat>)
  {
    forall k :: 0 <= k < |ps| ==> ps[k] >= 1
  }

  /** `get_bit_positions(attack & target)`: the 1-based squares of the mask within the target. */
  function Targets(attack: nat -> int, p: int, target: int): seq<nat>
    requires p >= 1 && target >= 0
  {
    AndNonNegativeRight(attack(p - 1), target);
    Positions(And(attack(p - 1), target), 1)
  }

  /**
   * The source and destination lists the loop builds for one target
   * bitboard: the piece on each square of ps, in order, adds its targets and
   * as many copies of its square.
   */
  function Spread(attack: nat -> int, ps: seq<nat>, target: int): (seq<int>, seq<int>)
    requires Positive(ps) && target >= 0
  {
    if |ps| == 0 then ([], [])
    else
      var r := Spread(attack, ps[..|ps| - 1], target);
      var p := ps[|ps| - 1];
      var ds := Targets(attack, p, target);
      (r.0 + Rep(p, |ds|), r.1 + ds)
  }

  /** The three chained streams: the moves to empty squares, then the captures. */
  function Gathered(attack: nat -> int, ps: seq<nat>, empty: int, opp: int): Streams
    requires Positive(ps) && empty >= 0 && opp >= 0
  {
    Chain(Spread(attack, ps, empty), Spread(attack, ps, opp))
  }

  /** `chain(src_empty, src_capture)`, `chain(dest_empty, dest_capture)` and the flags. */
  function Chain(e: (seq<int>, seq<int>), c: (seq<int>, seq<int>)): Streams
  {
    Streams(e.0 + c.0, e.1 + c.1, Flags(false, |e.1|) + Flags(true, |c.1|))
  }

  /** The board's bitboards are non-negative, as `uint64` values are. */
  predicate NonNegative(m: Mapping)
  {
    forall k :: 0 <= k < |m| ==> m[k].bb >= 0
  }

  lemma {:induction false} LookupNonNegative(m: Mapping, piece: Piece)
    requires NonNegative(m)
    ensures Lookup(m, piece).Some? ==> Lookup(m, piece).value >= 0
  {
    if |m| > 0 && m[0].piece != piece { LookupNonNegative(m[1..], piece); }
  }

  lemma PositionsPositive(x: int)
    requires x >= 0
    ensures Positive(Positions(x, 1))
  {
    PositionsSpec(x, 1);
    forall k | 0 <= k < |Positions(x, 1)| ensures Positions(x, 1)[k] >= 1 {
      assert Positions(x, 1)[k] in Positions(x, 1);
    }
  }

  /**
   * `Knight.get_valid_moves`, `valid_ray_moves(board, piece, attack_dirs)`
   * and `King.get_valid_moves`: a missing key or an empty mapping fails.
   * The occupied squares `uint64(~empty)` matter to the sliders only.
   */
  function PieceMoves(m: Mapping, piece: Piece): Option<Streams>
    requires piece.kind != Pawn && NonNegative(m)
  {
    var mine := Lookup(m, piece);
    var empty := EmptyBb(Values(m));
    var opp := NonEmptyBb(Values(Bbs4OppPlayer(m, piece.player)));
    if mine.None? || empty.None? || opp.None? then None
    else
      LookupNonNegative(m, piece);
      PositionsPositive(mine.value);
      var attack := AttackOf(piece.kind, UInt64(Not(empty.value)));
      Some(Gathered(attack, Positions(mine.value, 1), empty.value, opp.value))
  }

  /** `piece.get_valid_moves(board, prev_move)` for any piece. */
  function ValidMoves(m: Mapping, piece: Piece, prev: Option<Move<Piece>>): Option<Streams>
    requires NonNegative(m)
  {
    if piece.kind == Pawn then PawnMoves(m, piece.player, prev) else PieceMoves(m, piece)
  }

  // ----- what the generated streams hold -----

  /**
   * The moves the non-pawn generators produce, as (source, destination,
   * capture) triples of 1-based squares: from an own piece to a square of its
   * attack mask that is empty (no capture) or the opponent's (capture).
   */
  predicate PieceMove(attack: nat -> int, mine: int, empty: int, opp: int, p: int, d: int, c: bool)
  {
    p >= 1 && d >= 1 && Bit(mine, p - 1) && Bit(attack(p - 1), d - 1) &&
    Bit(if c then opp else empty, d - 1)
  }

  /** A square is a target exactly when the mask and the target bitboard both hold it. */
  lemma TargetsMem(attack: nat -> int, p: int, target: int, d: int)
    requires p >= 1 && target >= 0
    ensures d in Targets(attack, p, target) <==>
      d >= 1 && Bit(attack(p - 1), d - 1) && Bit(target, d - 1)
  {
    var a := attack(p - 1);
    AndNonNegativeRight(a, target);
    if d >= 1 {
      PositionsMem(And(a, target), 1, d);
      BitAnd(a, target, d - 1);
    } else {
      PositionsSpec(And(a, target), 1);
    }
  }

  lemma {:induction false} SpreadLength(attack: nat -> int, ps: seq<nat>, target: int)
    requires Positive(ps) && target >= 0
    ensures |Spread(attack, ps, target).0| == |Spread(attack, ps, target).1|
  {
    if |ps| > 0 { SpreadLength(attack, ps[..|ps| - 1], target); }
  }

  /**
   * The lists of one target are parallel; every pair is a square of ps and one
   * of its targets, and every such pair is listed.
   */
  lemma {:induction false} SpreadSpec(attack: nat -> int, ps: seq<nat>, target: int)
    requires Positive(ps) && target >= 0
    ensures var r := Spread(attack, ps, target);
      |r.0| == |r.1| &&
      (forall k :: 0 <= k < |r.0| ==> r.0[k] >= 1 && r.0[k] in ps && r.1[k] in Targets(attack, r.0[k], target)) &&
      (forall p, d :: p >= 1 && p in ps && d in Targets(attack, p, target) ==>
        exists k :: 0 <= k < |r.0| && r.0[k] == p && r.1[k] == d)
  {
    if |ps| > 0 {
      var init, p := ps[..|ps| - 1], ps[|ps| - 1];
      assert ps == init + [p];
      var r0 := Spread(attack, init, target);
      var ds := Targets(attack, p, target);
      var r := Spread(attack, ps, target);
      assert r == (r0.0 + Rep(p, |ds|), r0.1 + ds);
      SpreadSpec(attack, init, target);
      forall k | 0 <= k < |r.0|
        ensures r.0[k] >= 1 && r.0[k] in ps && r.1[k] in Targets(attack, r.0[k], target)
      {
        if k < |r0.0| {
          assert r.0[k] == r0.0[k] && r.1[k] == r0.1[k];
        } else {
          assert r.0[k] == p && r.1[k] == ds[k - |r0.0|];
        }
      }
      forall q, d | q >= 1 && q in ps && d in Targets(attack, q, target)
        ensures exists k :: 0 <= k < |r.0| && r.0[k] == q && r.1[k] == d
      {
        if q in init {
          var k :| 0 <= k < |r0.0| && r0.0[k] == q && r0.1[k] == d;
          assert r.0[k] == q && r.1[k] == d;
        } else {
          assert q == p;
          var j :| 0 <= j < |ds| && ds[j] == d;
          assert r.0[|r0.0| + j] == q && r.1[|r0.0| + j] == d;
        }
      }
    }
  }

  /** A listed square of the piece bitboard holds one of the player's pieces. */
  lemma SourceMem(mine: int, p: int)
    requires mine >= 0
    ensures p in Positions(mine, 1) <==> p >= 1 && Bit(mine, p - 1)
  {
    PositionsSpec(mine, 1);
  }

  /** A quiet triple of the chain comes from the first pair of lists, a capture from the second. */
  lemma ChainAt(e: (seq<int>, seq<int>), c: (seq<int>, seq<int>), k: nat)
    requires |e.0| == |e.1| && |c.0| == |c.1|
    requires k < |Chain(e, c).srcs|
    ensures var st := Chain(e, c);
      k < |st.dests| && k < |st.captures| &&
      (k < |e.0| ==> !st.captures[k] && st.srcs[k] == e.0[k] && st.dests[k] == e.1[k]) &&
      (k >= |e.0| ==> st.captures[k] && st.srcs[k] == c.0[k - |e.0|] && st.dests[k] == c.1[k - |e.0|])
  {
  }

  /** Each pair of lists appears in the chain with its flag. */
  lemma ChainHas(e: (seq<int>, seq<int>), c: (seq<int>, seq<int>), k: nat, cap: bool)
    requires |e.0| == |e.1| && |c.0| == |c.1|
    requires if cap then k < |c.0| else k < |e.0|
    ensures var st := Chain(e, c);
      var at := if cap then |e.0| + k else k;
      at < |st.srcs| && at < |st.dests| && at < |st.captures| && st.captures[at] == cap &&
      st.srcs[at] == (if cap then c.0[k] else e.0[k]) && st.dests[at] == (if cap then c.1[k] else e.1[k])
  {
  }

  /** One pair of the lists of a target, as `SpreadSpec` states it for all of them. */
  lemma SpreadAt(attack: nat -> int, ps: seq<nat>, target: int, k: nat)
    requires Positive(ps) && target >= 0
    requires k < |Spread(attack, ps, target).0|
    ensures var r := Spread(attack, ps, target);
      k < |r.1| && r.0[k] >= 1 && r.0[k] in ps && r.1[k] in Targets(attack, r.0[k], target)
  {
    SpreadSpec(attack, ps, target);
  }

  /** The index at which the lists of a target hold a given pair. */
  lemma SpreadHas(attack: nat -> int, ps: seq<nat>, target: int, p: int, d: int) returns (k: nat)
    requires Positive(ps) && target >= 0
    requires p >= 1 && p in ps && d in Targets(attack, p, target)
    ensures var r := Spread(attack, ps, target);
      k < |r.0| && k < |r.1| && r.0[k] == p && r.1[k] == d
  {
    SpreadSpec(attack, ps, target);
    var r := Spread(attack, ps, target);
    k :| 0 <= k < |r.0| && r.0[k] == p && r.1[k] == d;
  }

  /** Every triple of the chained streams is a generated move. */
  lemma GatheredSound(attack: nat -> int, mine: int, empty: int, opp: int, k: nat)
    requires mine >= 0 && empty >= 0 && opp >= 0
    requires Positive(Positions(mine, 1))
    requires k < |Gathered(attack, Positions(mine, 1), empty, opp).srcs|
    ensures var st := Gathered(attack, Positions(mine, 1), empty, opp);
      k < |st.dests| && k < |st.captures| &&
      PieceMove(attack, mine, empty, opp, st.srcs[k], st.dests[k], st.captures[k])
  {
    var ps := Positions(mine, 1);
    var e := Spread(attack, ps, empty);
    var c := Spread(attack, ps, opp);
    SpreadLength(attack, ps, empty);
    SpreadLength(attack, ps, opp);
    ChainAt(e, c, k);
    var st := Chain(e, c);
    assert st == Gathered(attack, ps, empty, opp);
    var n := |e.0|;
    if k < n {
      SpreadMove(attack, mine, empty, k);
    } else {
      SpreadMove(attack, mine, opp, k - n);
    }
  }

  /** A pair of the lists of a target is a move from an own piece to a target square of its mask. */
  lemma SpreadMove(attack: nat -> int, mine: int, target: int, k: nat)
    requires mine >= 0 && target >= 0
    requires Positive(Positions(mine, 1))
    requires k < |Spread(attack, Positions(mine, 1), target).0|
    ensures var r := Spread(attack, Positions(mine, 1), target);
      k < |r.1| && r.0[k] >= 1 && r.1[k] >= 1 && Bit(mine, r.0[k] - 1) &&
      Bit(attack(r.0[k] - 1), r.1[k] - 1) && Bit(target, r.1[k] - 1)
  {
    var ps := Positions(mine, 1);
    var r := Spread(attack, ps, target);
    SpreadAt(attack, ps, target, k);
    SourceMem(mine, r.0[k]);
    TargetsMem(attack, r.0[k], target, r.1[k]);
  }

  /** Every generated move is a triple of the chained streams. */
  lemma GatheredComplete(attack: nat -> int, mine: int, empty: int, opp: int, p: int, d: int, cap: bool)
    requires mine >= 0 && empty >= 0 && opp >= 0
    requires Positive(Positions(mine, 1))
    requires PieceMove(attack, mine, empty, opp, p, d, cap)
    ensures var st := Gathered(attack, Positions(mine, 1), empty, opp);
      exists k :: 0 <= k < |st.srcs| && k < |st.dests| && k < |st.captures| &&
        st.srcs[k] == p && st.dests[k] == d && st.captures[k] == cap
  {
    var ps := Positions(mine, 1);
    var e := Spread(attack, ps, empty);
    var c := Spread(attack, ps, opp);
    SpreadLength(attack, ps, empty);
    SpreadLength(attack, ps, opp);
    SourceMem(mine, p);
    var target := if cap then opp else empty;
    TargetsMem(attack, p, target, d);
    var k := SpreadHas(attack, ps, target, p, d);
    ChainHas(e, c, k, cap);
    var st := Chain(e, c);
    assert st == Gathered(attack, ps, empty, opp);
    var at := if cap then |e.0| + k else k;
    assert st.srcs[at] == p && st.dests[at] == d && st.captures[at] == cap;
  }

  /**
   * The chained streams are parallel, list every quiet move before every
   * capture, and hold exactly the generated moves: every triple is one, and
   * every one is a triple.
   */
  lemma GatheredSpec(attack: nat -> int, mine: int, empty: int, opp: int)
    requires mine >= 0 && empty >= 0 && opp >= 0
    ensures Positive(Positions(mine, 1))
    ensures var st := Gathered(attack, Positions(mine, 1), empty, opp);
      |st.srcs| == |st.dests| == |st.captures| &&
      (forall k, k' :: 0 <= k < k' < |st.captures| && st.captures[k] ==> st.captures[k']) &&
      (forall k :: 0 <= k < |st.srcs| ==>
        PieceMove(attack, mine, empty, opp, st.srcs[k], st.dests[k], st.captures[k])) &&
      (forall p, d, c :: PieceMove(attack, mine, empty, opp, p, d, c) ==>
        exists k :: 0 <= k < |st.srcs| && st.srcs[k] == p && st.dests[k] == d && st.captures[k] == c)
  {
    var ps := Positions(mine, 1);
    PositionsPositive(mine);
    SpreadSpec(attack, ps, empty);
    SpreadSpec(attack, ps, opp);
    var st := Gathered(attack, ps, empty, opp);
    forall k | 0 <= k < |st.srcs|
      ensures PieceMove(attack, mine, empty, opp, st.srcs[k], st.dests[k], st.captures[k])
    {
      GatheredSound(attack, mine, empty, opp, k);
    }
    forall p, d, c | PieceMove(attack, mine, empty, opp, p, d, c)
      ensures exists k :: 0 <= k < |st.srcs| && st.srcs[k] == p && st.dests[k] == d && st.captures[k] == c
    {
      GatheredComplete(attack, mine, empty, opp, p, d, c);
    }
  }

  // ----- what each kind generates -----

  /** A knight moves to the squares a knight's jump away; no destination wraps around an edge. */
  lemma KnightMoveIs(occp: int, mine: int, empty: int, opp: int, p: int, d: int, c: bool)
    requires IsBoard(mine)
    ensures PieceMove(AttackOf(Knight, occp), mine, empty, opp, p, d, c) <==>
      p >= 1 && Bit(mine, p - 1) && d >= 1 && KnightJump(p - 1, d - 1) && Bit(if c then opp else empty, d - 1)
  {
    if p >= 1 && Bit(mine, p - 1) {
      if p - 1 >= 64 { BoardBits(mine, p - 1); }
      if d >= 1 { KnightMaskBit(p, d - 1); }
    }
  }

  /**
   * `King.get_valid_moves` offers every king step and, as it applies no file
   * mask, the squares a shift wraps onto the opposite edge file.
   */
  lemma KingMoveIs(occp: int, mine: int, empty: int, opp: int, p: int, d: int, c: bool)
    requires IsBoard(mine)
    ensures PieceMove(AttackOf(King, occp), mine, empty, opp, p, d, c) <==>
      p >= 1 && Bit(mine, p - 1) && d >= 1 && (KingStep(p - 1, d - 1) || KingWrap(p - 1, d - 1)) &&
      Bit(if c then opp else empty, d - 1)
  {
    if p >= 1 && Bit(mine, p - 1) {
      if p - 1 >= 64 { BoardBits(mine, p - 1); }
      if d >= 1 { KingMaskBit(p, d - 1); }
    }
  }

  /**
   * A bishop, rook or queen moves along each of its directions up to and
   * including the first occupied square.
   */
  lemma SliderMoveIs(kind: Kind, occp: int, mine: int, empty: int, opp: int, p: int, d: int, c: bool)
    requires kind == Bishop || kind == Rook || kind == Queen
    ensures PieceMove(AttackOf(kind, occp), mine, empty, opp, p, d, c) <==>
      p >= 1 && Bit(mine, p - 1) && d >= 1 &&
      SliderReach(kind, occp, p - 1, d - 1) &&
      Bit(if c then opp else empty, d - 1)
  {
    if p >= 1 && d >= 1 {
      var i: nat, j: nat := p - 1, d - 1;
      SliderAttack(kind, occp, i, j);
    }
  }

  /** Square j lies on one of the kind's rays from square i, up to the first blocker. */
  predicate SliderReach(kind: Kind, occp: int, i: int, j: int)
  {
    i >= 0 && j >= 0 && exists k :: 0 <= k < |AttackDirs(kind)| && InAttack(i, AttackDirs(kind)[k], occp, j)
  }

  lemma SliderAttack(kind: Kind, occp: int, i: nat, j: nat)
    requires kind == Bishop || kind == Rook || kind == Queen
    ensures Bit(AttackOf(kind, occp)(i), j) <==> SliderReach(kind, occp, i, j)
  {
    assert AttackOf(kind, occp)(i) == RayAttack(i, occp, AttackDirs(kind));
    RayAttackBit(i, occp, AttackDirs(kind), j);
  }

  /** `uint64(~empty)` holds exactly the squares some bitboard holds. */
  lemma OccupiedIsNonEmpty(bbs: seq<int>, i: nat)
    requires |bbs| > 0
    ensures Bit(UInt64(Not(EmptyBb(bbs).value)), i) <==> Bit(NonEmptyBb(bbs).value, i)
  {
    UInt64Bit(Not(Union(bbs)), i);
    UInt64Bit(Not(UInt64(Not(Union(bbs)))), i);
    BitNot(Union(bbs), i);
    BitNot(UInt64(Not(Union(bbs))), i);
    UInt64Bit(Union(bbs), i);
  }

  /**
   * The non-pawn generators fail exactly when the piece has no entry or the
   * opponent none at all; otherwise the streams are parallel, quiet moves
   * come first, and they hold exactly the moves from the piece's squares to
   * the empty and the opponent's squares of its attack masks.
   */
  lemma PieceMovesSpec(m: Mapping, piece: Piece)
    requires piece.kind != Pawn && NonNegative(m)
    ensures PieceMoves(m, piece).None? <==> Lookup(m, piece).None? || |Bbs4OppPlayer(m, piece.player)| == 0
    ensures PieceMoves(m, piece).Some? ==>
      var st := PieceMoves(m, piece).value;
      var mine := Lookup(m, piece).value;
      var empty := EmptyBb(Values(m)).value;
      var opp := NonEmptyBb(Values(Bbs4OppPlayer(m, piece.player))).value;
      var attack := AttackOf(piece.kind, UInt64(Not(empty)));
      |st.srcs| == |st.dests| == |st.captures| &&
      (forall k, k' :: 0 <= k < k' < |st.captures| && st.captures[k] ==> st.captures[k']) &&
      (forall k :: 0 <= k < |st.srcs| ==> PieceMove(attack, mine, empty, opp, st.srcs[k], st.dests[k], st.captures[k])) &&
      (forall p, d, c :: PieceMove(attack, mine, empty, opp, p, d, c) ==>
        exists k :: 0 <= k < |st.srcs| && st.srcs[k] == p && st.dests[k] == d && st.captures[k] == c)
  {
    PlayerPartition(m, piece.player);
    if PieceMoves(m, piece).Some? {
      LookupNonNegative(m, piece);
      var empty := EmptyBb(Values(m)).value;
      GatheredSpec(AttackOf(piece.kind, UInt64(Not(empty))), Lookup(m, piece).value, empty,
        NonEmptyBb(Values(Bbs4OppPlayer(m, piece.player))).value);
    }
  }

  /**
   * `piece.get_valid_moves` fails exactly when the piece has no entry or the
   * opponent none at all; otherwise its streams are parallel and list every
   * quiet move before every capture.
   */
  lemma ValidMovesSpec(m: Mapping, piece: Piece, prev: Option<Move<Piece>>)
    requires NonNegative(m)
    ensures ValidMoves(m, piece, prev).None? <==> Lookup(m, piece).None? || |Bbs4OppPlayer(m, piece.player)| == 0
    ensures ValidMoves(m, piece, prev).Some? ==>
      var st := ValidMoves(m, piece, prev).value;
      |st.srcs| == |st.dests| == |st.captures| &&
      forall k, k' :: 0 <= k < k' < |st.captures| && st.captures[k] ==> st.captures[k']
  {
    if piece.kind == Pawn {
      PawnMovesSpec(m, piece.player, prev);
      if PawnMoves(m, piece.player, prev).Some? {
        PawnStreamsSpec(piece.player, Lookup(m, piece).value, EmptyBb(Values(m)).value,
          NonEmptyBb(Values(Bbs4OppPlayer(m, piece.player))).value, prev);
      }
    } else {
      PieceMovesSpec(m, piece);
    }
  }

  // ----- the generators as loops -----

  /** One more square of the loop: its targets and as many copies of it are appended. */
  lemma SpreadSnoc(attack: nat -> int, ps: seq<nat>, target: int, j: nat)
    requires Positive(ps) && target >= 0 && j < |ps|
    ensures Positive(ps[..j]) && Positive(ps[..j + 1]) && ps[j] >= 1
    ensures var r := Spread(attack, ps[..j], target);
      var ds := Targets(attack, ps[j], target);
      Spread(attack, ps[..j + 1], target) == (r.0 + Rep(ps[j], |ds|), r.1 + ds)
  {
    assert ps[..j + 1][..j] == ps[..j];
  }

  /** The attack mask of the piece on 1-based square p, as the three generators compute it. */
  method ComputeAttack(kind: Kind, p: int, occp: int) returns (attack: int)
    requires kind != Pawn && p >= 1
    ensures attack == AttackAt(kind, occp, p - 1)
  {
    var i: nat := p - 1;
    if kind == Knight {
      attack := KnightMask(i + 1);
    } else if kind == King {
      attack := KingMask(i + 1);
    } else {
      attack := RayMoves(i, occp, AttackDirs(kind));
    }
  }

  /** One square of the loop: `get_bit_positions(attack & empty)` and `get_bit_positions(attack & bbs4_oppp)`. */
  method SquareTargets(kind: Kind, p: int, occp: int, empty: int, opp: int) returns (quiet: seq<nat>, captures: seq<nat>)
    requires kind != Pawn && p >= 1 && empty >= 0 && opp >= 0
    ensures quiet == Targets(AttackOf(kind, occp), p, empty)
    ensures captures == Targets(AttackOf(kind, occp), p, opp)
  {
    var attack := ComputeAttack(kind, p, occp);
    assert AttackOf(kind, occp)(p - 1) == attack;
    AndNonNegativeRight(attack, empty);
    AndNonNegativeRight(attack, opp);
    quiet := GetBitPositions(And(attack, empty));
    captures := GetBitPositions(And(attack, opp));
  }

  /** The loop shared by `Knight.get_valid_moves`, `valid_ray_moves` and `King.get_valid_moves`. */
  method Gather(kind: Kind, pbb: int, occp: int, empty: int, opp: int) returns (st: Streams)
    requires kind != Pawn && pbb >= 0 && empty >= 0 && opp >= 0
    ensures Positive(Positions(pbb, 1))
    ensures st == Gathered(AttackOf(kind, occp), Positions(pbb, 1), empty, opp)
  {
    PositionsPositive(pbb);
    var ps := GetBitPositions(pbb);
    ghost var attackOf := AttackOf(kind, occp);
    var srcEmpty: seq<int>, srcCapture: seq<int>, destEmpty: seq<int>, destCapture: seq<int> := [], [], [], [];
    for j := 0 to |ps|
      invariant (srcEmpty, destEmpty) == Spread(attackOf, ps[..j], empty)
      invariant (srcCapture, destCapture) == Spread(attackOf, ps[..j], opp)
    {
      SpreadSnoc(attackOf, ps, empty, j);
      SpreadSnoc(attackOf, ps, opp, j);
      var p := ps[j];
      var pDestEmpty, pDestCapture := SquareTargets(kind, p, occp, empty, opp);
      srcEmpty := srcEmpty + Rep(p, |pDestEmpty|);
      srcCapture := srcCapture + Rep(p, |pDestCapture|);
      destEmpty := destEmpty + pDestEmpty;
      destCapture := destCapture + pDestCapture;
    }
    assert ps[..|ps|] == ps;
    st := Streams(srcEmpty + srcCapture, destEmpty + destCapture, Flags(false, |destEmpty|) + Flags(true, |destCapture|));
  }

  /** `piece.get_valid_moves(board, prev_move)`, as the streams it hands to `PieceMoveList`. */
  method ValidStreams(m: Mapping, piece: Piece, prev: Option<Move<Piece>>) returns (r: Option<Streams>)
    requires NonNegative(m)
    ensures r == ValidMoves(m, piece, prev)
  {
    var mine := Lookup(m, piece);
    var empty := EmptyBb(Values(m));
    var opp := NonEmptyBb(Values(Bbs4OppPlayer(m, piece.player)));
    if mine.None? || empty.None? || opp.None? {
      return None;
    }
    var st: Streams;
    if piece.kind == Pawn {
      st := PawnGather(piece.player, mine.value, empty.value, opp.value, prev);
    } else {
      LookupNonNegative(m, piece);
      st := Gather(piece.kind, mine.value, UInt64(Not(empty.value)), empty.value, opp.value);
    }
    r := Some(st);
  }

  /** `piece.get_valid_moves(board, prev_move)`: a fresh single-pass move list, or the failure. */
  method GetValidMoves(m: Mapping, piece: Piece, prev: Option<Move<Piece>>) returns (r: Option<PieceMoveList<Piece>>)
    requires NonNegative(m)
    ensures r.None? <==> ValidMoves(m, piece, prev).None?
    ensures r.Some? ==>
      var st := ValidMoves(m, piece, prev).value;
      fresh(r.value) && r.value.piece == piece &&
      r.value.srcs == st.srcs && r.value.dests == st.dests && r.value.isCaptures == st.captures
  {
    var st := ValidStreams(m, piece, prev);
    if st.None? {
      return None;
    }
    var l := new PieceMoveList(piece, st.value.srcs, st.value.dests, st.value.captures);
    r := Some(l);
  }

  // ----- pattern tables -----

  /** The 1-based square of the k-th piece of a bitboard lies on the board. */
  lemma PositionOnBoard(x: int, k: nat)
    requires IsBoard(x) && k < |Positions(x, 1)|
    ensures 1 <= Positions(x, 1)[k] <= 64
  {
    var p := Positions(x, 1)[k];
    PositionsMem(x, 1, p);
    if p - 1 >= 64 { BoardBits(x, p - 1); }
  }

  lemma KnightPatternAt(x: int, k: nat, j: nat)
    requires IsBoard(x) && k < |Positions(x, 1)|
    ensures Bit(KnightMask(Positions(x, 1)[k]), j) <==> KnightJump(Positions(x, 1)[k] as int - 1, j)
  {
    PositionOnBoard(x, k);
    KnightMaskBit(Positions(x, 1)[k], j);
  }

  lemma KingPatternAt(x: int, k: nat, j: nat)
    requires IsBoard(x) && k < |Positions(x, 1)|
    ensures Bit(KingPattern(Positions(x, 1)[k]), j) <==> KingStep(Positions(x, 1)[k] as int - 1, j)
  {
    PositionOnBoard(x, k);
    KingPatternBit(Positions(x, 1)[k], j);
  }

  /**
   * `get_knight_patterns(meknights)`: the knight mask of every knight, in
   * square order; on a 64-bit board each is exactly the knight's jumps.
   */
  method GetKnightPatterns(meknights: int) returns (mapping: seq<int>)
    requires meknights >= 0
    ensures |mapping| == |Positions(meknights, 1)|
    ensures forall k :: 0 <= k < |mapping| ==> mapping[k] == KnightMask(Positions(meknights, 1)[k])
    ensures IsBoard(meknights) ==> forall k: nat, j: nat :: k < |mapping| ==>
      (Bit(mapping[k], j) <==> KnightJump(Positions(meknights, 1)[k] as int - 1, j))
  {
    var isolated := GetBitPositions(meknights);
    mapping := [];
    for j := 0 to |isolated|
      invariant |mapping| == j
      invariant forall k :: 0 <= k < j ==> mapping[k] == KnightMask(isolated[k])
    {
      mapping := mapping + [KnightMask(isolated[j])];
    }
    if IsBoard(meknights) {
      forall k: nat, j: nat | k < |mapping| ensures Bit(mapping[k], j) <==> KnightJump(isolated[k] as int - 1, j) {
        assert mapping[k] == KnightMask(isolated[k]);
        KnightPatternAt(meknights, k, j);
      }
    }
  }

  /**
   * `get_king_patterns(mekings)`: the king mask of every king, in square
   * order, with the far file cleared on the edge files; on a 64-bit board
   * each is exactly the king's steps.
   */
  method GetKingPatterns(mekings: int) returns (mapping: seq<int>)
    requires mekings >= 0
    ensures |mapping| == |Positions(mekings, 1)|
    ensures forall k :: 0 <= k < |mapping| ==> mapping[k] == KingPattern(Positions(mekings, 1)[k])
    ensures IsBoard(mekings) ==> forall k: nat, j: nat :: k < |mapping| ==>
      (Bit(mapping[k], j) <==> KingStep(Positions(mekings, 1)[k] as int - 1, j))
  {
    var isolated := GetBitPositions(mekings);
    mapping := [];
    for j := 0 to |isolated|
      invariant |mapping| == j
      invariant forall k :: 0 <= k < j ==> mapping[k] == KingPattern(isolated[k])
    {
      mapping := mapping + [KingPattern(isolated[j])];
    }
    if IsBoard(mekings) {
      forall k: nat, j: nat | k < |mapping| ensures Bit(mapping[k], j) <==> KingStep(isolated[k] as int - 1, j) {
        assert mapping[k] == KingPattern(isolated[k]);
        KingPatternAt(mekings, k, j);
      }
    }
  }
}
