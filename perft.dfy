// movegen/src/perft.rs: `run_for`, a node counter that walks the game tree
// from a start board with a vector used as a stack, counting every board it
// pops under its half-move count and expanding it unless that count has
// reached the depth. The board is abstract here: its half-move count, its
// side to move, its move list and a `make_move` that may reject a move are
// parameters (`Game`), as are the moves, which are this model's `Move`s.
module Perft {
  import opened BoardUtils
  import opened MovegenMoves

  /** `PERFT_NODE_COUNT`: the known node counts from the standard start position, depths 0 .. 6. */
  const PerftNodeCount: seq<nat> := [1, 20, 400, 8902, 197281, 4865609, 119060324]

  /**
   * The board operations `run_for` relies on: `half_move_count`, the move
   * list `board.move_list(board.player, ..)` fills in, and `make_move`, which
   * returns no board for a move it rejects.
   */
  datatype Game<!B> = Game(halfMoves: B -> nat, moves: B -> seq<Move>, makeMove: (B, Move) -> Option<B>)

  /** The boards `filter_map(make_move)` gives for a list of moves, in order. */
  function Made<B(!new)>(g: Game<B>, b: B, ms: seq<Move>): (r: seq<B>)
    ensures |r| <= |ms|
  {
    if ms == [] then []
    else
      var r := Made(g, b, ms[..|ms| - 1]);
      match g.makeMove(b, ms[|ms| - 1])
      case Some(c) => r + [c]
      case None => r
  }

  /** The children of a board: the boards its moves lead to. */
  function Children<B(!new)>(g: Game<B>, b: B): seq<B>
  {
    Made(g, b, g.moves(b))
  }

  /** `make_move` gives a board one half-move further on. */
  ghost predicate Advances<B(!new)>(g: Game<B>)
  {
    forall b, m, c :: g.makeMove(b, m) == Some(c) ==> g.halfMoves(c) == g.halfMoves(b) + 1
  }

  /**
   * The boards popped from the subtree of b, in the order of a stack walk:
   * b, then, unless b is at the depth, the subtrees of its children from the
   * last child to the first.
   */
  ghost function Preorder<B(!new)>(g: Game<B>, depth: nat, b: B): seq<B>
    requires Advances(g) && g.halfMoves(b) <= depth
    decreases depth + 1 - g.halfMoves(b), 0
  {
    MadeLevel(g, b, g.moves(b));
    [b] + if g.halfMoves(b) < depth then Pending(g, depth, Children(g, b), g.halfMoves(b) + 1) else []
  }

  /**
   * The boards a stack holding s will be popped in: the subtree of its top,
   * then of the rest. lvl is a lower bound on the stack's half-move counts.
   */
  ghost function Pending<B(!new)>(g: Game<B>, depth: nat, s: seq<B>, lvl: nat): seq<B>
    requires Advances(g) && lvl <= depth + 1
    requires forall c :: c in s ==> lvl <= g.halfMoves(c) <= depth
    decreases depth + 1 - lvl, 1, |s|
  {
    if s == [] then [] else Preorder(g, depth, s[|s| - 1]) + Pending(g, depth, s[..|s| - 1], lvl)
  }

  /** The number of boards of s with k half-moves. */
  function Occurrences<B(!new)>(g: Game<B>, s: seq<B>, k: nat): nat
  {
    if s == [] then 0 else Occurrences(g, s[..|s| - 1], k) + if g.halfMoves(s[|s| - 1]) == k then 1 else 0
  }

  /** The count a map holds for a key: 0 when the key is absent. */
  function Get(counts: map<nat, nat>, k: nat): nat
  {
    if k in counts then counts[k] else 0
  }

  // ----- the traversal -----

  /**
   * `run_for(start_board, depth)`. The depth indexes `PERFT_NODE_COUNT` for
   * the stack's capacity, so it is at most 6, and the walk ends only if the
   * start board is not already past the depth. The map counts, for every
   * half-move count, the boards of the tree with that count, and has a key
   * exactly for the counts that occur; `visits`, the order the boards are
   * popped in, is the last-in-first-out walk.
   */
  method RunFor<B(!new)>(g: Game<B>, start: B, depth: nat) returns (counts: map<nat, nat>, ghost visits: seq<B>)
    requires Advances(g) && depth < |PerftNodeCount| && g.halfMoves(start) <= depth
    ensures visits == Preorder(g, depth, start)
    ensures forall k :: Get(counts, k) == Occurrences(g, Preorder(g, depth, start), k)
    ensures forall k :: k in counts <==> Occurrences(g, Preorder(g, depth, start), k) > 0
  {
    var queue: seq<B> := [start];
    var moveList := new MoveList();
    counts := map[];
    visits := [];
    PendingOne(g, depth, start);
    while queue != []
      invariant forall c :: c in queue ==> g.halfMoves(c) <= depth
      invariant visits + Pending(g, depth, queue, 0) == Preorder(g, depth, start)
      invariant forall k :: Get(counts, k) == Occurrences(g, visits, k)
      invariant forall k :: k in counts ==> counts[k] > 0
      decreases |Pending(g, depth, queue, 0)|
    {
      ghost var q0, v0 := queue, visits;
      var board := queue[|queue| - 1];
      queue := queue[..|queue| - 1];
      assert q0 == queue + [board];
      var h := g.halfMoves(board);
      counts := Tally(counts, h);
      OccurrencesSnoc(g, visits, board);
      visits := visits + [board];
      if h < depth {
        queue := PushChildren(g, board, queue, moveList);
      }
      WalkStep(g, depth, start, v0, q0[..|q0| - 1], board, queue);
    }
    assert visits + [] == visits;
  }

  /** `node_counts.entry(h).and_modify(|n| *n += 1).or_insert(1)`. */
  method Tally(counts: map<nat, nat>, h: nat) returns (r: map<nat, nat>)
    requires forall k :: k in counts ==> counts[k] > 0
    ensures forall k :: Get(r, k) == Get(counts, k) + if k == h then 1 else 0
    ensures forall k :: k in r ==> r[k] > 0
    ensures r.Keys == counts.Keys + {h}
  {
    if h in counts {
      r := counts[h := counts[h] + 1];
    } else {
      r := counts[h := 1];
    }
  }

  /**
   * `move_list.clear()`, `board.move_list(board.player, &mut move_list)`,
   * then every board `make_move` gives pushed in the order of the list.
   */
  method PushChildren<B(!new)>(g: Game<B>, board: B, queue: seq<B>, moveList: MoveList) returns (r: seq<B>)
    modifies moveList
    ensures r == queue + Children(g, board)
    ensures moveList.moves == g.moves(board)
  {
    moveList.Clear();
    moveList.PushFrom(g.moves(board));
    r := queue;
    var j := 0;
    while j < |moveList.moves|
      invariant 0 <= j <= |moveList.moves| && moveList.moves == g.moves(board)
      invariant r == queue + Made(g, board, moveList.moves[..j])
      decreases |moveList.moves| - j
    {
      var mov := moveList.moves[j];
      assert moveList.moves[..j + 1][..j] == moveList.moves[..j];
      match g.makeMove(board, mov) {
        case Some(next) => r := r + [next];
        case None =>
      }
      j := j + 1;
    }
    assert moveList.moves[..j] == g.moves(board);
  }

  /** One pass of the loop keeps the walk invariant: the popped board joins the visits. */
  lemma WalkStep<B(!new)>(g: Game<B>, depth: nat, start: B, visits: seq<B>, s: seq<B>, b: B, s': seq<B>)
    requires Advances(g) && g.halfMoves(start) <= depth && g.halfMoves(b) <= depth
    requires forall c :: c in s ==> g.halfMoves(c) <= depth
    requires visits + Pending(g, depth, s + [b], 0) == Preorder(g, depth, start)
    requires s' == if g.halfMoves(b) < depth then s + Children(g, b) else s
    ensures forall c :: c in s' ==> g.halfMoves(c) <= depth
    ensures (visits + [b]) + Pending(g, depth, s', 0) == Preorder(g, depth, start)
    ensures |Pending(g, depth, s', 0)| < |Pending(g, depth, s + [b], 0)|
  {
    var rest := Pending(g, depth, s, 0);
    assert Pending(g, depth, s + [b], 0) == Preorder(g, depth, b) + rest by {
      PopTop(g, depth, s, b);
    }
    if g.halfMoves(b) < depth {
      assert Preorder(g, depth, b) + rest == [b] + Pending(g, depth, s', 0) by {
        PopInner(g, depth, s, b);
      }
    } else {
      assert Preorder(g, depth, b) == [b] by {
        PopLeaf(g, depth, s, b);
      }
    }
    Rebracket(visits, [b], Preorder(g, depth, b), rest, Pending(g, depth, s', 0));
  }

  lemma Rebracket<B>(v: seq<B>, x: seq<B>, p: seq<B>, r: seq<B>, q: seq<B>)
    requires p + r == x + q
    ensures v + (p + r) == (v + x) + q
  {}

  // ----- the stack walk, step by step -----

  /** The boards made on b are one half-move further on. */
  lemma {:induction false} MadeLevel<B(!new)>(g: Game<B>, b: B, ms: seq<Move>)
    requires Advances(g)
    ensures forall c :: c in Made(g, b, ms) ==> g.halfMoves(c) == g.halfMoves(b) + 1
  {
    if ms != [] {
      MadeLevel(g, b, ms[..|ms| - 1]);
    }
  }

  /** The walk of a stack holding only the start board is the start board's subtree. */
  lemma PendingOne<B(!new)>(g: Game<B>, depth: nat, b: B)
    requires Advances(g) && g.halfMoves(b) <= depth
    ensures Pending(g, depth, [b], 0) == Preorder(g, depth, b)
  {
    assert [b][..0] == [];
  }

  /** Counting a walk one board longer. */
  lemma OccurrencesSnoc<B(!new)>(g: Game<B>, s: seq<B>, b: B)
    ensures forall k :: Occurrences(g, s + [b], k) == Occurrences(g, s, k) + if g.halfMoves(b) == k then 1 else 0
  {
    assert (s + [b])[..|s|] == s;
  }

  /** Popping the top board: its subtree comes first. */
  lemma PopTop<B(!new)>(g: Game<B>, depth: nat, s: seq<B>, b: B)
    requires Advances(g) && g.halfMoves(b) <= depth
    requires forall c :: c in s ==> g.halfMoves(c) <= depth
    ensures Pending(g, depth, s + [b], 0) == Preorder(g, depth, b) + Pending(g, depth, s, 0)
  {
    assert (s + [b])[..|s|] == s;
  }

  /** A board at the depth is counted and not expanded. */
  lemma PopLeaf<B(!new)>(g: Game<B>, depth: nat, s: seq<B>, b: B)
    requires Advances(g) && g.halfMoves(b) == depth
    ensures Preorder(g, depth, b) == [b]
  {}

  /** The lower bound of a walk does not change it. */
  lemma {:induction false} PendingLevel<B(!new)>(g: Game<B>, depth: nat, s: seq<B>, a: nat, a': nat)
    requires Advances(g) && a <= depth + 1 && a' <= depth + 1
    requires forall c :: c in s ==> a <= g.halfMoves(c) <= depth && a' <= g.halfMoves(c)
    ensures Pending(g, depth, s, a) == Pending(g, depth, s, a')
    decreases |s|
  {
    if s != [] {
      PendingLevel(g, depth, s[..|s| - 1], a, a');
    }
  }

  /** The walk of a stack built from two parts: the upper part's walk comes first. */
  lemma {:induction false} PendingConcat<B(!new)>(g: Game<B>, depth: nat, s: seq<B>, t: seq<B>)
    requires Advances(g)
    requires forall c :: c in s + t ==> g.halfMoves(c) <= depth
    ensures Pending(g, depth, s + t, 0) == Pending(g, depth, t, 0) + Pending(g, depth, s, 0)
    decreases |t|
  {
    if t == [] {
      assert s + t == s;
    } else {
      var u := t[..|t| - 1];
      assert (s + t)[..|s + t| - 1] == s + u;
      assert (s + t)[|s + t| - 1] == t[|t| - 1];
      PendingConcat(g, depth, s, u);
    }
  }

  /**
   * Expanding a board below the depth: the stack's walk after pushing its
   * children is, with the board in front, the walk before popping it.
   */
  lemma PopInner<B(!new)>(g: Game<B>, depth: nat, s: seq<B>, b: B)
    requires Advances(g) && g.halfMoves(b) < depth
    requires forall c :: c in s ==> g.halfMoves(c) <= depth
    ensures forall c :: c in s + Children(g, b) ==> g.halfMoves(c) <= depth
    ensures Preorder(g, depth, b) + Pending(g, depth, s, 0) == [b] + Pending(g, depth, s + Children(g, b), 0)
  {
    var cs, lvl := Children(g, b), g.halfMoves(b) + 1;
    assert forall c :: c in cs ==> g.halfMoves(c) == lvl by {
      MadeLevel(g, b, g.moves(b));
    }
    assert Preorder(g, depth, b) == [b] + Pending(g, depth, cs, lvl);
    Splice(g, depth, s, b, cs, lvl);
  }

  /** Pushing the children of b onto s: the walk of b's children, then of s. */
  lemma Splice<B(!new)>(g: Game<B>, depth: nat, s: seq<B>, b: B, cs: seq<B>, lvl: nat)
    requires Advances(g) && lvl <= depth
    requires forall c :: c in cs ==> g.halfMoves(c) == lvl
    requires forall c :: c in s ==> g.halfMoves(c) <= depth
    ensures forall c :: c in s + cs ==> g.halfMoves(c) <= depth
    ensures ([b] + Pending(g, depth, cs, lvl)) + Pending(g, depth, s, 0) == [b] + Pending(g, depth, s + cs, 0)
  {
    var below, rest := Pending(g, depth, cs, lvl), Pending(g, depth, s, 0);
    assert below == Pending(g, depth, cs, 0) by {
      PendingLevel(g, depth, cs, lvl, 0);
    }
    assert Pending(g, depth, s + cs, 0) == Pending(g, depth, cs, 0) + rest by {
      PendingConcat(g, depth, s, cs);
    }
    assert ([b] + below) + rest == [b] + (below + rest);
  }

  // ----- what the counts hold -----

  lemma {:induction false} OccurrencesConcat<B(!new)>(g: Game<B>, a: seq<B>, b: seq<B>, k: nat)
    ensures Occurrences(g, a + b, k) == Occurrences(g, a, k) + Occurrences(g, b, k)
    decreases |b|
  {
    if b == [] {
      assert a + b == a;
    } else {
      assert (a + b)[..|a + b| - 1] == a + b[..|b| - 1];
      OccurrencesConcat(g, a, b[..|b| - 1], k);
    }
  }

  lemma {:induction false} OccurrencesNone<B(!new)>(g: Game<B>, s: seq<B>, k: nat)
    requires forall x :: x in s ==> g.halfMoves(x) != k
    ensures Occurrences(g, s, k) == 0
    decreases |s|
  {
    if s != [] {
      assert s[|s| - 1] in s;
      OccurrencesNone(g, s[..|s| - 1], k);
    }
  }

  /** Every board of a subtree lies between its root's half-move count and the depth. */
  lemma {:induction false} PreorderBounds<B(!new)>(g: Game<B>, depth: nat, b: B)
    requires Advances(g) && g.halfMoves(b) <= depth
    ensures forall x :: x in Preorder(g, depth, b) ==> g.halfMoves(b) <= g.halfMoves(x) <= depth
    decreases depth + 1 - g.halfMoves(b), 0
  {
    var h := g.halfMoves(b);
    if h < depth {
      var cs := Children(g, b);
      MadeLevel(g, b, g.moves(b));
      PendingBounds(g, depth, cs, h + 1);
    }
  }

  lemma {:induction false} PendingBounds<B(!new)>(g: Game<B>, depth: nat, s: seq<B>, lvl: nat)
    requires Advances(g) && lvl <= depth + 1
    requires forall c :: c in s ==> lvl <= g.halfMoves(c) <= depth
    ensures forall x :: x in Pending(g, depth, s, lvl) ==> lvl <= g.halfMoves(x) <= depth
    decreases depth + 1 - lvl, 1, |s|
  {
    if s != [] {
      assert s[|s| - 1] in s;
      PreorderBounds(g, depth, s[|s| - 1]);
      PendingBounds(g, depth, s[..|s| - 1], lvl);
    }
  }

  /** A stack of boards all at one level contributes one board per entry at that level. */
  lemma {:induction false} PendingAtLevel<B(!new)>(g: Game<B>, depth: nat, s: seq<B>, lvl: nat)
    requires Advances(g) && lvl <= depth
    requires forall c :: c in s ==> g.halfMoves(c) == lvl
    ensures Occurrences(g, Pending(g, depth, s, lvl), lvl) == |s|
    decreases |s|
  {
    if s != [] {
      var c := s[|s| - 1];
      assert c in s;
      var p := Preorder(g, depth, c);
      assert Occurrences(g, p, lvl) == 1 by {
        assert p == [c] + p[1..];
        if lvl < depth {
          MadeLevel(g, c, g.moves(c));
          PendingBounds(g, depth, Children(g, c), lvl + 1);
          OccurrencesNone(g, p[1..], lvl);
        }
        OccurrencesConcat(g, [c], p[1..], lvl);
        assert [c][..0] == [];
      }
      PendingAtLevel(g, depth, s[..|s| - 1], lvl);
      OccurrencesConcat(g, p, Pending(g, depth, s[..|s| - 1], lvl), lvl);
    }
  }

  /**
   * The counts of a walk from b: none outside b's half-move count up to the
   * depth, one for b itself, and, below the depth, one per board its moves
   * lead to at the next level (the perft count of depth one).
   */
  lemma PreorderCounts<B(!new)>(g: Game<B>, depth: nat, b: B, k: nat)
    requires Advances(g) && g.halfMoves(b) <= depth
    ensures k < g.halfMoves(b) || depth < k ==> Occurrences(g, Preorder(g, depth, b), k) == 0
    ensures Occurrences(g, Preorder(g, depth, b), g.halfMoves(b)) == 1
    ensures g.halfMoves(b) < depth ==> Occurrences(g, Preorder(g, depth, b), g.halfMoves(b) + 1) == |Children(g, b)|
  {
    CountsOutside(g, depth, b, k);
    CountsRoot(g, depth, b);
    if g.halfMoves(b) < depth {
      CountsNext(g, depth, b);
    }
  }

  lemma CountsOutside<B(!new)>(g: Game<B>, depth: nat, b: B, k: nat)
    requires Advances(g) && g.halfMoves(b) <= depth
    ensures k < g.halfMoves(b) || depth < k ==> Occurrences(g, Preorder(g, depth, b), k) == 0
  {
    if k < g.halfMoves(b) || depth < k {
      PreorderBounds(g, depth, b);
      OccurrencesNone(g, Preorder(g, depth, b), k);
    }
  }

  lemma CountsRoot<B(!new)>(g: Game<B>, depth: nat, b: B)
    requires Advances(g) && g.halfMoves(b) <= depth
    ensures Occurrences(g, Preorder(g, depth, b), g.halfMoves(b)) == 1
  {
    var h := g.halfMoves(b);
    assert Pending(g, depth, [b], h) == Preorder(g, depth, b) by {
      assert [b][..0] == [];
    }
    PendingAtLevel(g, depth, [b], h);
  }

  lemma CountsNext<B(!new)>(g: Game<B>, depth: nat, b: B)
    requires Advances(g) && g.halfMoves(b) < depth
    ensures Occurrences(g, Preorder(g, depth, b), g.halfMoves(b) + 1) == |Children(g, b)|
  {
    var h, cs := g.halfMoves(b), Children(g, b);
    assert forall c :: c in cs ==> g.halfMoves(c) == h + 1 by {
      MadeLevel(g, b, g.moves(b));
    }
    var below := Pending(g, depth, cs, h + 1);
    assert Preorder(g, depth, b) == [b] + below;
    assert Occurrences(g, below, h + 1) == |cs| by {
      PendingAtLevel(g, depth, cs, h + 1);
    }
    assert Occurrences(g, [b], h + 1) == 0 by {
      assert [b][..0] == [];
    }
    OccurrencesConcat(g, [b], below, h + 1);
  }
}
