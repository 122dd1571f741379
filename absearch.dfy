// analysis/absearch.py: fail-soft alpha-beta search over an abstract
// successor relation. The bounds -inf and +inf are the ends of an extended
// integer line. The successor's `next` plays two roles in the source: it
// gives a terminal state's score and a non-terminal state's successors; the
// model keeps them apart as `score` and `next`.
module AbSearch {
  /** Scores with the two infinities the search starts its window with. */
  datatype ExtInt = NegInf | Fin(n: int) | PosInf

  predicate Le(x: ExtInt, y: ExtInt)
  {
    match (x, y)
    case (NegInf, _) => true
    case (_, PosInf) => true
    case (Fin(m), Fin(n)) => m <= n
    case _ => false
  }

  predicate Lt(x: ExtInt, y: ExtInt)
  {
    !Le(y, x)
  }

  /** Python's `min` of two numbers. */
  function Min(x: ExtInt, y: ExtInt): (r: ExtInt)
    ensures Le(r, x) && Le(r, y)
    ensures r == x || r == y
  {
    if Le(x, y) then x else y
  }

  /** Python's `max` of two numbers. */
  function Max(x: ExtInt, y: ExtInt): (r: ExtInt)
    ensures Le(x, r) && Le(y, r)
    ensures r == x || r == y
  {
    if Le(x, y) then y else x
  }

  /**
   * The `Successor` interface: `is_term(state, depth)`, the states
   * `next(state, depth)` lists for a non-terminal state, and the score it
   * returns for a terminal one.
   */
  datatype Successor<!S> = Successor(isTerm: (S, nat) -> bool, next: (S, nat) -> seq<S>, score: (S, nat) -> int)

  /**
   * A rank that every successor of a non-terminal state lies strictly below:
   * the state graph the search explores is acyclic and finite along every
   * path.
   */
  ghost predicate Ranked<S(!new)>(succ: Successor<S>, rank: S -> nat)
  {
    forall s, d: nat, i :: !succ.isTerm(s, d) && 0 <= i < |succ.next(s, d)| ==> rank(succ.next(s, d)[i]) < rank(s)
  }

  /** The better of two values for the side to move. */
  function Best(maxNode: bool, x: ExtInt, y: ExtInt): ExtInt
  {
    if maxNode then Max(x, y) else Min(x, y)
  }

  /**
   * The unpruned minimax value of `s` seen at depth `d`: a terminal state's
   * score, otherwise the best of its successors' values seen at depth
   * `d + 1` by the other side, -inf (max) or +inf (min) when there are none.
   */
  ghost function Value<S(!new)>(succ: Successor<S>, rank: S -> nat, maxNode: bool, s: S, d: nat): ExtInt
    requires Ranked(succ, rank)
    decreases rank(s), 1, 0
  {
    if succ.isTerm(s, d) then Fin(succ.score(s, d))
    else Fold(succ, rank, maxNode, succ.next(s, d), d + 1, rank(s))
  }

  /** The best of the values of `cs` for the side to move, taken left to right. */
  ghost function Fold<S(!new)>(succ: Successor<S>, rank: S -> nat, maxNode: bool, cs: seq<S>, d: nat, bound: nat): ExtInt
    requires Ranked(succ, rank)
    requires forall j :: 0 <= j < |cs| ==> rank(cs[j]) < bound
    decreases bound, 0, |cs|
  {
    if |cs| == 0 then (if maxNode then NegInf else PosInf)
    else Best(maxNode, Fold(succ, rank, maxNode, cs[..|cs| - 1], d, bound), Value(succ, rank, !maxNode, cs[|cs| - 1], d))
  }

  /** One more successor folds in by `Best`. */
  lemma FoldSnoc<S(!new)>(succ: Successor<S>, rank: S -> nat, maxNode: bool, cs: seq<S>, k: nat, d: nat, bound: nat)
    requires Ranked(succ, rank)
    requires forall j :: 0 <= j < |cs| ==> rank(cs[j]) < bound
    requires k < |cs|
    ensures Fold(succ, rank, maxNode, cs[..k + 1], d, bound) ==
      Best(maxNode, Fold(succ, rank, maxNode, cs[..k], d, bound), Value(succ, rank, !maxNode, cs[k], d))
  {
    assert cs[..k + 1][..k] == cs[..k];
  }

  /** Folding in more successors can only improve the value for the side to move. */
  lemma {:induction false} FoldMonotone<S(!new)>(succ: Successor<S>, rank: S -> nat, maxNode: bool, cs: seq<S>, k: nat, d: nat, bound: nat)
    requires Ranked(succ, rank)
    requires forall j :: 0 <= j < |cs| ==> rank(cs[j]) < bound
    requires k <= |cs|
    ensures maxNode ==> Le(Fold(succ, rank, maxNode, cs[..k], d, bound), Fold(succ, rank, maxNode, cs, d, bound))
    ensures !maxNode ==> Le(Fold(succ, rank, maxNode, cs, d, bound), Fold(succ, rank, maxNode, cs[..k], d, bound))
    decreases |cs| - k
  {
    if k == |cs| {
      assert cs[..k] == cs;
    } else {
      FoldSnoc(succ, rank, maxNode, cs, k, d, bound);
      FoldMonotone(succ, rank, maxNode, cs, k + 1, d, bound);
    }
  }

  /** A non-terminal state's value is the fold over the whole list of its successors. */
  lemma FoldWhole<S(!new)>(succ: Successor<S>, rank: S -> nat, maxNode: bool, s: S, d: nat)
    requires Ranked(succ, rank)
    requires !succ.isTerm(s, d)
    ensures var cs := succ.next(s, d);
      Value(succ, rank, maxNode, s, d) == Fold(succ, rank, maxNode, cs[..|cs|], d + 1, rank(s))
  {
    var cs := succ.next(s, d);
    assert cs[..|cs|] == cs;
  }

  /**
   * What a search with window (a, b) promises of its result v, given the
   * true value t: at most a bounds t from above, at least b bounds it from
   * below, and strictly in between v is t.
   */
  predicate FailSoft(a: ExtInt, b: ExtInt, v: ExtInt, t: ExtInt)
  {
    (Le(v, a) ==> Le(t, v)) && (Le(b, v) ==> Le(v, t)) && (Lt(a, v) && Lt(v, b) ==> v == t)
  }

  /**
   * A min node's loop so far: the running minimum v of the returned values
   * is above a, at most the true minimum p of the successors searched, and
   * equal to it below b.
   */
  predicate MinInv(a: ExtInt, b: ExtInt, v: ExtInt, p: ExtInt)
  {
    Lt(a, v) && Le(v, p) && (Lt(v, b) ==> Le(p, v))
  }

  /** A max node's loop so far: the mirror image of `MinInv`. */
  predicate MaxInv(a: ExtInt, b: ExtInt, v: ExtInt, p: ExtInt)
  {
    Lt(v, b) && Le(p, v) && (Lt(a, v) ==> Le(v, p))
  }

  /**
   * One successor of a min node, which returned cv with window
   * (a, min(b, v)) and has true value t: the new running minimum either
   * drops to at most a, bounding the true minimum from above, or keeps the
   * loop's invariant; b narrows to the new running minimum.
   */
  lemma MinStep(a: ExtInt, b: ExtInt, v: ExtInt, p: ExtInt, cv: ExtInt, t: ExtInt)
    requires Lt(a, b) && MinInv(a, b, v, p) && FailSoft(a, Min(b, v), cv, t)
    ensures Le(Min(v, cv), a) ==> Le(Min(p, t), Min(v, cv))
    ensures !Le(Min(v, cv), a) ==> MinInv(a, b, Min(v, cv), Min(p, t))
    ensures Min(Min(b, v), Min(v, cv)) == Min(b, Min(v, cv))
  {
  }

  /** The mirror image of `MinStep` for a max node. */
  lemma MaxStep(a: ExtInt, b: ExtInt, v: ExtInt, p: ExtInt, cv: ExtInt, t: ExtInt)
    requires Lt(a, b) && MaxInv(a, b, v, p) && FailSoft(Max(a, v), b, cv, t)
    ensures Le(b, Max(v, cv)) ==> Le(Max(v, cv), Max(p, t))
    ensures !Le(b, Max(v, cv)) ==> MaxInv(a, b, Max(v, cv), Max(p, t))
    ensures Max(Max(a, v), Max(v, cv)) == Max(a, Max(v, cv))
  {
  }

  /** A min node cut off at v <= a, below every true value folded in after, is fail-soft. */
  lemma MinCut(a: ExtInt, b: ExtInt, v: ExtInt, q: ExtInt, t: ExtInt)
    requires Lt(a, b) && Le(v, a) && Le(t, q) && Le(q, v)
    ensures FailSoft(a, b, v, t)
  {
  }

  /** A max node cut off at v >= b is fail-soft. */
  lemma MaxCut(a: ExtInt, b: ExtInt, v: ExtInt, q: ExtInt, t: ExtInt)
    requires Lt(a, b) && Le(b, v) && Le(q, t) && Le(v, q)
    ensures FailSoft(a, b, v, t)
  {
  }

  /** A min node that searched every successor is fail-soft. */
  lemma MinDone(a: ExtInt, b: ExtInt, v: ExtInt, p: ExtInt)
    requires Lt(a, b) && MinInv(a, b, v, p)
    ensures FailSoft(a, b, v, p)
  {
  }

  /** A max node that searched every successor is fail-soft. */
  lemma MaxDone(a: ExtInt, b: ExtInt, v: ExtInt, p: ExtInt)
    requires Lt(a, b) && MaxInv(a, b, v, p)
    ensures FailSoft(a, b, v, p)
  {
  }

  class AbSolver<S(!new)> {
    const successor: Successor<S>
    /** Set by the constructor and never read. */
    var depth: int

    /** `abSolver(successor)`. */
    constructor (successor: Successor<S>)
      ensures this.successor == successor && depth == 0
    {
      this.successor := successor;
      depth := 0;
    }

    /**
     * `__min__(state, a, b, depth)`: the state is seen at `depth + 1`. A
     * terminal state returns its score and `True`; otherwise the running
     * minimum over the successors (searched as max nodes with window
     * (a, b), b narrowing to the running minimum) returns with `False` as
     * soon as it is at most a. For a < b the result is fail-soft.
     */
    method MinNode(state: S, a: ExtInt, b: ExtInt, depth: nat, ghost rank: S -> nat) returns (v: ExtInt, fromTerm: bool)
      requires Ranked(successor, rank)
      ensures fromTerm <==> successor.isTerm(state, depth + 1)
      ensures !fromTerm && |successor.next(state, depth + 1)| == 0 ==> v == PosInf
      ensures Lt(a, b) ==> FailSoft(a, b, v, Value(successor, rank, false, state, depth + 1))
      decreases rank(state)
    {
      v := PosInf;
      var d := depth + 1;
      if successor.isTerm(state, d) {
        return Fin(successor.score(state, d)), true;
      }
      var cs := successor.next(state, d);
      FoldWhole(successor, rank, false, state, d);
      var b' := b;
      for i := 0 to |cs|
        invariant Lt(a, b) ==> b' == Min(b, v) && MinInv(a, b, v, Fold(successor, rank, false, cs[..i], d + 1, rank(state)))
        invariant |cs| == 0 ==> v == PosInf
      {
        var cv, _ := MaxNode(cs[i], a, b', d, rank);
        FoldSnoc(successor, rank, false, cs, i, d + 1, rank(state));
        ghost var p := Fold(successor, rank, false, cs[..i], d + 1, rank(state));
        ghost var t := Value(successor, rank, true, cs[i], d + 1);
        if Lt(a, b) {
          MinStep(a, b, v, p, cv, t);
        }
        v := Min(v, cv);
        if Le(v, a) {
          if Lt(a, b) {
            FoldMonotone(successor, rank, false, cs, i + 1, d + 1, rank(state));
            MinCut(a, b, v, Min(p, t), Value(successor, rank, false, state, d));
          }
          return v, false;
        }
        b' := Min(b', v);
      }
      if Lt(a, b) {
        MinDone(a, b, v, Fold(successor, rank, false, cs[..|cs|], d + 1, rank(state)));
      }
      return v, false;
    }

    /**
     * `__max__(state, a, b, depth)`: the mirror image of `MinNode`, with the
     * running maximum returned as soon as it is at least b and a widening to
     * it.
     */
    method MaxNode(state: S, a: ExtInt, b: ExtInt, depth: nat, ghost rank: S -> nat) returns (v: ExtInt, fromTerm: bool)
      requires Ranked(successor, rank)
      ensures fromTerm <==> successor.isTerm(state, depth + 1)
      ensures !fromTerm && |successor.next(state, depth + 1)| == 0 ==> v == NegInf
      ensures Lt(a, b) ==> FailSoft(a, b, v, Value(successor, rank, true, state, depth + 1))
      decreases rank(state)
    {
      v := NegInf;
      var d := depth + 1;
      if successor.isTerm(state, d) {
        return Fin(successor.score(state, d)), true;
      }
      var cs := successor.next(state, d);
      FoldWhole(successor, rank, true, state, d);
      var a' := a;
      for i := 0 to |cs|
        invariant Lt(a, b) ==> a' == Max(a, v) && MaxInv(a, b, v, Fold(successor, rank, true, cs[..i], d + 1, rank(state)))
        invariant |cs| == 0 ==> v == NegInf
      {
        var cv, _ := MinNode(cs[i], a', b, d, rank);
        FoldSnoc(successor, rank, true, cs, i, d + 1, rank(state));
        ghost var p := Fold(successor, rank, true, cs[..i], d + 1, rank(state));
        ghost var t := Value(successor, rank, false, cs[i], d + 1);
        if Lt(a, b) {
          MaxStep(a, b, v, p, cv, t);
        }
        v := Max(v, cv);
        if Le(b, v) {
          if Lt(a, b) {
            FoldMonotone(successor, rank, true, cs, i + 1, d + 1, rank(state));
            MaxCut(a, b, v, Max(p, t), Value(successor, rank, true, state, d));
          }
          return v, false;
        }
        a' := Max(a', v);
      }
      if Lt(a, b) {
        MaxDone(a, b, v, Fold(successor, rank, true, cs[..|cs|], d + 1, rank(state)));
      }
      return v, false;
    }

    /** `minmax(state)`: the exact minimax value of the state as a min node at depth 1. */
    method MinMax(state: S, ghost rank: S -> nat) returns (v: ExtInt, fromTerm: bool)
      requires Ranked(successor, rank)
      ensures v == Value(successor, rank, false, state, 1)
      ensures fromTerm <==> successor.isTerm(state, 1)
    {
      v, fromTerm := MinNode(state, NegInf, PosInf, 0, rank);
    }

    /** `maxmin(state)`: the exact minimax value of the state as a max node at depth 1. */
    method MaxMin(state: S, ghost rank: S -> nat) returns (v: ExtInt, fromTerm: bool)
      requires Ranked(successor, rank)
      ensures v == Value(successor, rank, true, state, 1)
      ensures fromTerm <==> successor.isTerm(state, 1)
    {
      v, fromTerm := MaxNode(state, NegInf, PosInf, 0, rank);
    }
  }
}
