// tests/test_ab.py: the fixed 26-state graph `simple_successor` and the
// value `maxmin('a')` the test expects of it. Every state lists only
// alphabetically later letters, so every path ends.
module AbSearchTest {
  import opened AbSearch

  /** An entry of `succ_map`: a terminal score or the list of successors. */
  datatype Entry = Leaf(score: int) | Inner(states: seq<char>)

  /** `succ_map.get(state, 0)`. */
  function SuccMap(c: char): Entry
  {
    match c
    case 'a' => Inner(['e', 'z', 'h', 'x', 'k'])
    case 'b' => Inner(['c', 'h', 'k', 'l'])
    case 'c' => Inner(['z', 'o'])
    case 'd' => Inner(['u', 'o', 'y'])
    case 'e' => Inner(['w', 's', 'v', 'm'])
    case 'f' => Inner(['z', 'g', 'i', 'm'])
    case 'g' => Inner(['o', 'i', 'n'])
    case 'h' => Inner(['m', 'q', 'p', 's', 'l'])
    case 'i' => Inner(['y', 'p'])
    case 'j' => Inner(['v'])
    case 'k' => Leaf(-4)
    case 'l' => Leaf(10)
    case 'm' => Inner(['q'])
    case 'n' => Leaf(1)
    case 'o' => Inner(['t', 'p', 'q', 's'])
    case 'p' => Inner(['w', 'x', 'v', 't'])
    case 'q' => Inner(['u', 'y', 'w', 's', 'r', 'v'])
    case 'r' => Inner(['x'])
    case 's' => Leaf(-10)
    case 't' => Inner(['u', 'w', 'v', 'y', 'z'])
    case 'u' => Inner(['v'])
    case 'v' => Inner(['z', 'y', 'x', 'w'])
    case 'w' => Inner(['x'])
    case 'x' => Inner(['z', 'y'])
    case 'y' => Inner(['z'])
    case 'z' => Leaf(-8)
    case _ => Leaf(0)
  }

  /**
   * `simple_successor`: a state is terminal when its entry is a number;
   * `next` gives the entry, ignoring the depth.
   */
  function TestGraph(): Successor<char>
  {
    Successor(
      (c: char, d: nat) => SuccMap(c).Leaf?,
      (c: char, d: nat) => if SuccMap(c).Inner? then SuccMap(c).states else [],
      (c: char, d: nat) => if SuccMap(c).Leaf? then SuccMap(c).score else 0)
  }

  /** Letters later in the alphabet rank lower. */
  function Rank(c: char): nat
  {
    if 'a' <= c <= 'z' then 'z' as int - c as int else 0
  }

  /** Every listed successor is a later letter. */
  lemma TestGraphRanked()
    ensures Ranked(TestGraph(), Rank)
  {
    forall s, d: nat, i | !TestGraph().isTerm(s, d) && 0 <= i < |TestGraph().next(s, d)|
      ensures Rank(TestGraph().next(s, d)[i]) < Rank(s)
    {
      assert TestGraph().next(s, d) == SuccMap(s).states;
      SuccessorLater(s, i);
    }
  }

  /** The i-th successor of a non-terminal state is a later letter. */
  lemma SuccessorLater(c: char, i: int)
    requires SuccMap(c).Inner? && 0 <= i < |SuccMap(c).states|
    ensures 'a' <= c < SuccMap(c).states[i] <= 'z'
  {
  }

  /** The minimax value of a state of the test graph. */
  ghost function V(maxNode: bool, c: char, d: nat): ExtInt
  {
    TestGraphRanked();
    Value(TestGraph(), Rank, maxNode, c, d)
  }

  /** Every successor of a non-terminal state ranks below it. */
  lemma InnerRanks(c: char)
    requires SuccMap(c).Inner?
    ensures forall j :: 0 <= j < |SuccMap(c).states| ==> Rank(SuccMap(c).states[j]) < Rank(c)
  {
    forall j | 0 <= j < |SuccMap(c).states| {
      SuccessorLater(c, j);
    }
  }

  /** The best value for the side to move over the first k successors of c. */
  ghost function Prefix(maxNode: bool, c: char, d: nat, k: nat): ExtInt
    requires SuccMap(c).Inner? && k <= |SuccMap(c).states|
  {
    TestGraphRanked();
    InnerRanks(c);
    Fold(TestGraph(), Rank, maxNode, SuccMap(c).states[..k], d + 1, Rank(c))
  }

  /** A terminal state's value is its entry, for either side. */
  lemma LeafValue(c: char, d: nat)
    requires SuccMap(c).Leaf?
    ensures V(true, c, d) == Fin(SuccMap(c).score) && V(false, c, d) == Fin(SuccMap(c).score)
  {
  }

  /** A non-terminal state's value is the fold over all its successors, starting from the side's infinity. */
  lemma Expand(maxNode: bool, c: char, d: nat)
    requires SuccMap(c).Inner?
    ensures V(maxNode, c, d) == Prefix(maxNode, c, d, |SuccMap(c).states|)
    ensures Prefix(maxNode, c, d, 0) == if maxNode then NegInf else PosInf
  {
    TestGraphRanked();
    assert TestGraph().next(c, d) == SuccMap(c).states;
    FoldWhole(TestGraph(), Rank, maxNode, c, d);
  }

  /** The k-th successor folds in by `Best`. */
  lemma Step(maxNode: bool, c: char, d: nat, k: nat)
    requires SuccMap(c).Inner? && 0 < k <= |SuccMap(c).states|
    ensures Prefix(maxNode, c, d, k) == Best(maxNode, Prefix(maxNode, c, d, k - 1), V(!maxNode, SuccMap(c).states[k - 1], d + 1))
  {
    TestGraphRanked();
    InnerRanks(c);
    FoldSnoc(TestGraph(), Rank, maxNode, SuccMap(c).states, k - 1, d + 1, Rank(c));
  }

  /** State y (successors z) as a max node: -8. */
  lemma MaxY(d: nat)
    ensures V(true, 'y', d) == Fin(-8)
  {
    Expand(true, 'y', d);
    LeafValue('z', d + 1);
    Step(true, 'y', d, 1);
  }

  /** State y (successors z) as a min node: -8. */
  lemma MinY(d: nat)
    ensures V(false, 'y', d) == Fin(-8)
  {
    Expand(false, 'y', d);
    LeafValue('z', d + 1);
    Step(false, 'y', d, 1);
  }

  /** State x (successors z, y) as a max node: -8. */
  lemma MaxX(d: nat)
    ensures V(true, 'x', d) == Fin(-8)
  {
    Expand(true, 'x', d);
    LeafValue('z', d + 1);
    Step(true, 'x', d, 1);
    MinY(d + 1);
    Step(true, 'x', d, 2);
  }

  /** State x (successors z, y) as a min node: -8. */
  lemma MinX(d: nat)
    ensures V(false, 'x', d) == Fin(-8)
  {
    Expand(false, 'x', d);
    LeafValue('z', d + 1);
    Step(false, 'x', d, 1);
    MaxY(d + 1);
    Step(false, 'x', d, 2);
  }

  /** State w (successors x) as a max node: -8. */
  lemma MaxW(d: nat)
    ensures V(true, 'w', d) == Fin(-8)
  {
    Expand(true, 'w', d);
    MinX(d + 1);
    Step(true, 'w', d, 1);
  }

  /** State w (successors x) as a min node: -8. */
  lemma MinW(d: nat)
    ensures V(false, 'w', d) == Fin(-8)
  {
    Expand(false, 'w', d);
    MaxX(d + 1);
    Step(false, 'w', d, 1);
  }

  /** State v (successors z, y, x, w) as a max node: -8. */
  lemma MaxV(d: nat)
    ensures V(true, 'v', d) == Fin(-8)
  {
    Expand(true, 'v', d);
    LeafValue('z', d + 1);
    Step(true, 'v', d, 1);
    MinY(d + 1);
    Step(true, 'v', d, 2);
    MinX(d + 1);
    Step(true, 'v', d, 3);
    MinW(d + 1);
    Step(true, 'v', d, 4);
  }

  /** State v (successors z, y, x, w) as a min node: -8. */
  lemma MinV(d: nat)
    ensures V(false, 'v', d) == Fin(-8)
  {
    Expand(false, 'v', d);
    LeafValue('z', d + 1);
    Step(false, 'v', d, 1);
    MaxY(d + 1);
    Step(false, 'v', d, 2);
    MaxX(d + 1);
    Step(false, 'v', d, 3);
    MaxW(d + 1);
    Step(false, 'v', d, 4);
  }

  /** State u (successors v) as a max node: -8. */
  lemma MaxU(d: nat)
    ensures V(true, 'u', d) == Fin(-8)
  {
    Expand(true, 'u', d);
    MinV(d + 1);
    Step(true, 'u', d, 1);
  }

  /** State u (successors v) as a min node: -8. */
  lemma MinU(d: nat)
    ensures V(false, 'u', d) == Fin(-8)
  {
    Expand(false, 'u', d);
    MaxV(d + 1);
    Step(false, 'u', d, 1);
  }

  /** State r (successors x) as a max node: -8. */
  lemma MaxR(d: nat)
    ensures V(true, 'r', d) == Fin(-8)
  {
    Expand(true, 'r', d);
    MinX(d + 1);
    Step(true, 'r', d, 1);
  }

  /** State r (successors x) as a min node: -8. */
  lemma MinR(d: nat)
    ensures V(false, 'r', d) == Fin(-8)
  {
    Expand(false, 'r', d);
    MaxX(d + 1);
    Step(false, 'r', d, 1);
  }

  /** State t (successors u, w, v, y, z) as a min node: -8. */
  lemma MinT(d: nat)
    ensures V(false, 't', d) == Fin(-8)
  {
    Expand(false, 't', d);
    MaxU(d + 1);
    Step(false, 't', d, 1);
    MaxW(d + 1);
    Step(false, 't', d, 2);
    MaxV(d + 1);
    Step(false, 't', d, 3);
    MaxY(d + 1);
    Step(false, 't', d, 4);
    LeafValue('z', d + 1);
    Step(false, 't', d, 5);
  }

  /** State q (successors u, y, w, s, r, v) as a max node: -8. */
  lemma MaxQ(d: nat)
    ensures V(true, 'q', d) == Fin(-8)
  {
    Expand(true, 'q', d);
    MinU(d + 1);
    Step(true, 'q', d, 1);
    MinY(d + 1);
    Step(true, 'q', d, 2);
    MinW(d + 1);
    Step(true, 'q', d, 3);
    LeafValue('s', d + 1);
    Step(true, 'q', d, 4);
    MinR(d + 1);
    Step(true, 'q', d, 5);
    MinV(d + 1);
    Step(true, 'q', d, 6);
  }

  /** State q (successors u, y, w, s, r, v) as a min node: -10. */
  lemma MinQ(d: nat)
    ensures V(false, 'q', d) == Fin(-10)
  {
    Expand(false, 'q', d);
    MaxU(d + 1);
    Step(false, 'q', d, 1);
    MaxY(d + 1);
    Step(false, 'q', d, 2);
    MaxW(d + 1);
    Step(false, 'q', d, 3);
    LeafValue('s', d + 1);
    Step(false, 'q', d, 4);
    MaxR(d + 1);
    Step(false, 'q', d, 5);
    MaxV(d + 1);
    Step(false, 'q', d, 6);
  }

  /** State p (successors w, x, v, t) as a max node: -8. */
  lemma MaxP(d: nat)
    ensures V(true, 'p', d) == Fin(-8)
  {
    Expand(true, 'p', d);
    MinW(d + 1);
    Step(true, 'p', d, 1);
    MinX(d + 1);
    Step(true, 'p', d, 2);
    MinV(d + 1);
    Step(true, 'p', d, 3);
    MinT(d + 1);
    Step(true, 'p', d, 4);
  }

  /** State m (successors q) as a max node: -10. */
  lemma MaxM(d: nat)
    ensures V(true, 'm', d) == Fin(-10)
  {
    Expand(true, 'm', d);
    MinQ(d + 1);
    Step(true, 'm', d, 1);
  }

  /** State h (successors m, q, p, s, l) as a min node: -10. */
  lemma MinH(d: nat)
    ensures V(false, 'h', d) == Fin(-10)
  {
    Expand(false, 'h', d);
    MaxM(d + 1);
    Step(false, 'h', d, 1);
    MaxQ(d + 1);
    Step(false, 'h', d, 2);
    MaxP(d + 1);
    Step(false, 'h', d, 3);
    LeafValue('s', d + 1);
    Step(false, 'h', d, 4);
    LeafValue('l', d + 1);
    Step(false, 'h', d, 5);
  }

  /** State e (successors w, s, v, m) as a min node: -10. */
  lemma MinE(d: nat)
    ensures V(false, 'e', d) == Fin(-10)
  {
    Expand(false, 'e', d);
    MaxW(d + 1);
    Step(false, 'e', d, 1);
    LeafValue('s', d + 1);
    Step(false, 'e', d, 2);
    MaxV(d + 1);
    Step(false, 'e', d, 3);
    MaxM(d + 1);
    Step(false, 'e', d, 4);
  }

  /** State a (successors e, z, h, x, k) as a max node: -4. */
  lemma MaxA(d: nat)
    ensures V(true, 'a', d) == Fin(-4)
  {
    Expand(true, 'a', d);
    MinE(d + 1);
    Step(true, 'a', d, 1);
    LeafValue('z', d + 1);
    Step(true, 'a', d, 2);
    MinH(d + 1);
    Step(true, 'a', d, 3);
    MinX(d + 1);
    Step(true, 'a', d, 4);
    LeafValue('k', d + 1);
    Step(true, 'a', d, 5);
  }

  /** `maxmin('a')` on the test graph: the unpruned minimax value -4. */
  lemma TestGraphValue()
    ensures Ranked(TestGraph(), Rank)
    ensures Value(TestGraph(), Rank, true, 'a', 1) == Fin(-4)
  {
    TestGraphRanked();
    MaxA(1);
  }

  /** `test_absolver()`: the search from 'a' returns -4. */
  method TestAbsolver() returns (value: ExtInt)
    ensures value == Fin(-4)
  {
    var solver := new AbSolver(TestGraph());
    TestGraphValue();
    var fromTerm;
    value, fromTerm := solver.MaxMin('a', Rank);
  }
}
