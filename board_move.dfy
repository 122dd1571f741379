// board/move.py: a move, and the single-pass move lists the generators
// return. A `PieceMoveList` holds three iterators (sources, destinations,
// capture flags); iterating it pulls one item from each per step and stops at
// the first exhausted one. A `MoveList` chains per-piece lists. Python
// iterators become the remaining items as a `seq`, which iteration consumes.
module BoardMove {
  import opened BoardUtils

  datatype Move<P> = Move(piece: P, src: int, dest: int, isCapture: bool)

  function Min3(a: nat, b: nat, c: nat): nat
  {
    if a <= b && a <= c then a else if b <= c then b else c
  }

  /** The moves a fresh iteration over three streams yields. */
  function Zip<P>(piece: P, srcs: seq<int>, dests: seq<int>, caps: seq<bool>): seq<Move<P>>
    decreases |srcs|
  {
    if |srcs| == 0 || |dests| == 0 || |caps| == 0 then []
    else [Move(piece, srcs[0], dests[0], caps[0])] + Zip(piece, srcs[1..], dests[1..], caps[1..])
  }

  lemma {:induction false} ZipLength<P>(piece: P, srcs: seq<int>, dests: seq<int>, caps: seq<bool>)
    ensures |Zip(piece, srcs, dests, caps)| == Min3(|srcs|, |dests|, |caps|)
    decreases |srcs|
  {
    if |srcs| > 0 && |dests| > 0 && |caps| > 0 {
      ZipLength(piece, srcs[1..], dests[1..], caps[1..]);
    }
  }

  /**
   * The pass yields `Move(piece, srcs[i], dests[i], caps[i])` for every i
   * below the length of the shortest stream, in order, and nothing more.
   */
  lemma {:induction false} ZipSpec<P>(piece: P, srcs: seq<int>, dests: seq<int>, caps: seq<bool>)
    ensures |Zip(piece, srcs, dests, caps)| == Min3(|srcs|, |dests|, |caps|)
    ensures forall i :: 0 <= i < |Zip(piece, srcs, dests, caps)| ==>
      Zip(piece, srcs, dests, caps)[i] == Move(piece, srcs[i], dests[i], caps[i])
    decreases |srcs|
  {
    if |srcs| > 0 && |dests| > 0 && |caps| > 0 {
      ZipSpec(piece, srcs[1..], dests[1..], caps[1..]);
    }
  }

  /** What `next` leaves of a stream: one item fewer, unless it is exhausted. */
  function Pull<T>(s: seq<T>): seq<T>
  {
    if |s| > 0 then s[1..] else []
  }

  /** What is left of a stream after a pass that yielded n items and then pulled once more. */
  function AfterPass<T>(s: seq<T>, n: nat): seq<T>
    requires n <= |s|
  {
    if n < |s| then s[n + 1..] else []
  }

  class PieceMoveList<P> {
    const piece: P
    var srcs: seq<int>
    var dests: seq<int>
    var isCaptures: seq<bool>

    /** `PieceMoveList(piece, srcs, dests, iscaptures)`: the iterators start at the first item. */
    constructor (piece: P, srcs: seq<int>, dests: seq<int>, isCaptures: seq<bool>)
      ensures this.piece == piece && this.srcs == srcs && this.dests == dests && this.isCaptures == isCaptures
    {
      this.piece := piece;
      this.srcs := srcs;
      this.dests := dests;
      this.isCaptures := isCaptures;
    }

    /** The moves the next iteration would yield. */
    function Pending(): seq<Move<P>>
      reads this
    {
      Zip(piece, srcs, dests, isCaptures)
    }

    /**
     * One step of `__iter__`: `next` on each of the three iterators, then the
     * test for a missing item. The items pulled are lost when one is missing.
     */
    method Step() returns (m: Option<Move<P>>)
      modifies this
      ensures m.Some? <==> |old(srcs)| > 0 && |old(dests)| > 0 && |old(isCaptures)| > 0
      ensures m.Some? ==> m.value == Move(piece, old(srcs)[0], old(dests)[0], old(isCaptures)[0])
      ensures srcs == Pull(old(srcs)) && dests == Pull(old(dests)) && isCaptures == Pull(old(isCaptures))
      ensures old(Pending()) == if m.Some? then [m.value] + Pending() else []
    {
      ZipStep(piece, srcs, dests, isCaptures);
      if |srcs| > 0 && |dests| > 0 && |isCaptures| > 0 {
        m := Some(Move(piece, srcs[0], dests[0], isCaptures[0]));
      } else {
        m := None;
      }
      srcs, dests, isCaptures := Pull(srcs), Pull(dests), Pull(isCaptures);
    }

    /**
     * `__iter__`, run to the end: step after step until one stream runs dry.
     * At least one stream is left empty, so the list is single-pass.
     */
    method Iter() returns (moves: seq<Move<P>>)
      modifies this
      ensures moves == old(Pending())
      ensures |moves| == Min3(|old(srcs)|, |old(dests)|, |old(isCaptures)|)
      ensures srcs == AfterPass(old(srcs), |moves|)
      ensures dests == AfterPass(old(dests), |moves|)
      ensures isCaptures == AfterPass(old(isCaptures), |moves|)
      ensures srcs == [] || dests == [] || isCaptures == []
      ensures Pending() == []
    {
      ZipLength(piece, srcs, dests, isCaptures);
      moves := [];
      // `while [self.srcs, self.dests]` tests a non-empty list, which is always true
      while true
        invariant |moves| <= |old(srcs)| && |moves| <= |old(dests)| && |moves| <= |old(isCaptures)|
        invariant srcs == old(srcs)[|moves|..] && dests == old(dests)[|moves|..]
        invariant isCaptures == old(isCaptures)[|moves|..]
        invariant moves + Pending() == old(Pending())
        decreases |srcs|
      {
        var m := Step();
        if m.None? {
          break;
        }
        moves := moves + [m.value];
      }
    }
  }

  /** One step of the lock-step pass. */
  lemma ZipStep<P>(piece: P, srcs: seq<int>, dests: seq<int>, caps: seq<bool>)
    ensures |srcs| > 0 && |dests| > 0 && |caps| > 0 ==>
      Zip(piece, srcs, dests, caps) == [Move(piece, srcs[0], dests[0], caps[0])] + Zip(piece, srcs[1..], dests[1..], caps[1..])
    ensures |srcs| == 0 || |dests| == 0 || |caps| == 0 ==> Zip(piece, srcs, dests, caps) == []
  {}

  /** The moves the given per-piece lists would yield one after another. */
  function Chained<P>(lists: seq<PieceMoveList<P>>): seq<Move<P>>
    reads set l | l in lists
  {
    if |lists| == 0 then [] else lists[0].Pending() + Chained(lists[1..])
  }

  /** The moves each list would yield, list by list. */
  function Pendings<P>(lists: seq<PieceMoveList<P>>): (r: seq<seq<Move<P>>>)
    reads set l | l in lists
    ensures |r| == |lists| && forall i :: 0 <= i < |lists| ==> r[i] == lists[i].Pending()
  {
    seq(|lists|, i reads set l | l in lists requires 0 <= i < |lists| => lists[i].Pending())
  }

  /** The items of the sequences one after another. */
  function Flat<T>(ss: seq<seq<T>>): seq<T>
  {
    if |ss| == 0 then [] else ss[0] + Flat(ss[1..])
  }

  /** Chaining the lists yields their pending moves one list after another. */
  lemma {:induction false} ChainedFlat<P>(lists: seq<PieceMoveList<P>>)
    ensures Chained(lists) == Flat(Pendings(lists))
  {
    if |lists| > 0 {
      ChainedFlat(lists[1..]);
      assert Pendings(lists)[1..] == Pendings(lists[1..]);
    }
  }

  class MoveList<P> {
    /** The per-piece lists `chain.from_iterable` has not reached yet. */
    var lists: seq<PieceMoveList<P>>

    /** `MoveList(piece_move_lists)`. */
    constructor (lists: seq<PieceMoveList<P>>)
      ensures this.lists == lists
    {
      this.lists := lists;
    }

    /** The lists are distinct objects, as fresh generator results always are. */
    predicate Distinct()
      reads this
    {
      forall i, j :: 0 <= i < j < |lists| ==> lists[i] != lists[j]
    }

    /**
     * `__iter__`, run to the end: the moves of every per-piece list in order.
     * The generator then calls `next` on the exhausted chain; the escaping
     * `StopIteration` is turned into `RuntimeError` by Python (PEP 479),
     * which `raised` reports. The chain is consumed.
     */
    method Iter() returns (moves: seq<Move<P>>, raised: bool)
      requires Distinct()
      modifies this, set l | l in lists
      ensures moves == old(Chained(lists))
      ensures raised
      ensures lists == []
    {
      ghost var all := lists;
      ghost var pending := Pendings(all);
      ChainedFlat(all);
      moves := [];
      ghost var k := 0;
      while lists != []
        invariant 0 <= k <= |all| && lists == all[k..]
        invariant moves + Flat(pending[k..]) == Flat(pending)
        invariant forall i :: k <= i < |all| ==> all[i].Pending() == pending[i]
        decreases |lists|
      {
        var l := lists[0];
        assert pending[k..] == [pending[k]] + pending[k + 1..];
        var m := l.Iter();
        moves := moves + m;
        lists := lists[1..];
        k := k + 1;
      }
      raised := true;
    }
  }
}
