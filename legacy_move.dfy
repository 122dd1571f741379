// move.py, the first version of the move lists: a move has no capture flag,
// and a `PieceMoveList` walks two iterators (sources and destinations) in
// lock step until one of them is exhausted. Python iterators are the items
// they have left, as a `seq`, which iteration consumes.
module LegacyMove {
  import opened BoardUtils

  datatype Move<P> = Move(piece: P, src: int, dest: int)

  function Min(a: nat, b: nat): nat
  {
    if a <= b then a else b
  }

  /** The moves a fresh iteration over two streams yields. */
  function Zip<P>(piece: P, srcs: seq<int>, dests: seq<int>): seq<Move<P>>
    decreases |srcs|
  {
    if |srcs| == 0 || |dests| == 0 then []
    else [Move(piece, srcs[0], dests[0])] + Zip(piece, srcs[1..], dests[1..])
  }

  /**
   * The pass yields `Move(piece, srcs[i], dests[i])` for every i below the
   * length of the shorter stream, in order, and nothing more.
   */
  lemma {:induction false} ZipSpec<P>(piece: P, srcs: seq<int>, dests: seq<int>)
    ensures |Zip(piece, srcs, dests)| == Min(|srcs|, |dests|)
    ensures forall i :: 0 <= i < |Zip(piece, srcs, dests)| ==> Zip(piece, srcs, dests)[i] == Move(piece, srcs[i], dests[i])
    decreases |srcs|
  {
    if |srcs| > 0 && |dests| > 0 {
      ZipSpec(piece, srcs[1..], dests[1..]);
    }
  }

  /** The streams hold the squares at a common index. */
  predicate PairsHold(srcs: seq<int>, dests: seq<int>, src: int, dest: int)
  {
    exists k :: 0 <= k < |srcs| && k < |dests| && srcs[k] == src && dests[k] == dest
  }

  /** A pass over two streams yields exactly the piece's moves whose squares the streams hold at a common index. */
  lemma ZipMem<P>(piece: P, srcs: seq<int>, dests: seq<int>, mv: Move<P>)
    ensures mv in Zip(piece, srcs, dests) <==> mv.piece == piece && PairsHold(srcs, dests, mv.src, mv.dest)
  {
    var z := Zip(piece, srcs, dests);
    ZipSpec(piece, srcs, dests);
    if mv in z {
      var k :| 0 <= k < |z| && z[k] == mv;
      assert srcs[k] == mv.src && dests[k] == mv.dest;
    }
    if mv.piece == piece && PairsHold(srcs, dests, mv.src, mv.dest) {
      var k :| 0 <= k < |srcs| && k < |dests| && srcs[k] == mv.src && dests[k] == mv.dest;
      assert z[k] == mv;
    }
  }

  /** What `next` leaves of a stream: one item fewer, unless it is exhausted. */
  function Pull<T>(s: seq<T>): seq<T>
  {
    if |s| > 0 then s[1..] else []
  }

  /** What is left of a stream after a pass that yielded n items and then pulled once more. */
  function AfterPass<T>(s: seq<T>, n: nat): seq<T>
    requires n <= |s|
  {
    if n < |s| then s[n + 1..] else []
  }

  class PieceMoveList<P> {
    const piece: P
    var srcs: seq<int>
    var dests: seq<int>

    /** `PieceMoveList(piece, srcs, dests)`: both iterators start at the first item. */
    constructor (piece: P, srcs: seq<int>, dests: seq<int>)
      ensures this.piece == piece && this.srcs == srcs && this.dests == dests
    {
      this.piece := piece;
      this.srcs := srcs;
      this.dests := dests;
    }

    /** The moves the next iteration would yield. */
    function Pending(): seq<Move<P>>
      reads this
    {
      Zip(piece, srcs, dests)
    }

    /** One step of `__iter__`: `next` on both iterators, then the test for the sentinel. */
    method Step() returns (m: Option<Move<P>>)
      modifies this
      ensures m.Some? <==> |old(srcs)| > 0 && |old(dests)| > 0
      ensures m.Some? ==> m.value == Move(piece, old(srcs)[0], old(dests)[0])
      ensures srcs == Pull(old(srcs)) && dests == Pull(old(dests))
      ensures old(Pending()) == if m.Some? then [m.value] + Pending() else []
    {
      if |srcs| > 0 && |dests| > 0 {
        m := Some(Move(piece, srcs[0], dests[0]));
      } else {
        m := None;
      }
      srcs, dests := Pull(srcs), Pull(dests);
    }

    /**
     * `__iter__`, run to the end: step after step until one stream runs dry.
     * At least one stream is left empty, so a second pass yields nothing.
     */
    method Iter() returns (moves: seq<Move<P>>)
      modifies this
      ensures moves == old(Pending())
      ensures |moves| == Min(|old(srcs)|, |old(dests)|)
      ensures srcs == AfterPass(old(srcs), |moves|) && dests == AfterPass(old(dests), |moves|)
      ensures srcs == [] || dests == []
      ensures Pending() == []
    {
      ZipSpec(piece, srcs, dests);
      moves := [];
      // `while [self.srcs, self.dests]` tests a non-empty list, which is always true
      while true
        invariant |moves| <= |old(srcs)| && |moves| <= |old(dests)|
        invariant srcs == old(srcs)[|moves|..] && dests == old(dests)[|moves|..]
        invariant moves + Pending() == old(Pending())
        decreases |srcs|
      {
        var m := Step();
        if m.None? {
          break;
        }
        moves := moves + [m.value];
      }
    }
  }

  /** The moves the given per-piece lists would yield one after another. */
  function Chained<P>(lists: seq<PieceMoveList<P>>): seq<Move<P>>
    reads set l | l in lists
  {
    if |lists| == 0 then [] else lists[0].Pending() + Chained(lists[1..])
  }

  /** The moves each list would yield, list by list. */
  function Pendings<P>(lists: seq<PieceMoveList<P>>): (r: seq<seq<Move<P>>>)
    reads set l | l in lists
    ensures |r| == |lists| && forall i :: 0 <= i < |lists| ==> r[i] == lists[i].Pending()
  {
    seq(|lists|, i reads set l | l in lists requires 0 <= i < |lists| => lists[i].Pending())
  }

  /** The items of the sequences one after another. */
  function Flat<T>(ss: seq<seq<T>>): seq<T>
  {
    if |ss| == 0 then [] else ss[0] + Flat(ss[1..])
  }

  /** Chaining the lists yields their pending moves one list after another. */
  lemma {:induction false} ChainedFlat<P>(lists: seq<PieceMoveList<P>>)
    ensures Chained(lists) == Flat(Pendings(lists))
  {
    if |lists| > 0 {
      ChainedFlat(lists[1..]);
      assert Pendings(lists)[1..] == Pendings(lists[1..]);
    }
  }

  /** Appending a list to the chain appends its moves. */
  lemma ChainedSnoc<P>(lists: seq<PieceMoveList<P>>, l: PieceMoveList<P>)
    ensures Chained(lists + [l]) == Chained(lists) + l.Pending()
    decreases |lists|
  {
    if |lists| > 0 {
      assert (lists + [l])[1..] == lists[1..] + [l];
      ChainedSnoc(lists[1..], l);
    }
  }

  class MoveList<P> {
    /** The per-piece lists `chain.from_iterable` has not reached yet. */
    var lists: seq<PieceMoveList<P>>

    /** `MoveList(piece_move_lists)`. */
    constructor (lists: seq<PieceMoveList<P>>)
      ensures this.lists == lists
    {
      this.lists := lists;
    }

    /** The lists are distinct objects, as fresh generator results always are. */
    predicate Distinct()
      reads this
    {
      forall i, j :: 0 <= i < j < |lists| ==> lists[i] != lists[j]
    }

    /**
     * `__iter__`, run to the end: the moves of every per-piece list in order.
     * `while self.moves` tests a chain object, which is always true, so the
     * generator calls `next` on the exhausted chain; Python turns the
     * escaping `StopIteration` into `RuntimeError` (PEP 479), which `raised`
     * reports.
     */
    method Iter() returns (moves: seq<Move<P>>, raised: bool)
      requires Distinct()
      modifies this, set l | l in lists
      ensures moves == old(Chained(lists))
      ensures raised
      ensures lists == []
    {
      ghost var all := lists;
      ghost var pending := Pendings(all);
      ChainedFlat(all);
      moves := [];
      ghost var k := 0;
      while lists != []
        invariant 0 <= k <= |all| && lists == all[k..]
        invariant moves + Flat(pending[k..]) == Flat(pending)
        invariant forall i :: k <= i < |all| ==> all[i].Pending() == pending[i]
        decreases |lists|
      {
        var l := lists[0];
        assert pending[k..] == [pending[k]] + pending[k + 1..];
        var m := l.Iter();
        moves := moves + m;
        lists := lists[1..];
        k := k + 1;
      }
      raised := true;
    }
  }
}
