// The piece -> bitboard dictionary of board/board.py and its queries. A
// Python dict keeps its keys distinct and in insertion order; it is a list of
// entries here, in that order.
module BoardState {
  import opened Bits
  import opened BoardUtils
  import opened BoardPiece

  datatype Entry = Entry(piece: Piece, bb: int)

  type Mapping = seq<Entry>

  /** The keys of the mapping, in order. */
  function Keys(m: Mapping): seq<Piece>
  {
    if |m| == 0 then [] else [m[0].piece] + Keys(m[1..])
  }

  predicate KeysDistinct(m: Mapping)
  {
    forall i, j :: 0 <= i < j < |Keys(m)| ==> Keys(m)[i] != Keys(m)[j]
  }

  /** `bitboards.values()`, in key order. */
  function Values(m: Mapping): (r: seq<int>)
    ensures |r| == |m| && forall i :: 0 <= i < |m| ==> r[i] == m[i].bb
  {
    seq(|m|, i requires 0 <= i < |m| => m[i].bb)
  }

  /** `d[p]`; a missing key raises KeyError, which is `None` here. */
  function Lookup(m: Mapping, p: Piece): Option<int>
  {
    if |m| == 0 then None else if m[0].piece == p then Some(m[0].bb) else Lookup(m[1..], p)
  }

  /** `d[p] = v`: an existing key keeps its place, a new one goes last. */
  function Store(m: Mapping, p: Piece, v: int): Mapping
  {
    if |m| == 0 then [Entry(p, v)]
    else if m[0].piece == p then [Entry(p, v)] + m[1..]
    else [m[0]] + Store(m[1..], p, v)
  }

  /**
   * `dict(zip(pieces, bbs))`: keys and values are paired positionally up to
   * the shorter list; a repeated key keeps its first place and its last value.
   */
  function FromZip(pieces: seq<Piece>, bbs: seq<int>): Mapping
    decreases |pieces|
  {
    if |pieces| == 0 || |bbs| == 0 then []
    else
      var n := if |pieces| <= |bbs| then |pieces| else |bbs|;
      Store(FromZip(pieces[..n - 1], bbs[..n - 1]), pieces[n - 1], bbs[n - 1])
  }

  lemma {:induction false} KeysIndex(m: Mapping)
    ensures |Keys(m)| == |m| && forall i :: 0 <= i < |m| ==> Keys(m)[i] == m[i].piece
  {
    if |m| > 0 { KeysIndex(m[1..]); }
  }

  /** A lookup finds the value of the key's entry, and fails exactly for absent keys. */
  lemma {:induction false} LookupSpec(m: Mapping, p: Piece)
    requires KeysDistinct(m)
    ensures Lookup(m, p).Some? <==> p in Keys(m)
    ensures forall i :: 0 <= i < |m| && m[i].piece == p ==> Lookup(m, p) == Some(m[i].bb)
  {
    KeysIndex(m);
    if |m| > 0 {
      KeysIndex(m[1..]);
      LookupSpec(m[1..], p);
    }
  }

  /** Which keys a store leaves. */
  lemma {:induction false} StoreKeys(m: Mapping, p: Piece, v: int)
    ensures Keys(Store(m, p, v)) == if p in Keys(m) then Keys(m) else Keys(m) + [p]
  {
    if |m| > 0 && m[0].piece != p {
      StoreKeys(m[1..], p, v);
      assert Keys(m) == [m[0].piece] + Keys(m[1..]);
    }
  }

  /** A store sets the key's value and leaves every other key's value alone. */
  lemma {:induction false} StoreLookup(m: Mapping, p: Piece, v: int, q: Piece)
    ensures Lookup(Store(m, p, v), q) == if q == p then Some(v) else Lookup(m, q)
  {
    if |m| > 0 && m[0].piece != p { StoreLookup(m[1..], p, v, q); }
  }

  /** Storing keeps the keys distinct. */
  lemma StoreDistinct(m: Mapping, p: Piece, v: int)
    requires KeysDistinct(m)
    ensures KeysDistinct(Store(m, p, v))
  {
    StoreKeys(m, p, v);
  }

  /** `bbs4_player(player)`: the entries of that player's pieces, in order. */
  function Bbs4Player(m: Mapping, player: bool): Mapping
  {
    if |m| == 0 then []
    else (if m[0].piece.player == player then [m[0]] else []) + Bbs4Player(m[1..], player)
  }

  /** `bbs4_opp_player(player)`: the entries of the other player's pieces, in order. */
  function Bbs4OppPlayer(m: Mapping, player: bool): Mapping
  {
    if |m| == 0 then []
    else (if m[0].piece.player != player then [m[0]] else []) + Bbs4OppPlayer(m[1..], player)
  }

  /**
   * The two filters split the mapping by colour: every entry lands in exactly
   * one of them, and the opponent's part is the other colour's own part.
   */
  lemma {:induction false} PlayerPartition(m: Mapping, player: bool)
    ensures forall e :: e in Bbs4Player(m, player) <==> e in m && e.piece.player == player
    ensures forall e :: e in Bbs4OppPlayer(m, player) <==> e in m && e.piece.player != player
    ensures |Bbs4Player(m, player)| + |Bbs4OppPlayer(m, player)| == |m|
    ensures Bbs4OppPlayer(m, player) == Bbs4Player(m, !player)
  {
    if |m| > 0 {
      PlayerPartition(m[1..], player);
      assert m == [m[0]] + m[1..];
    }
  }

  /** Python's `int.bit_count()`: the number of set bits of the absolute value. */
  function BitCount(x: int): nat
  {
    PopCount(if x < 0 then -x else x)
  }

  /** `piece_count()`: every key with the number of squares its bitboard holds. */
  function PieceCount(m: Mapping): seq<(Piece, nat)>
  {
    seq(|m|, i requires 0 <= i < |m| => (m[i].piece, BitCount(m[i].bb)))
  }

  /** The counts keep the keys in order, and a bitboard's count is the number of its squares. */
  lemma PieceCountSpec(m: Mapping)
    ensures |PieceCount(m)| == |m|
    ensures forall i :: 0 <= i < |m| && m[i].bb >= 0 ==>
      PieceCount(m)[i].0 == m[i].piece && PieceCount(m)[i].1 == |Positions(m[i].bb, 1)|
  {
    forall i | 0 <= i < |m| && m[i].bb >= 0 { PositionsLength(m[i].bb, 1, 0); }
  }

  /** The length of the zip. */
  function ZipLen(pieces: seq<Piece>, bbs: seq<int>): nat
  {
    if |pieces| <= |bbs| then |pieces| else |bbs|
  }

  /**
   * The dictionary built from the zip has distinct keys, exactly the pieces of
   * the zipped prefix; with no repeated piece it keeps their order and pairs
   * each with its value.
   */
  lemma FromZipSpec(pieces: seq<Piece>, bbs: seq<int>)
    ensures KeysDistinct(FromZip(pieces, bbs))
    ensures forall q :: q in Keys(FromZip(pieces, bbs)) <==> q in pieces[..ZipLen(pieces, bbs)]
    ensures (forall i, j :: 0 <= i < j < ZipLen(pieces, bbs) ==> pieces[i] != pieces[j]) ==>
      Keys(FromZip(pieces, bbs)) == pieces[..ZipLen(pieces, bbs)] &&
      forall k :: 0 <= k < ZipLen(pieces, bbs) ==> Lookup(FromZip(pieces, bbs), pieces[k]) == Some(bbs[k])
  {
    FromZipKeys(pieces, bbs);
    if forall i, j :: 0 <= i < j < ZipLen(pieces, bbs) ==> pieces[i] != pieces[j] {
      FromZipDistinct(pieces, bbs);
    }
  }

  lemma FromZipKeys(pieces: seq<Piece>, bbs: seq<int>)
    ensures KeysDistinct(FromZip(pieces, bbs))
    ensures forall q :: q in Keys(FromZip(pieces, bbs)) <==> q in pieces[..ZipLen(pieces, bbs)]
  {
    FromZipKeysDistinct(pieces, bbs);
    FromZipKeySet(pieces, bbs);
  }

  /** The last zipped pair is stored into the dictionary of the ones before it. */
  lemma FromZipLast(pieces: seq<Piece>, bbs: seq<int>)
    requires ZipLen(pieces, bbs) > 0
    ensures var n := ZipLen(pieces, bbs);
      ZipLen(pieces[..n - 1], bbs[..n - 1]) == n - 1 &&
      FromZip(pieces, bbs) == Store(FromZip(pieces[..n - 1], bbs[..n - 1]), pieces[n - 1], bbs[n - 1])
  {
  }

  lemma {:induction false} FromZipKeysDistinct(pieces: seq<Piece>, bbs: seq<int>)
    ensures KeysDistinct(FromZip(pieces, bbs))
    decreases |pieces|
  {
    var n := ZipLen(pieces, bbs);
    if n > 0 {
      var ps, vs := pieces[..n - 1], bbs[..n - 1];
      FromZipLast(pieces, bbs);
      FromZipKeysDistinct(ps, vs);
      StoreDistinct(FromZip(ps, vs), pieces[n - 1], bbs[n - 1]);
    }
  }

  lemma {:induction false} FromZipKeySet(pieces: seq<Piece>, bbs: seq<int>)
    ensures forall q :: q in Keys(FromZip(pieces, bbs)) <==> q in pieces[..ZipLen(pieces, bbs)]
    decreases |pieces|
  {
    var n := ZipLen(pieces, bbs);
    if n > 0 {
      var ps, vs := pieces[..n - 1], bbs[..n - 1];
      FromZipLast(pieces, bbs);
      FromZipKeySet(ps, vs);
      StoreKeys(FromZip(ps, vs), pieces[n - 1], bbs[n - 1]);
      assert pieces[..n] == ps[..n - 1] + [pieces[n - 1]];
    }
  }

  lemma {:induction false} FromZipDistinct(pieces: seq<Piece>, bbs: seq<int>)
    requires forall i, j :: 0 <= i < j < ZipLen(pieces, bbs) ==> pieces[i] != pieces[j]
    ensures Keys(FromZip(pieces, bbs)) == pieces[..ZipLen(pieces, bbs)]
    ensures forall k :: 0 <= k < ZipLen(pieces, bbs) ==> Lookup(FromZip(pieces, bbs), pieces[k]) == Some(bbs[k])
    decreases |pieces|
  {
    var n := ZipLen(pieces, bbs);
    if n > 0 {
      var ps, vs := pieces[..n - 1], bbs[..n - 1];
      assert ZipLen(ps, vs) == n - 1;
      FromZipDistinct(ps, vs);
      var m0 := FromZip(ps, vs);
      StoreKeys(m0, pieces[n - 1], bbs[n - 1]);
      assert pieces[n - 1] !in ps[..n - 1];
      assert pieces[..n] == ps[..n - 1] + [pieces[n - 1]];
      forall k | 0 <= k < n {
        StoreLookup(m0, pieces[n - 1], bbs[n - 1], pieces[k]);
      }
    }
  }

  /** A store adds the stored entry and keeps only entries already there. */
  lemma {:induction false} StoreEntries(m: Mapping, p: Piece, v: int)
    ensures forall e :: e in Store(m, p, v) ==> e in m || e == Entry(p, v)
  {
    if |m| > 0 && m[0].piece != p {
      StoreEntries(m[1..], p, v);
      assert m == [m[0]] + m[1..];
    }
  }

  /** Every value of the dictionary comes from the zipped prefix of the values. */
  lemma {:induction false} FromZipValues(pieces: seq<Piece>, bbs: seq<int>)
    ensures forall e :: e in FromZip(pieces, bbs) ==> e.bb in bbs[..ZipLen(pieces, bbs)]
    decreases |pieces|
  {
    var n := ZipLen(pieces, bbs);
    if n > 0 {
      var ps, vs := pieces[..n - 1], bbs[..n - 1];
      assert ZipLen(ps, vs) == n - 1;
      FromZipValues(ps, vs);
      StoreEntries(FromZip(ps, vs), pieces[n - 1], bbs[n - 1]);
      assert bbs[..n] == vs[..n - 1] + [bbs[n - 1]];
    }
  }
}
