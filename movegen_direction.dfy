// The board types of movegen/src/board.rs: the rank and file masks and the
// eight compass directions. `Direction` is the same set of compass points as
// the Python generator's ray directions and is modelled by that one datatype,
// `BoardRays.Dir`, with `opp` defined here.
module MovegenDirection {
  import opened Bits
  import opened BoardUtils
  import opened BoardRays

  /** `RankBB::One` .. `RankBB::Eight`, as u64. */
  const RankBBs: seq<int> := [
    0xff, 0xff_00, 0xff_00_00, 0xff_00_00_00, 0xff_00_00_00_00, 0xff_00_00_00_00_00,
    0xff_00_00_00_00_00_00, 0xff_00_00_00_00_00_00_00]

  /** `FileBB::A` .. `FileBB::H`, as u64. */
  const FileBBs: seq<int> := [
    0x01_01_01_01_01_01_01_01, 0x02_02_02_02_02_02_02_02, 0x04_04_04_04_04_04_04_04,
    0x08_08_08_08_08_08_08_08, 0x10_10_10_10_10_10_10_10, 0x20_20_20_20_20_20_20_20,
    0x40_40_40_40_40_40_40_40, 0x80_80_80_80_80_80_80_80]

  lemma RankBBByte(k: nat, q: nat)
    requires k < 8 && q < 8
    ensures ByteOf(RankBBs[k], q) == if q == k then 0xff else 0
  {
    if k == 0 {} else if k == 1 {} else if k == 2 {} else if k == 3 {}
    else if k == 4 {} else if k == 5 {} else if k == 6 {} else {}
  }

  /** Rank mask k holds exactly the eight squares of rank k (0 is the first rank). */
  lemma RankBBBit(k: nat, i: nat)
    requires k < 8
    ensures IsBoard(RankBBs[k])
    ensures Bit(RankBBs[k], i) <==> i < 64 && RankOf(i) == k
  {
    BoardByteBit(RankBBs[k], i);
    if i < 64 {
      RankBBByte(k, i / 8);
      ByteOnesBit(i % 8);
      BitZero(i % 8);
    }
  }

  lemma FileBBByte(k: nat, q: nat)
    requires k < 8 && q < 8
    ensures ByteOf(FileBBs[k], q) == Pow2(k)
  {
    var c, b := FileBBs[k], Pow2(k);
    assert c == b * 0x01_01_01_01_01_01_01_01 && b < 256 by {
      if k == 0 {} else if k == 1 {} else if k == 2 {} else if k == 3 {}
      else if k == 4 {} else if k == 5 {} else if k == 6 {} else { assert Pow2(7) == 128; }
    }
    UniformByte(b, q);
  }

  /** File mask k holds exactly the eight squares of file k (0 is file a). */
  lemma FileBBBit(k: nat, i: nat)
    requires k < 8
    ensures IsBoard(FileBBs[k])
    ensures Bit(FileBBs[k], i) <==> i < 64 && FileOf(i) == k
  {
    BoardByteBit(FileBBs[k], i);
    if i < 64 {
      FileBBByte(k, i / 8);
      Pow2Bit(k, i % 8);
    }
  }

  /** `Direction::opp`: the compass point pointing the other way. */
  function Opp(dir: Dir): (r: Dir)
    ensures FileDelta(r) == -FileDelta(dir) && RankDelta(r) == -RankDelta(dir)
    ensures StepSize(r) == -StepSize(dir)
  {
    match dir
    case NW => SE
    case N => S
    case NE => SW
    case E => W
    case SE => NW
    case S => N
    case SW => NE
    case W => E
  }

  /** A direction is fixed by its file and rank step. */
  lemma DeltasDetermine(d: Dir, e: Dir)
    requires FileDelta(d) == FileDelta(e) && RankDelta(d) == RankDelta(e)
    ensures d == e
  {
  }

  /** Turning round twice faces the way one started, and no direction is its own opposite. */
  lemma OppInvolution(dir: Dir)
    ensures Opp(Opp(dir)) == dir
    ensures Opp(dir) != dir
  {
    DeltasDetermine(Opp(Opp(dir)), dir);
  }

  /** One step of a direction moves by its file and rank change: StepSize = 8 * rank step + file step. */
  lemma StepSplit(dir: Dir)
    ensures StepSize(dir) == 8 * RankDelta(dir) + FileDelta(dir)
    ensures -1 <= FileDelta(dir) <= 1 && -1 <= RankDelta(dir) <= 1
    ensures FileDelta(dir) != 0 || RankDelta(dir) != 0
  {
  }
}
