// utils.py, the first version of the Python bitboard helpers. Apart from
// `file_rank`, its definitions (`uint64`, `file_slide`, `clear_files`, the
// diagonal slides, `get_bit_positions`, `empty_bb`, `non_empty_bb`) are the
// same as those of board/utils.py and are modelled once, in BoardUtils.
// `file_rank` here gives the rank 0-based, so square names run from a0 to h7.
module LegacyUtils {
  import opened BoardUtils
  import Decimal

  /** `file_rank(pos)`: the file letter and the 0-based rank of a square. */
  function FileRank(pos: int): (r: (char, int))
    ensures r.0 in FileLetters && 0 <= FileIndex(r.0) < 8
    ensures pos == 8 * r.1 + FileIndex(r.0)
  {
    (FileLetters[pos % 8], pos / 8)
  }

  /** `file_rank_str(pos)`: the file letter followed by the 0-based rank. */
  function FileRankStr(pos: int): string
  {
    var (f, r) := FileRank(pos);
    [f] + Decimal.Show(r)
  }

  /** The file agrees with board/utils.py's `file_rank`; the rank is one lower. */
  lemma FileRankLags(pos: int)
    ensures FileRank(pos).0 == BoardUtils.FileRank(pos).0
    ensures FileRank(pos).1 == BoardUtils.FileRank(pos).1 - 1
  {
  }

  /**
   * Every board square gets a two-character name, rank digit 0 to 7; its
   * rank character is one below the one board/utils.py gives.
   */
  lemma FileRankStrOnBoard(pos: int)
    requires 0 <= pos < 64
    ensures |FileRankStr(pos)| == 2
    ensures 'a' <= FileRankStr(pos)[0] <= 'h' && '0' <= FileRankStr(pos)[1] <= '7'
    ensures pos == 8 * ((FileRankStr(pos)[1] as int) - ('0' as int)) + FileIndex(FileRankStr(pos)[0])
    ensures FileRankStr(pos)[0] == BoardUtils.FileRankStr(pos)[0]
    ensures (FileRankStr(pos)[1] as int) + 1 == BoardUtils.FileRankStr(pos)[1] as int
  {
    var r := FileRank(pos);
    assert 0 <= r.1 <= 7;
    assert Decimal.Show(r.1) == [Decimal.DigitChar(r.1)];
    BoardUtils.FileRankStrOnBoard(pos);
    var r' := BoardUtils.FileRank(pos);
    assert Decimal.Show(r'.1) == [Decimal.DigitChar(r'.1)];
  }

  /** The first square is named "a0", not "a1". */
  lemma FirstSquareName()
    ensures FileRankStr(0) == "a0"
  {
    FileRankStrOnBoard(0);
  }
}
