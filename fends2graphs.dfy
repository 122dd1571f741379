// `read_dataset_file` of movegen/src/bin/fends2graphs.rs: a dataset file is
// read line by line through a four-state machine (a `fen ` line, a `score `
// line, a `result ` line, then a line starting with `e`) that completes one
// record per accepted `e` line; records are buffered in four fixed arrays of
// DATASET_BATCH entries and every full buffer is saved as one graph batch.
//
// The file, the FEN parser, the board's side to move and the graph
// conversion and writer are outside this model: the lines arrive as a
// sequence (None for a line that could not be read), the FEN parser and the
// side to move are parameters, and a save is recorded as the batch of values
// handed to the writer.
module Fends2Graphs {
  import opened Decimal

  const DatasetBatch: nat := 1000

  const I8Min: int := -128
  const I8Max: int := 127

  /** `Board::from_fenstr` and the `player` field of the resulting board. */
  datatype Fen<!B> = Fen(parse: string -> Option<B>, player: B -> bool)

  /** One complete record: a position, its side to move, its score and its result. */
  datatype Record<B> = Record(board: B, nextPlayer: bool, score: int, result: int)

  /** The variables of the line machine that outlive a line. */
  datatype Reader<B> = Reader(lineState: nat, board: B, nextPlayer: bool, score: int, result: int)

  /** One saved batch: its file name and the four arrays passed to the writer. */
  datatype Batch<B> = Batch(name: string, boards: seq<B>, nextPlayers: seq<bool>, scores: seq<int>, results: seq<int>)

  predicate StartsWith(s: string, p: string)
  {
    |p| <= |s| && s[..|p|] == p
  }

  /** `str::trim_start_matches`: removes the prefix as many times as it repeats. */
  function TrimStartMatches(s: string, p: string): (r: string)
    requires |p| > 0
    ensures |r| <= |s| && r == s[|s| - |r|..]
    ensures !StartsWith(r, p)
    decreases |s|
  {
    if StartsWith(s, p) then TrimStartMatches(s[|p|..], p) else s
  }

  /** The machine before the first line: `Board::empty()`, white to move, zeros. */
  function Start<B>(empty: B): Reader<B>
  {
    Reader(0, empty, true, 0, 0)
  }

  /**
   * The effect of one line that was read: the new machine variables and the
   * record it completes, if any. A prefix that does not fit the current
   * state, and a field that does not parse, leave everything unchanged.
   */
  function Accept<B>(f: Fen<B>, r: Reader<B>, line: string): (Reader<B>, Option<Record<B>>)
  {
    if StartsWith(line, "fen ") && r.lineState == 0 then
      match f.parse(TrimStartMatches(line, "fen "))
      case Some(b) => (r.(lineState := 1, board := b, nextPlayer := f.player(b)), None)
      case None => (r, None)
    else if StartsWith(line, "score ") && r.lineState == 1 then
      match ParseIsize(TrimStartMatches(line, "score "))
      case Some(s) => (r.(lineState := 2, score := s), None)
      case None => (r, None)
    else if StartsWith(line, "result ") && r.lineState == 2 then
      match ParseSigned(TrimStartMatches(line, "result "), I8Min, I8Max)
      case Some(v) => (r.(lineState := 3, result := v), None)
      case None => (r, None)
    else if StartsWith(line, "e") && r.lineState == 3 then
      (r.(lineState := 0), Some(Record(r.board, r.nextPlayer, r.score, r.result)))
    else (r, None)
  }

  /** The machine after the lines, and the records completed on the way, in order. */
  function Run<B>(f: Fen<B>, start: Reader<B>, lines: seq<Option<string>>): (Reader<B>, seq<Record<B>>)
  {
    if |lines| == 0 then (start, [])
    else Feed(f, Run(f, start, lines[..|lines| - 1]), lines[|lines| - 1])
  }

  /** One more line: a line that could not be read changes nothing. */
  function Feed<B>(f: Fen<B>, st: (Reader<B>, seq<Record<B>>), line: Option<string>): (Reader<B>, seq<Record<B>>)
  {
    match line
    case None => st
    case Some(l) =>
      var (r', done) := Accept(f, st.0, l);
      (r', if done.Some? then st.1 + [done.value] else st.1)
  }

  /** `format!("{}{}.h5", filename, ds_count)`. */
  function BatchName(filename: string, k: nat): string
  {
    filename + Show(k) + ".h5"
  }

  /** The batch holding the records, field by field. */
  function MakeBatch<B>(name: string, recs: seq<Record<B>>): (b: Batch<B>)
    ensures |b.boards| == |b.nextPlayers| == |b.scores| == |b.results| == |recs|
  {
    Batch(name, seq(|recs|, j requires 0 <= j < |recs| => recs[j].board),
      seq(|recs|, j requires 0 <= j < |recs| => recs[j].nextPlayer),
      seq(|recs|, j requires 0 <= j < |recs| => recs[j].score),
      seq(|recs|, j requires 0 <= j < |recs| => recs[j].result))
  }

  /** The first n full batches of the records, batch k named with k. */
  function Batches<B>(filename: string, recs: seq<Record<B>>, n: nat): (bs: seq<Batch<B>>)
    requires n * DatasetBatch <= |recs|
    ensures |bs| == n
  {
    if n == 0 then []
    else
      var last := MakeBatch(BatchName(filename, n - 1), recs[(n - 1) * DatasetBatch..n * DatasetBatch]);
      Batches(filename, recs, n - 1) + [last]
  }

  /**
   * `read_dataset_file` on a file that opened: returns the batches handed to
   * the writer, in order. Every full batch of records is saved and the last
   * `|records| % DATASET_BATCH` records are not.
   */
  method ReadDatasetFile<B>(f: Fen<B>, empty: B, filename: string, lines: seq<Option<string>>)
    returns (saves: seq<Batch<B>>)
    ensures var recs := Run(f, Start(empty), lines).1;
      |recs| / DatasetBatch * DatasetBatch <= |recs| &&
      saves == Batches(filename, recs, |recs| / DatasetBatch)
  {
    var boards := new B[DatasetBatch](_ => empty);
    var nextPlayers := new bool[DatasetBatch](_ => true);
    var scores := new int[DatasetBatch](_ => 0);
    var results := new int[DatasetBatch](_ => 0);

    var lineState: nat := 0;
    var board: B := empty;
    var nextPlayer := true;
    var score := 0;
    var result := 0;

    var dsCount: nat := 0;
    var i: nat := 0;
    saves := [];

    ghost var recs: seq<Record<B>> := [];
    for k := 0 to |lines|
      invariant (Reader(lineState, board, nextPlayer, score, result), recs) == Run(f, Start(empty), lines[..k])
      invariant i < DatasetBatch
      invariant Progress(filename, saves, dsCount, i, boards[..], nextPlayers[..], scores[..], results[..], recs)
    {
      ghost var next := Feed(f, (Reader(lineState, board, nextPlayer, score, result), recs), lines[k]);
      assert Run(f, Start(empty), lines[..k + 1]) == next by {
        assert lines[..k + 1][..k] == lines[..k];
      }
      if lines[k].Some? {
        ghost var before := (boards[..], nextPlayers[..], scores[..], results[..]);
        ghost var done := Accept(f, Reader(lineState, board, nextPlayer, score, result), lines[k].value).1;
        lineState, board, nextPlayer, score, result, i :=
          AcceptLine(f, lineState, board, nextPlayer, score, result, lines[k].value, boards, nextPlayers, scores, results, i);
        if done.Some? {
          BufferedSnoc(filename, saves, dsCount, i - 1, before.0, before.1, before.2, before.3, recs, done.value);
        }
      }
      recs := next.1;
      if i == DatasetBatch {
        SavedBatch(filename, saves, dsCount, boards[..], nextPlayers[..], scores[..], results[..], recs);
        saves := saves + [Batch(BatchName(filename, dsCount), boards[..], nextPlayers[..], scores[..], results[..])];
        i := 0;
        dsCount := dsCount + 1;
      }
    }
    assert lines[..|lines|] == lines;
  }

  /**
   * The loop's state after a line: the records so far are the saved batches,
   * then the i records buffered in the arrays.
   */
  ghost predicate Progress<B>(filename: string, saves: seq<Batch<B>>, dsCount: nat, i: nat,
                              bs: seq<B>, ps: seq<bool>, ss: seq<int>, rs: seq<int>, recs: seq<Record<B>>)
  {
    |recs| == dsCount * DatasetBatch + i &&
    saves == Batches(filename, recs, dsCount) &&
    Buffered(bs, ps, ss, rs, recs[dsCount * DatasetBatch..])
  }

  /** Writing a completed record at the next free index keeps the state a loop state. */
  lemma BufferedSnoc<B>(filename: string, saves: seq<Batch<B>>, dsCount: nat, i: nat,
                        bs: seq<B>, ps: seq<bool>, ss: seq<int>, rs: seq<int>, recs: seq<Record<B>>, rec: Record<B>)
    requires Progress(filename, saves, dsCount, i, bs, ps, ss, rs, recs)
    requires i < |bs| && i < |ps| && i < |ss| && i < |rs|
    ensures Progress(filename, saves, dsCount, i + 1, bs[i := rec.board], ps[i := rec.nextPlayer],
      ss[i := rec.score], rs[i := rec.result], recs + [rec])
  {
    BatchesPrefix(filename, recs, [rec], dsCount);
    assert (recs + [rec])[dsCount * DatasetBatch..] == recs[dsCount * DatasetBatch..] + [rec];
  }

  /** The first |recs| entries of the four arrays hold the records, field by field. */
  ghost predicate Buffered<B>(bs: seq<B>, ps: seq<bool>, ss: seq<int>, rs: seq<int>, recs: seq<Record<B>>)
  {
    |recs| <= |bs| && |recs| <= |ps| && |recs| <= |ss| && |recs| <= |rs| &&
    forall j :: 0 <= j < |recs| ==>
      bs[j] == recs[j].board && ps[j] == recs[j].nextPlayer && ss[j] == recs[j].score && rs[j] == recs[j].result
  }

  /**
   * One line that was read, with the record it completes written at index i:
   * the machine moves as `Accept` says, and i grows exactly when a record is
   * completed.
   */
  method AcceptLine<B>(f: Fen<B>, lineState: nat, board: B, nextPlayer: bool, score: int, result: int, line: string,
                       boards: array<B>, nextPlayers: array<bool>, scores: array<int>, results: array<int>, i: nat)
    returns (lineState': nat, board': B, nextPlayer': bool, score': int, result': int, i': nat)
    requires i < boards.Length == nextPlayers.Length == scores.Length == results.Length
    requires boards as object != nextPlayers && boards as object != scores && boards as object != results && scores != results
    modifies boards, nextPlayers, scores, results
    ensures var (r, done) := Accept(f, Reader(lineState, board, nextPlayer, score, result), line);
      Reader(lineState', board', nextPlayer', score', result') == r &&
      (done.None? ==> i' == i && unchanged(boards, nextPlayers, scores, results)) &&
      (done.Some? ==> (i' == i + 1 && done.value == Record(board, nextPlayer, score, result) &&
        boards[..] == old(boards[..])[i := board] && nextPlayers[..] == old(nextPlayers[..])[i := nextPlayer] &&
        scores[..] == old(scores[..])[i := score] && results[..] == old(results[..])[i := result]))
  {
    lineState', board', nextPlayer', score', result', i' := lineState, board, nextPlayer, score, result, i;
    if StartsWith(line, "fen ") && lineState == 0 {
      var fenStr := TrimStartMatches(line, "fen ");
      match f.parse(fenStr) {
        case Some(b) =>
          board' := b;
          nextPlayer' := f.player(b);
          lineState' := 1;
        case None =>
      }
    } else if StartsWith(line, "score ") && lineState == 1 {
      var scoreStr := TrimStartMatches(line, "score ");
      match ParseIsize(scoreStr) {
        case Some(s) =>
          score' := s;
          lineState' := 2;
        case None =>
      }
    } else if StartsWith(line, "result ") && lineState == 2 {
      var resultStr := TrimStartMatches(line, "result ");
      match ParseSigned(resultStr, I8Min, I8Max) {
        case Some(v) =>
          result' := v;
          lineState' := 3;
        case None =>
      }
    } else if StartsWith(line, "e") && lineState == 3 {
      boards[i] := board;
      nextPlayers[i] := nextPlayer;
      scores[i] := score;
      results[i] := result;
      lineState' := 0;
      i' := i + 1;
    }
  }

  /** Full arrays that hold the records past the saved batches become the next saved batch. */
  lemma SavedBatch<B>(filename: string, saves: seq<Batch<B>>, n: nat,
                      bs: seq<B>, ps: seq<bool>, ss: seq<int>, rs: seq<int>, recs: seq<Record<B>>)
    requires |bs| == |ps| == |ss| == |rs| == DatasetBatch
    requires Progress(filename, saves, n, DatasetBatch, bs, ps, ss, rs, recs)
    ensures Progress(filename, saves + [Batch(BatchName(filename, n), bs, ps, ss, rs)], n + 1, 0, bs, ps, ss, rs, recs)
  {
    var part := recs[n * DatasetBatch..(n + 1) * DatasetBatch];
    assert recs[n * DatasetBatch..] == part;
    var b := MakeBatch(BatchName(filename, n), part);
    assert bs == b.boards && ps == b.nextPlayers && ss == b.scores && rs == b.results;
    BatchesSnoc(filename, recs, n);
  }

  /** The saved batches only depend on the records they hold. */
  lemma {:induction false} BatchesPrefix<B>(filename: string, recs: seq<Record<B>>, more: seq<Record<B>>, n: nat)
    requires n * DatasetBatch <= |recs|
    ensures Batches(filename, recs + more, n) == Batches(filename, recs, n)
  {
    if n > 0 {
      BatchesPrefix(filename, recs, more, n - 1);
      assert (recs + more)[(n - 1) * DatasetBatch..n * DatasetBatch] == recs[(n - 1) * DatasetBatch..n * DatasetBatch];
    }
  }

  lemma BatchesSnoc<B>(filename: string, recs: seq<Record<B>>, n: nat)
    requires (n + 1) * DatasetBatch <= |recs|
    ensures Batches(filename, recs, n + 1) ==
      Batches(filename, recs, n) + [MakeBatch(BatchName(filename, n), recs[n * DatasetBatch..(n + 1) * DatasetBatch])]
  {
  }

  /** One run of the machine continues where an earlier run stopped. */
  lemma {:induction false} RunConcat<B>(f: Fen<B>, start: Reader<B>, a: seq<Option<string>>, b: seq<Option<string>>)
    ensures var (r, recs) := Run(f, start, a);
      Run(f, start, a + b) == (Run(f, r, b).0, recs + Run(f, r, b).1)
  {
    if |b| > 0 {
      var b' := b[..|b| - 1];
      RunConcat(f, start, a, b');
      assert (a + b)[..|a + b| - 1] == a + b';
      var (r, recs) := Run(f, start, a);
      var mid := Run(f, r, b');
      assert Run(f, start, a + b) == Feed(f, (mid.0, recs + mid.1), b[|b| - 1]);
      if b[|b| - 1].Some? {
        var done := Accept(f, mid.0, b[|b| - 1].value).1;
        if done.Some? {
          assert (recs + mid.1) + [done.value] == recs + (mid.1 + [done.value]);
        }
      }
    } else {
      assert a + b == a;
      assert Run(f, start, a).1 + [] == Run(f, start, a).1;
    }
  }

  /** The machine only ever is in one of the four states 0 (wants `fen `) to 3 (wants `e`). */
  lemma {:induction false} RunStates<B>(f: Fen<B>, start: Reader<B>, lines: seq<Option<string>>)
    requires start.lineState <= 3
    ensures Run(f, start, lines).0.lineState <= 3
  {
    if |lines| > 0 {
      RunStates(f, start, lines[..|lines| - 1]);
    }
  }

  /**
   * A line moves the machine only when its prefix is the one the current
   * state waits for, and then to the next state (3 back to 0): fields that do
   * not parse and lines out of order are skipped. A record is completed
   * exactly by an `e` line in state 3, and it holds the fields read before.
   */
  lemma AcceptSteps<B>(f: Fen<B>, r: Reader<B>, line: string)
    ensures var (r', done) := Accept(f, r, line);
      (r' == r && done.None?) ||
      (r.lineState == 0 && StartsWith(line, "fen ") && r'.lineState == 1) ||
      (r.lineState == 1 && StartsWith(line, "score ") && r' == r.(lineState := 2, score := r'.score)) ||
      (r.lineState == 2 && StartsWith(line, "result ") && r' == r.(lineState := 3, result := r'.result)) ||
      (r.lineState == 3 && StartsWith(line, "e") && r' == r.(lineState := 0))
    ensures Accept(f, r, line).1.Some? <==> (r.lineState == 3 && StartsWith(line, "e"))
    ensures Accept(f, r, line).1.Some? ==> Accept(f, r, line).1.value == Record(r.board, r.nextPlayer, r.score, r.result)
  {
  }

  /** The text of one dataset entry: a FEN, a score and a result. */
  datatype Entry = Entry(fenText: string, score: int, result: int)

  /** The four lines that describe the entry, as the dataset writer lays them out. */
  function EntryLines(e: Entry): seq<Option<string>>
  {
    [Some("fen " + e.fenText), Some("score " + Show(e.score)), Some("result " + Show(e.result)), Some("e")]
  }

  function DatasetLines(es: seq<Entry>): seq<Option<string>>
  {
    if |es| == 0 then [] else DatasetLines(es[..|es| - 1]) + EntryLines(es[|es| - 1])
  }

  /**
   * An entry the reader can take in: its FEN parses, does not itself start
   * with `fen ` (which the prefix trimming would also strip), and its score
   * and result fit `isize` and `i8`.
   */
  predicate Readable<B>(f: Fen<B>, e: Entry)
  {
    f.parse(e.fenText).Some? && !StartsWith(e.fenText, "fen ") &&
    IsizeMin <= e.score <= IsizeMax && I8Min <= e.result <= I8Max
  }

  function EntryRecord<B>(f: Fen<B>, e: Entry): Record<B>
    requires Readable(f, e)
  {
    var b := f.parse(e.fenText).value;
    Record(b, f.player(b), e.score, e.result)
  }

  function EntryRecords<B>(f: Fen<B>, es: seq<Entry>): (recs: seq<Record<B>>)
    requires forall j :: 0 <= j < |es| ==> Readable(f, es[j])
    ensures |recs| == |es|
  {
    if |es| == 0 then [] else EntryRecords(f, es[..|es| - 1]) + [EntryRecord(f, es[|es| - 1])]
  }

  /** The decimal text of an integer never starts with a letter. */
  lemma ShowHead(n: int)
    ensures |Show(n)| > 0 && (Show(n)[0] == '-' || IsDigit(Show(n)[0]))
  {
  }

  /** Trimming a prefix off a line that carries it once gives back the rest. */
  lemma TrimOnce(p: string, t: string)
    requires |p| > 0 && !StartsWith(t, p)
    ensures TrimStartMatches(p + t, p) == t
  {
    assert (p + t)[..|p|] == p;
    assert (p + t)[|p|..] == t;
  }

  /** A line that starts with something other than a sign or a digit is not the text of an integer. */
  lemma ShowNotPrefixed(n: int, p: string)
    requires |p| > 0 && p[0] != '-' && !IsDigit(p[0])
    ensures !StartsWith(Show(n), p)
  {
    ShowHead(n);
  }

  lemma AcceptFen<B>(f: Fen<B>, r: Reader<B>, t: string)
    requires r.lineState == 0 && f.parse(t).Some? && !StartsWith(t, "fen ")
    ensures var b := f.parse(t).value;
      Accept(f, r, "fen " + t) == (r.(lineState := 1, board := b, nextPlayer := f.player(b)), None)
  {
    TrimOnce("fen ", t);
  }

  lemma AcceptScore<B>(f: Fen<B>, r: Reader<B>, n: int)
    requires r.lineState == 1 && IsizeMin <= n <= IsizeMax
    ensures Accept(f, r, "score " + Show(n)) == (r.(lineState := 2, score := n), None)
  {
    ShowNotPrefixed(n, "score ");
    TrimOnce("score ", Show(n));
    ParseShow(n, IsizeMin, IsizeMax);
  }

  lemma AcceptResult<B>(f: Fen<B>, r: Reader<B>, n: int)
    requires r.lineState == 2 && I8Min <= n <= I8Max
    ensures Accept(f, r, "result " + Show(n)) == (r.(lineState := 3, result := n), None)
  {
    ShowNotPrefixed(n, "result ");
    TrimOnce("result ", Show(n));
    ParseShow(n, I8Min, I8Max);
  }

  /** Reading one more line feeds it to the machine where the earlier lines left it. */
  lemma RunPrefix<B>(f: Fen<B>, start: Reader<B>, lines: seq<Option<string>>, k: nat)
    requires k < |lines|
    ensures Run(f, start, lines[..k + 1]) == Feed(f, Run(f, start, lines[..k]), lines[k])
  {
    assert lines[..k + 1][..k] == lines[..k];
  }

  /** A line that completes no record moves the machine and keeps the records. */
  lemma FeedQuiet<B>(f: Fen<B>, st: (Reader<B>, seq<Record<B>>), line: string, r': Reader<B>)
    requires Accept(f, st.0, line) == (r', None)
    ensures Feed(f, st, Some(line)) == (r', st.1)
  {
  }

  /** From state 0, the four lines of a readable entry complete its record and return to state 0. */
  lemma OneEntry<B>(f: Fen<B>, r: Reader<B>, e: Entry)
    requires r.lineState == 0 && Readable(f, e)
    ensures Run(f, r, EntryLines(e)).1 == [EntryRecord(f, e)]
    ensures Run(f, r, EntryLines(e)).0.lineState == 0
  {
    var lines := EntryLines(e);
    var b := f.parse(e.fenText).value;
    var r1 := r.(lineState := 1, board := b, nextPlayer := f.player(b));
    var r2 := r1.(lineState := 2, score := e.score);
    var r3 := r2.(lineState := 3, result := e.result);
    assert Run(f, r, lines[..1]) == (r1, []) by {
      RunPrefix(f, r, lines, 0);
      assert lines[..0] == [];
      AcceptFen(f, r, e.fenText);
      FeedQuiet(f, (r, []), "fen " + e.fenText, r1);
    }
    assert Run(f, r, lines[..2]) == (r2, []) by {
      RunPrefix(f, r, lines, 1);
      AcceptScore(f, r1, e.score);
      FeedQuiet(f, (r1, []), "score " + Show(e.score), r2);
    }
    assert Run(f, r, lines[..3]) == (r3, []) by {
      RunPrefix(f, r, lines, 2);
      AcceptResult(f, r2, e.result);
      FeedQuiet(f, (r2, []), "result " + Show(e.result), r3);
    }
    assert Accept(f, r3, "e") == (r3.(lineState := 0), Some(EntryRecord(f, e)));
    RunPrefix(f, r, lines, 3);
    assert lines[..4] == lines;
  }

  /**
   * Reading a dataset written entry by entry gives back exactly its entries'
   * records, in order.
   */
  lemma {:induction false} DatasetRecords<B>(f: Fen<B>, r: Reader<B>, es: seq<Entry>)
    requires r.lineState == 0
    requires forall j :: 0 <= j < |es| ==> Readable(f, es[j])
    ensures Run(f, r, DatasetLines(es)).1 == EntryRecords(f, es)
    ensures Run(f, r, DatasetLines(es)).0.lineState == 0
  {
    if |es| > 0 {
      var front := es[..|es| - 1];
      DatasetRecords(f, r, front);
      RunConcat(f, r, DatasetLines(front), EntryLines(es[|es| - 1]));
      OneEntry(f, Run(f, r, DatasetLines(front)).0, es[|es| - 1]);
    }
  }
}
