# geistchess move generation, modelled in Dafny

geistchess is a small chess engine written twice: a Python bitboard move generator (board/), with an older first version beside it (utils.py, pieces.py, board.py, move.py), and a Rust crate (movegen/) that packs moves into 16-bit words and generates them set-wise. Around them sit a fail-soft alpha-beta search over an abstract successor relation (analysis/absearch.py), a perft node counter (movegen/src/perft.rs), a dataset reader that turns FEN/score/result records into batches of 1000 (movegen/src/bin/fends2graphs.rs) and the UCI option codec (movegen/src/uci/client.rs).

This project models that core and proves what it generates.

- **A bitboard** is a non-negative integer. Its bit i stands for square i: 0 is a1, 7 is h1 and 63 is h8.
- **Python's integer bit operations** are modelled exactly, unbounded and in two's complement (module `Bits`). `uint64` is the only place where 64-bit truncation happens, as in the source.
- **Rust's u64 shifts** have the lost high bits written out. A u8 is a `bv8` and a u16 a `bv16` where the Rust code packs fields.

## The modules

**Python generator.**
- `BoardUtils` and `BoardRays`: the helpers of board/utils.py.
- `BoardPiece`, `BoardPieces`, `BoardLeapers` and `BoardGenerators`: the pieces and generators of board/pieces.py.
- `BoardMove`: board/move.py.
- `BoardState` and `BoardBoard`: board/board.py.
- The generators produce three parallel streams: sources, destinations and capture flags. `PieceMoveList` and `MoveList` are classes whose iterator fields the iteration consumes, as Python's single-pass generators do.
- `Board` is a class with a history stack that `MakeMove` pushes and `UnmakeMove` pops.

**First Python version.** This is `LegacyUtils`, `LegacyPieces`, `LegacyMove` and `LegacyBoard`.
- Only pawns move here, and there are no capture flags.
- The pawn generator is proved to agree with the newer one once the flags are dropped.
- The helpers that utils.py and board/utils.py share are identical apart from `file_rank`, whose rank is 0-based in utils.py. The shared helpers are modelled once, in `BoardUtils`. board/utils.py also has `shift`, `shift_or`, `file_rank_int`, `position_bb`, the ray table and `ray`, `lsb`, `msb`, `lsb_bb`, `msb_bb`, `ray_moves` and the printing helpers, which utils.py lacks.

**Rust generator.** This is `MovegenDirection`, `MovegenUtils`, `MovegenPiece`, `MovegenMoves`, `MovegenPieces`, `MovegenPiecesProps`, `MovegenBoard` and `MovegenBoardMoves`.
- The move and piece encodings are proved to round-trip.
- `BitPositions` is a class whose `Next` clears the lowest set bit.
- `MoveList` is a class over a `seq`.
- `Piece::move_list` and `Board::move_list` are loops that append to it. Their appended moves are characterised square by square.
- With knight and king tables and bishop and rook attacks that meet their contract, the generated moves are exactly:
  - the pawn pushes, double pushes, captures, en-passant captures and promotions;
  - for the other pieces, the pattern or ray squares that are empty or held by the opponent.
- The contract means the tables agree with the Python generator's `get_knight_patterns`, `get_king_patterns` and `ray_moves`.
- `make_move` works on a cloned array that it updates in place.

**Search and tools.**
- `AbSearch`: the solver is a class. `MinNode` and `MaxNode` are recursive methods with the source's loops, proved fail-soft against an unpruned minimax reference.
- `AbSearchTest`: the fixed test graph of tests/test_ab.py. Its minimax value from `a` is -4, and the search returns it.
- `Perft`: `RunFor` keeps the stack loop and counts the half-move counts of the boards it pops. Its map is proved to count the boards of the tree up to the depth.
- `Fends2Graphs`: the line-state machine and the fixed buffers of 1000 entries, kept as arrays. Every full batch of completed records is proved to be saved in order. A file written entry by entry is proved to read back as exactly its records.
- `Decimal`: decimal text shared by Python's `str`, Rust's `format!` and Rust's `parse`.
- `UciOptions`: `to_str` and `from_str` of `UCIOptionType`.

## Model and code

Where the code does something other than what it is evidently meant to do, the model follows the code:
- **King wrap-around.** Knight and king moves that would wrap around an edge of the board are meant to be masked off. `King.get_valid_moves` in board/pieces.py does not mask them (`BoardLeapers`), although `get_king_patterns` does.
- **Rust en passant.** En passant is meant to open after an opposing double push. The Rust generator opens it when the previous move's kind is `Enpassant`.
- **Rust en-passant sources.** The capturing pawns are meant to be the own pawns beside the previous destination. movegen/src/pieces.rs:237-244 takes the own pawns diagonally behind it instead: south-west and south-east of it for white, north-west and north-east for black (`MovegenPiecesProps.EpSourcesBit`).
- **White north-east capture.** A white pawn's north-east capture is meant to look at the square north-east of it. `swne_slide`'s backward branch (board/utils.py:94) also shifts left by 9, so white's `cp_ne` (board/pieces.py:108) holds the pawns with an opposing piece south-west of them. A pawn on b2 is then given the move b2-c3 onto an empty c3 when an opposing piece stands on a1 (`BoardPieces.WhiteNorthEastLooksBack`).
- **Black capture destinations.** A black pawn's captures are meant to land diagonally ahead, on x-7 and x-9. Both destination lists give x-8, the square straight ahead, in board/pieces.py:130-131 and in pieces.py:74-75.
- **Python en passant.** The pawns that capture en passant are meant to be the own pawns beside the double-pushed pawn. board/pieces.py takes them at the previous destination ±1 with no file mask.
- **Square ranges.** Moves are meant to carry board squares only, but neither generator checks them.
  - Where an out-of-range square would panic in the Rust code, the model requires the square to be in range.
  - The Python `make_move` (`BoardBoard.Board.MakeMove`) takes any square. On square 0, `position_bb(-1)` is 0, so nothing is cleared and the mover's bitboard keeps that square unchanged. A square past 64 clears nothing, because the clearing is truncated to 64 bits, and sets a bit above the board in the mover's bitboard.
- **Imports.** board/pieces.py imports its helpers with an absolute `from utils import`, which resolves to the top-level utils.py. That file lacks `shift`, `shift_or`, `file_rank_int`, `ray_moves` and `print_bb`, which board/utils.py defines. The model uses the board/utils.py functions. board/board.py imports `bit_count`, which board/utils.py does not define. The model uses Python's `int.bit_count` for it.

## Model

| member | source | states |
|---|---|---|
| BoardUtils.UInt64 | board/utils.py:8-10 | the result is a bitboard in [0, 2^64) and equals v modulo 2^64, negative v included |
| BoardUtils.UInt64Bit | board/utils.py:8-10 | truncation keeps exactly the bits of the 64 squares and drops every higher bit |
| BoardUtils.UInt64Identity | board/utils.py:8-10 | a value already in [0, 2^64) is unchanged, so truncation is idempotent |
| BoardUtils.FileRank | board/utils.py:16-17 | the file letter is one of a..h and together with the 1-based rank it recovers the square |
| BoardUtils.FileRankInt | board/utils.py:20-21 | the 1-based file lies in 1..8 and file and rank recover the square |
| BoardUtils.FileRankIntOnBoard | board/utils.py:20-21 | on the board both coordinates lie in 1..8 and are one past the 0-based file and rank |
| BoardUtils.FileRankStrOnBoard | board/utils.py:24-26 | every square gets a two-character name a..h then 1..8 from which the square is recovered |
| BoardUtils.FileSlideBit | board/utils.py:40-44 | every square moves by steps ranks, up when forward and down otherwise; squares pushed off the board are lost |
| BoardUtils.ShiftBit | board/utils.py:53-54 | bit i of the result is bit i - n of x, for left and right shifts alike |
| BoardUtils.ShiftOneBit | board/utils.py:53-54 | shifting the one-square mask of square 0 by n gives the mask of square n, empty for negative n |
| BoardUtils.ShiftOrBit | board/utils.py:65-66 | None exactly for an empty list of amounts; otherwise a square is set iff some amount moves a square of x onto it |
| BoardUtils.ByteRepeatBit | board/utils.py:71-73 | None exactly for n = 0; otherwise byte k is a copy of x for k < n and empty above |
| BoardUtils.ClearFilesBit | board/utils.py:78-84 | start clears exactly the first n files, otherwise exactly the last n files; every other square is kept |
| BoardUtils.SlidesAreBoards | board/utils.py:40-104 | the three slides always produce bitboards |
| BoardUtils.SwneSlideBit | board/utils.py:89-95 | both directions take square i from square i - 9 * steps, the forward one clearing the first files and the other the last files |
| BoardUtils.SenwSlideBit | board/utils.py:98-104 | forward takes square i from i - 7 * steps clearing the last files; backward takes it from i + 7 * steps clearing the first files |
| BoardUtils.SwneForwardNoWrap | board/utils.py:89-92 | a forward swne result square lies steps files east and steps ranks north of a set source square |
| BoardUtils.SwneBackwardWraps | board/utils.py:93-95 | the backward swne slide also shifts up: square h1 lands on a3 |
| BoardUtils.SenwForwardNoWrap | board/utils.py:98-101 | a forward senw result square lies steps files west and steps ranks north of a set source square |
| BoardUtils.SenwBackwardNoWrap | board/utils.py:102-104 | a backward senw result square lies steps files east and steps ranks south of a set source square |
| BoardUtils.PositionBb | board/utils.py:107-108 | the mask is 2^pos for a non-negative square and 0 for a negative one |
| BoardUtils.PositionBbBit | board/utils.py:107-108 | the mask of square pos holds that square and no other |
| BoardUtils.GetBitPositions | board/utils.py:110-116 | the loop returns the 1-based indices of the set bits of x, lowest first |
| BoardUtils.GetBitPositionsSpec | board/utils.py:110-116 | the indices are strictly ascending, each is 1-based and marks a set bit, every set bit is listed, and there are popcount(x) of them |
| BoardUtils.UnionBit | board/utils.py:122-126 | a square is in the or of a non-empty list iff some entry holds it |
| BoardUtils.OccupancyBit | board/utils.py:121-126 | None exactly for an empty mapping; otherwise a square is occupied iff some bitboard holds it and empty iff none does |
| BoardUtils.EmptyComplementsNonEmpty | board/utils.py:121-126 | empty_bb and non_empty_bb are disjoint and together cover the 64 squares |
| BoardRays.Ray | board/utils.py:166-173 | the flag is true exactly when the direction's step size is positive |
| BoardRays.RayIsUnion | board/utils.py:166-173 | the ray is the union of the table's number of steps from the source mask, and empty for a source past the board |
| BoardRays.RayBit | board/utils.py:155-173 | the bits of the ray are exactly the squares beyond src in the direction, up to the board edge |
| BoardRays.RaySquare | board/utils.py:155-173 | the square s steps along the ray is on the board with file and rank each moved s times, so no step wraps an edge |
| BoardRays.RayLenRange | board/utils.py:155-164 | a ray has at most 7 squares |
| BoardRays.RayReachesEdge | board/utils.py:155-164 | the ray runs to the edge: one step more would leave the board or change file by the wrong amount |
| BoardRays.SquareOnRay | board/utils.py:166-173 | each step within the ray's length is a square of the ray at that distance |
| BoardRays.OnRaySquare | board/utils.py:166-173 | every square of the ray is a whole number of steps away, within the ray's length |
| BoardRays.RayCount | board/utils.py:166-173 | the ray has exactly the table's step count of squares, none of them lost off the board |
| BoardRays.RayExcludesSource | board/utils.py:166-173 | the source is never a square of its own ray |
| BoardRays.RayBeyond | board/utils.py:166-173 | the ray from the k-th square is the original ray past its first k steps |
| BoardRays.RayLenAlong | board/utils.py:155-164 | after k steps the ray from the new square is k squares shorter |
| BoardRays.Lsb | board/utils.py:176-177 | 0 on an empty board, otherwise the 1-based index of the lowest set bit |
| BoardRays.Msb | board/utils.py:179-180 | 0 on an empty board, otherwise the 1-based index of the highest set bit |
| BoardRays.LsbBb | board/utils.py:182-183 | 0 on an empty board, otherwise the one-square mask of the lowest set bit |
| BoardRays.MsbBb | board/utils.py:185-189 | on a bitboard: 0 when empty, otherwise the one-square mask of the highest set bit |
| BoardRays.RayOccupied | board/utils.py:195-196 | the occupied squares of the ray, and no others |
| BoardRays.BlockedRayBit | board/utils.py:195-199 | one pass of the loop yields exactly the ray up to and including its nearest occupied square, or the whole ray |
| BoardRays.Unblocked | board/utils.py:197-199 | with nothing on the ray occupied the pass keeps the whole ray |
| BoardRays.Blocked | board/utils.py:197-199 | with a blocker the pass removes exactly the ray beyond the blocker |
| BoardRays.BlockerSquare | board/utils.py:197 | the lowest occupied square for a ray towards higher squares and the highest otherwise is the nearest occupied square of the ray |
| BoardRays.NearerSquare | board/utils.py:155-197 | nearer squares have lower indices on rays towards higher squares and higher indices otherwise |
| BoardRays.RayAttackBit | board/utils.py:192-200 | a square is attacked iff some direction's ray reaches it no farther than that ray's nearest occupied square |
| BoardRays.RayMoves | board/utils.py:192-200 | the loop's accumulated attack is the reference union of blocked rays over the directions, in order |
| BoardPieces.Offset | board/pieces.py:128-131 | every item of the list moved by d, in order and with the same length |
| BoardPieces.Rep | board/pieces.py:121 | a list of n copies of x |
| BoardPieces.Flags | board/pieces.py:137-138 | a list of n copies of the flag |
| BoardPieces.RankMaskBit | board/pieces.py:12-13 | rank_4 and rank_5 hold exactly the squares of the fourth and fifth ranks |
| BoardPieces.SinglePushBit | board/pieces.py:96-97 | a pawn can push one rank iff it is an own pawn on the board and the square one rank ahead is empty |
| BoardPieces.DoublePushBit | board/pieces.py:99-101 | a pawn can push two ranks iff both squares ahead are empty and the farther one lies on rank 4 (white) or rank 5 (black) |
| BoardPieces.CaptureNorthWestBit | board/pieces.py:104-106 | cp_nw holds exactly the own pawns with an opposing piece on the square the north-west slide looks at, for each colour |
| BoardPieces.CaptureNorthEastBit | board/pieces.py:104-108 | cp_ne holds exactly the own pawns with an opposing piece nine squares below them, for both colours |
| BoardPieces.EnPassantPawnsBit | board/pieces.py:118-119 | the en passant sources are own pawns at 1-based index prev.dest - 1 or prev.dest + 1, with no check that they share its rank |
| BoardPieces.EnPassantGather | board/pieces.py:112-121 | the method builds the en passant source and destination lists of the reference |
| BoardPieces.EnPassantSpec | board/pieces.py:112-121 | no en passant move unless the previous move was an opposing pawn moving 16 squares; then each goes from an own pawn beside prev.dest to prev.dest + 8 (white) or - 8 (black) |
| BoardPieces.EnPassantSrcMem | board/pieces.py:118-120 | a 1-based square is an en passant source iff it holds an own pawn beside prev.dest |
| BoardPieces.PushOneMem | board/pieces.py:97-123 | a square is a single-push source iff its pawn can step one rank onto an empty square |
| BoardPieces.PushTwoMem | board/pieces.py:99-124 | a square is a double-push source iff both squares ahead are empty and the farther is on rank 4 or 5 |
| BoardPieces.TakeNorthWestMem | board/pieces.py:106-125 | a square is a north-west capture source iff the capture condition holds for its pawn |
| BoardPieces.TakeNorthEastMem | board/pieces.py:108-126 | a square is a north-east capture source iff the capture condition holds for its pawn |
| BoardPieces.PawnGather | board/pieces.py:88-139 | the method builds exactly the reference streams of the pawn generator from the bitboards it reads |
| BoardPieces.PawnChainParallel | board/pieces.py:133-138 | sources, destinations and flags have the same length, and every push precedes every capture |
| BoardPieces.PawnChainSound | board/pieces.py:133-138 | each triple of the chained streams comes from one of the five segments with that segment's destination and flag |
| BoardPieces.PawnChainComplete | board/pieces.py:133-138 | every item of every segment appears in the chained streams with its destination and flag |
| BoardPieces.PawnStreamsSound | board/pieces.py:88-139 | every generated triple is a pawn move: a single or double push, a capture as the slides compute it, or en passant |
| BoardPieces.PawnStreamsComplete | board/pieces.py:88-139 | every pawn move is among the generated triples |
| BoardPieces.PawnStreamsSpec | board/pieces.py:88-139 | the streams are parallel, list every push before every capture, and hold exactly the pawn moves |
| BoardPieces.PawnMovesSpec | board/pieces.py:88-104 | the generator fails with a KeyError or TypeError exactly when the player has no pawn entry or the opponent has no entry at all; otherwise its streams are the pawn moves |
| BoardPieces.WhiteNorthEastLooksBack | board/pieces.py:108-131 | for white, cp_ne looks south-west: a pawn on b2 with an opposing piece on a1 gets the "capture" b2-c3 onto an empty square |
| BoardGenerators.TargetsMem | board/pieces.py:184-342 | a 1-based square is a target exactly when the attack mask and the target bitboard both hold it |
| BoardGenerators.SpreadLength | board/pieces.py:187-348 | the source and destination lists built for one target bitboard have equal length |
| BoardGenerators.SpreadSpec | board/pieces.py:176-348 | the lists of one target are parallel; every pair is a listed source with one of its targets, and every such pair is listed |
| BoardGenerators.SourceMem | board/pieces.py:171-339 | a listed 1-based square holds one of the player's pieces, and every such square is listed |
| BoardGenerators.GatheredSound | board/pieces.py:193-354 | every triple of the chained streams is a generated move |
| BoardGenerators.GatheredComplete | board/pieces.py:193-354 | every generated move is a triple of the chained streams |
| BoardGenerators.GatheredSpec | board/pieces.py:193-354 | the chained streams are parallel, list every quiet move before every capture, and hold exactly the generated moves |
| BoardGenerators.KnightMoveIs | board/pieces.py:15-185 | a knight moves from an own knight to a square a knight's jump away that is empty (quiet) or opposing (capture); no destination wraps around an edge |
| BoardGenerators.KingMoveIs | board/pieces.py:27-342 | a king moves to every king step and, since no file mask is applied, also to the squares a shift wraps onto the opposite edge file |
| BoardGenerators.SliderMoveIs | board/pieces.py:209-296 | a bishop, rook or queen moves along each of its directions up to and including the first occupied square, to an empty or opposing square |
| BoardGenerators.SliderAttack | board/pieces.py:213-219 | a square is in a slider's attack mask iff it lies on one of its rays no farther than the first blocker |
| BoardGenerators.OccupiedIsNonEmpty | board/pieces.py:211-213 | uint64(~empty) holds exactly the squares some bitboard holds |
| BoardGenerators.PieceMovesSpec | board/pieces.py:164-354 | the knight, slider and king generators fail exactly when the piece has no entry or the opponent has none at all; otherwise the streams are parallel, quiet moves come first, and they hold exactly the piece's moves |
| BoardGenerators.ValidMovesSpec | board/pieces.py:88-354 | any piece's generator fails exactly on a missing entry; otherwise its streams are parallel and list every quiet move before every capture |
| BoardGenerators.SpreadSnoc | board/pieces.py:187-191 | one more square of the loop appends its targets and as many copies of it |
| BoardGenerators.ComputeAttack | board/pieces.py:177-340 | the method computes the attack mask of the piece on a 1-based square as the three generators do |
| BoardGenerators.SquareTargets | board/pieces.py:184-342 | the method returns the quiet and the capture targets of one square |
| BoardGenerators.Gather | board/pieces.py:171-354 | the loop shared by the three generators builds exactly the reference chained streams |
| BoardGenerators.ValidStreams | board/pieces.py:88-354 | the method returns the reference streams of any piece's generator, or the failure |
| BoardGenerators.GetValidMoves | board/pieces.py:133-354 | a fresh single-pass move list over the reference streams, or None exactly when the generator fails |
| BoardGenerators.PositionOnBoard | board/utils.py:110-116 | the 1-based square of the k-th piece of a bitboard lies in 1..64 |
| BoardGenerators.GetKnightPatterns | board/pieces.py:366-381 | one mask per knight, in square order; on a bitboard each holds exactly the knight's jumps |
| BoardGenerators.GetKingPatterns | board/pieces.py:386-401 | one mask per king, in square order, the far file cleared on the edge files; on a bitboard each holds exactly the king steps |
| BoardLeapers.ShiftedSquareBit | board/pieces.py:177-340 | the shifted one-square mask holds exactly the squares on the board that the shifts reach |
| BoardLeapers.MasksAreBoards | board/pieces.py:177-397 | the knight mask, the king mask and the king pattern are bitboards |
| BoardLeapers.KnightArith | board/pieces.py:15-182 | a knight shift that lands on a kept file is a knight move, and every knight move is one |
| BoardLeapers.KnightMaskBit | board/pieces.py:177-182 | the knight mask holds exactly the squares a knight on p reaches; no destination wraps around an edge |
| BoardLeapers.KingArith | board/pieces.py:27-397 | a king shift that lands on a kept file is a king move, and every king move is one |
| BoardLeapers.KingDelta | board/pieces.py:27-397 | the king step condition on a rank and a file difference |
| BoardLeapers.KingWrapArith | board/pieces.py:27 | a king shift is a king move or a wrap onto the opposite edge file |
| BoardLeapers.KingWrapDelta | board/pieces.py:27 | a king shift changes the file by at most one, or by seven when it wraps |
| BoardLeapers.KingPatternCases | board/pieces.py:392-397 | the pattern mask is the shifted square, cleared of the far file on files a and h |
| BoardLeapers.KingPatternBit | board/pieces.py:392-397 | the pattern mask holds exactly the squares a king on p reaches |
| BoardLeapers.KingMaskBit | board/pieces.py:340 | the unmasked king mask holds every king move and also the squares a shift wraps onto the opposite edge file |
| BoardLeapers.KingMaskWraps | board/pieces.py:340 | a king on h1 is offered a2, which is not a king move |
| BoardPiece.KeyInjective | board/pieces.py:58-358 | two pieces have the same (abbr, player) key iff they are the same piece |
| BoardPiece.StandardFull | board/pieces.py:145-362 | every start mask is a bitboard |
| BoardPiece.KindByteBit | board/pieces.py:145-362 | a kind's rank byte has exactly the files the kind occupies on its home rank: all files for pawns, the back-rank files otherwise |
| BoardPiece.StandardFullLayer | board/pieces.py:145-362 | every start mask is its kind's byte shifted onto the piece's home rank |
| BoardPiece.StandardFullBit | board/pieces.py:145-362 | a start mask sets exactly the squares the standard start position gives the piece |
| BoardPiece.StartPieceIs | board/pieces.py:145-362 | which piece the start position puts on a square, by rank and file |
| BoardPiece.StandardDisjoint | board/pieces.py:145-362 | the start masks of two different pieces are disjoint |
| BoardMove.ZipLength | board/move.py:27-35 | a pass yields as many moves as the shortest of the three streams |
| BoardMove.ZipSpec | board/move.py:27-35 | a pass yields Move(piece, srcs[i], dests[i], caps[i]) for every i below the shortest length, in order, and nothing more |
| BoardMove.PieceMoveList.constructor | board/move.py:20-25 | the list holds the piece and the three streams, none consumed yet |
| BoardMove.PieceMoveList.Step | board/move.py:29-35 | a move comes out iff all three streams have an item, and it is their first items; each stream loses its first item, even when another one ran dry |
| BoardMove.PieceMoveList.Iter | board/move.py:27-35 | running the generator to the end yields exactly the pending moves, as many as the shortest stream, and leaves a stream empty so a second pass yields nothing |
| BoardMove.ZipStep | board/move.py:29-35 | one step of the lock-step pass: the first triple and the pass over the rests, or nothing once a stream is empty |
| BoardMove.Pendings | board/move.py:40 | the moves each per-piece list would yield, list by list |
| BoardMove.ChainedFlat | board/move.py:40 | chaining the lists yields their pending moves one list after another |
| BoardMove.MoveList.constructor | board/move.py:38-40 | the move list chains the given per-piece lists |
| BoardMove.MoveList.Iter | board/move.py:42-44 | running the generator to the end yields the moves of every per-piece list in order, then raises as next hits the exhausted chain |
| BoardState.Values | board/utils.py:122-126 | the bitboards of the mapping in key order |
| BoardState.KeysIndex | board/board.py:24-25 | the keys of the mapping in order, one per entry |
| BoardState.LookupSpec | board/board.py:70-71 | a lookup finds the value of the key's entry, and fails exactly for absent keys |
| BoardState.StoreKeys | board/board.py:42 | a store keeps the keys and appends a new key last |
| BoardState.StoreLookup | board/board.py:42 | a store sets the key's value and leaves every other key's value alone |
| BoardState.StoreDistinct | board/board.py:42 | storing keeps the keys distinct |
| BoardState.PlayerPartition | board/board.py:73-77 | the two filters split the mapping by colour: every entry lands in exactly one of them |
| BoardState.PieceCountSpec | board/board.py:79-80 | one count per key, in order, each the number of squares the bitboard holds |
| BoardState.FromZipSpec | board/board.py:17-20 | the built dict has distinct keys, exactly the pieces of the zipped prefix; with no repeated piece it keeps their order and pairs each with its own bitboard |
| BoardState.FromZipLast | board/board.py:18-20 | the last zipped pair is stored into the dict of the ones before it |
| BoardState.FromZipDistinct | board/board.py:18-20 | without repeated pieces the keys are the zipped pieces in order and each maps to its own bitboard |
| BoardState.StoreEntries | board/board.py:42 | a store adds the stored entry and keeps only entries already there |
| BoardState.FromZipValues | board/board.py:18-20 | every value of the dict comes from the zipped prefix of the bitboards |
| BoardBoard.ClearSquare | board/board.py:37 | the comprehension keeps every key in its place |
| BoardBoard.ClearSquareLookup | board/board.py:37 | a key is found after clearing iff it was before, with the mask's squares removed and the value truncated |
| BoardBoard.ClearedBit | board/board.py:37 | a cleared bitboard keeps exactly its board squares outside the mask |
| BoardBoard.ToggledBit | board/board.py:42 | the mover's bitboard has the source and the destination toggled and nothing else changed |
| BoardBoard.MovedBit | board/board.py:32-42 | the move fails exactly when the mover has no entry; afterwards the destination is clear in every bitboard but the mover's, where it is set, the mover's source is toggled, and no other bit changes |
| BoardBoard.EntryLookup | board/board.py:70-71 | the entry at an index of a dict is what a lookup of its key finds |
| BoardBoard.MoveKeepsDisjoint | board/board.py:37-42 | a move of a piece standing on its source square keeps the bitboards pairwise disjoint; the captured piece loses the destination |
| BoardBoard.MovedKeys | board/board.py:37-42 | a successful move keeps the keys in order, and so distinct |
| BoardBoard.MovedBoards | board/board.py:37-42 | after a move between board squares every bitboard is a 64-bit board |
| BoardBoard.Board.constructor | board/board.py:15-21 | without bitboards every piece gets an empty bitboard; with them pieces and bitboards pair up positionally; the history starts empty |
| BoardBoard.Board.MakeMove | board/board.py:32-42 | the old mapping is pushed first; a mover without an entry raises after the clearing; otherwise the mapping is the moved one |
| BoardBoard.Board.UnmakeMove | board/board.py:47-48 | the last saved mapping is popped back; on an empty history the pop raises and nothing changes |
| BoardBoard.Board.Bb4Piece | board/board.py:70-71 | the piece's bitboard, or the KeyError for a piece without an entry |
| BoardBoard.Board.Bbs4Player | board/board.py:73-74 | exactly the entries of that player's pieces, in order |
| BoardBoard.Board.Bbs4OppPlayer | board/board.py:76-77 | exactly the entries of the other player's pieces; with bbs4_player they partition the mapping |
| BoardBoard.Board.PieceCount | board/board.py:79-80 | every key in order with the number of its bitboard's squares |
| BoardBoard.Board.GetValidMoves | board/board.py:27-30 | one fresh generator per entry of the player (all entries for no player), chained in key order; it fails exactly when some generator does |
| BoardBoard.MakeThenUnmake | board/board.py:32-48 | a move then its take-back restore the mapping and the history exactly, whether or not the move raised |
| BoardBoard.KeyLookup | board/board.py:70-71 | a key of a dict is found with the value of its entry |
| BoardBoard.ZeroBoards | board/board.py:17-18 | without bitboards every listed piece is a key mapped to 0, and no other piece is a key |
| BoardBoard.StdBbs | board/board.py:67 | the start mask of every piece of the standard list, in order |
| BoardBoard.StandardBoard | board/board.py:50-68 | a fresh board over the twelve pieces and their start masks, with an empty history |
| BoardBoard.StdIndex | board/board.py:52-66 | every piece is in the standard list |
| BoardBoard.StdPiecesDistinct | board/board.py:52-66 | the twelve pieces of the standard list are distinct |
| BoardBoard.StandardMappingSpec | board/board.py:50-68 | the standard board has all twelve pieces as keys, in list order, each on the squares the start position gives it |
| BoardBoard.StandardLookup | board/board.py:50-68 | a lookup on the standard board finds the piece's start mask |
| BoardBoard.StandardDisjointMapping | board/board.py:50-68 | the standard board's bitboards are pairwise disjoint |
| BoardBoard.ConcatSome | board/board.py:29-30 | the chain exists exactly when every generator succeeds |
| BoardBoard.ConcatMem | board/board.py:29-30 | the chain holds exactly the items of its parts |
| BoardBoard.ConcatPrefixNone | board/board.py:29-30 | a failing generator makes the whole chain fail |
| BoardBoard.PieceResultIs | board/board.py:29 | a piece's result is its generator's failure or the moves of its streams |
| BoardBoard.PieceResults | board/board.py:29 | every listed piece's generator result, in order |
| BoardBoard.MoveLists | board/board.py:29 | the generator expression run to the end: one fresh move list per piece, in order, or the failure |
| BoardBoard.StreamMovesMem | board/move.py:27-35 | a piece's moves are exactly the triples its streams hold at a common index |
| BoardBoard.PieceResultMem | board/board.py:29 | a piece yields moves iff its generator succeeds, and then exactly those its streams generate |
| BoardBoard.BoardMovesSpec | board/board.py:27-30 | the board's moves exist exactly when every listed generator succeeds, and then they are exactly the moves some listed piece's streams generate |
| BoardBoard.PlayerMovesOwn | board/board.py:28 | drawing from one player's entries yields only that player's moves |
| LegacyUtils.FileRank | utils.py:12-14 | the file letter is one of a..h and with the 0-based rank it recovers the square |
| LegacyUtils.FileRankLags | utils.py:13-14 | the file agrees with the newer file_rank and the rank is one lower |
| LegacyUtils.FileRankStrOnBoard | utils.py:17-19 | every square gets a two-character name a..h then 0..7 from which the square is recovered |
| LegacyUtils.FirstSquareName | utils.py:17-19 | the first square is named "a0" |
| LegacyMove.ZipSpec | move.py:25-32 | a pass yields Move(piece, srcs[i], dests[i]) for every i below the shorter length, in order, and nothing more |
| LegacyMove.ZipMem | move.py:25-32 | a pass yields exactly the piece's moves whose squares the streams hold at a common index |
| LegacyMove.PieceMoveList.constructor | move.py:19-23 | the list holds the piece and both streams, none consumed yet |
| LegacyMove.PieceMoveList.Step | move.py:27-32 | a move comes out iff both streams have an item, and it is their first items; each stream loses its first item |
| LegacyMove.PieceMoveList.Iter | move.py:25-32 | running the generator to the end yields exactly the pending moves, as many as the shorter stream, and leaves a stream empty so a second pass yields nothing |
| LegacyMove.Pendings | move.py:37 | the moves each per-piece list would yield, list by list |
| LegacyMove.ChainedFlat | move.py:37 | chaining the lists yields their pending moves one list after another |
| LegacyMove.ChainedSnoc | move.py:37 | appending a list to the chain appends its moves |
| LegacyMove.MoveList.constructor | move.py:35-37 | the move list chains the given per-piece lists |
| LegacyMove.MoveList.Iter | move.py:39-41 | running the generator to the end yields the moves of every per-piece list in order, then raises as next hits the exhausted chain |
| LegacyPieces.PawnPairsAgree | pieces.py:43-81 | the old pawn streams are the sources and destinations the newer pawn generator gives with no previous move |
| LegacyPieces.PawnPairsSpec | pieces.py:52-81 | the two streams have equal length, every pair is a single or double push or a diagonal capture, and every such move is one of the pairs |
| LegacyPieces.FlagDropped | pieces.py:77-81 | a pawn move of the newer generator with either flag is a move of the old one |
| LegacyPieces.PawnMovesAgree | pieces.py:43-81 | the old pawn generator fails exactly when the newer one does, and otherwise yields the newer one's sources and destinations |
| LegacyPieces.OnlyPawnsMove | pieces.py:95-160 | the other five kinds yield an empty pair of streams; pawns yield the pawn streams |
| LegacyPieces.GetValidMoves | pieces.py:43-96 | a fresh single-pass move list for the piece over its streams, or the failure |
| LegacyBoard.NewBoard | board.py:13-18 | without bitboards every listed piece maps to 0; with them pieces and bitboards pair up positionally, zip truncating |
| LegacyBoard.StandardFull | board.py:29-49 | the twelve pieces white then black as keys, each on its start mask, which holds exactly its start squares |
| LegacyBoard.Bb4Piece | board.py:51-52 | the piece's bitboard, or the KeyError for a piece without an entry |
| LegacyBoard.Bbs4Player | board.py:54-55 | exactly the entries of that player's pieces, in order |
| LegacyBoard.Bbs4OppPlayer | board.py:57-58 | exactly the entries of the other player's pieces; with bbs4_player they partition the mapping |
| LegacyBoard.PieceResults | board.py:26 | every listed piece's generator result, in order |
| LegacyBoard.PieceResultIs | board.py:26 | a piece's result is its generator's failure or the pairs of its streams |
| LegacyBoard.PieceResultMem | board.py:26 | a piece yields moves iff its generator succeeds, and then exactly those its streams pair up |
| LegacyBoard.BoardMovesSpec | board.py:24-27 | the board's moves exist exactly when every listed generator succeeds, and then they are exactly the moves some listed piece's generator pairs up |
| LegacyBoard.GeneratedPawnMove | board.py:26 | only pawns move, and each move is a push or diagonal capture of the mover's colour |
| LegacyBoard.PlayerMovesOwn | board.py:25 | drawing from one player's entries yields only that player's pawn moves |
| LegacyBoard.MoveLists | board.py:26 | the generator expression run to the end: one fresh move list per piece, in order, or the failure |
| LegacyBoard.GetValidMoves | board.py:24-27 | the move list over all keys or one player's keys, in key order, and None when a generator fails |
| AbSearch.Min | analysis/absearch.py:34 | Python's min over the extended integers: a lower bound of both arguments and one of them |
| AbSearch.Max | analysis/absearch.py:52 | Python's max over the extended integers: an upper bound of both arguments and one of them |
| AbSearch.FoldSnoc | analysis/absearch.py:32-52 | the minimax fold over one more successor combines the previous fold with that successor's value |
| AbSearch.FoldMonotone | analysis/absearch.py:32-52 | searching more successors can only raise a max node's value and lower a min node's |
| AbSearch.FoldWhole | analysis/absearch.py:30-50 | a non-terminal state's minimax value is the fold over the whole list next gives at that depth |
| AbSearch.MinStep | analysis/absearch.py:33-39 | one pass of the min loop either prunes with a result at most a that bounds the true minimum, or keeps the loop invariant with the narrowed window b = min(b, v) |
| AbSearch.MaxStep | analysis/absearch.py:51-57 | one pass of the max loop either prunes with a result at least b that bounds the true maximum, or keeps the loop invariant with a = max(a, v) |
| AbSearch.MinCut | analysis/absearch.py:35-38 | a min node pruned at v <= a returns a fail-soft bound of its true value |
| AbSearch.MaxCut | analysis/absearch.py:53-56 | a max node pruned at v >= b returns a fail-soft bound of its true value |
| AbSearch.MinDone | analysis/absearch.py:40-41 | a min node that searched all its successors returns a fail-soft bound of its true value |
| AbSearch.MaxDone | analysis/absearch.py:58-59 | a max node that searched all its successors returns a fail-soft bound of its true value |
| AbSearch.AbSolver.constructor | analysis/absearch.py:15-18 | the solver keeps the successor and starts at depth 0 |
| AbSearch.AbSolver.MinNode | analysis/absearch.py:26-41 | the returned flag holds exactly for terminal states; an inner state with no successors gives +inf; for a < b the result is within the window exactly where the minimax value is, at most a only when the value is, at least b only when the value is |
| AbSearch.AbSolver.MaxNode | analysis/absearch.py:43-59 | the mirror image for max nodes, with -inf for an inner state without successors |
| AbSearch.AbSolver.MinMax | analysis/absearch.py:20-21 | with the full window the search returns the exact minimax value of the state as a min node at depth 1 |
| AbSearch.AbSolver.MaxMin | analysis/absearch.py:23-24 | with the full window the search returns the exact minimax value of the state as a max node at depth 1 |
| AbSearchTest.TestGraphRanked | tests/test_ab.py:23-56 | the test graph is acyclic: every successor is a later letter, so the search terminates |
| AbSearchTest.SuccessorLater | tests/test_ab.py:23-50 | each listed successor of a letter is a later letter |
| AbSearchTest.InnerRanks | tests/test_ab.py:23-50 | every successor of an inner state ranks below it |
| AbSearchTest.LeafValue | tests/test_ab.py:52-56 | a state whose entry is a number is terminal and its value is that number, for either side |
| AbSearchTest.Expand | tests/test_ab.py:52-56 | an inner state's value is the fold over its listed successors from the side's infinity |
| AbSearchTest.Step | tests/test_ab.py:52-56 | each listed successor folds in by the side's best |
| AbSearchTest.MaxY | tests/test_ab.py:48 | y as a max node is worth -8 |
| AbSearchTest.MinY | tests/test_ab.py:48 | y as a min node is worth -8 |
| AbSearchTest.MaxX | tests/test_ab.py:47 | x as a max node is worth -8 |
| AbSearchTest.MinX | tests/test_ab.py:47 | x as a min node is worth -8 |
| AbSearchTest.MaxW | tests/test_ab.py:46 | w as a max node is worth -8 |
| AbSearchTest.MinW | tests/test_ab.py:46 | w as a min node is worth -8 |
| AbSearchTest.MaxV | tests/test_ab.py:45 | v as a max node is worth -8 |
| AbSearchTest.MinV | tests/test_ab.py:45 | v as a min node is worth -8 |
| AbSearchTest.MaxU | tests/test_ab.py:44 | u as a max node is worth -8 |
| AbSearchTest.MinU | tests/test_ab.py:44 | u as a min node is worth -8 |
| AbSearchTest.MaxR | tests/test_ab.py:41 | r as a max node is worth -8 |
| AbSearchTest.MinR | tests/test_ab.py:41 | r as a min node is worth -8 |
| AbSearchTest.MinT | tests/test_ab.py:43 | t as a min node is worth -8 |
| AbSearchTest.MaxQ | tests/test_ab.py:40 | q as a max node is worth -8 |
| AbSearchTest.MinQ | tests/test_ab.py:40 | q as a min node is worth -10, through s |
| AbSearchTest.MaxP | tests/test_ab.py:39 | p as a max node is worth -8 |
| AbSearchTest.MaxM | tests/test_ab.py:36 | m as a max node is worth -10 |
| AbSearchTest.MinH | tests/test_ab.py:31 | h as a min node is worth -10 |
| AbSearchTest.MinE | tests/test_ab.py:28 | e as a min node is worth -10 |
| AbSearchTest.MaxA | tests/test_ab.py:24 | a as a max node is worth -4, through k |
| AbSearchTest.TestGraphValue | tests/test_ab.py:23-63 | the graph is acyclic and the minimax value of a as a max node at depth 1 is -4 |
| AbSearchTest.TestAbsolver | tests/test_ab.py:59-63 | maxmin('a') on the test graph returns -4 |
| MovegenDirection.RankBBBit | movegen/src/board.rs:7-16 | rank mask k is a bitboard holding exactly the eight squares of rank k |
| MovegenDirection.FileBBBit | movegen/src/board.rs:19-28 | file mask k is a bitboard holding exactly the eight squares of file k |
| MovegenDirection.Opp | movegen/src/board.rs:33-44 | the opposite compass point has the negated file and rank step and the negated shift |
| MovegenDirection.DeltasDetermine | movegen/src/board.rs:30 | the eight directions have pairwise distinct file and rank steps |
| MovegenDirection.OppInvolution | movegen/src/board.rs:33-44 | turning round twice gives the direction back and no direction is its own opposite |
| MovegenDirection.StepSplit | movegen/src/utils/mod.rs:41-52 | each direction's shift is eight times its rank step plus its file step, a non-zero step of at most one in each |
| MovegenUtils.File | movegen/src/utils/mod.rs:10-12 | a letter a..h whose index is the square's file |
| MovegenUtils.FileRank | movegen/src/utils/mod.rs:14-16 | the file below 8 and the rank, from which the square is 8 * rank + file |
| MovegenUtils.FileRankStrAgrees | movegen/src/utils/mod.rs:18-20 | the Rust square name equals the Python one, and a board square's name is a letter then a digit 1..8 |
| MovegenUtils.FileRankInverse | movegen/src/utils/mod.rs:14-16 | file and rank recover every square they describe |
| MovegenUtils.FileMaskEastBit | movegen/src/utils/mod.rs:22-24 | the east mask for k steps is exactly the squares at least k files from file h |
| MovegenUtils.FileMaskWestBit | movegen/src/utils/mod.rs:26-28 | the west mask for k steps is exactly the squares at least k files from file a |
| MovegenUtils.PreshiftBit | movegen/src/utils/mod.rs:30-36 | the pre-shift mask keeps exactly the squares whose file stays on the board during the slide |
| MovegenUtils.SlideBit | movegen/src/utils/mod.rs:39-53 | a slide sets exactly the squares reached from a set square by that many steps along dir without leaving across a file edge or past rank 1 or 8 |
| MovegenUtils.ShlBoardBit | movegen/src/utils/mod.rs:43-46 | a u64 left shift moves each square up by n and drops what passes square 63 |
| MovegenUtils.ShrBoardBit | movegen/src/utils/mod.rs:48-51 | a right shift moves each square down by n |
| MovegenUtils.LandsMoves | movegen/src/utils/mod.rs:39-53 | a slide moves the file and the rank by steps times the direction's file and rank step |
| MovegenUtils.SlideNoWrap | movegen/src/utils/mod.rs:30-36 | a one-step slide east never lands on file a and one west never on file h |
| MovegenUtils.SlideBack | movegen/src/utils/mod.rs:39-53 | sliding along dir and back along opp restores every square that survives the trip |
| MovegenUtils.LandsBack | movegen/src/utils/mod.rs:39-53 | the opposite direction reverses each landing |
| MovegenUtils.PosMask | movegen/src/utils/mod.rs:55-57 | the one-square mask is a bitboard |
| MovegenUtils.PosMaskBit | movegen/src/utils/mod.rs:55-57 | the one-square mask holds its square and nothing else |
| MovegenUtils.CastleSums | movegen/src/utils/mod.rs:59-75 | each castle mask is the sum of its two named squares |
| MovegenUtils.CastleBit | movegen/src/utils/mod.rs:59-75 | the king mask is exactly e1 and g1 or c1 (rank 8 for black), the rook mask exactly h1 and f1 or a1 and d1, and they never overlap |
| MovegenPiece.Value | movegen/src/pieces.rs:114-116 | the type's code is at most 6 and 0 exactly for the invalid type |
| MovegenPiece.FromValue | movegen/src/pieces.rs:117-127 | codes 1..6 decode to the type with that code and every other byte to the invalid type |
| MovegenPiece.ValueRoundTrip | movegen/src/pieces.rs:113-127 | decoding a type's code gives the type back |
| MovegenPiece.FromBits | movegen/src/pieces.rs:154-159 | the piece is white iff the code exceeds 7, and of a real type iff the low three bits are 1..6 |
| MovegenPiece.ToBits | movegen/src/pieces.rs:161-163 | a 4-bit code whose low three bits are the type's code and whose bit 3 is set iff the piece is white |
| MovegenPiece.PieceRoundTrip | movegen/src/pieces.rs:154-163 | every piece survives to_bits then from_bits |
| MovegenPiece.BitsRoundTrip | movegen/src/pieces.rs:154-163 | every 4-bit code of a real type survives from_bits then to_bits |
| MovegenPiece.GetPiece | movegen/src/pieces.rs:30-46 | indices 0..5 are the white pieces and 6..11 the black ones, all of real types; any other index gives the invalid piece |
| MovegenPiece.GetPieceI | movegen/src/pieces.rs:48-64 | an index at most 12, and 12 exactly for a piece of the invalid type |
| MovegenPiece.GetPieceRoundTrip | movegen/src/pieces.rs:30-64 | the index of the piece at index i is i |
| MovegenPiece.GetPieceIRoundTrip | movegen/src/pieces.rs:30-64 | every piece of a real type is the piece at its own index |
| MovegenPiece.MatchPieceI | movegen/src/pieces.rs:66-68 | the index of the piece of that type and player, and 12 exactly for the invalid type |
| MovegenPiece.GetPieceOnto | movegen/src/pieces.rs:30-46 | every piece of the Python model is the piece at one of the twelve indices |
| MovegenPiece.WhitePawnsMissing | movegen/src/pieces.rs:70-84 | as written no entry of the start table holds a2 although a white pawn starts there; the table differs from the corrected one only in entry 0 |
| MovegenPiece.StdEntry | movegen/src/pieces.rs:70-98 | each corrected entry is the start mask standard_full gives the piece at that index |
| MovegenPiece.StdBitboardsStart | movegen/src/pieces.rs:70-98 | corrected entry i holds exactly the squares where the piece with index i starts |
| MovegenPiece.StdBitboardsDisjoint | movegen/src/pieces.rs:70-98 | the corrected entries are pairwise disjoint |
| MovegenPiece.StdBitboardsAsWrittenStart | movegen/src/pieces.rs:70-84 | an entry of the table as written holds exactly its piece's start squares, except entry 0 (white pawns), which holds none |
| MovegenPiece.StdBitboardsAsWrittenDisjoint | movegen/src/pieces.rs:70-84 | the as-written entries are pairwise disjoint too |
| MovegenMoves.MetaToBits | movegen/src/moves.rs:35-53 | a code at most 13, and 0 exactly for the illegal kind |
| MovegenMoves.MetaFromBits | movegen/src/moves.rs:54-71 | the decoded kind is encodable, and illegal exactly for bytes outside 1..13 |
| MovegenMoves.MetaRoundTrip | movegen/src/moves.rs:35-71 | decoding an encoded kind gives it back, except that a promotion to a type other than knight, bishop or rook becomes one to a queen |
| MovegenMoves.MetaBitsRoundTrip | movegen/src/moves.rs:35-71 | codes 1..13 survive from_bits then to_bits, and any other byte becomes 0 |
| MovegenMoves.IsCaptureCodes | movegen/src/moves.rs:72-79 | a kind captures exactly when its code is that of a capture, en passant or a capturing promotion |
| MovegenMoves.Src | movegen/src/moves.rs:113-116 | a seven-bit square |
| MovegenMoves.Dest | movegen/src/moves.rs:120-123 | a seven-bit square |
| MovegenMoves.SrcBb | movegen/src/moves.rs:117-119 | for a board source, a bitboard |
| MovegenMoves.DestBb | movegen/src/moves.rs:124-126 | for a board destination, a bitboard |
| MovegenMoves.SrcDestFields | movegen/src/moves.rs:101-123 | packing two squares and masking gives each back as its low seven bits |
| MovegenMoves.Low7 | movegen/src/moves.rs:86-88 | the low seven bits of a square are the square modulo 128 |
| MovegenMoves.NewSquares | movegen/src/moves.rs:98-123 | src and dest of a new move are its squares modulo 128 |
| MovegenMoves.MetaFields | movegen/src/moves.rs:82-112 | packing a piece code and a kind code into a byte and masking gives each back |
| MovegenMoves.NewPieceMeta | movegen/src/moves.rs:98-112 | piece and move_meta of a new move give its piece and, up to the queen default, its kind |
| MovegenMoves.InvalidMoveIs | movegen/src/moves.rs:95-129 | the invalid move is invalid, and it is the only move that is |
| MovegenMoves.NewInvalid | movegen/src/moves.rs:98-129 | a new move is invalid exactly when its piece code is 0, its kind illegal and both squares are multiples of 128 |
| MovegenMoves.InvalidMovePiece | movegen/src/moves.rs:95-172 | the invalid move decodes to a black piece of the invalid type, which is not Piece::invalid(), and to the illegal kind |
| MovegenMoves.ZipMovesSpec | movegen/src/moves.rs:181-184 | one move per index below the shorter stream's length, pairing the streams positionally |
| MovegenMoves.ZipMovesFields | movegen/src/moves.rs:181-184 | every zipped move carries the piece, the kind up to the queen default and its squares modulo 128 |
| MovegenMoves.ZipMovesSnoc | movegen/src/moves.rs:181-184 | a pair more at the end of both streams adds one move at the end |
| MovegenMoves.ZipMovesPrefix | movegen/src/moves.rs:181-184 | the zip only sees the prefixes of the shorter length |
| MovegenMoves.MoveList.constructor | movegen/src/moves.rs:166-170 | a new list is empty |
| MovegenMoves.MoveList.Clear | movegen/src/moves.rs:171-173 | clearing empties the list |
| MovegenMoves.MoveList.Push | movegen/src/moves.rs:174-176 | appends the one move |
| MovegenMoves.MoveList.PushFrom | movegen/src/moves.rs:177-179 | appends the moves in order |
| MovegenMoves.MoveList.PushFromForpiece | movegen/src/moves.rs:181-184 | appends one new move per pair of the zipped streams in order, as many as the shorter stream, and keeps the earlier entries |
| MovegenMoves.MoveList.Get | movegen/src/moves.rs:186-188 | the first move, on a non-empty list |
| MovegenMoves.BitPositions.constructor | movegen/src/moves.rs:195 | the iterator starts on the given bitboard |
| MovegenMoves.BitPositions.Next | movegen/src/moves.rs:197-207 | None exactly on an empty bitboard, leaving it; otherwise the lowest pending square, below 64, which is removed |
| MovegenMoves.BitPositions.Collect | movegen/src/moves.rs:197-207 | running to the end yields exactly the set squares, strictly increasing, popcount many, and leaves the bitboard empty |
| MovegenPieces.KnightTable | movegen/src/pieces.rs:266 | KNIGHT_PATTERNS has 64 entries, entry p being the knight mask the Python generator builds for square p |
| MovegenPieces.KingTable | movegen/src/pieces.rs:315 | KING_PATTERNS has 64 entries, entry p being the king pattern of square p |
| MovegenPieces.RayTable | movegen/src/pieces.rs:278-290 | bishop_attack and rook_attack are ray_moves along the bishop's or the rook's directions over the occupied squares |
| MovegenPieces.Reference | movegen/src/pieces.rs:266-315 | the tables the Python generator computes meet the contract the Rust generator relies on |
| MovegenPieces.Sq | movegen/src/moves.rs:197-207 | the drained BitPositions stream lists only board squares |
| MovegenPieces.Repeat | movegen/src/pieces.rs:254 | the repeated square, n times |
| MovegenPieces.SlideBoard | movegen/src/pieces.rs:190-244 | each slide of the pawn arm gives a bitboard |
| MovegenPieces.EnpassantMasks | movegen/src/pieces.rs:231-245 | cp_enp is a bitboard and cp_enp_dest a byte |
| MovegenPieces.PawnSlides | movegen/src/pieces.rs:190-244 | every slide of the pawn arm is by one or two steps and so stays within the shift range |
| MovegenPieces.PawnMoveList | movegen/src/pieces.rs:183-263 | the pawn arm appends exactly the pawn moves in the source's push order |
| MovegenPieces.PushZip | movegen/src/pieces.rs:248-252 | pushes the zip of the two drained BitPositions streams |
| MovegenPieces.PushRepeatSrc | movegen/src/pieces.rs:271-273 | pushes the zip of a repeated source with the drained destinations |
| MovegenPieces.PushRepeatDest | movegen/src/pieces.rs:254 | pushes the zip of the drained sources with a repeated destination |
| MovegenPieces.PushPromotions | movegen/src/pieces.rs:256-262 | the promotion loop appends one round per target in PROMO_TARGETS order |
| MovegenPieces.PushPromoRound | movegen/src/pieces.rs:257-261 | one round appends the promoting pushes, then the left and right promoting captures, to that target |
| MovegenPieces.PushPawnHead | movegen/src/pieces.rs:247-254 | pushes the single pushes, double pushes, left and right captures and en-passant captures in that order |
| MovegenPieces.PosMoveList | movegen/src/pieces.rs:265-274 | one square of a walking piece appends its quiet moves and then its captures |
| MovegenPieces.WalkMoveList | movegen/src/pieces.rs:264-326 | the knight, bishop, rook, queen and king arms append the moves of every square of the piece's bitboard in ascending order |
| MovegenPieces.PushWalk | movegen/src/pieces.rs:265-274 | the loop body run over a list of squares appends each square's moves in order |
| MovegenPieces.PieceMoveList | movegen/src/pieces.rs:174-329 | move_list appends exactly the moves GenMoves gives for the piece's bitboard, the board's empty squares and the opponent's, with the invalid type adding none |
| MovegenPiecesProps.SqMem | movegen/src/moves.rs:197-207 | BitPositions lists a square exactly when its bit is set, in strictly increasing order |
| MovegenPiecesProps.SqShift | movegen/src/moves.rs:197-207 | when one bitboard is another moved by d, their square lists agree position by position up to d |
| MovegenPiecesProps.SlideSq | movegen/src/pieces.rs:202-228 | when every square of a stream survives a slide, the k-th destination is the k-th source plus the slide's offset |
| MovegenPiecesProps.ZipMem | movegen/src/moves.rs:181-184 | a zip of equal-length streams holds exactly the moves of the pairs at the same position |
| MovegenPiecesProps.ZipShiftMem | movegen/src/pieces.rs:248-252 | a zip of a stream with its move by d holds exactly one move per source square, to that square plus d |
| MovegenPiecesProps.ZipRepeatSrcMem | movegen/src/pieces.rs:271-273 | a zip of a repeated square with a bitboard's squares holds exactly one move to each of them |
| MovegenPiecesProps.ZipRepeatDestMem | movegen/src/pieces.rs:254 | a zip of a bitboard's squares with a repeated square holds exactly one move from each of them |
| MovegenPiecesProps.RankKeep | movegen/src/pieces.rs:185-193 | rank7 is exactly the promotion rank and its 64-bit complement every other square |
| MovegenPiecesProps.SteppingBit | movegen/src/pieces.rs:190-224 | a stepping stream holds exactly the player's pawns, on or off the promotion rank as asked, whose step reaches a target |
| MovegenPiecesProps.StepStream | movegen/src/pieces.rs:190-228 | the zip of a stepping stream with its slide forward holds exactly the one-step moves of those pawns onto the targets |
| MovegenPiecesProps.PawnStreams | movegen/src/pieces.rs:188-228 | the four stepping streams and their promoting twins are the single pushes onto empty squares and the diagonal captures of the opponent's pieces |
| MovegenPiecesProps.DoubleRankBit | movegen/src/pieces.rs:196 | the double-push rank is rank 4 for white and rank 5 for black |
| MovegenPiecesProps.DoublePushesBit | movegen/src/pieces.rs:196-198 | pp2 holds exactly the pawns whose two squares ahead are empty, the second on the double-push rank |
| MovegenPiecesProps.DoubleStream | movegen/src/pieces.rs:196-249 | the double-push zip holds exactly the double pushes, each two ranks ahead |
| MovegenPiecesProps.EpSourcesBit | movegen/src/pieces.rs:237-244 | cp_enp holds exactly the player's pawns one step diagonally back from the previous move's destination |
| MovegenPiecesProps.EnpassantStream | movegen/src/pieces.rs:230-254 | no en-passant moves unless the previous move was the opponent's en-passant move; then one per such pawn, to the square behind the destination |
| MovegenPiecesProps.PromoMovesMem | movegen/src/pieces.rs:256-262 | the promotion loop's moves are the moves of its rounds |
| MovegenPiecesProps.PawnMoveSet | movegen/src/pieces.rs:183-263 | the pawn arm generates exactly the pushes and captures off the promotion rank, the double pushes, the en-passant moves and, from the promotion rank, the pushes and captures to each of the four promotion targets |
| MovegenPiecesProps.PawnHeadSet | movegen/src/pieces.rs:247-254 | the moves before the promotion loop are exactly the pushes, double pushes, captures and en-passant moves |
| MovegenPiecesProps.PawnPromoSet | movegen/src/pieces.rs:255-262 | the promotion loop's moves are exactly the promoting pushes and captures to each target |
| MovegenPiecesProps.PosMovesMem | movegen/src/pieces.rs:265-274 | the moves from one square are quiet moves to the empty squares of the attack mask and captures of the opponent's squares of it |
| MovegenPiecesProps.WalkMovesEach | movegen/src/pieces.rs:265-274 | the walking loop is the concatenation of each square's moves |
| MovegenPiecesProps.WalkMoveSet | movegen/src/pieces.rs:264-326 | the walking arms generate exactly the moves from a square of the bitboard to a square of its attack mask, quiet when it is empty and a capture when it is the opponent's |
| MovegenPiecesProps.DiagonalNotStraight | movegen/src/pieces.rs:302-303 | no square lies on a diagonal ray and a straight ray from the same square |
| MovegenPiecesProps.QueenReach | movegen/src/pieces.rs:302-303 | the queen reaches what the bishop or the rook reaches and never both, so the xor of the two attacks is their union |
| MovegenPiecesProps.AttackBit | movegen/src/pieces.rs:266-315 | with tables meeting their contract, a walking piece's attack mask holds exactly the squares it reaches: a knight jump, a king step, or a slide up to and including the first blocker |
| MovegenPiecesProps.GenMovesOwn | movegen/src/pieces.rs:174-329 | every generated move is of the given piece from a square of its bitboard; unless the previous move was the opponent's en-passant move every destination is empty or the opponent's; the invalid type generates nothing |
| MovegenBoardMoves.InvalidNoEnpassant | movegen/src/board.rs:69 | the invalid previous move never opens en passant |
| MovegenBoardMoves.ConcatMem | movegen/src/board.rs:66-69 | a move is in the concatenation exactly when it is in one of its parts |
| MovegenBoardMoves.BoardMoveList | movegen/src/board.rs:65-70 | move_list appends the moves of every bitboard whose piece is the player's, in index order |
| MovegenBoardMoves.PushIndex | movegen/src/board.rs:68-69 | one index appends its piece's moves if the piece is the player's and nothing otherwise |
| MovegenBoardMoves.BoardMovesMem | movegen/src/board.rs:65-70 | a move is listed exactly when some bitboard of one of the player's pieces generates it |
| MovegenBoardMoves.BoardMovesOwn | movegen/src/board.rs:65-70 | every listed move is the player's, of a real piece type, from a square of that piece's bitboard, to an empty square or the opponent's |
| MovegenBoard.FoldOrBit | movegen/src/board.rs:75 | a square is in the fold of the bitboards exactly when some entry has it |
| MovegenBoard.FoldOrPlayerBit | movegen/src/board.rs:78-81 | a square is in the filtered fold exactly when an entry of one of the player's pieces has it |
| MovegenBoard.Board.PieceMask | movegen/src/board.rs:71-73 | the piece's bitboard, and 0 for a piece of the invalid type whose index 12 is out of range |
| MovegenBoard.Board.EmptyMask | movegen/src/board.rs:74-76 | the complement of the union is a 64-bit bitboard |
| MovegenBoard.Board.PlayerMask | movegen/src/board.rs:77-82 | the player's union is a bitboard |
| MovegenBoard.Board.PieceMaskAt | movegen/src/board.rs:71-73 | the piece at each index has that index's bitboard as its mask |
| MovegenBoard.Board.EmptyMaskBit | movegen/src/board.rs:74-76 | a square is empty exactly when it is a board square no bitboard has |
| MovegenBoard.Board.PlayerMaskBit | movegen/src/board.rs:77-82 | a square is the player's exactly when a bitboard of one of the player's six pieces has it, indices 0..5 for white and 6..11 for black |
| MovegenBoard.Board.PlayerMasksCover | movegen/src/board.rs:74-82 | the two players' masks together are the board's occupied squares |
| MovegenBoard.Board.MakeMove | movegen/src/board.rs:83-119 | the new board's bitboards are the as-written result of the move and it links back to the old board |
| MovegenBoard.Standard | movegen/src/board.rs:59-64 | `Board::standard()` on `STD_BITBOARDS` as written: a root board whose bitboard k holds exactly piece k's start squares, except the white pawns' bitboard, which is empty |
| MovegenBoard.StandardIntended | movegen/src/board.rs:59-64 | the standard board on the corrected table (white pawns 0xff00): a root board whose bitboard k holds exactly piece k's start squares |
| MovegenBoard.Update | movegen/src/board.rs:94-114 | xor-ing one entry changes that entry alone |
| MovegenBoard.CloneBoards | movegen/src/board.rs:87 | the clone is a fresh array with the same entries |
| MovegenBoard.ToggleAll | movegen/src/board.rs:103-113 | the loop flips the mask's bits in every entry |
| MovegenBoard.CapturedSquare | movegen/src/board.rs:98 | the square behind an en-passant destination is a board square |
| MovegenBoard.ArmIs | movegen/src/board.rs:92-117 | each arm of the match produces the bitboards the as-written function gives for that kind |
| MovegenBoard.CastleEffect | movegen/src/board.rs:93-96 | castling flips the king's two castle squares in the mover's king bitboard and the rook's two in its rook bitboard, leaving the other ten |
| MovegenBoard.EnpassantEffect | movegen/src/board.rs:97-100 | en passant flips the captured pawn's square behind the destination in the opponent's pawn bitboard and the source and destination in the mover's |
| MovegenBoard.QuietEffect | movegen/src/board.rs:109-115 | as written a quiet move, capture or illegal move flips the destination in every bitboard but the mover's, and only the source in the mover's |
| MovegenBoard.PromotionEffect | movegen/src/board.rs:101-108 | as written a promotion flips the destination in every bitboard but the promotion type's, where it is flipped twice, and the source in the mover's |
| MovegenBoard.ClearedBit | movegen/src/board.rs:110 | clearing the destination takes it off an entry and keeps every other square |
| MovegenBoard.MadeMovesPiece | movegen/src/board.rs:109-115 | as intended a quiet move or capture takes the destination off every bitboard and moves the mover from source to destination |
| MovegenBoard.MadePromotes | movegen/src/board.rs:101-108 | as intended a promotion takes the destination off every bitboard, puts the promotion type there and takes the pawn off its source |
| MovegenBoard.MadeKeepsDisjoint | movegen/src/board.rs:109-115 | as intended a quiet move or capture keeps the twelve bitboards disjoint |
| MovegenBoard.KnightMoveShowsToggle | movegen/src/board.rs:109-115 | from the start position of the corrected table, whose knights are those of the table as written, b1-c3 leaves the knight on neither square and puts c3 on the other eleven bitboards as written; as intended only the knight's bitboard has c3 |
| Perft.Made | movegen/src/perft.rs:55-56 | filter_map keeps at most one board per move |
| Perft.RunFor | movegen/src/perft.rs:31-63 | the boards are popped in the last-in-first-out preorder of the tree cut at the depth, and the map's count for every half-move count is the number of those boards with that count, with a key exactly for the counts that occur |
| Perft.Tally | movegen/src/perft.rs:44 | the entry update adds one to the count of h, inserting it at 1, and leaves every other count |
| Perft.PushChildren | movegen/src/perft.rs:53-59 | the move list is refilled with the board's moves and every board make_move accepts is pushed in list order |
| Perft.WalkStep | movegen/src/perft.rs:42-60 | one pass of the loop keeps the walk invariant and shrinks the boards still to pop |
| Perft.MadeLevel | movegen/src/perft.rs:55-56 | every board made from b is one half-move further on |
| Perft.PendingOne | movegen/src/perft.rs:40 | the walk of the stack holding only the start board is the start board's subtree |
| Perft.OccurrencesSnoc | movegen/src/perft.rs:44 | counting one more board adds one to its half-move count's tally |
| Perft.PopTop | movegen/src/perft.rs:42 | popping the top board: its subtree is walked first |
| Perft.PopLeaf | movegen/src/perft.rs:47-49 | a board at the depth is counted and not expanded |
| Perft.PendingConcat | movegen/src/perft.rs:42-59 | the walk of a stack holding two parts walks the upper part first |
| Perft.PopInner | movegen/src/perft.rs:53-59 | expanding a board below the depth: the walk after pushing its children is, with the board in front, the walk before popping it |
| Perft.OccurrencesConcat | movegen/src/perft.rs:44 | counts over two walks add up |
| Perft.PreorderBounds | movegen/src/perft.rs:47-49 | every board of a subtree lies between its root's half-move count and the depth |
| Perft.PendingAtLevel | movegen/src/perft.rs:55-59 | a stack of boards all at one level contributes one board per entry at that level |
| Perft.PreorderCounts | movegen/src/perft.rs:31-63 | the counts of a walk are zero outside the root's half-move count up to the depth, one at the root's count, and, below the depth, as many one level down as the root has accepted moves |
| Decimal.DigitChar | movegen/src/uci/client.rs:28 | the character of a digit is a digit whose code is '0' plus the digit |
| Decimal.DigitValue | movegen/src/bin/fends2graphs.rs:48 | a digit character's value is below 10 and maps back to the character |
| Decimal.ShowNat | movegen/src/uci/client.rs:28 | a non-negative number prints as a non-empty run of digits with no leading zero |
| Decimal.ShowNatValue | movegen/src/uci/client.rs:28 | the printed digits have the printed number as their value |
| Decimal.ParseSigned | movegen/src/bin/fends2graphs.rs:48-54 | a parse that succeeds gives a value of the target integer type |
| Decimal.ParseIsize | movegen/src/bin/fends2graphs.rs:48 | a parsed isize lies within the 64-bit isize range |
| Decimal.ParseShow | movegen/src/bin/fends2graphs.rs:48-54 | printing a value of the type and parsing it back gives the value |
| Decimal.ParseRejects | movegen/src/bin/fends2graphs.rs:48-54 | an empty text or one that does not start with a sign or a digit never parses |
| Fends2Graphs.TrimStartMatches | movegen/src/bin/fends2graphs.rs:39-53 | the result is a suffix of the line that no longer starts with the prefix |
| Fends2Graphs.MakeBatch | movegen/src/bin/fends2graphs.rs:68-72 | a batch has one board, player, score and result per record |
| Fends2Graphs.Batches | movegen/src/bin/fends2graphs.rs:67-77 | n batches of the records, batch k holding records k * 1000 up to (k + 1) * 1000 under the name filename + k + ".h5" |
| Fends2Graphs.ReadDatasetFile | movegen/src/bin/fends2graphs.rs:19-84 | the batches handed to the writer are exactly the full batches of 1000 of the records the line machine completes, in order; a last partial batch is not saved |
| Fends2Graphs.BufferedSnoc | movegen/src/bin/fends2graphs.rs:59-64 | writing a completed record at the next free index keeps the records as the saved batches followed by the buffered entries |
| Fends2Graphs.AcceptLine | movegen/src/bin/fends2graphs.rs:37-65 | one line moves the machine as the if-chain does and, on the e line of state 3, writes the record's four fields at index i and advances i, changing no other entry |
| Fends2Graphs.SavedBatch | movegen/src/bin/fends2graphs.rs:67-77 | full arrays become the next saved batch, and the buffer restarts at index 0 |
| Fends2Graphs.BatchesPrefix | movegen/src/bin/fends2graphs.rs:67-77 | saved batches depend only on the records they hold |
| Fends2Graphs.BatchesSnoc | movegen/src/bin/fends2graphs.rs:67-77 | one more batch appends the batch of the next 1000 records |
| Fends2Graphs.RunConcat | movegen/src/bin/fends2graphs.rs:36-78 | reading two pieces of a file in turn is reading the whole, with the records concatenated |
| Fends2Graphs.RunStates | movegen/src/bin/fends2graphs.rs:27-63 | the machine is only ever in states 0 to 3 |
| Fends2Graphs.AcceptSteps | movegen/src/bin/fends2graphs.rs:38-65 | a line moves the machine only when it starts with the prefix the state waits for and its field parses, and then to the next state with that field; a record is completed exactly on an e line in state 3 and holds the fields read before |
| Fends2Graphs.EntryRecords | movegen/src/bin/fends2graphs.rs:59-62 | one record per entry |
| Fends2Graphs.ShowHead | movegen/src/bin/fends2graphs.rs:48-54 | a printed integer starts with a minus sign or a digit |
| Fends2Graphs.TrimOnce | movegen/src/bin/fends2graphs.rs:39-53 | trimming the prefix off a line carrying it once gives the rest |
| Fends2Graphs.ShowNotPrefixed | movegen/src/bin/fends2graphs.rs:47-53 | a printed integer never starts with a prefix that begins with a letter |
| Fends2Graphs.AcceptFen | movegen/src/bin/fends2graphs.rs:38-45 | in state 0 a fen line whose text parses stores the board and its side to move and moves to state 1 |
| Fends2Graphs.AcceptScore | movegen/src/bin/fends2graphs.rs:46-51 | in state 1 a score line stores the score and moves to state 2 |
| Fends2Graphs.AcceptResult | movegen/src/bin/fends2graphs.rs:52-57 | in state 2 a result line stores the result and moves to state 3 |
| Fends2Graphs.OneEntry | movegen/src/bin/fends2graphs.rs:38-65 | from state 0 the four lines of a readable entry complete exactly its record and return to state 0 |
| Fends2Graphs.DatasetRecords | movegen/src/bin/fends2graphs.rs:36-78 | reading a dataset written entry by entry gives back exactly its entries' records, in order, ending in state 0 |
| UciOptions.FromToStr | movegen/src/uci/client.rs:24-41 | reading back the printed value under its own type name gives the value |
| UciOptions.FromStrCases | movegen/src/uci/client.rs:33-41 | reading fails exactly for a spin whose text is not an isize; every other type name, button included, gives Button; the result has the kind named |
| UciOptions.CheckText | movegen/src/uci/client.rs:26-35 | a check value is true for the text "true" alone and prints as true or false |
| UciOptions.TextRoundTrip | movegen/src/uci/client.rs:29-38 | combo and string values keep their text in both directions |
| UciOptions.SpinCanonical | movegen/src/uci/client.rs:28-36 | a spin text that reads prints back as a text that reads as the same number |

## Left out

- The magic multipliers, `utils::patterns` and `utils::magic` are not part of this model. The Rust generator takes its tables as parameters. They are specified by their contract (`MovegenPieces.Agrees`), and the Python generator's tables are proved to meet it.
- `from_fenstr`, `Board::empty`, `Board::player`, `pseudo_move_list`, `boards_2_graphs` and `save_graphs` are called but not shown. Files, the reader and the HDF5 writer are I/O.
  - Fends2Graphs takes the lines as a sequence, with None for a line that failed to read, and the FEN parser as a parameter.
  - A save is the batch of values handed to the writer. A failed save only prints, so it changes nothing modelled.
- Perft.RunFor: the half-move count, the side to move and an optional `make_move` are not part of the board of board.rs, so the board is an abstract `Game`.
  - make_move is required to advance the half-move count by one, and the start board must not be past the depth. Otherwise the loop need not end.
  - `run` on the standard board is left out, and so is matching the table of known node counts, because the board is abstract.
- Perft.RunFor: the stack's preallocated capacity is not modelled. Only its bounds check on the depth (at most 6) is kept.
- `PieceType::an`, `Piece::an`, `Display for Move`, `print_bb`, `print_board`, and the prints in absearch.py, `get_*_patterns` and fends2graphs.rs are printing.
- The singleton `_instance` machinery of the Python piece classes is global mutable state. Pieces are (kind, colour) values.
- Castling moves are not generated. Both generators leave them as a TODO. `make_move`'s castle arm is modelled.
- Rust panics are preconditions:
  - a shift by 64 or more in `pos_mask`, `src_bb` and `dest_bb`;
  - a file mask index out of range in `slide`;
  - a shift by 64 or more in `slide`, such as `bb << 8*steps` with steps = 8 (movegen/src/utils/mod.rs:42-51);
  - the `u8` product `7*steps` or `9*steps` in `slide` overflowing (`MovegenUtils.SlideDefined` keeps the product below 64, which excludes this too);
  - index 12 in `make_move`;
  - the en-passant `dest - 8` underflow;
  - `MoveList::get` on an empty list.
- Python exceptions are modelled as results: a missing key (KeyError), `reduce` on an empty sequence (TypeError) and `pop` on an empty history (IndexError).
- BoardBoard.Board.GetValidMoves: computes every piece's generator when it is called and returns None if one fails. In board/board.py the move list wraps a lazy generator expression. Each piece's `get_valid_moves` runs only when iteration reaches it, and reads the board as it is at that moment. A missing entry raises KeyError or TypeError partway through the iteration, after the earlier pieces' moves have been yielded. This timing, and a board changed between the call and the iteration, are not modelled.
- BoardBoard.MoveLists: the generator expression is consumed whole, at the call, as in GetValidMoves above.
- LegacyBoard.GetValidMoves: the same eager evaluation as BoardBoard.Board.GetValidMoves. board.py's generator expression is lazy in the same way.
- LegacyBoard.MoveLists: the generator expression is consumed whole, at the call, as in LegacyBoard.GetValidMoves above.
- BoardUtils.GetBitPositions: requires a non-negative argument. On a negative one the Python loop never ends.
- `math.inf` is not a float here. The bounds are the ends of an extended-integer line (`AbSearch.ExtInt`).
- `is_term` and `next` can see the depth. The model passes it to the successor relation, as the source does.
- AbSearch.AbSolver.MinNode: the fail-soft property is stated for windows with a < b, the only windows the search creates. The result for a window that is already empty is not constrained.
- AbSearch.AbSolver.MinNode: termination needs a rank that every successor lies below (`Ranked`). The source searches whatever `next` returns.
- AbSearch.AbSolver.MaxNode: the fail-soft property is stated for windows with a < b, the only windows the search creates. The result for a window that is already empty is not constrained.
- AbSearch.AbSolver.MaxNode: termination needs a rank that every successor lies below (`Ranked`). The source searches whatever `next` returns.
- `gen_simple_state_graph` in tests/test_ab.py is left out because it builds a random graph. Only the fixed graph of the same file is modelled.
- `iter::repeat` is infinite. It is cut to the length of the stream it is zipped with, which is all `zip` takes from it.
- The rest of movegen/src/uci/client.rs is left out. It spawns the engine process, runs a reader thread with a channel and timeouts, and parses messages by regular expression.
- movegen/src/graph/mod.rs, main.rs, lib.rs, bin/movegenbin.rs, error.rs, game.py, eval/ and the neural evaluation are not part of this model.

## Findings

| source | as written | input that shows it | evidently intended | confidence | as-written member | corrected member |
|---|---|---|---|---|---|---|
| movegen/src/pieces.rs:70-84 | the white-pawn entry of `STD_BITBOARDS` is `0`, although `STD_PAWNS_WHITE = 0xff_00` is defined just below | `Board::standard()`: no bitboard holds a2..h2, so white has no pawns | entry 0 is `STD_PAWNS_WHITE`, and every entry holds the start squares of its piece | high, not executed | MovegenPiece.WhitePawnsMissing | MovegenPiece.StdBitboardsStart |
| movegen/src/board.rs:109-115 | in the default arm, the loop commented "first clear all dest" does `*bb ^= dest_mask`, which toggles the destination in all twelve bitboards | the quiet knight move b1-c3 from the start position (the knights and c3 are the same in both tables): afterwards c3 is set in the eleven other bitboards and not in the white knights' | the destination is cleared (`*bb &= !dest_mask`) before the mover's source and destination are toggled, so the mover alone stands on it and the bitboards stay disjoint | high, not executed | MovegenBoard.KnightMoveShowsToggle | MovegenBoard.MadeKeepsDisjoint |
| movegen/src/board.rs:101-108 | the promotion arm has the same loop: `*bb ^= dest_mask` toggles the destination in all twelve bitboards before the promotion type's bitboard toggles it back | any promotion onto an empty square: afterwards the destination is set in the eleven bitboards other than the promotion type's, and not in the promotion type's | the destination is cleared in every bitboard, then set in the promotion type's alone, and the pawn leaves its source | high, not executed | MovegenBoard.PromotionEffect | MovegenBoard.MadePromotes |
