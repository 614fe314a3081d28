# sjakk: a verified model of the chess-move replay

sjakk replays a chess game written as lines of two space-separated move tokens
in a subset of Standard Algebraic Notation (FIDE Laws of Chess, Appendix C).
It starts from the fixed initial board and applies every line in turn. This
project models that core in Dafny and proves its properties:

- `Types` (`types.dfy`): the per-field token classifiers. These read the piece
  kind, colour, check marker, castle, capture and promotion from a token.
- `Pieces` (`piece.dfy`): the squares a piece may move to or capture on.
- `Boards` (`board.dfy`): the board as an ordered list of pieces. This covers
  the 32-piece initial layout, `find_piece_by_pos`, the `get_tiles_between` line
  geometry and the `check_for_collisions` obstruction test.
- `Turns` (`turn.dfy`): the move descriptor built from a token (disambiguating
  file, offset, destination) and a turn built from a line.
- `Game` (`game.dfy`): `find_moved_piece`, `execute_move`, `make_a_move` and
  the fold that replays the first `limit` turns.
- `Wrappers` (`wrappers.dfy`): `Option`, `Result`, and the reasons a step can
  fail.

Every Rust `panic!`, failed `unwrap()` and `Err` becomes `Fail(reason)` of one
`Result` type, and later steps pass it on. Coordinates are unbounded `int`s.
Tokens are ASCII strings, so a char index equals a byte index.

Some code builds its result step by step: the `KQBNR` loops of `PieceType::from(&str)`
and `Promotion::from`, the `-8..8` push loops of the sliding pieces,
`Board::default`, `execute_move` and `make_a_move`. Each of these is a `method`
with that loop or those pushes. Each method is proved equal to a function, and
the pipelines and the lemmas use that function.

`piece.rs`, `turn.rs` and `main.rs` disagree on some types. `piece.rs` stores a piece as position,
kind and colour. `turn.rs` and `main.rs` use a kind that carries a colour, and a
castle that carries the rook's square. The model follows the consumers:

- A `Move` carries both a kind and a colour.
- The kind comparison in `find_moved_piece` checks both of them.
- `Castle.Short` and `Castle.Long` carry the rook's square: file 7 or 0 on the
  mover's home rank.

The code is followed where a reader might expect otherwise:

- Board equality is ordered list equality, not equality as a multiset.
- `get_tiles_between` is asymmetric, as written.

## Model

| member | source | states |
|---|---|---|
| Types.PieceTypeFromChar | src/types.rs:16-28 | a char gives a kind exactly when it is one of `PKQBNR` or their White or Black glyphs, and the i-th letter or glyph gives the i-th kind; any other char fails |
| Types.ColourFromChar | src/types.rs:86-94 | `w`, `W` and the White glyphs give White; `b`, `B` and the Black glyphs give Black; any other char fails |
| Types.Find | src/types.rs:35 | the first index of a char, or none exactly when the char is absent |
| Types.SymbolKind | src/types.rs:34-37 | each `KQBNR` letter parses to a non-pawn kind |
| Types.PieceTypeFromStr | src/types.rs:30-52 | the `KQBNR` loop, where a later letter overwrites an earlier one, computes `TokenKind` |
| Types.TokenKind | src/types.rs:30-52 | the kind `PieceType::from(&str)` reads from a token; its contract is carried by `PieceTypeFromStr` and the `TokenKind…` lemmas below: a lone leading letter gives its kind, a letter first at index 3 gives Pawn, a letter first elsewhere fails, and with no letter `O` gives King and anything else Pawn |
| Types.LastHitSome | src/types.rs:34-42 | after the loop over the first k letters a kind is set exactly when one of them first occurs at index 0 or 3 |
| Types.LastHitFrom | src/types.rs:34-42 | the last letter found decides the loop's value |
| Types.TokenKindLeading | src/types.rs:34-37 | a token whose only piece letter is first gives that letter's kind |
| Types.TokenKindPromotionSlot | src/types.rs:38 | a token whose only piece letter first occurs at index 3 gives Pawn |
| Types.TokenKindMisplaced | src/types.rs:39 | a piece letter first occurring at an index other than 0 or 3 fails |
| Types.TokenKindWithoutLetter | src/types.rs:44-49 | with no piece letter, a token containing `O` is King and any other token is Pawn |
| Types.CheckRoundTrip | src/types.rs:104-123 | appending `+`, `#` or nothing to a non-empty body that does not end in `+` or `#` reads back as Check, Mate or No; as a bool it is true exactly when the marker is present |
| Types.CheckOf | src/types.rs:104-114 | a token reads as Check exactly when its last char is `+` and as Mate exactly when it is `#`, whatever precedes it (`Qh7++` is Check, a lone `#` is Mate); no marker reads as No |
| Types.IsCheckOrMate | src/types.rs:116-123 | `bool::from(Check)`; `CheckRoundTrip` states it is true exactly when a marker was appended |
| Types.CastleOf | src/types.rs:133-141 | fails exactly on the empty token; castles exactly when the first char is `O`; Short when the length is at most 3, Long when it is more, with the rook on file 7 or 0 of the home rank |
| Types.CastleTokens | src/types.rs:133-141 | `O-O` is Short, `O-O-O` and `O-O+` are Long, `e4` is no castle |
| Types.CaptureOf | src/types.rs:149-156 | Yes exactly when an `x` occurs anywhere in the token |
| Types.PromotionOf | src/types.rs:164-180 | Yes exactly when some `KQBNR` letter first occurs at index 3; the promoted kind is that char's kind and never Pawn |
| Types.PromotionFromStr | src/types.rs:164-180 | the `KQBNR` loop computes `PromotionOf` |
| Pieces.Sweep | src/piece.rs:77-112 | a slider's list holds a fixed number of squares per offset |
| Pieces.GetMoveTiles | src/piece.rs:36-115 | the push loops and literal lists compute `MoveTiles` for every kind and castle |
| Pieces.MoveTiles | src/piece.rs:36-115 | the squares `get_move_tiles` lists for a piece and a castle; its contract is carried by `GetMoveTiles`, `PawnMoves`, `KingMoves`, `KnightMoves`, `MoveTilesSlider` and `SliderListShape` |
| Pieces.SweepMember | src/piece.rs:79-111 | a square is in a slider's list exactly when some offset in -8..7 produces it |
| Pieces.SweepAt | src/piece.rs:79-111 | entry k of a slider's list is slot k mod width of offset k div width - 8 |
| Pieces.MoveTilesSlider | src/piece.rs:77-112 | a square is in a queen's, bishop's or rook's list exactly when it lies on one of its lines within offset -8..7: same file or rank for the rook, a diagonal for the bishop, either for the queen |
| Pieces.SliderListShape | src/piece.rs:77-112 | rook and bishop lists have 32 entries and the queen's 64; the list includes the piece's own square, which is not clipped to the board; the queen's entries run offset by offset through the diagonal, anti-diagonal, file and rank |
| Pieces.PawnMoves | src/piece.rs:41-61 | a White pawn on rank 1 reaches ranks 2 and 3 of its file, and rank + 1 elsewhere; a Black pawn on rank 6 reaches ranks 5 and 4, and rank - 1 elsewhere |
| Pieces.KingMoves | src/piece.rs:63-76 | without castling, exactly the 8 neighbours and never its own square; castling gives only file 6 (short) or file 2 (long) on the rook's rank |
| Pieces.KnightMoves | src/piece.rs:95-104 | exactly the 8 squares at (±1, ±2) and (±2, ±1) |
| Pieces.CaptureMoves | src/piece.rs:117-136 | a pawn captures on the two forward diagonals; every other kind captures where it moves |
| Pieces.CaptureTiles | src/piece.rs:117-136 | the squares `get_capture_tiles` lists; `CaptureMoves` states them: a pawn's two forward diagonals, and the move tiles for every other kind |
| Boards.BackRanksAreHome | src/board.rs:57-75 | the sixteen back-rank pushes put rooks at 0-3, knights at 4-7, bishops at 8-11, queens at 12-13 and kings at 14-15, White before Black |
| Boards.InitialPawns | src/board.rs:77-80 | the White pawn of file i is at index 16 + 2i on rank 1, and the Black one at 17 + 2i on rank 6 |
| Boards.DefaultBoard | src/board.rs:53-84 | the pushes and the pawn loop build exactly the initial board |
| Boards.InitialBoard | src/board.rs:53-84 | the 32-piece initial layout; `DefaultBoard`, `BackRanksAreHome`, `InitialPawns`, `InitialSquaresDistinct` and `InitialMiddleEmpty` state its order, its distinct squares and its empty middle |
| Boards.InitialSquaresDistinct | src/board.rs:53-84 | the initial board holds 32 pieces on 32 distinct squares, all on the board |
| Boards.InitialMiddleEmpty | src/board.rs:53-84 | no piece of the initial board stands on ranks 2 to 5 |
| Boards.FirstAt | src/board.rs:89-94 | the first piece on a square, or none exactly when no piece stands there |
| Boards.IndexOf | src/board.rs:96 | the first index holding a piece equal to the given one |
| Boards.FindPieceByPos | src/board.rs:88-97 | the index of the first piece on (x, y), or none exactly when no piece is there |
| Boards.FindOnInitialBoard | src/board.rs:19-24 | on the initial board (0, 0) is at index 0 and (7, 0) at index 1 |
| Boards.TilesBetweenCases | src/board.rs:99-112 | a.file >= b.file gives the squares of a's file strictly between the ranks going up (empty when a.rank >= b.rank); a.file < b.file and a.rank >= b.rank gives the squares on a's rank strictly between the files; equal rising spans give the diagonal interior; none exactly when both spans are positive and differ |
| Boards.TilesBetween | src/board.rs:99-112 | none exactly when the target is strictly above and right of the start with unequal spans; `TilesBetweenCases` gives the list in every other case |
| Boards.TilesBetweenExcludesEnds | src/board.rs:99-112 | a result never contains either end square |
| Boards.TilesBetweenIsAsymmetric | src/board.rs:99-112 | swapping the ends changes the result: (3,7) to (3,0) is empty, and the anti-diagonal (2,0) to (0,2) gives (2,1) |
| Boards.TilesBetweenExamples | src/board.rs:26-39 | (3,0) to (3,7) gives (3,1)..(3,6); (0,0) to (7,7) gives (1,1)..(6,6) |
| Boards.OccupiedAmong | src/board.rs:125-129 | keeps exactly the listed squares that hold a piece |
| Boards.CheckForCollisions | src/board.rs:114-134 | never blocked for pawn, king and knight; for sliders it fails exactly when `get_tiles_between` gives none (target strictly above and right of the mover, with unequal spans), and is otherwise true exactly when a square of that list is occupied; the list is the squares strictly between only for moves up, right or up-right |
| Boards.BoardEqualityIsOrdered | src/board.rs:47-51 | two boards with the same pieces in a different order are not equal |
| Turns.FileIndex | src/turn.rs:81 | the index of a file letter in `abcdefgh`, and none for any other char |
| Turns.Digit | src/turn.rs:152 | a decimal digit gives its numeric value (the char minus `0`), and any other char gives none |
| Turns.GetOffset | src/turn.rs:127-144 | one position for a piece letter, one for a capture, one for a disambiguating file |
| Turns.FormatDestination | src/turn.rs:146-154 | some square exactly when a file letter sits at the offset and a digit after it; the file is the letter's index and the rank the digit minus one |
| Turns.Destination | src/turn.rs:108-125 | only the destination changes; a castling king gets file 6 or 2 on the rook's rank whatever the text; every other move reads the token at the offset |
| Turns.SetDestination | src/turn.rs:108-125 | the destination a token names; its contract is `Destination` and, for written tokens, `RenderedDestination` |
| Turns.ParseMoveFields | src/turn.rs:45-69 | a parsed move's kind, colour, castle, capture, promotion and check are the classifiers' results on its token; parsing fails exactly when the kind does or the token is empty |
| Turns.ParseMove | src/turn.rs:45-69 | a token and a colour code read as a move; `ParseMoveFields` states its fields and failures, `ParseRender` and `ParseCastle` its round trips |
| Turns.Disambiguation | src/turn.rs:71-106 | kings and queens never get a file; a pawn gets one exactly when its token is longer than the base length (2, or 3 with a check marker) and starts with a file letter; a bishop, knight or rook exactly when its token is longer than base + 1 and its second char is a file letter; the file set is that letter's index (index 0 for a pawn, 1 for the others); nothing else changes |
| Turns.RemoveAmbiguity | src/turn.rs:71-106 | the source file a token names; its contract is `Disambiguation` (when a file is set, and that it is the file letter at index 0 for a pawn or 1 for a bishop, knight or rook) and, for written tokens, `RenderedFrom` |
| Turns.RenderedKind | src/types.rs:30-52 | a written token's kind reads back as the kind |
| Turns.RenderedCapture | src/types.rs:149-180 | a written token's capture reads back, and it reads as no promotion |
| Turns.RenderedCheck | src/types.rs:104-141 | a written token's check marker reads back, and it reads as no castle |
| Turns.RenderedFrom | src/turn.rs:71-106 | the disambiguating file reads back from a written token |
| Turns.FormatDestinationAt | src/turn.rs:146-154 | a file letter and a rank digit at the offset read back as that square |
| Turns.RenderedDestination | src/turn.rs:108-154 | `get_offset` of the parsed move is the index where a written token's square starts (after the piece letter, source file and `x`), and the square reads back from there |
| Turns.ParseRender | src/turn.rs:45-154 | parsing a written non-castling, non-promoting move gives back that move |
| Turns.Split | src/turn.rs:19 | splitting on spaces gives at least one part, none containing a space |
| Turns.JoinSplit | src/turn.rs:19 | joining the parts of a split with spaces gives the line back |
| Turns.SplitJoin | src/turn.rs:19 | splitting parts joined with spaces gives the parts back |
| Turns.ParseTurnTokens | src/turn.rs:11-30 | a line's first token is parsed as White and its second as Black; later tokens are ignored; the first failure is passed on |
| Turns.ParseTurnOneToken | src/turn.rs:26-27 | a line of one token never makes a turn |
| Turns.ParseTurn | src/turn.rs:11-30 | a parsed turn's first move is White's and its second Black's; `ParseTurnTokens` states which token each comes from and which failure is passed on |
| Turns.ParsePawnExamples | src/main.rs:28-45 | `e4` gives a White pawn to (4,3); `d6` gives a Black pawn to (3,5); `exd5` names file 4; `g6` goes to (6,5) |
| Turns.ParseKnightExamples | src/turn.rs:92-103 | `Nbd7` names file 1; `Nxd7` names no file, because `x` is not a file letter; `Nc3+` names no file and reads as check |
| Turns.ParseResolutionExamples | src/main.rs:55-57 | `Nc3` gives a White knight to (2,2) and `Bg7` a Black bishop to (6,6), neither naming a file |
| Turns.ParseTurnExample | src/main.rs:90 | the line `e4 g6` parses to White e4 and Black g6 |
| Turns.ParseCastle | src/turn.rs:114-119 | `O-O` and `O-O-O` parse to a king move to file 6 or 2 of the home rank, with the rook on file 7 or 0 |
| Game.SieveSpec | src/main.rs:111-127 | the filter chain fails exactly when some piece makes it panic, that is a piece of the moved kind and colour when the move has no destination, or such a sliding piece reaching a square off its lines; otherwise it returns the candidates |
| Game.Sieve | src/main.rs:111-127 | `find_moved_piece`'s filter chain; `SieveSpec`, `SieveNoDestination` and the `Candidates…` lemmas carry its contract: it fails exactly when some piece makes it panic, and otherwise keeps exactly the eligible pieces in order |
| Game.CandidatesMember | src/main.rs:96-127 | a piece survives the filters exactly when it matches kind and colour, reaches the destination (capture tiles when capturing, move tiles otherwise), stands on the named file if any, and is unblocked if it slides |
| Game.CandidatesTwo | src/main.rs:120-131 | two eligible pieces give at least two candidates |
| Game.CandidatesSingle | src/main.rs:120-131 | exactly one eligible piece gives exactly that candidate |
| Game.CandidatesNone | src/main.rs:120-131 | no eligible piece gives no candidate |
| Game.SlideReachIsALine | src/main.rs:111-117 | a slider that reaches a square along its lines never makes the tiles-between step fail |
| Game.NoPanicWithDestination | src/main.rs:111-117 | with a destination, the blocking test never fails |
| Game.FindMovedPieceSpec | src/main.rs:95-137 | with a destination, the result is some index exactly when one piece is eligible; that index is the eligible piece; otherwise it fails on a candidate count other than 1 |
| Game.FindMovedPiece | src/main.rs:95-137 | a returned index names a piece of the board that is eligible for the move; `FindMovedPieceSpec` adds that it is the only one |
| Game.FindMovedPieceNoDestination | src/main.rs:99-100 | without a destination it fails on the missing destination when some piece matches kind and colour, and otherwise on a count of 0 |
| Game.SieveNoDestination | src/main.rs:99-100 | without a destination the filters fail exactly when some piece matches kind and colour |
| Game.RemoveAt | src/main.rs:168 | removing an index keeps the order of the others and drops exactly that piece |
| Game.Relocate | src/main.rs:139-145 | the count is kept; the other pieces keep their order; the moved piece goes last with the new square and the same kind and colour |
| Game.ExecuteMove | src/main.rs:139-145 | the remove, position update and push compute `Relocate` |
| Game.RookStep | src/main.rs:150-162 | no castle leaves the board alone; a castle fails exactly when the rook's square is empty |
| Game.RookStepCount | src/main.rs:150-162 | the castling step keeps the piece count |
| Game.RookStepMoves | src/main.rs:150-162 | with a piece on the rook's square, the castling step succeeds and moves the first piece there to file 5 (short) or 3 (long) of the same rank, with the same kind and colour, last in the list; the other pieces keep their order and the count is kept |
| Game.MoveOnce | src/main.rs:149-172 | one pass of the loop body (rook step, capture in place, mover) computes `ApplyMove` |
| Game.MakeAMove | src/main.rs:147-176 | the loop over White's and Black's moves computes `ApplyTurn` |
| Game.ClearSquareCount | src/main.rs:164-169 | taking off the piece on a square lowers the count by one exactly when the square was occupied |
| Game.ClearSquareEmpties | src/main.rs:164-169 | with one piece per square, the cleared square is empty afterwards and the rest stay one per square |
| Game.ClearSquare | src/main.rs:164-169 | an empty destination leaves the board unchanged; `ClearSquareCount` and `ClearSquareEmpties` state what an occupied one loses |
| Game.RelocateToEmpty | src/main.rs:139-145 | moving a piece to an empty square keeps one piece per square |
| Game.ApplyMoveCount | src/main.rs:164-172 | a move lowers the count by exactly one when the destination is occupied after the rook step, and keeps it otherwise |
| Game.ApplyMoveMover | src/main.rs:164-172 | the mover stands last on its destination with its kind and colour; if the board after the castling rook's step held one piece per square, so does the result, and only the mover is on the destination |
| Game.ApplyMove | src/main.rs:147-176 | one move of `make_a_move`; its contract is carried by `MoveOnce`, `ApplyMoveCount`, `ApplyMoveMover` and `ApplyQuietMove` |
| Game.ApplyQuietMove | src/main.rs:147-172 | a non-castling move to an empty square removes nothing and only moves the resolved piece there |
| Game.ApplyTurnInOrder | src/main.rs:147-176 | a turn is White's move, then Black's on the board White's left; a failure of White's move ends the turn with that failure |
| Game.ApplyMoves | src/main.rs:148-173 | the `for mv in turn.value` loop as a function; `MakeAMove` proves the loop computes it and `ApplyTurnInOrder` states it for the two moves of a turn |
| Game.ApplyTurn | src/main.rs:147-176 | both moves of a turn; its contract is carried by `MakeAMove`, `ApplyTurnInOrder` and `ApplyTurnCount` |
| Game.ApplyTurnCount | src/main.rs:147-176 | a turn removes at most two pieces and adds none |
| Game.FoldOne | src/main.rs:201-204 | replaying one turn is applying it |
| Game.FoldAppend | src/main.rs:201-204 | replaying two runs of turns is replaying the first, then the second from where it ended; a failure stops the replay |
| Game.ReplayBounds | src/main.rs:201-204 | a limit of 0 or no turns gives the initial board back; a limit at least the number of turns replays them all |
| Game.ReplayStep | src/main.rs:201-204 | raising the limit by one applies the next turn to the previous result |
| Game.FoldCount | src/main.rs:201-204 | a replay of n turns removes at most 2n pieces and adds none |
| Game.Fold | src/main.rs:201-204 | the turns applied in order from a board; `FoldOne`, `FoldAppend` and `FoldCount` state it |
| Game.Replay | src/main.rs:201-204 | the first `limit` turns replayed; `ReplayBounds` and `ReplayStep` state it |
| Game.ResolutionE4 | src/main.rs:54-60 | on the initial board White `e4` resolves to index 24 |
| Game.ResolutionNc3 | src/main.rs:55-61 | on the initial board White `Nc3` resolves to index 4 |
| Game.ResolutionG6 | src/main.rs:56-62 | on the initial board Black `g6` resolves to index 29 |
| Game.ResolutionBg7 | src/main.rs:57-65 | after removing index 29, Black `Bg7` resolves to index 11 |
| Game.FindFirstExample | src/main.rs:52-66 | the moves parsed from `e4`, `Nc3` and `g6` resolve to 24, 4 and 29 on the initial board, and `Bg7` to 11 once index 29 is removed |
| Game.OpeningWhiteMove | src/main.rs:68-92 | `e4` moves the pawn from index 24 to (4,3) |
| Game.OpeningBlackResolution | src/main.rs:68-92 | after `e4`, Black `g6` resolves to index 28 |
| Game.OpeningBlackMove | src/main.rs:68-92 | after `e4`, `g6` moves that pawn to (6,5) |
| Game.OpeningTurn | src/main.rs:68-92 | the turn `e4 g6` is `e4`, then `g6` |
| Game.OpeningBoard | src/main.rs:68-92 | `find_piece_by_pos` finds (4,1) at index 24 of the initial board and then (6,6) at index 28 once 24 is removed; moving them is removing them and appending the two moved pawns |
| Game.OpeningTurnExample | src/main.rs:68-92 | the line `e4 g6` parses, and applying the parsed turn to the initial board equals that board without the pawns on (4,1) and (6,6), followed by the White pawn on (4,3) and the Black pawn on (6,5) |

## Left out

- Reading the game file, parsing the command line and printing the board
  (`read_game` and `main` apart from its fold, src/main.rs:178-207): these are
  file I/O and terminal output. The list of turns and the limit are parameters
  of `Game.Replay`.
- `test_read_game` depends on an external `test_game.txt`, which is not part of
  this model. Its two expected moves appear instead as `Turns.ParsePawnExamples`.
- The `Display` and `Debug` impls and the glyph constants: these only render.
  The glyphs are kept only as input chars of `PieceType::from(char)` and
  `Colour::from(char)`.
- convert_game_txt.py is a one-off conversion script with hard-coded file
  names. It is not part of this model.
- Promotion and check are parsed into the descriptor but never applied or
  validated. The model keeps them as fields only.
- Chess legality (pins, check, en passant, castling rights) is not in the
  code, so it is not in the model.
- `i8` coordinates, and their overflow, are modelled as unbounded `int`.
  Tokens are ASCII strings. Unicode outside the glyph chars is not modelled.
- Panics and `Err`s are both `Fail`. The model does not tell an abort from a
  returned error.
- `PieceType::from_notation`, `Castle::from_notation`, `Promotion::from_notation`,
  `Check::from_notation` and `is_check_or_mate`, which `turn.rs` calls, are not
  part of this model. They are modelled by the `From<&str>` conversions of
  `types.rs`, with the mover's colour added. A castle's rook is on file 7
  (short) or 0 (long) of the mover's home rank.
- `find_moved_piece` and `check_for_collisions` take `&mut` but never mutate.
  They are functions here. Cloning the board for the blocking test has no
  effect on the result.
- `remove_ambiguity`'s "notation is too short" error is unreachable: the length
  test guards it. It is not a failure case of the model.
- Game.ApplyMoveMover: the one-piece-per-square premise is stated on the board
  after the rook step, not on the board before the move. A castling rook could
  land on an occupied square, and the code does not check for that.
- Turns.ParseRender: the round trip is proved for non-castling, non-promoting
  moves. Castling tokens are covered separately by `Turns.ParseCastle`.
