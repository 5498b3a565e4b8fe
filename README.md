# ChessClone rules engine in Dafny

A model of the rules engine of ChessClone (the `Chess/` library) and proofs
about it. The engine keeps an 8 x 8 `string[,]` grid of cell codes. `""` is
an empty cell, "PNBRQK" are White's pieces and "pnbrqk" are Black's. Besides
the grid it keeps the side to move, both sides' castling rights, the
en-passant target, the halfmove counter, the move number, the piece list and
the FEN history. Other parts of the engine are:

- a move generator for each piece type;
- check detection;
- a legality filter that replays every candidate on a scratch board read
  back from the current FEN;
- `MakeMove`, which moves a piece, updates the counters, appends a FEN,
  recomputes the legal moves and classifies the game as Active, Checkmate
  or Patt (stalemate);
- writing and reading Forsyth-Edwards Notation (FEN), as defined in section
  16.1 of the PGN Standard.

The modules follow the source files:

| module | file | what it holds |
|---|---|---|
| `Pieces` | pieces.dfy | The enumerations `PieceColor`, `PieceType`, `AvailableCastle` and `GameState`, defined from their uses. The `Piece` record, with its `possibleMoves` list either unset or assigned. |
| `Text` | text.dfy | What the engine uses of .NET's integer and string library, on ASCII text: `int.ToString`, `int.Parse` and `string.Split`. |
| `Util` | util.dfy | `Chess/Util.cs`: square/index conversion, the type and colour of a cell code, and the piece list as a row-major function. |
| `Positions` | positions.dfy | A `Position` value holding the fields of a board, the validity predicates and the starting layout. |
| `Fen` | fen.dfy | `WriteFEN` and `ReadFEN` as functions, and their round trip. |
| `MoveRules` | moverules.dfy | The generators and `IsKingInCheck` of `Chess/Moves.cs` as pure functions over a grid. |
| `MoveFacts` | movefacts.dfy | What those functions satisfy: the ray rule, and the exact sets of knight, king and pawn moves. |
| `GameRules` | gamerules.dfy | What `UpdateBoardState`, `TestMove`, `MakeMove`, the legality filter, `CalculateAvailableMoves` and `CheckGameState` do to a `Position`. |
| `Chess` | chess.dfy | The `Board` class over an `array2<string>`, and the loop-based generators and filter of `Chess/Moves.cs` as methods. Each method is proved equal to its function. |

The board and the generators call each other, so they share the module
`Chess`. A board computes its moves with `GetAvailableMoves`, which builds
scratch boards.

The legality filter reads the current position back from its FEN text.
`Fen.FenRoundTrip` proves that this reading restores every field, so
`Chess.TryMove` tests each candidate on the position the board is actually
in.

Several behaviours of the source look unintended. The model reproduces each
of them as written, and a lemma exhibits it:

- **En passant clears the wrong cell.** It clears the cell behind the pawn's
  origin, not the captured pawn's cell, which is left as it was
  (`GameRules.EnPassantLeavesPassedPawn`).
- **Castling puts the rook on the wrong side.** It puts the rook on column 3
  when the king moves right, and on column 5 when it moves left
  (`GameRules.CastleRookPlacement`).
- **The left-down diagonal stops at row 6.** Its loop guard is `row < 7`, so
  it never reaches row 7. This holds in both the bishop generator and check
  detection (`MoveFacts.LeftDownSkipsLastRow`).
- **The pawn's double step checks only its destination.** The cell it passes
  over is not checked (`MoveFacts.PawnDoubleStepIgnoresMiddle`, `MoveFacts.PawnMovesSpec`).
- **A king never gives check.** An enemy king standing next to the king is
  not reported. Check detection answers the same when the enemy king is
  replaced by a friendly rook, which attacks nothing
  (`MoveFacts.EnemyKingGivesNoCheck`, `MoveFacts.KingsNeverGiveCheck`).
- **Only pawn moves reset the halfmove counter.** Captures by other pieces
  count up (`GameRules.AfterMove`).
- **The castling letters are read in order.** A later 'K' overwrites White's
  rights, so "QK" reads as kingside only (`Fen.CastleLettersOrderDependent`).

## Model

| member | source | states |
|---|---|---|
| Pieces.NewPiece | Chess/Piece.cs:15-21 | The constructor stores colour, type, code and square exactly as given, with no check of either, and leaves the destination list unset. |
| Pieces.Opponent | Chess/Board.cs:155 | The side to move after a move is always the other colour. |
| Text.IntTextRoundTrip | Chess/Board.cs:355-357 | The decimal text WriteFEN writes for any counter parses back to the same counter. For a counter in the C# `int` range, `int.Parse` accepts it without overflow. |
| Text.Increment | Chess/Board.cs:157-172 | `_halfMoveCounter++` and `_moveNumber++` on a C# `int`: the result is the successor modulo 2^32, and it stays in the `int` range, so int.MaxValue wraps to int.MinValue. |
| Text.SplitJoin | Chess/Board.cs:312-315 | Splitting fields joined by a separator that none of them contains gives back exactly those fields. |
| Util.GetArrayIndex | Chess/Util.cs:9-20 | The column is the file letter minus 'a'. For a real square "a1".."h8", the index is on the board. |
| Util.GetSquare | Chess/Util.cs:22-28 | The first character is `(char)(col + 97)`. On-board indices give a real square name. |
| Util.GetSquareOfIndex | Chess/Util.cs:30-33 | The `int[]` overload names the same square. For an on-board index, that name converts back to the index. |
| Util.SquareIndexRoundTrip | Chess/Util.cs:9-28 | Converting an on-board index to a square and back gives the index. |
| Util.IndexSquareRoundTrip | Chess/Util.cs:9-33 | Converting any square "a1".."h8" to an index and back gives the square. |
| Util.SquareOnlyOnBoard | Chess/Util.cs:22-28 | GetSquare names a real square only for an index on the board. |
| Util.SquareInjective | Chess/Util.cs:22-28 | Different cells have different square names. |
| Util.PieceTypeOf | Chess/Util.cs:46-58 | The type is decided on the lower-cased code: King exactly for "k", Pawn exactly when the code is none of r, n, b, q, k. |
| Util.GetPieceColor | Chess/Util.cs:71-77 | A one-character code is White exactly when its letter is upper case. |
| Util.PieceFromCell | Chess/Util.cs:60-64 | The piece built for a cell carries the cell's code and the cell's square name, with its destination list unset. |
| Util.PiecesBeforeBuilt | Chess/Util.cs:39-65 | Every piece the scan has produced is built from its own non-empty cell, a cell the scan has passed. |
| Util.PiecesBeforeOrdered | Chess/Util.cs:39-65 | The scan produces its pieces in row-major order of their squares: row 0 first, columns ascending. |
| Util.PiecesBeforeComplete | Chess/Util.cs:39-65 | Every non-empty cell the scan has passed has its piece in the list. |
| Util.PiecesOfSpec | Chess/Util.cs:35-69 | The piece list holds one piece per non-empty cell, built from that cell, each exactly once, in row-major order. |
| Util.ListedPiece | Chess/Util.cs:39-65 | A listed piece is the one built from its own cell. |
| Util.CellListed | Chess/Util.cs:39-65 | Every non-empty cell has its piece in the list. |
| Util.PiecesOfUnassigned | Chess/Util.cs:64 | A freshly built list has no destination list set on any piece. |
| Positions.LetterFacts | Chess/Util.cs:46-77 | Each of the twelve codes has its expected type and colour: P/p are pawns, K/k are kings, and the upper-case codes are White. |
| Positions.CellCodeFacts | Chess/Util.cs:46-77 | A cell holds the code of a colour and type exactly when GetPieceColor and GetPieceType read that colour and type from it. |
| Positions.CellCodeInjective | Chess/Util.cs:46-77 | Two colour and type pairs have the same code exactly when they are equal. |
| Positions.StartPositionSound | Chess/Board.cs:44-67 | The starting position is sound (valid cells, no pawn on a back rank, en-passant field "-") and has both kings. |
| Fen.DecodeChar | Chess/Board.cs:321-331 | In a row text, a digit stands for that many empty cells and any other character for one cell holding it. |
| Fen.DecodeFen | Chess/Board.cs:310-358 | A well-formed text is read into a grid of valid cells, with both counters in the C# `int` range. |
| Fen.EncodeRowRoundTrip | Chess/Board.cs:262-333 | A row as WriteFEN writes it is text ReadFEN accepts, and reads back as the same eight cells. |
| Fen.CastleRoundTrip | Chess/Board.cs:286-351 | ReadFEN reads WriteFEN's castling field back as both sides' rights, for every pair of rights. |
| Fen.BoardFieldRoundTrip | Chess/Board.cs:260-333 | The board field WriteFEN writes has no space, splits at '/' into exactly eight row texts, and each row reads back as its grid row. |
| Fen.FenFields | Chess/Board.cs:258-312 | Splitting WriteFEN's text at spaces gives exactly its six fields. |
| Fen.FenRoundTrip | Chess/Board.cs:258-358 | For every position with valid cells, a space-free en-passant text and both counters in the C# `int` range, WriteFEN gives a well-formed FEN. Reading it back restores grid, side, both castling rights, en-passant text and both counters. |
| Fen.FenLayout | Chess/Board.cs:258-308 | WriteFEN writes the rows, the side letter, the castling field, the en-passant target, the halfmove counter and the move number, separated by single spaces. |
| Fen.FenAsWritten | Chess/Board.cs:258-308 | The same text grouped as WriteFEN appends it: rows ending in '/' or ' ', then "w " or "b ", castling, and so on. |
| Fen.StartRows | Chess/Board.cs:44-71 | The default constructor's board field is "rnbqkbnr/pppppppp/8/8/8/8/PPPPPPPP/RNBQKBNR". |
| Fen.StartFields | Chess/Board.cs:55-71 | The default constructor's other fields are "w", "KQkq", "-", "0" and "1". |
| Fen.CastleLettersOrderDependent | Chess/Board.cs:337-351 | Reading "QK" leaves White with kingside only, while "KQ" gives both. So a text not in K,Q,k,q order does not survive a round trip. |
| MoveRules.FindKing | Chess/Moves.cs:221-227 | The lookup finds a king of the side to move when the list has one, and reports none exactly when the list has none. |
| MoveFacts.FindKingFirst | Chess/Moves.cs:221-227 | The loop breaks at the first match: when entry n is the first king of the colour, the lookup returns entry n. |
| MoveFacts.FindKingBefore | Chess/Moves.cs:221-227 | With a king of the colour at entry n, the lookup finds one, and the king it returns sits at entry n or earlier. |
| MoveRules.FindFirst | Chess/Moves.cs:396-407 | The lookup finds a listed piece standing on the square, and reports none exactly when no listed piece stands there. |
| MoveRules.FindLast | Chess/Moves.cs:361-365 | The knight lookup finds a listed piece on the square, and reports none exactly when there is none. |
| MoveFacts.OppositeColorOfCell | Chess/Moves.cs:375-381 | For a piece code, IsOppositeColor holds exactly when the code's colour differs from the mover's. |
| MoveFacts.RayShape | Chess/Moves.cs:383-394 | The ray rule. The m-th square of a ray is the cell m steps along it. Every earlier cell is empty, and the last is empty or an enemy. If the ray does not end on an enemy, the next cell is past the loop guard or holds a friendly piece. |
| MoveFacts.RayTargets | Chess/Moves.cs:84-178 | Every square of a ray names an empty or enemy cell that the loop guard admitted. |
| MoveFacts.RayFromTargets | Chess/Moves.cs:84-178 | Every square of a piece's ray names an empty or enemy cell inside the guard. |
| MoveFacts.LeftDownSkipsLastRow | Chess/Moves.cs:169-178 | The left-down walk never reaches row 7, neither in the bishop generator nor in check detection (lines 335-351). |
| MoveFacts.RookTargets | Chess/Moves.cs:76-105 | Every rook move is a square holding nothing or an enemy. |
| MoveFacts.BishopTargets | Chess/Moves.cs:128-181 | Every bishop move is a square holding nothing or an enemy. |
| MoveFacts.KnightMovesSound | Chess/Moves.cs:107-126 | Every knight move is a jump with \|di\|+\|dj\| = 3 onto an empty or enemy cell. Such a jump changes both row and column. |
| MoveFacts.KnightMovesComplete | Chess/Moves.cs:107-126 | Every such jump is generated. |
| MoveFacts.KnightMovesSpec | Chess/Moves.cs:107-126 | The knight's moves are exactly the on-board jumps onto empty or enemy cells. |
| MoveFacts.KingMovesComplete | Chess/Moves.cs:197-217 | Every neighbouring on-board cell that is empty or enemy is generated. |
| MoveFacts.KingMovesSpec | Chess/Moves.cs:197-217 | The king's moves are exactly the eight neighbours that are on the board and empty or enemy, so no castling destination is ever generated. |
| MoveFacts.PawnMovesSound | Chess/Moves.cs:39-74 | Every pawn move is one of four kinds: a single step onto an empty cell; from row 6 (White) or row 1 (Black), a double step whose destination is empty; a diagonal step onto an enemy; or a diagonal step onto the en-passant target. |
| MoveFacts.PawnCapturesSound | Chess/Moves.cs:57-71 | Every diagonal pawn move is a capture of an enemy or the en-passant target. |
| MoveFacts.PawnMovesComplete | Chess/Moves.cs:39-74 | Every such pawn target is generated. |
| MoveFacts.PawnDoubleStepIgnoresMiddle | Chess/Moves.cs:49-55 | A pawn on its start row whose next cell is occupied gets no single step, yet still gets the double step when the destination is empty. |
| MoveFacts.PawnMovesSpec | Chess/Moves.cs:39-74 | The pawn's moves are exactly those targets. White moves towards row 0 and Black towards row 7. |
| MoveFacts.PseudoTargets | Chess/Moves.cs:9-24 | Every candidate is a square holding nothing or an enemy, except a pawn's move onto the en-passant target. |
| MoveFacts.OnlyPieceOnSquare | Chess/Util.cs:39-65 | On a list built from the grid, the only piece standing on a cell's square is the one built from that cell. |
| MoveFacts.LookupOnPiecesOf | Chess/Moves.cs:396-407 | On such a list, both lookups of an occupied cell find the piece built from that cell. |
| MoveFacts.FindFirstIgnoresMoveLists | Chess/Moves.cs:396-407 | The square lookup does not depend on the cached destination lists. |
| MoveFacts.FindLastIgnoresMoveLists | Chess/Moves.cs:361-365 | The knight lookup does not depend on the cached destination lists. |
| MoveFacts.FindKingIgnoresMoveLists | Chess/Moves.cs:221-227 | The king lookup does not depend on the cached destination lists. |
| MoveFacts.FirstHitIgnoresMoveLists | Chess/Moves.cs:233-351 | The first piece met on a ray does not depend on the cached destination lists. |
| MoveFacts.OrthogonalAttackIgnoresMoveLists | Chess/Moves.cs:233-279 | The rook and queen test along a line does not depend on the cached destination lists. |
| MoveFacts.DiagonalAttackIgnoresMoveLists | Chess/Moves.cs:281-351 | The bishop, queen and pawn test along a diagonal does not depend on the cached destination lists. |
| MoveFacts.KnightAttackIgnoresMoveLists | Chess/Moves.cs:353-370 | The knight test does not depend on the cached destination lists. |
| MoveFacts.CheckIgnoresMoveLists | Chess/Moves.cs:219-373 | IsKingInCheck reads only colours, types and squares. Forgetting every cached list changes neither its answer nor whether it finds a king. |
| MoveFacts.OrthogonalAttackOnGrid | Chess/Moves.cs:233-279 | On the list built from the grid, the rook and queen test along a line says exactly that the first occupied cell inside the loop guard holds an enemy rook or queen. |
| MoveFacts.DiagonalAttackOnGrid | Chess/Moves.cs:281-351 | On that list, the test along a diagonal says exactly that the first occupied cell inside the guard holds an enemy bishop or queen, or an enemy pawn one row away on a diagonal facing the king. |
| MoveFacts.KnightAttackOnGrid | Chess/Moves.cs:353-370 | On that list, the knight test says exactly that an enemy knight's code sits a knight's jump away on the board. |
| MoveFacts.AttackedAtOnGrid | Chess/Moves.cs:233-372 | On that list, the nine tests for a king on a cell say exactly that the cell is attacked on the grid, along a ray or by a knight. |
| MoveFacts.KingListedOfHasKing | Chess/Moves.cs:221-229 | When the grid holds a king of a colour, IsKingInCheck's lookup on the list built from the grid finds one, on a square. |
| MoveFacts.FoundKingIsFirstKingCell | Chess/Moves.cs:221-231 | The king IsKingInCheck takes from the list built from the grid stands on the first cell in row-major order holding that king's code. |
| MoveFacts.FirstKingCellUnique | Chess/Moves.cs:221-231 | There is only one such first cell. |
| MoveFacts.KingInCheckOnGrid | Chess/Moves.cs:219-373 | On the list the board builds from its grid, IsKingInCheck finds a king exactly when the grid holds one, and answers true exactly when that first king's cell is attacked on the grid. |
| MoveFacts.InCheckSameForCheck | Chess/Moves.cs:219-373 | Two grids that agree on occupancy, on the side's king cells and on every enemy rook, bishop, queen, knight and pawn cell agree on whether the side is in check. |
| MoveFacts.EnemyKingGivesNoCheck | Chess/Moves.cs:219-373 | Replacing the enemy king by a rook of the side to move changes neither the validity of the grid nor IsKingInCheck's answer. So an enemy king never gives check, even when adjacent. |
| MoveFacts.KingsNeverGiveCheck | Chess/Moves.cs:219-373 | On a list holding only kings, the king is never in check, even with the other king adjacent. |
| GameRules.UpdateBoard | Chess/Board.cs:184-231 | Moving a piece keeps every cell valid. It never changes side, target or counters. A castling right changes only when that side castles, and then becomes None. |
| GameRules.PlainMoveFrame | Chess/Board.cs:184-188 | Outside the en-passant and castle branches, the destination gets the piece's code and the origin is cleared. Every other cell and field is unchanged. |
| GameRules.EnPassantLeavesPassedPawn | Chess/Board.cs:189-196 | The en-passant branch clears the cell behind the pawn's origin. The passed pawn's cell, on the origin row in the destination column, keeps its piece. |
| GameRules.CastleRookPlacement | Chess/Board.cs:197-230 | A king moving right puts the rook on column 3 and clears column 0. A king moving left puts it on column 5 and clears column 7. Only the mover's castling right becomes None. |
| GameRules.FilterOrder | Chess/Moves.cs:27-34 | The filter keeps the candidates in their order. |
| GameRules.FilterMembers | Chess/Moves.cs:27-34 | The filter keeps exactly the candidates it accepts. |
| GameRules.FilterStep | Chess/Moves.cs:28-34 | One pass of the backward loop either drops entry i or keeps it, as the test decides, and leaves the rest alone. |
| GameRules.LegalMovesSpec | Chess/Moves.cs:9-37 | The legal moves keep the candidates' order. A candidate is legal exactly when the side to move is not in check after its test move. |
| GameRules.KingKeptWithoutEnPassant | Chess/Moves.cs:26-34 | In a sound position without an en-passant target whose side to move has a king, every candidate of a listed piece of the side to move can be tested, and the mover's king is still on the board afterwards. |
| GameRules.CandidateIsPlain | Chess/Moves.cs:9-24 | Without an en-passant target, every candidate is a plain move onto an empty or enemy cell. No candidate takes the castle branch. |
| GameRules.KingKeptByMove | Chess/Board.cs:184-188 | A plain move of a listed piece onto an empty or enemy cell keeps the mover's king on the board. |
| GameRules.StartPlayable | Chess/Board.cs:38-75 | In the starting position every move of White can be tested, so computing its moves cannot fail. |
| GameRules.FlattenMembers | Chess/Board.cs:114 | A move is in the joined list exactly when it is in one of the per-piece lists. |
| GameRules.AllMovesSpec | Chess/Board.cs:102-116 | A move is in the aggregate exactly when it is a legal move of some listed piece of the side to move. |
| GameRules.PieceListsAt | Chess/Board.cs:106-115 | A piece of the side to move gets its legal moves, and the other side's pieces get nothing. |
| GameRules.CacheAllAt | Chess/Board.cs:113 | After the loop, each piece of the side to move holds its own list and every other piece is unchanged. |
| GameRules.ScanPrefix | Chess/Board.cs:106-115 | After k passes, the first k pieces are cached, the rest are untouched, and the aggregate joins the first k lists. |
| GameRules.ScanDone | Chess/Board.cs:104-115 | After the whole loop, every piece is cached and the aggregate joins every list. |
| GameRules.Classify | Chess/Board.cs:233-244 | The state is Active exactly when a move remains, and the result is never the Castle sentinel. |
| GameRules.ClassifyNoMoves | Chess/Board.cs:233-244 | With no move left, the result is Checkmate exactly when the king is in check, and Patt exactly when it is not. |
| GameRules.AfterMove | Chess/Board.cs:151-172 | After a move the other side is to move. The move number is incremented, wrapping at int.MaxValue, exactly after Black's move. The halfmove counter becomes 0 after a pawn move and is otherwise incremented, captures included. Counters in the `int` range stay in it. |
| GameRules.AfterMoveEnPassantText | Chess/Board.cs:156-166 | The new en-passant target holds no space, so the next FEN splits back into six fields. |
| GameRules.AfterMoveBoard | Chess/Board.cs:118-151 | MakeMove leaves the grid and castling rights that TestMove would produce for the same move. |
| GameRules.EnPassantTargetIsSkippedSquare | Chess/Board.cs:159-167 | A pawn's two-row advance sets the target to the square it passed over. Every other move sets "-". |
| GameRules.AfterMoveSound | Chess/Board.cs:141-172 | A move of a listed piece keeps the position sound: no pawn reaches a back rank, and the new target is "-" or a square. |
| GameRules.TwoMovesOneNumber | Chess/Board.cs:155-172 | Two consecutive moves increment the move number exactly once and give the move back to the same side. |
| Chess.PopulatePiecesList | Chess/Util.cs:35-69 | The nested loops build exactly the row-major piece list of the array. |
| Chess.Board.constructor | Chess/Board.cs:38-80 | Builds the starting position. The history holds just its FEN, the piece list is rebuilt, and White's legal moves are computed and cached. |
| Chess.Board.NewStartGrid | Chess/Board.cs:44-53 | A fresh 8 x 8 array holding the starting layout. |
| Chess.Board.FromFen | Chess/Board.cs:82-100 | The board's fields are the position the text describes. Its own FEN is appended to the given history. A scratch board has no moves. Otherwise the legal moves are computed and cached. |
| Chess.Board.Load | Chess/Board.cs:84-99 | The same as FromFen, on a board just allocated. |
| Chess.Board.StartRecord | Chess/Board.cs:84-90 | The FEN of the unchanged position is appended to the history, and the piece list is rebuilt from the array. |
| Chess.Board.CalculateAvailableMoves | Chess/Board.cs:102-116 | The position is unchanged. The aggregate is the join of the legal moves of the side to move. Each of its pieces holds its own list and the other pieces hold none. |
| Chess.Board.CachePieceMoves | Chess/Board.cs:108-115 | One pass caches the next piece, when it belongs to the side to move, and appends its legal moves. |
| Chess.Board.TestMove | Chess/Board.cs:118-128 | Only the grid, the castling rights and the piece list change. Side, target, counters and FEN stay as they were. |
| Chess.Board.MovePiece | Chess/Board.cs:120-125 | The test move applies UpdateBoardState between the piece's square and the destination. |
| Chess.Board.MakeMove | Chess/Board.cs:136-182 | A pawn heading for row 0 or 7 gets Castle back and nothing changes. Otherwise the position becomes AfterMove of the old one. Exactly one FEN, that of the new position, is appended. The new side's legal moves are cached, and the result classifies the new position. |
| Chess.Board.PlayMove | Chess/Board.cs:143-172 | The grid and the four bookkeeping fields become AfterMove of the old position. |
| Chess.Board.MakeMoveAt | Chess/Board.cs:130-134 | The index overload promises exactly what MakeMove does for the square of that index. |
| Chess.Board.UpdateBoardState | Chess/Board.cs:184-231 | The array and castling rights become UpdateBoard of the old position. |
| Chess.Board.MoveCastleRook | Chess/Board.cs:198-230 | The castle branch moves the home-row rook and sets the mover's castling right to None. The other side's right is unchanged. |
| Chess.Board.CheckGameState | Chess/Board.cs:233-244 | The result is the classification of the position. |
| Chess.Board.WriteFEN | Chess/Board.cs:258-308 | The loops produce exactly the FEN of the position. |
| Chess.Board.WriteRows | Chess/Board.cs:260-282 | The row loop writes each row's text followed by '/', or by a space after the last row. |
| Chess.Board.AppendRow | Chess/Board.cs:263-281 | One row's cells are written as letters and run lengths. |
| Chess.Board.WriteCell | Chess/Board.cs:266-278 | One cell either flushes the pending run and writes its letter, or extends the run. The text written so far plus the run still pending equals the row's text. |
| Chess.Board.AppendCastle | Chess/Board.cs:286-298 | The castling field is "-" when neither side may castle, otherwise K, Q, k, q for the rights held. |
| Chess.Board.ReadFEN | Chess/Board.cs:310-358 | A fresh array and all six fields hold the position a well-formed text describes. |
| Chess.Board.ReadCastle | Chess/Board.cs:337-351 | Both rights start at None, and the letters are applied in order unless the field starts with '-'. |
| Chess.Board.ReadBoard | Chess/Board.cs:314-333 | Each row of the array holds the cells its row text decodes to. |
| Chess.Board.ReadRow | Chess/Board.cs:318-332 | One row is filled from its text, and other rows are untouched. |
| Chess.Board.ReadChar | Chess/Board.cs:321-331 | One character fills its cells at the current position and advances the position by their number. |
| Chess.Board.WriteEmpties | Chess/Board.cs:322-326 | The digit loop empties exactly `count` cells from the current position on. |
| Chess.GetAvailableMoves | Chess/Moves.cs:9-37 | The backward removal loop leaves exactly the legal moves: the candidates, in order, after which the side to move is not in check. |
| Chess.TryMove | Chess/Moves.cs:29-32 | A scratch board read from the board's FEN and given the test move reports check exactly when the position after the test move has the king in check. |
| Chess.GetPseudoMoves | Chess/Moves.cs:11-24 | The dispatch on the piece's type yields that type's candidates. |
| Chess.GetPawnMoves | Chess/Moves.cs:39-74 | The pawn's candidates in the source's order: double step, single step, the two captures, the two en-passant moves. |
| Chess.AddPawnCaptures | Chess/Moves.cs:57-71 | The diagonal captures and en-passant moves, appended in order. |
| Chess.GetRookMoves | Chess/Moves.cs:76-105 | The rays down, up, right and left, in that order. |
| Chess.GetBishopMoves | Chess/Moves.cs:128-181 | The rays right-down, right-up, left-up and left-down, in that order. |
| Chess.GetQueenMoves | Chess/Moves.cs:183-195 | The rook's moves followed by the bishop's. |
| Chess.WalkRay | Chess/Moves.cs:84-102 | One slider loop appends exactly the ray from the piece's cell. |
| Chess.CheckIteratedMove | Chess/Moves.cs:383-394 | A cell is appended when it is empty or an enemy, and the walk stops exactly at an occupied cell. |
| Chess.GetKnightMoves | Chess/Moves.cs:107-126 | The offset loops produce the knight's list. |
| Chess.AddKnightRow | Chess/Moves.cs:116-123 | One row offset appends its jumps in column order. |
| Chess.AddJump | Chess/Moves.cs:118-122 | A jump appends its square exactly when it is an on-board empty or enemy cell. |
| Chess.GetKingMoves | Chess/Moves.cs:197-217 | The offset loops produce the king's list. |
| Chess.VisitKingRow | Chess/Moves.cs:205-214 | A row offset off the board appends nothing, and one on the board appends its neighbours. |
| Chess.AddKingRow | Chess/Moves.cs:207-214 | One row offset appends its neighbours in column order, skipping (0, 0). |
| Chess.AddNeighbour | Chess/Moves.cs:209-213 | A neighbour is appended exactly when it is an on-board empty or enemy cell. |

## Left out

- The move history table `_movesMade`, `RegisterMove`, `SaveMovesMade` and `SaveGameFENList` are not modelled. They are empty stubs or a library table that the rules never read.
- The `_name` field and the property getters are not modelled. The getters only read fields, which the model reads directly.
- Completing a promotion is not modelled, because that code is commented out. Only the `Castle` sentinel is modelled.
- Malformed FEN text is not modelled, so the model requires a well-formed text (`Fen.WellFormedFen`). ReadFEN does no validation. Some malformed texts make it throw: fewer than six fields, fewer than eight rows, a row running past eight cells, or a counter `int.Parse` rejects. Others it reads without failing, and the model excludes those too. These are rows holding characters other than digits and piece letters, such as "x7", whose "x" is stored as a cell and later listed as a Black pawn, and rows short of eight cells.
- Parsing is modelled on ASCII digits only. `char.IsNumber`, `char.GetNumericValue` and `int.Parse` also accept other Unicode digits and signs.
- `(int)(3.5f - 2.5f * sign)` is modelled as the integers 6 and 1, which is what the float expression evaluates to.
- Aliasing of `Piece` objects is not modelled. A `Piece` is a value. CalculateAvailableMoves writes each piece's destination list into a new piece list, where the source mutates shared objects. A caller holding an old `Piece` does not see its list change.
- Chess.Board.FromFen copies the history it is given. In the source a non-null FENList passed to the constructor becomes the board's own list (Board.cs:86-88), and every FEN appended later, by the constructor and by each MakeMove (Board.cs:175), is visible to the caller who holds it. The model keeps `fenList` as a value, so a caller's list does not grow. Inside the core no caller passes a list (Moves.cs:30 passes none).
- Chess.Board.CalculateAvailableMoves accumulates the piece list and the aggregate in locals and assigns the fields after its loop. The source writes them while looping, and the final state is the same.
- Chess.Board.PlayMove computes the new side, target and counters in locals and assigns them together. The source assigns them one by one, and the final state is the same.
- The loops of the generators, ReadFEN and WriteFEN are split into helper methods, one per loop body. The `continue` of the king loop is a conditional in `Chess.AddKingRow`.
- A scratch board's `_possibleMoves` list is never assigned in the source (it stays null). The model gives it the empty list.
- IsKingInCheck is a pure predicate (`MoveRules.IsKingInCheck`), not a method. It only reads the board and returns early, so it is modelled as a query.
- Chess.GetAvailableMoves requires `GameRules.KingSurvivesTests`: the piece's candidates can be generated, and every test move stays inside the array and leaves the mover's king on the board. The source fails in two ways when that does not hold. An index outside the array throws IndexOutOfRangeException: a White pawn on row 0 reads row -1 in GetPawnMoves (Moves.cs:54), and a White pawn on row 7 moving onto the en-passant target clears row 8 in UpdateBoardState (Board.cs:193). A test move that removes the mover's king makes IsKingInCheck dereference a null king. `GameRules.KingKeptWithoutEnPassant` proves the requirement only for a sound position (`GameRules.Sound`) without an en-passant target whose side to move has a king.
- Chess.Board.MakeMove requires that the position after the move can be classified (`GameRules.Classifiable`). That is two conditions. The first is `GameRules.Playable`, the condition CalculateAvailableMoves needs: valid cells, and `GameRules.KingSurvivesTests` for every piece of the side to move, so every candidate can be generated, every test move stays inside the array and keeps the mover's king. The second is that the side to move still has a king when no move is left. Without the index conditions the source throws IndexOutOfRangeException, as described for Chess.GetAvailableMoves. Without a king it dereferences a null king in IsKingInCheck.
- The cast `(char)(col + 97)` in Util.GetSquare wraps modulo 65536. The model requires `Util.ColumnCastable` instead: the result is a character below the surrogate range, with no wrap. Every call meets it, because the column is on the board or one beyond it.
- The test suite's expected FEN strings are not stated as single literals. The starting FEN is stated row by row and field by field (`Fen.StartRows`, `Fen.StartFields`). The strings after e4 and after e4, c5, Nf3 follow from `GameRules.AfterMove` and `Fen.FenLayout`, but are not written out.
- Fen.DecodeFen: its own contract states only that the cells are valid. What it reads is stated by `Fen.FenRoundTrip`.
