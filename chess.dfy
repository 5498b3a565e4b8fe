/** The Board class (Chess/Board.cs) and the loop-based move generators of
    Chess/Moves.cs. The board's fields, read as a Position, follow the
    functions of GameRules; the generators follow those of MoveRules.

    The board and the generators call each other (a board computes its
    moves with GetAvailableMoves, which builds scratch boards), so they
    share one module. */
module Chess {
  import opened Pieces
  import opened Text
  import opened Util
  import opened Positions
  import opened Fen
  import opened MoveRules
  import opened MoveFacts
  import opened GameRules

  /** The cells of an 8 x 8 array as a grid value. */
  function GridOf(a: array2<string>): (g: Grid)
    reads a
    requires a.Length0 == 8 && a.Length1 == 8
    ensures IsGrid(g)
    ensures forall i, j :: 0 <= i < 8 && 0 <= j < 8 ==> g[i][j] == a[i, j]
  {
    seq(8, i requires 0 <= i < 8 reads a => seq(8, j requires 0 <= j < 8 reads a => a[i, j]))
  }

  /** PopulatePiecesList (Chess/Util.cs:35-69): scan the array row by row,
      columns ascending, and build one piece per non-empty cell. */
  method PopulatePiecesList(boardState: array2<string>) returns (pieces: seq<Piece>)
    requires boardState.Length0 == 8 && boardState.Length1 == 8 && CellsAreChars(GridOf(boardState))
    ensures pieces == PiecesOf(GridOf(boardState))
  {
    ghost var g := GridOf(boardState);
    pieces := [];
    var i := 0;
    while i < 8
      invariant 0 <= i <= 8 && pieces == PiecesBefore(g, i, 0)
    {
      var j := 0;
      while j < 8
        invariant 0 <= j <= 8 && pieces == PiecesBefore(g, i, j)
      {
        if boardState[i, j] != "" {
          var shortName := boardState[i, j];
          var pieceType := PieceTypeOf(shortName);
          var pieceColor := GetPieceColor(shortName);
          var square := GetSquareOfIndex((i, j));
          pieces := pieces + [NewPiece(pieceColor, pieceType, shortName, square)];
        }
        j := j + 1;
      }
      i := i + 1;
    }
  }

  class Board {
    var grid: array2<string>
    var activeColor: PieceColor
    var whiteCastle: AvailableCastle
    var blackCastle: AvailableCastle
    var enPassantTarget: string
    var halfMoveCounter: int
    var moveNumber: int
    var pieces: seq<Piece>
    var possibleMoves: seq<string>
    var fen: string
    var fenList: seq<string>

    /** The fields the rules are stated over, as one value. */
    function State(): Position
      reads this`grid, this`activeColor, this`whiteCastle, this`blackCastle,
            this`enPassantTarget, this`halfMoveCounter, this`moveNumber, grid
      requires grid.Length0 == 8 && grid.Length1 == 8
    {
      Position(GridOf(grid), activeColor, whiteCastle, blackCastle, enPassantTarget, halfMoveCounter, moveNumber)
    }

    /** The array the generators read: 8 x 8, each cell empty or one character. */
    ghost predicate Cells()
      reads this`grid, grid
    {
      grid.Length0 == 8 && grid.Length1 == 8 && CellsAreChars(GridOf(grid))
    }

    /** What every board keeps: every cell empty or a piece letter, an
        en-passant text without spaces, as every text read from a FEN field is,
        and counters in the range of a C# `int`. */
    ghost predicate Valid()
      reads this`grid, this`enPassantTarget, this`halfMoveCounter, this`moveNumber, grid
    {
      && Cells() && CellsValid(GridOf(grid)) && ' ' !in enPassantTarget
      && IsInt32(halfMoveCounter) && IsInt32(moveNumber)
    }

    /** The piece list is the one PopulatePiecesList builds from the array,
        destination lists aside. */
    ghost predicate Listed()
      reads this`grid, this`pieces, grid
      requires Cells()
    {
      Bare(pieces) == PiecesOf(GridOf(grid))
    }

    /** The FEN field describes the current fields. */
    ghost predicate FenCurrent()
      reads this`grid, this`activeColor, this`whiteCastle, this`blackCastle,
            this`enPassantTarget, this`halfMoveCounter, this`moveNumber, this`fen, grid
      requires grid.Length0 == 8 && grid.Length1 == 8
    {
      fen == FenOf(State())
    }

    /** The piece list is the one built from the array, each piece of the
        side to move holding its legal moves and the others none. */
    ghost predicate MovesCached()
      reads this`grid, this`activeColor, this`whiteCastle, this`blackCastle,
            this`enPassantTarget, this`halfMoveCounter, this`moveNumber, this`pieces, grid
      requires Valid() && Playable(State())
    {
      pieces == CacheAll(PiecesOf(GridOf(grid)), PieceLists(State()), activeColor)
    }

    // ------------------------------------------------------------ constructors

    /** Board() (Chess/Board.cs:38-80): the starting position, its FEN as the
        first history entry, the piece list and the moves of White. */
    constructor()
      ensures Valid() && Listed() && FenCurrent() && fresh(grid)
      ensures State() == StartPosition
      ensures fenList == [fen]
      ensures Playable(State()) && possibleMoves == AllMoves(State()) && MovesCached()
    {
      var g := Board.NewStartGrid();
      grid := g;
      activeColor := White;
      whiteCastle := Both;
      blackCastle := Both;
      enPassantTarget := "-";
      halfMoveCounter := 0;
      moveNumber := 1;
      pieces := [];
      possibleMoves := [];
      fen := "";
      fenList := [];
      new;
      StartPlayable();
      StartRecord([]);
      CalculateAvailableMoves();
    }

    /** The array the default constructor fills with the starting position. */
    static method NewStartGrid() returns (g: array2<string>)
      ensures fresh(g) && g.Length0 == 8 && g.Length1 == 8
      ensures GridOf(g) == StartGrid
    {
      g := new string[8, 8]((i, j) requires 0 <= i < 8 && 0 <= j < 8 => StartGrid[i][j]);
      GridExt(GridOf(g), StartGrid);
    }

    /** Board(FEN, FENList, forTest) (Chess/Board.cs:82-100): read the text,
        append the board's own FEN to the history, build the piece list and,
        unless the board is a scratch board, compute the moves. */
    constructor FromFen(f: string, history: seq<string>, forTest: bool)
      requires WellFormedFen(f)
      requires !forTest ==> Playable(DecodeFen(f))
      ensures fresh(grid) && grid.Length0 == 8 && grid.Length1 == 8
      ensures State() == DecodeFen(f)
      ensures Valid() && Listed() && FenCurrent()
      ensures fenList == history + [fen]
      ensures forTest ==> pieces == PiecesOf(GridOf(grid)) && possibleMoves == []
      ensures !forTest ==> Playable(State()) && possibleMoves == AllMoves(State()) && MovesCached()
      decreases if forTest then 1 else 7
    {
      grid := new string[8, 8];
      possibleMoves := [];
      new;
      Load(f, history, forTest);
    }

    /** The body of the FEN constructor: read the text, record it and,
        unless the board is a scratch board, compute the moves. */
    method Load(f: string, history: seq<string>, forTest: bool)
      requires WellFormedFen(f)
      requires !forTest ==> Playable(DecodeFen(f))
      requires possibleMoves == []
      modifies this`grid, this`activeColor, this`whiteCastle, this`blackCastle,
               this`enPassantTarget, this`halfMoveCounter, this`moveNumber,
               this`fen, this`fenList, this`pieces, this`possibleMoves
      ensures fresh(grid) && grid.Length0 == 8 && grid.Length1 == 8
      ensures State() == DecodeFen(f)
      ensures Valid() && Listed() && FenCurrent()
      ensures fenList == history + [fen]
      ensures forTest ==> pieces == PiecesOf(GridOf(grid)) && possibleMoves == []
      ensures !forTest ==> Playable(State()) && possibleMoves == AllMoves(State()) && MovesCached()
      decreases if forTest then 0 else 6
    {
      ReadFEN(f);
      StartRecord(history);
      if !forTest {
        CalculateAvailableMoves();
      }
    }

    /** The tail of the FEN constructor (Chess/Board.cs:84-88): the history
        with the position's FEN appended, and the bare piece list. */
    method StartRecord(history: seq<string>)
      requires Valid()
      modifies this`fen, this`fenList, this`pieces
      ensures Valid() && State() == old(State())
      ensures fen == FenOf(State())
      ensures fenList == history + [fen]
      ensures pieces == PiecesOf(GridOf(grid)) && Bare(pieces) == pieces
    {
      fenList := history;
      fen := WriteFEN();
      fenList := fenList + [fen];
      pieces := PopulatePiecesList(grid);
      PiecesOfUnassigned(GridOf(grid));
    }

    // ------------------------------------------------------------ moves

    /** CalculateAvailableMoves (Chess/Board.cs:102-116): for each listed piece
        of the side to move, in list order, store its legal moves on the piece
        and append them to the board's list. */
    method CalculateAvailableMoves()
      requires Valid() && FenCurrent() && Playable(State())
      requires pieces == PiecesOf(GridOf(grid))
      modifies this`pieces, this`possibleMoves
      ensures State() == old(State()) && Valid() && FenCurrent()
      ensures Listed() && MovesCached()
      ensures possibleMoves == AllMoves(State())
      decreases 5
    {
      ghost var s := State();
      ghost var ps := pieces;
      ghost var ls := PieceLists(s);
      PiecesOfUnassigned(s.grid);
      assert ScanSetup(s, ps, ls);
      var list, all := pieces, [];
      var k := 0;
      while k < |list|
        invariant 0 <= k <= |ps| == |ls|
        invariant (list, all) == Scan(ps, ls, s.active, k)
      {
        list, all := CachePieceMoves(k, s, ps, ls, list, all);
        k := k + 1;
      }
      assert k == |ps|;
      ScanDone(ps, ls, s.active);
      BareCacheAll(ps, ls, s.active);
      pieces, possibleMoves := list, all;
    }

    /** One pass of the loop of CalculateAvailableMoves (Chess/Board.cs:108-115):
        a piece of the side to move gets its legal moves, stored on the piece
        and added to the aggregate; a piece of the other side is skipped. */
    method CachePieceMoves(k: int, ghost s: Position, ghost ps: seq<Piece>, ghost ls: seq<seq<string>>,
                           list: seq<Piece>, all: seq<string>)
      returns (list': seq<Piece>, all': seq<string>)
      requires Valid() && FenCurrent() && s == State() && ScanSetup(s, ps, ls) && 0 <= k < |ps|
      requires (list, all) == Scan(ps, ls, s.active, k)
      ensures (list', all') == Scan(ps, ls, s.active, k + 1)
      decreases 4
    {
      PieceListsAt(s, k);
      ScanAhead(ps, ls, s.active, k, k);
      assert Bare(ps)[k] == ps[k];
      var piece := list[k];
      if piece.color == activeColor {
        var moves := GetAvailableMoves(this, piece);
        list' := list[k := piece.(possibleMoves := Assigned(moves))];
        all' := all + moves;
      } else {
        list', all' := list[k := piece], all;
        AppendEmpty(all);
        assert Cached(ps[k], ls[k], s.active) == ps[k];
      }
    }

    /** TestMove (Chess/Board.cs:118-128): UpdateBoardState from the piece's
        square, then rebuild the piece list. Side to move, counters and FEN
        stay as they were. */
    method TestMove(piece: Piece, square: string)
      requires Valid() && TestOk(State(), piece, square)
      modifies this`whiteCastle, this`blackCastle, this`pieces, grid
      ensures Valid()
      ensures State() == TestMovePos(old(State()), piece, square)
      ensures pieces == PiecesOf(GridOf(grid))
    {
      MovePiece(piece, square);
      ValidCellsAreChars(GridOf(grid));
      pieces := PopulatePiecesList(grid);
    }

    /** The first half of TestMove (Chess/Board.cs:120-125): the indices of
        both squares, then UpdateBoardState. */
    method MovePiece(piece: Piece, square: string)
      requires Valid() && TestOk(State(), piece, square)
      modifies this`whiteCastle, this`blackCastle, grid
      ensures Valid()
      ensures State() == TestMovePos(old(State()), piece, square)
    {
      var oldArrayID := GetArrayIndex(piece.square);
      var newArrayID := GetArrayIndex(square);
      UpdateBoardState(oldArrayID.0, oldArrayID.1, newArrayID.0, newArrayID.1, piece, square);
    }

    /** MakeMove(piece, square) (Chess/Board.cs:136-182). A pawn heading for
        row 0 or row 7 gets the Castle sentinel back and nothing changes.
        Otherwise the board becomes AfterMove of its old state, one FEN is
        appended to the history, the moves of the new side to move are
        computed and the game state is classified. */
    method MakeMove(piece: Piece, square: string) returns (st: GameState)
      requires Valid() && TestOk(State(), piece, square)
      requires !IsPromotion(piece, square) ==> Classifiable(AfterMove(State(), piece, square))
      modifies this`activeColor, this`whiteCastle, this`blackCastle, this`enPassantTarget, this`halfMoveCounter,
               this`moveNumber, this`pieces, this`possibleMoves, this`fen, this`fenList, grid
      ensures Valid() && grid == old(grid)
      ensures IsPromotion(piece, square) ==>
        && st == Castle && State() == old(State()) && pieces == old(pieces)
        && possibleMoves == old(possibleMoves) && fen == old(fen) && fenList == old(fenList)
      ensures !IsPromotion(piece, square) ==>
        && State() == AfterMove(old(State()), piece, square)
        && Listed() && FenCurrent() && fenList == old(fenList) + [fen]
        && Playable(State()) && possibleMoves == AllMoves(State()) && MovesCached()
        && st == Classify(State())
    {
      var oldArrayID := GetArrayIndex(piece.square);
      var newArrayID := GetArrayIndex(square);
      if piece.pieceType == Pawn && (newArrayID.0 == 0 || newArrayID.0 == 7) {
        return Castle;
      }
      PlayMove(oldArrayID.0, oldArrayID.1, newArrayID.0, newArrayID.1, piece, square);
      StartRecord(fenList);
      CalculateAvailableMoves();
      st := CheckGameState();
    }

    /** The position updates of MakeMove (Chess/Board.cs:143-170): move the
        piece, pass the turn, set the en-passant target after a pawn's double
        step, count the half-moves and, after Black's move, the move number. */
    method PlayMove(oldRow: int, oldCol: int, newRow: int, newCol: int, piece: Piece, square: string)
      requires Valid() && TestOk(State(), piece, square) && !IsPromotion(piece, square)
      requires (oldRow, oldCol) == GetArrayIndex(piece.square) && (newRow, newCol) == GetArrayIndex(square)
      modifies this`whiteCastle, this`blackCastle, this`activeColor, this`enPassantTarget,
               this`halfMoveCounter, this`moveNumber, grid
      ensures State() == AfterMove(old(State()), piece, square)
      ensures Valid()
    {
      ghost var s := State();
      UpdateBoardState(oldRow, oldCol, newRow, newCol, piece, square);
      ghost var u := State();
      var active := if activeColor == White then Black else White;
      var target := "-";
      var half := Increment(halfMoveCounter);
      var number := moveNumber;
      if piece.pieceType == Pawn {
        if Abs(newRow - oldRow) == 2 {
          if active == White {
            target := GetSquare(newRow - 1, newCol);
          } else {
            target := GetSquare(newRow + 1, newCol);
          }
        }
        half := 0;
      }
      if active == White {
        number := Increment(number);
      }
      activeColor, enPassantTarget, halfMoveCounter, moveNumber := active, target, half, number;
      assert GridOf(grid) == u.grid;
      assert State() == u.(active := active, enPassant := target, halfMove := half, moveNumber := number);
      AfterMoveFields(s, piece, square, u, active, target, half, number);
      AfterMoveEnPassantText(s, piece, square);
      ValidCellsAreChars(u.grid);
    }

    /** MakeMove(piece, row, col) (Chess/Board.cs:130-134): the same move, named by its indices. */
    method MakeMoveAt(piece: Piece, row: int, col: int) returns (st: GameState)
      requires ColumnCastable(col)
      requires Valid() && TestOk(State(), piece, GetSquare(row, col))
      requires !IsPromotion(piece, GetSquare(row, col)) ==> Classifiable(AfterMove(State(), piece, GetSquare(row, col)))
      modifies this`activeColor, this`whiteCastle, this`blackCastle, this`enPassantTarget, this`halfMoveCounter,
               this`moveNumber, this`pieces, this`possibleMoves, this`fen, this`fenList, grid
      ensures Valid() && grid == old(grid)
      ensures IsPromotion(piece, GetSquare(row, col)) ==>
        && st == Castle && State() == old(State()) && pieces == old(pieces)
        && possibleMoves == old(possibleMoves) && fen == old(fen) && fenList == old(fenList)
      ensures !IsPromotion(piece, GetSquare(row, col)) ==>
        && State() == AfterMove(old(State()), piece, GetSquare(row, col))
        && Listed() && FenCurrent() && fenList == old(fenList) + [fen]
        && Playable(State()) && possibleMoves == AllMoves(State()) && MovesCached()
        && st == Classify(State())
    {
      var square := GetSquare(row, col);
      st := MakeMove(piece, square);
    }

    /** UpdateBoardState (Chess/Board.cs:184-231): clear the origin, write the
        piece's code on the destination; a pawn moving onto the en-passant
        target also clears the cell behind its origin; a king moving more than
        one column drops that side's castling rights and moves a rook. */
    method UpdateBoardState(oldRow: int, oldCol: int, newRow: int, newCol: int, piece: Piece, square: string)
      requires grid.Length0 == 8 && grid.Length1 == 8
      requires UpdateOk(State(), oldRow, oldCol, newRow, newCol, piece, square)
      modifies this`whiteCastle, this`blackCastle, grid
      ensures State() == UpdateBoard(old(State()), oldRow, oldCol, newRow, newCol, piece, square)
    {
      SetCellAt(oldRow, oldCol, "");
      SetCellAt(newRow, newCol, piece.shortName);
      if piece.pieceType == Pawn && square == enPassantTarget {
        if activeColor == White {
          SetCellAt(oldRow + 1, oldCol, "");
        } else {
          SetCellAt(oldRow - 1, oldCol, "");
        }
      } else if piece.pieceType == King && Abs(oldCol - newCol) > 1 {
        MoveCastleRook(oldCol, newCol);
      }
    }

    /** The castle branch of UpdateBoardState (Chess/Board.cs:198-230): the
        side to move loses its castling rights and the rook of its home row
        is moved. */
    method MoveCastleRook(oldCol: int, newCol: int)
      requires grid.Length0 == 8 && grid.Length1 == 8
      modifies this`whiteCastle, this`blackCastle, grid
      ensures GridOf(grid) == SetCell(SetCell(old(GridOf(grid)), HomeRow(activeColor), RookFrom(oldCol, newCol), ""),
                                      HomeRow(activeColor), RookTo(oldCol, newCol), RookLetter(activeColor))
      ensures activeColor == White ==> whiteCastle == None && blackCastle == old(blackCastle)
      ensures activeColor == Black ==> blackCastle == None && whiteCastle == old(whiteCastle)
    {
      if activeColor == White {
        whiteCastle := None;
        if oldCol - newCol > 0 {
          SetCellAt(7, 7, "");
          SetCellAt(7, 5, "R");
        } else {
          SetCellAt(7, 0, "");
          SetCellAt(7, 3, "R");
        }
      } else {
        blackCastle := None;
        if oldCol - newCol > 0 {
          SetCellAt(0, 7, "");
          SetCellAt(0, 5, "r");
        } else {
          SetCellAt(0, 0, "");
          SetCellAt(0, 3, "r");
        }
      }
    }

    /** One array write, seen on the grid value. */
    method SetCellAt(r: int, c: int, x: string)
      requires grid.Length0 == 8 && grid.Length1 == 8 && OnBoard(r, c)
      modifies grid
      ensures GridOf(grid) == SetCell(old(GridOf(grid)), r, c, x)
    {
      grid[r, c] := x;
      GridExt(GridOf(grid), SetCell(old(GridOf(grid)), r, c, x));
    }

    /** CheckGameState (Chess/Board.cs:233-244). */
    method CheckGameState() returns (st: GameState)
      requires Valid() && Listed() && Classifiable(State()) && possibleMoves == AllMoves(State())
      ensures st == Classify(State())
    {
      if |possibleMoves| == 0 {
        KingListedOfHasKing(GridOf(grid), activeColor);
        FindKingIgnoresMoveLists(pieces, activeColor);
        CheckIgnoresMoveLists(GridOf(grid), pieces, activeColor);
        if IsKingInCheck(GridOf(grid), pieces, activeColor) {
          return Checkmate;
        }
        return Patt;
      }
      return Active;
    }

    // ------------------------------------------------------------ FEN

    /** WriteFEN (Chess/Board.cs:258-308). */
    method WriteFEN() returns (f: string)
      requires grid.Length0 == 8 && grid.Length1 == 8
      ensures f == FenOf(State())
    {
      f := WriteRows();
      f := f + (if activeColor == White then "w " else "b ");
      f := AppendCastle(f);
      f := f + " ";
      f := f + (enPassantTarget + " ");
      f := f + (IntToString(halfMoveCounter) + " ");
      f := f + IntToString(moveNumber);
      FenAsWritten(State());
    }

    /** The board loop of WriteFEN (Chess/Board.cs:261-281): each row, then
        "/" after the first seven and " " after the last. */
    method WriteRows() returns (f: string)
      requires grid.Length0 == 8 && grid.Length1 == 8
      ensures f == RowsWritten(EncodedRows(GridOf(grid)), 8)
    {
      ghost var rows := EncodedRows(GridOf(grid));
      f := "";
      var i := 0;
      while i < 8
        invariant 0 <= i <= 8 && f == RowsWritten(rows, i)
      {
        f := AppendRow(f, i);
        f := f + (if i == 7 then " " else "/");
        i := i + 1;
      }
    }

    /** One row of WriteFEN (Chess/Board.cs:263-278). */
    method AppendRow(start: string, i: int) returns (f: string)
      requires grid.Length0 == 8 && grid.Length1 == 8 && 0 <= i < 8
      ensures f == start + EncodeRow(GridOf(grid)[i])
    {
      ghost var row := GridOf(grid)[i];
      f := start;
      var emptySquares := 0;
      var j := 0;
      while j < 8
        invariant 0 <= j <= 8 && 0 <= emptySquares <= j
        invariant f + Unwritten(row, j, emptySquares) == start + EncodeRow(row)
      {
        ghost var f0, e0 := f, emptySquares;
        f, emptySquares := WriteCell(f, i, j, emptySquares);
        AppendAssoc(f0, EncodeFrom(row, j, e0), []);
        j := j + 1;
      }
      AppendEmpty(f);
    }

    /** One cell of WriteFEN's row loop (Chess/Board.cs:266-277): a letter
        flushes the pending count of empty cells and is written, an empty cell
        adds to the count, and the count left at the last column is flushed. */
    method WriteCell(f: string, i: int, j: int, emptySquares: int) returns (f': string, emptySquares': int)
      requires grid.Length0 == 8 && grid.Length1 == 8 && 0 <= i < 8 && 0 <= j < 8 && 0 <= emptySquares <= j
      ensures 0 <= emptySquares' <= j + 1
      ensures f' + Unwritten(GridOf(grid)[i], j + 1, emptySquares') == f + EncodeFrom(GridOf(grid)[i], j, emptySquares)
    {
      ghost var row := GridOf(grid)[i];
      f' := f;
      if grid[i, j] != "" {
        if emptySquares > 0 {
          f' := f' + IntToString(emptySquares);
        }
        f' := f' + grid[i, j];
        assert f' == f + (Pending(emptySquares) + row[j]);
        AppendAssoc(f, Pending(emptySquares) + row[j], EncodeFrom(row, j + 1, 0));
        emptySquares' := 0;
      } else {
        emptySquares' := emptySquares + 1;
      }
      assert f' + EncodeFrom(row, j + 1, emptySquares') == f + EncodeFrom(row, j, emptySquares);
      ghost var f1 := f';
      if j == 7 && emptySquares' > 0 {
        f' := f' + IntToString(emptySquares');
      }
      if j == 7 {
        AppendEmpty(f');
        assert f' == f1 + Pending(emptySquares');
      }
    }

    /** The castling field of WriteFEN (Chess/Board.cs:285-297). */
    method AppendCastle(start: string) returns (f: string)
      ensures f == start + CastleField(whiteCastle, blackCastle)
    {
      f := start;
      if whiteCastle == None && blackCastle == None {
        f := f + "-";
      } else {
        if whiteCastle == Both || whiteCastle == Kingside {
          f := f + "K";
        }
        if whiteCastle == Both || whiteCastle == QueenSide {
          f := f + "Q";
        }
        if blackCastle == Both || blackCastle == Kingside {
          f := f + "k";
        }
        if blackCastle == Both || blackCastle == QueenSide {
          f := f + "q";
        }
      }
    }

    /** ReadFEN (Chess/Board.cs:310-358) on a text it can read. */
    method ReadFEN(f: string)
      requires WellFormedFen(f)
      modifies this`grid, this`activeColor, this`whiteCastle, this`blackCastle,
               this`enPassantTarget, this`halfMoveCounter, this`moveNumber
      ensures fresh(grid) && grid.Length0 == 8 && grid.Length1 == 8
      ensures State() == DecodeFen(f)
      ensures Valid()
    {
      var splitFEN := Split(f, ' ');
      grid := new string[8, 8]((_, _) => "");
      var boardFEN := Split(splitFEN[0], '/');
      ReadBoard(grid, boardFEN);
      activeColor := if splitFEN[1] == "w" then White else Black;
      ReadCastle(splitFEN[2]);
      enPassantTarget := splitFEN[3];
      halfMoveCounter := ParseInt(splitFEN[4]);
      moveNumber := ParseInt(splitFEN[5]);
      GridExt(GridOf(grid), DecodeFen(f).grid);
      SplitAvoids(f, ' ');
    }

    /** The castling field of ReadFEN (Chess/Board.cs:337-350): both rights
        None, then, unless the field starts with '-', each letter in turn. */
    method ReadCastle(castleFEN: string)
      requires |castleFEN| >= 1
      modifies this`whiteCastle, this`blackCastle
      ensures (whiteCastle, blackCastle) == DecodeCastle(castleFEN)
    {
      whiteCastle := None;
      blackCastle := None;
      if castleFEN[0] != '-' {
        var k := 0;
        while k < |castleFEN|
          invariant 0 <= k <= |castleFEN|
          invariant (whiteCastle, blackCastle) == CastleFold(castleFEN[..k], (None, None))
        {
          CastleFoldSnoc(castleFEN, k, (None, None));
          if castleFEN[k] == 'K' {
            whiteCastle := Kingside;
          } else if castleFEN[k] == 'Q' {
            whiteCastle := if whiteCastle == Kingside then Both else QueenSide;
          } else if castleFEN[k] == 'k' {
            blackCastle := Kingside;
          } else if castleFEN[k] == 'q' {
            blackCastle := if blackCastle == Kingside then Both else QueenSide;
          }
          k := k + 1;
        }
        assert castleFEN[..|castleFEN|] == castleFEN;
      }
    }

    /** The board loop of ReadFEN (Chess/Board.cs:316-333): row `i` of the
        array from the i-th '/'-separated part. */
    static method ReadBoard(cells: array2<string>, boardFEN: seq<string>)
      requires cells.Length0 == 8 && cells.Length1 == 8
      requires |boardFEN| >= 8 && forall i :: 0 <= i < 8 ==> RowText(boardFEN[i])
      modifies cells
      ensures forall r, c :: 0 <= r < 8 && 0 <= c < 8 ==> RowText(boardFEN[r]) && cells[r, c] == DecodeRow(boardFEN[r])[c]
    {
      var i := 0;
      while i < 8
        invariant 0 <= i <= 8
        invariant forall r, c :: 0 <= r < i && 0 <= c < 8 ==> cells[r, c] == DecodeRow(boardFEN[r])[c]
      {
        ReadRow(cells, i, boardFEN[i]);
        i := i + 1;
      }
    }

    /** One row of ReadFEN's board loop (Chess/Board.cs:318-332): a digit
        writes that many empty cells, any other character writes itself, each
        at `rowPos`. */
    static method ReadRow(cells: array2<string>, i: int, t: string)
      requires cells.Length0 == 8 && cells.Length1 == 8 && 0 <= i < 8 && RowText(t)
      modifies cells
      ensures forall c :: 0 <= c < 8 ==> cells[i, c] == DecodeRow(t)[c]
      ensures forall r, c :: 0 <= r < 8 && r != i && 0 <= c < 8 ==> cells[r, c] == old(cells[r, c])
    {
      var rowPos := 0;
      var j := 0;
      while j < |t|
        invariant 0 <= j <= |t|
        invariant rowPos == |DecodeRow(t[..j])| <= 8
        invariant forall c :: 0 <= c < rowPos ==> cells[i, c] == DecodeRow(t[..j])[c]
        invariant forall r, c :: 0 <= r < 8 && r != i && 0 <= c < 8 ==> cells[r, c] == old(cells[r, c])
      {
        DecodeRowStep(t, j);
        DecodeRowPrefix(t, j + 1);
        ghost var before, after := DecodeRow(t[..j]), DecodeRow(t[..j + 1]);
        ghost var start := rowPos;
        rowPos := ReadChar(cells, i, rowPos, t, j);
        forall c | 0 <= c < rowPos
          ensures cells[i, c] == after[c]
        {
          if c < start {
            assert after[c] == before[c];
          } else {
            assert after[c] == DecodeChar(t[j])[c - start];
          }
        }
        j := j + 1;
      }
      assert t[..|t|] == t;
    }

    /** One character of a row (Chess/Board.cs:320-330): a digit writes that
        many empty cells, any other character writes itself. */
    static method ReadChar(cells: array2<string>, i: int, rowPos: int, t: string, j: int) returns (rowPos': int)
      requires cells.Length0 == 8 && cells.Length1 == 8 && 0 <= i < 8 && 0 <= j < |t|
      requires 0 <= rowPos && rowPos + |DecodeChar(t[j])| <= 8
      modifies cells
      ensures rowPos' == rowPos + |DecodeChar(t[j])|
      ensures forall c :: 0 <= c < 8 ==> cells[i, c] == if rowPos <= c < rowPos' then DecodeChar(t[j])[c - rowPos] else old(cells[i, c])
      ensures forall r, c :: 0 <= r < 8 && r != i && 0 <= c < 8 ==> cells[r, c] == old(cells[r, c])
    {
      if IsDigit(t[j]) {
        rowPos' := WriteEmpties(cells, i, rowPos, DigitValue(t[j]));
      } else {
        cells[i, rowPos] := t[j..j + 1];
        rowPos' := rowPos + 1;
      }
    }

    /** The digit loop of ReadFEN (Chess/Board.cs:321-325): `count` empty
        cells from `rowPos` on. */
    static method WriteEmpties(cells: array2<string>, i: int, rowPos: int, count: nat) returns (rowPos': int)
      requires cells.Length0 == 8 && cells.Length1 == 8 && 0 <= i < 8 && 0 <= rowPos && rowPos + count <= 8
      modifies cells
      ensures rowPos' == rowPos + count
      ensures forall c :: 0 <= c < 8 ==> cells[i, c] == if rowPos <= c < rowPos' then "" else old(cells[i, c])
      ensures forall r, c :: 0 <= r < 8 && r != i && 0 <= c < 8 ==> cells[r, c] == old(cells[r, c])
    {
      rowPos' := rowPos;
      var k := 0;
      while k < count
        invariant 0 <= k <= count && rowPos' == rowPos + k
        invariant forall c :: 0 <= c < 8 ==> cells[i, c] == if rowPos <= c < rowPos' then "" else old(cells[i, c])
        invariant forall r, c :: 0 <= r < 8 && r != i && 0 <= c < 8 ==> cells[r, c] == old(cells[r, c])
      {
        cells[i, rowPos'] := "";
        rowPos' := rowPos' + 1;
        k := k + 1;
      }
    }
  }

  // ---------------------------------------------------------------- Chess/Moves.cs

  /** `if (cond) moves.Add(GetSquare(r, c))`. */
  method AddSquareIf(moves: seq<string>, cond: bool, r: int, c: int) returns (moves': seq<string>)
    requires ColumnCastable(c)
    ensures moves' == moves + SquareIf(cond, r, c)
  {
    moves' := moves;
    if cond {
      moves' := moves' + [GetSquare(r, c)];
    }
  }

  /** GetAvailableMoves (Chess/Moves.cs:9-37): the candidates of the piece's
      type, then, from the last to the first, each candidate is tried on a
      scratch board read from the board's FEN and dropped when the side to
      move is in check afterwards. */
  method GetAvailableMoves(board: Board, piece: Piece) returns (possibleMoves: seq<string>)
    requires board.Valid() && board.FenCurrent() && KingSurvivesTests(board.State(), piece)
    ensures possibleMoves == LegalMoves(board.State(), piece)
    decreases 3
  {
    ghost var s := board.State();
    var candidates := GetPseudoMoves(piece, board);
    possibleMoves := candidates;
    var i := |possibleMoves| - 1;
    while i >= 0
      invariant -1 <= i < |candidates|
      invariant possibleMoves == candidates[..i + 1] + Filter(candidates[i + 1..], Keeper(s, piece))
    {
      assert candidates[i] in candidates;
      assert possibleMoves[i] == candidates[i];
      var inCheck := TryMove(board, piece, possibleMoves[i]);
      FilterStep(candidates, i, Keeper(s, piece), possibleMoves);
      if inCheck {
        possibleMoves := possibleMoves[..i] + possibleMoves[i + 1..];
      }
      i := i - 1;
    }
    assert candidates[0..] == candidates;
  }

  /** One pass of the filter loop of GetAvailableMoves (Chess/Moves.cs:29-31):
      a scratch board read from the board's FEN makes the test move, and
      the answer is whether the side to move is then in check. */
  method TryMove(board: Board, piece: Piece, square: string) returns (inCheck: bool)
    requires board.Valid() && board.FenCurrent() && TestOk(board.State(), piece, square)
    requires HasKing(TestMovePos(board.State(), piece, square).grid, board.activeColor)
    ensures inCheck == InCheckAfter(board.State(), piece, square)
    decreases 2
  {
    FenRoundTrip(board.State());
    var testBoard := new Board.FromFen(board.fen, [], true);
    testBoard.TestMove(piece, square);
    KingListedOfHasKing(GridOf(testBoard.grid), testBoard.activeColor);
    inCheck := IsKingInCheck(GridOf(testBoard.grid), testBoard.pieces, testBoard.activeColor);
  }

  /** The dispatch of GetAvailableMoves on the piece's type. */
  method GetPseudoMoves(piece: Piece, board: Board) returns (moves: seq<string>)
    requires board.Cells() && CanGenerate(GridOf(board.grid), piece)
    ensures moves == Pseudo(GridOf(board.grid), piece, board.enPassantTarget)
  {
    if piece.pieceType == Pawn {
      moves := GetPawnMoves(piece, board);
    } else if piece.pieceType == Rook {
      moves := GetRookMoves(piece, board);
    } else if piece.pieceType == Knight {
      moves := GetKnightMoves(piece, board);
    } else if piece.pieceType == Bishop {
      moves := GetBishopMoves(piece, board);
    } else if piece.pieceType == Queen {
      moves := GetQueenMoves(piece, board);
    } else {
      moves := GetKingMoves(piece, board);
    }
  }

  /** GetPawnMoves (Chess/Moves.cs:39-74). */
  method GetPawnMoves(piece: Piece, board: Board) returns (pawnMoves: seq<string>)
    requires board.Cells() && IsSquare(piece.square)
    requires OnBoard(GetArrayIndex(piece.square).0 + PawnSign(piece.color), GetArrayIndex(piece.square).1)
    ensures pawnMoves == PawnMoves(GridOf(board.grid), piece.color, GetArrayIndex(piece.square).0,
                                   GetArrayIndex(piece.square).1, board.enPassantTarget)
  {
    var arrayIndex := GetArrayIndex(piece.square);
    var rowID, colID := arrayIndex.0, arrayIndex.1;
    pawnMoves := [];
    var sign := PawnSign(piece.color);
    var fwd, two := rowID + 1 * sign, rowID + 2 * sign;
    // the two-square move
    var double := rowID == PawnStartRow(piece.color) && board.grid[two, colID] == "";
    pawnMoves := AddSquareIf(pawnMoves, double, two, colID);
    AppendEmpty(SquareIf(double, two, colID));
    // the move forward
    var single := board.grid[fwd, colID] == "";
    pawnMoves := AddSquareIf(pawnMoves, single, fwd, colID);
    pawnMoves := AddPawnCaptures(board, piece.color, fwd, colID, pawnMoves);
  }

  /** The second half of GetPawnMoves (Chess/Moves.cs:57-71): the captures to
      the left and to the right, then en passant to the left and to the right. */
  method AddPawnCaptures(board: Board, color: PieceColor, fwd: int, colID: int, moves: seq<string>)
    returns (pawnMoves: seq<string>)
    requires board.Cells() && OnBoard(fwd, colID)
    ensures pawnMoves == moves + PawnCaptures(GridOf(board.grid), color, fwd, colID, board.enPassantTarget)
  {
    var left := colID - 1 >= 0 && board.grid[fwd, colID - 1] != "" && IsOppositeColor(color, board.grid[fwd, colID - 1][0]);
    pawnMoves := AddSquareIf(moves, left, fwd, colID - 1);
    ghost var t := SquareIf(left, fwd, colID - 1);
    assert pawnMoves == moves + t;
    var right := colID + 1 <= 7 && board.grid[fwd, colID + 1] != "" && IsOppositeColor(color, board.grid[fwd, colID + 1][0]);
    pawnMoves := AddSquareIf(pawnMoves, right, fwd, colID + 1);
    AppendAssoc(moves, t, SquareIf(right, fwd, colID + 1));
    t := t + SquareIf(right, fwd, colID + 1);
    assert pawnMoves == moves + t;
    var epLeft := GetSquare(fwd, colID - 1) == board.enPassantTarget;
    pawnMoves := AddSquareIf(pawnMoves, epLeft, fwd, colID - 1);
    AppendAssoc(moves, t, SquareIf(epLeft, fwd, colID - 1));
    t := t + SquareIf(epLeft, fwd, colID - 1);
    assert pawnMoves == moves + t;
    var epRight := GetSquare(fwd, colID + 1) == board.enPassantTarget;
    pawnMoves := AddSquareIf(pawnMoves, epRight, fwd, colID + 1);
    AppendAssoc(moves, t, SquareIf(epRight, fwd, colID + 1));
  }

  /** GetRookMoves (Chess/Moves.cs:76-105): down, up, right, left. */
  method GetRookMoves(piece: Piece, board: Board) returns (rookMoves: seq<string>)
    requires board.Cells() && IsSquare(piece.square)
    ensures rookMoves == RookMoves(GridOf(board.grid), piece.color, GetArrayIndex(piece.square).0, GetArrayIndex(piece.square).1)
  {
    var arrayIndex := GetArrayIndex(piece.square);
    var rowID, colID := arrayIndex.0, arrayIndex.1;
    ghost var g := GridOf(board.grid);
    rookMoves := [];
    rookMoves := WalkRay(board, piece, rookMoves, Down, rowID, colID);
    AppendEmpty(RayFrom(g, piece.color, Down, rowID, colID));
    rookMoves := WalkRay(board, piece, rookMoves, Up, rowID, colID);
    rookMoves := WalkRay(board, piece, rookMoves, Right, rowID, colID);
    rookMoves := WalkRay(board, piece, rookMoves, Left, rowID, colID);
  }

  /** GetBishopMoves (Chess/Moves.cs:128-181): right-down, right-up, left-up, left-down. */
  method GetBishopMoves(piece: Piece, board: Board) returns (bishopMoves: seq<string>)
    requires board.Cells() && IsSquare(piece.square)
    ensures bishopMoves == BishopMoves(GridOf(board.grid), piece.color, GetArrayIndex(piece.square).0, GetArrayIndex(piece.square).1)
  {
    var arrayIndex := GetArrayIndex(piece.square);
    var rowID, colID := arrayIndex.0, arrayIndex.1;
    ghost var g := GridOf(board.grid);
    bishopMoves := [];
    bishopMoves := WalkRay(board, piece, bishopMoves, RightDown, rowID, colID);
    AppendEmpty(RayFrom(g, piece.color, RightDown, rowID, colID));
    bishopMoves := WalkRay(board, piece, bishopMoves, RightUp, rowID, colID);
    bishopMoves := WalkRay(board, piece, bishopMoves, LeftUp, rowID, colID);
    bishopMoves := WalkRay(board, piece, bishopMoves, LeftDown, rowID, colID);
  }

  /** GetQueenMoves (Chess/Moves.cs:183-195): the rook's moves, then the bishop's. */
  method GetQueenMoves(piece: Piece, board: Board) returns (queenMoves: seq<string>)
    requires board.Cells() && IsSquare(piece.square)
    ensures queenMoves == QueenMoves(GridOf(board.grid), piece.color, GetArrayIndex(piece.square).0, GetArrayIndex(piece.square).1)
  {
    var rookMoves := GetRookMoves(piece, board);
    var bishopMoves := GetBishopMoves(piece, board);
    queenMoves := rookMoves + bishopMoves;
  }

  /** One of the slider loops: from the cell next to (rowID, colID) along
      `d`, while the loop guard holds, CheckIteratedMove each cell and stop
      when it reports an occupied cell. */
  method WalkRay(board: Board, piece: Piece, moves: seq<string>, d: Dir, rowID: int, colID: int) returns (acc: seq<string>)
    requires board.Cells() && OnBoard(rowID, colID)
    ensures acc == moves + RayFrom(GridOf(board.grid), piece.color, d, rowID, colID)
  {
    ghost var g := GridOf(board.grid);
    ghost var whole := RayFrom(g, piece.color, d, rowID, colID);
    StartEntering(d, rowID, colID);
    var row, col := rowID + DRow(d), colID + DCol(d);
    acc := moves;
    while InBounds(d, row, col)
      invariant Entering(d, row, col)
      invariant moves + whole == acc + Ray(g, piece.color, d, row, col)
      decreases Remaining(d, row, col)
    {
      StepInside(d, row, col);
      ghost var before := acc;
      var stop;
      acc, stop := CheckIteratedMove(board, piece, acc, row, col);
      if stop {
        assert acc == moves + whole;
        break;
      }
      AppendAssoc(before, [GetSquare(row, col)], Ray(g, piece.color, d, row + DRow(d), col + DCol(d)));
      row, col := row + DRow(d), col + DCol(d);
    }
    AppendEmpty(acc);
  }

  /** CheckIteratedMove with a move list (Chess/Moves.cs:383-394): an empty
      cell is added and the walk goes on; an occupied cell stops the walk
      and is added when it holds an enemy. */
  method CheckIteratedMove(board: Board, piece: Piece, moves: seq<string>, row: int, col: int) returns (moves': seq<string>, stop: bool)
    requires board.Cells() && OnBoard(row, col)
    ensures stop <==> GridOf(board.grid)[row][col] != ""
    ensures moves' == moves + (if Target(GridOf(board.grid), piece.color, row, col) then [GetSquare(row, col)] else [])
  {
    moves' := moves;
    if board.grid[row, col] == "" {
      moves' := moves' + [GetSquare(row, col)];
      return moves', false;
    } else if IsOppositeColor(piece.color, board.grid[row, col][0]) {
      moves' := moves' + [GetSquare(row, col)];
    }
    return moves', true;
  }

  /** GetKnightMoves (Chess/Moves.cs:107-126): offsets (i, j) of [-2, 2] x
      [-2, 2], row offset outer, with |i| + |j| = 3, onto a target cell. */
  method GetKnightMoves(piece: Piece, board: Board) returns (knightMoves: seq<string>)
    requires board.Cells() && IsSquare(piece.square)
    ensures knightMoves == KnightMoves(GridOf(board.grid), piece.color, GetArrayIndex(piece.square).0, GetArrayIndex(piece.square).1)
  {
    ghost var g := GridOf(board.grid);
    var arrayIndex := GetArrayIndex(piece.square);
    var rowID, colID := arrayIndex.0, arrayIndex.1;
    knightMoves := [];
    var i := -2;
    while i <= 2
      invariant -2 <= i <= 3
      invariant knightMoves == KnightRows(g, piece.color, rowID, colID, i)
    {
      knightMoves := AddKnightRow(board, piece.color, knightMoves, rowID, colID, i);
      i := i + 1;
    }
  }

  /** The inner loop of GetKnightMoves: column offsets -2 to 2 of row offset `i`. */
  method AddKnightRow(board: Board, color: PieceColor, moves: seq<string>, rowID: int, colID: int, i: int)
    returns (knightMoves: seq<string>)
    requires board.Cells()
    ensures knightMoves == moves + KnightRow(GridOf(board.grid), color, rowID, colID, i, 3)
  {
    ghost var g := GridOf(board.grid);
    knightMoves := moves;
    AppendEmpty(moves);
    var j := -2;
    while j <= 2
      invariant -2 <= j <= 3
      invariant knightMoves == moves + KnightRow(g, color, rowID, colID, i, j)
    {
      ghost var row := KnightRow(g, color, rowID, colID, i, j);
      AppendAssoc(moves, row, KnightStep(g, color, rowID, colID, i, j));
      if Abs(i) + Abs(j) != 3 {
        AppendEmpty(row);
        j := j + 1;
        continue;
      }
      knightMoves := AddJump(board, color, knightMoves, rowID, colID, i, j);
      j := j + 1;
    }
  }

  /** The body of the knight loops once the offset is a jump: add (r + i, c + j)
      when it is on the board and empty or enemy. */
  method AddJump(board: Board, color: PieceColor, moves: seq<string>, r: int, c: int, i: int, j: int)
    returns (moves': seq<string>)
    requires board.Cells()
    ensures moves' == moves + Jump(GridOf(board.grid), color, r, c, i, j)
  {
    moves' := moves;
    if r + i >= 0 && r + i < 8 && c + j >= 0 && c + j < 8 {
      if board.grid[r + i, c + j] == "" || IsOppositeColor(color, board.grid[r + i, c + j][0]) {
        moves' := moves' + [GetSquare(r + i, c + j)];
        return;
      }
    }
    AppendEmpty(moves);
  }

  /** GetKingMoves (Chess/Moves.cs:197-217): the eight neighbours, row offset
      outer, rows off the board skipped, onto a target cell. */
  method GetKingMoves(piece: Piece, board: Board) returns (kingMoves: seq<string>)
    requires board.Cells() && IsSquare(piece.square)
    ensures kingMoves == KingMoves(GridOf(board.grid), piece.color, GetArrayIndex(piece.square).0, GetArrayIndex(piece.square).1)
  {
    ghost var g := GridOf(board.grid);
    var arrayIndex := GetArrayIndex(piece.square);
    var rowID, colID := arrayIndex.0, arrayIndex.1;
    kingMoves := [];
    var i := -1;
    while i <= 1
      invariant -1 <= i <= 2
      invariant kingMoves == KingRows(g, piece.color, rowID, colID, i)
    {
      kingMoves := VisitKingRow(board, piece.color, kingMoves, rowID, colID, i);
      i := i + 1;
    }
    assert i == 2;
  }

  /** One pass of the outer loop of GetKingMoves: a row off the board is
      skipped, any other row is scanned. */
  method VisitKingRow(board: Board, color: PieceColor, moves: seq<string>, rowID: int, colID: int, i: int)
    returns (kingMoves: seq<string>)
    requires board.Cells() && -1 <= i <= 1
    ensures kingMoves == moves + KingRow(GridOf(board.grid), color, rowID, colID, i, 2)
  {
    if rowID + i >= 0 && rowID + i < 8 {
      kingMoves := AddKingRow(board, color, moves, rowID, colID, i);
    } else {
      KingRowOffBoard(GridOf(board.grid), color, rowID, colID, i);
      AppendEmpty(moves);
      kingMoves := moves;
    }
  }

  /** The inner loop of GetKingMoves: column offsets -1 to 1 of row offset `i`, skipping (0, 0). */
  method AddKingRow(board: Board, color: PieceColor, moves: seq<string>, rowID: int, colID: int, i: int)
    returns (kingMoves: seq<string>)
    requires board.Cells() && 0 <= rowID + i < 8
    ensures kingMoves == moves + KingRow(GridOf(board.grid), color, rowID, colID, i, 2)
  {
    ghost var g := GridOf(board.grid);
    kingMoves := moves;
    AppendEmpty(moves);
    var j := -1;
    while j <= 1
      invariant -1 <= j <= 2
      invariant kingMoves == moves + KingRow(g, color, rowID, colID, i, j)
    {
      ghost var row := KingRow(g, color, rowID, colID, i, j);
      AppendAssoc(moves, row, KingStep(g, color, rowID, colID, i, j));
      if i == 0 && j == 0 {
        AppendEmpty(row);
      } else {
        kingMoves := AddNeighbour(board, color, kingMoves, rowID, colID, i, j);
      }
      j := j + 1;
    }
  }

  /** The body of the king's column loop on a row inside the board: add
      (r + i, c + j) when its column is on the board and it is empty or enemy. */
  method AddNeighbour(board: Board, color: PieceColor, moves: seq<string>, r: int, c: int, i: int, j: int)
    returns (moves': seq<string>)
    requires board.Cells() && 0 <= r + i < 8
    ensures moves' == moves + Jump(GridOf(board.grid), color, r, c, i, j)
  {
    moves' := moves;
    if c + j >= 0 && c + j < 8 {
      if board.grid[r + i, c + j] == "" || IsOppositeColor(color, board.grid[r + i, c + j][0]) {
        moves' := moves' + [GetSquare(r + i, c + j)];
        return;
      }
    }
    AppendEmpty(moves);
  }
}
