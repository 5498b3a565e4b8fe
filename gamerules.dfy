/** What a move does to a position (Chess/Board.cs): UpdateBoardState and
    TestMove on the grid and castling rights, MakeMove's bookkeeping, the
    legality filter of GetAvailableMoves (Chess/Moves.cs:9-37), the
    aggregate of CalculateAvailableMoves and CheckGameState's verdict.
    The Board class of module Chess is proved to follow these functions. */
module GameRules {
  import opened Pieces
  import opened Text
  import opened Util
  import opened Positions
  import opened Fen
  import opened MoveRules
  import opened MoveFacts

  // ---------------------------------------------------------------- UpdateBoardState

  /** A pawn moving onto the en-passant target. */
  predicate IsEnPassantMove(s: Position, piece: Piece, square: string)
  {
    piece.pieceType == Pawn && square == s.enPassant
  }

  /** A king moving more than one column. */
  predicate IsCastleMove(piece: Piece, oldCol: int, newCol: int)
  {
    piece.pieceType == King && Abs(oldCol - newCol) > 1
  }

  /** The row the en-passant branch clears: one below the pawn's origin
      when White is to move, one above otherwise. */
  function EnPassantClearRow(active: PieceColor, oldRow: int): int
  {
    if active == White then oldRow + 1 else oldRow - 1
  }

  function HomeRow(active: PieceColor): int
  {
    if active == White then 7 else 0
  }

  function RookLetter(active: PieceColor): string
  {
    if active == White then "R" else "r"
  }

  /** The rook's columns in the castle branch: from 7 to 5 when the king
      moved towards column 0, from 0 to 3 when it moved towards column 7. */
  function RookFrom(oldCol: int, newCol: int): int
  {
    if oldCol - newCol > 0 then 7 else 0
  }

  function RookTo(oldCol: int, newCol: int): int
  {
    if oldCol - newCol > 0 then 5 else 3
  }

  /** The indices UpdateBoardState writes are inside the array, and the
      piece writes a cell code. */
  predicate UpdateOk(s: Position, oldRow: int, oldCol: int, newRow: int, newCol: int, piece: Piece, square: string)
  {
    && CellsValid(s.grid) && OnBoard(oldRow, oldCol) && OnBoard(newRow, newCol) && ValidCell(piece.shortName)
    && (IsEnPassantMove(s, piece, square) ==> OnBoard(EnPassantClearRow(s.active, oldRow), oldCol))
  }

  /** UpdateBoardState: clear the origin, write the piece's code on the
      destination; then either clear the en-passant cell, or, for a castle,
      take that side's rights away and move its rook. */
  function UpdateBoard(s: Position, oldRow: int, oldCol: int, newRow: int, newCol: int, piece: Piece, square: string): (t: Position)
    requires UpdateOk(s, oldRow, oldCol, newRow, newCol, piece, square)
    ensures CellsValid(t.grid)
    ensures t.active == s.active && t.enPassant == s.enPassant
    ensures t.halfMove == s.halfMove && t.moveNumber == s.moveNumber
    ensures t.whiteCastle == s.whiteCastle || (t.whiteCastle == None && s.active == White && IsCastleMove(piece, oldCol, newCol))
    ensures t.blackCastle == s.blackCastle || (t.blackCastle == None && s.active == Black && IsCastleMove(piece, oldCol, newCol))
  {
    var moved := SetCell(SetCell(s.grid, oldRow, oldCol, ""), newRow, newCol, piece.shortName);
    if IsEnPassantMove(s, piece, square) then
      s.(grid := SetCell(moved, EnPassantClearRow(s.active, oldRow), oldCol, ""))
    else if IsCastleMove(piece, oldCol, newCol) then
      var row := HomeRow(s.active);
      var castled := SetCell(SetCell(moved, row, RookFrom(oldCol, newCol), ""), row, RookTo(oldCol, newCol), RookLetter(s.active));
      if s.active == White then s.(grid := castled, whiteCastle := None)
      else s.(grid := castled, blackCastle := None)
    else
      s.(grid := moved)
  }

  /** Outside the two special branches only the origin and the destination change. */
  lemma PlainMoveFrame(s: Position, oldRow: int, oldCol: int, newRow: int, newCol: int, piece: Piece, square: string)
    requires UpdateOk(s, oldRow, oldCol, newRow, newCol, piece, square)
    requires !IsEnPassantMove(s, piece, square) && !IsCastleMove(piece, oldCol, newCol)
    ensures var t := UpdateBoard(s, oldRow, oldCol, newRow, newCol, piece, square);
      && t.grid[newRow][newCol] == piece.shortName
      && ((oldRow, oldCol) != (newRow, newCol) ==> t.grid[oldRow][oldCol] == "")
      && (forall i, j :: OnBoard(i, j) && (i, j) != (oldRow, oldCol) && (i, j) != (newRow, newCol) ==> t.grid[i][j] == s.grid[i][j])
      && t == s.(grid := t.grid)
  {
  }

  /** The en-passant branch clears the cell behind the pawn's origin, not
      the cell of the pawn it passes (on the origin row, in the destination
      column): for a diagonal move that cell is left as it was. */
  lemma EnPassantLeavesPassedPawn(s: Position, oldRow: int, oldCol: int, newRow: int, newCol: int, piece: Piece, square: string)
    requires UpdateOk(s, oldRow, oldCol, newRow, newCol, piece, square)
    requires IsEnPassantMove(s, piece, square) && newRow != oldRow && newCol != oldCol
    ensures var t := UpdateBoard(s, oldRow, oldCol, newRow, newCol, piece, square);
      && t.grid[oldRow][newCol] == s.grid[oldRow][newCol]
      && t.grid[EnPassantClearRow(s.active, oldRow)][oldCol] == ""
  {
  }

  /** In the castle branch the rook lands on column 3 when the king moved
      towards column 7 and on column 5 when it moved towards column 0, the
      opposite of the king's side; its old corner is emptied. */
  lemma CastleRookPlacement(s: Position, oldRow: int, oldCol: int, newRow: int, newCol: int, piece: Piece, square: string)
    requires UpdateOk(s, oldRow, oldCol, newRow, newCol, piece, square)
    requires !IsEnPassantMove(s, piece, square) && IsCastleMove(piece, oldCol, newCol)
    ensures var t := UpdateBoard(s, oldRow, oldCol, newRow, newCol, piece, square);
      var row := HomeRow(s.active);
      && (oldCol < newCol ==> t.grid[row][3] == RookLetter(s.active) && t.grid[row][0] == "")
      && (oldCol > newCol ==> t.grid[row][5] == RookLetter(s.active) && t.grid[row][7] == "")
      && (if s.active == White then t.whiteCastle == None && t.blackCastle == s.blackCastle
          else t.blackCastle == None && t.whiteCastle == s.whiteCastle)
  {
  }

  // ---------------------------------------------------------------- TestMove

  /** TestMove's demands: both squares are squares and UpdateBoardState's indices are inside the array. */
  predicate TestOk(s: Position, piece: Piece, square: string)
  {
    && IsSquare(piece.square) && IsSquare(square)
    && UpdateOk(s, GetArrayIndex(piece.square).0, GetArrayIndex(piece.square).1,
                GetArrayIndex(square).0, GetArrayIndex(square).1, piece, square)
  }

  /** TestMove: UpdateBoardState from the piece's square to `square`; nothing else changes. */
  function TestMovePos(s: Position, piece: Piece, square: string): (t: Position)
    requires TestOk(s, piece, square)
    ensures CellsValid(t.grid)
  {
    var o := GetArrayIndex(piece.square);
    var n := GetArrayIndex(square);
    UpdateBoard(s, o.0, o.1, n.0, n.1, piece, square)
  }

  /** After the test move of `square` the side to move is in check. */
  predicate InCheckAfter(s: Position, piece: Piece, square: string)
    requires TestOk(s, piece, square) && HasKing(TestMovePos(s, piece, square).grid, s.active)
  {
    var t := TestMovePos(s, piece, square);
    KingListedOfHasKing(t.grid, s.active);
    IsKingInCheck(t.grid, PiecesOf(t.grid), s.active)
  }

  // ---------------------------------------------------------------- the legality filter

  /** Every candidate can be tried: each test move stays inside the array
      and keeps a king of the side to move on the grid (IsKingInCheck
      dereferences that king). */
  predicate KingSurvivesTests(s: Position, piece: Piece)
  {
    && CellsValid(s.grid) && CanGenerate(s.grid, piece)
    && forall m :: m in Pseudo(s.grid, piece, s.enPassant) ==>
         TestOk(s, piece, m) && HasKing(TestMovePos(s, piece, m).grid, s.active)
  }

  /** The entries of `ms` that `keep` accepts, in their order. */
  function Filter(ms: seq<string>, keep: string --> bool): seq<string>
    requires forall m :: m in ms ==> keep.requires(m)
    decreases |ms|
  {
    if |ms| == 0 then []
    else (if keep(ms[0]) then [ms[0]] else []) + Filter(ms[1..], keep)
  }

  /** GetAvailableMoves: the pseudo-legal candidates that do not leave the mover's king attacked. */
  function LegalMoves(s: Position, piece: Piece): seq<string>
    requires KingSurvivesTests(s, piece)
  {
    Filter(Pseudo(s.grid, piece, s.enPassant), Keeper(s, piece))
  }

  /** The filter's test: the king of the side to move is not attacked after the test move. */
  function Keeper(s: Position, piece: Piece): string --> bool
  {
    m requires TestOk(s, piece, m) && HasKing(TestMovePos(s, piece, m).grid, s.active) => !InCheckAfter(s, piece, m)
  }

  /** `a` is `b` with some entries left out, the rest in order. */
  predicate Subsequence(a: seq<string>, b: seq<string>)
    decreases |b|
  {
    if |a| == 0 then true
    else if |b| == 0 then false
    else if a[0] == b[0] then Subsequence(a[1..], b[1..])
    else Subsequence(a, b[1..])
  }

  /** The filter keeps entries in their order. */
  lemma {:induction false} FilterOrder(ms: seq<string>, keep: string --> bool)
    requires forall m :: m in ms ==> keep.requires(m)
    ensures Subsequence(Filter(ms, keep), ms)
    decreases |ms|
  {
    if |ms| > 0 {
      FilterOrder(ms[1..], keep);
      var rest := Filter(ms[1..], keep);
      if keep(ms[0]) {
        assert ([ms[0]] + rest)[1..] == rest;
      } else {
        assert [] + rest == rest;
        SubsequenceSkip(rest, ms);
      }
    }
  }

  /** The filter keeps exactly the accepted entries. */
  lemma {:induction false} FilterMembers(ms: seq<string>, keep: string --> bool)
    requires forall m :: m in ms ==> keep.requires(m)
    ensures forall m :: m in Filter(ms, keep) <==> m in ms && keep(m)
    decreases |ms|
  {
    if |ms| > 0 {
      FilterMembers(ms[1..], keep);
      assert ms == [ms[0]] + ms[1..];
    }
  }

  /** The filter of a suffix starting at `i`: the verdict on entry `i`, then the filter of the rest. */
  lemma FilterFront(ms: seq<string>, i: int, keep: string --> bool)
    requires 0 <= i < |ms| && forall m :: m in ms ==> keep.requires(m)
    ensures Filter(ms[i..], keep) == (if keep(ms[i]) then [ms[i]] else []) + Filter(ms[i + 1..], keep)
  {
    assert ms[i..][0] == ms[i] && ms[i..][1..] == ms[i + 1..];
  }

  /** One step of the backward filter loop: the list keeps entry `i` when
      the test accepts it and loses it otherwise. */
  lemma FilterStep(ms: seq<string>, i: int, keep: string --> bool, current: seq<string>)
    requires 0 <= i < |ms| && forall m :: m in ms ==> keep.requires(m)
    requires current == ms[..i + 1] + Filter(ms[i + 1..], keep)
    ensures keep(ms[i]) ==> current == ms[..i] + Filter(ms[i..], keep)
    ensures !keep(ms[i]) ==> current[..i] + current[i + 1..] == ms[..i] + Filter(ms[i..], keep)
  {
    FilterFront(ms, i, keep);
    assert ms[..i + 1] == ms[..i] + [ms[i]];
    var rest := Filter(ms[i + 1..], keep);
    assert current[..i] == ms[..i];
    assert current[i + 1..] == rest;
  }

  /** Skipping the head of `b` keeps `a` a subsequence. */
  lemma SubsequenceSkip(a: seq<string>, b: seq<string>)
    requires |b| > 0 && Subsequence(a, b[1..])
    ensures Subsequence(a, b)
    decreases |b|, |a|
  {
    if |a| > 0 && a[0] == b[0] {
      SubsequenceCons(a, b[1..]);
    }
  }

  /** Dropping the head of `a` keeps it a subsequence. */
  lemma SubsequenceCons(a: seq<string>, b: seq<string>)
    requires |a| > 0 && Subsequence(a, b)
    ensures Subsequence(a[1..], b)
    decreases |b|, |a|
  {
    if |b| > 0 && |a| > 1 {
      if a[0] == b[0] {
        SubsequenceSkip(a[1..], b);
      } else {
        SubsequenceCons(a, b[1..]);
        SubsequenceSkip(a[1..], b);
      }
    }
  }

  /** A legal move is a candidate after which the side to move is not in check, and every such candidate is legal. */
  lemma LegalMovesSpec(s: Position, piece: Piece)
    requires KingSurvivesTests(s, piece)
    ensures Subsequence(LegalMoves(s, piece), Pseudo(s.grid, piece, s.enPassant))
    ensures forall m :: m in LegalMoves(s, piece) <==> m in Pseudo(s.grid, piece, s.enPassant) && !InCheckAfter(s, piece, m)
  {
    FilterOrder(Pseudo(s.grid, piece, s.enPassant), Keeper(s, piece));
    FilterMembers(Pseudo(s.grid, piece, s.enPassant), Keeper(s, piece));
  }

  // ---------------------------------------------------------------- when every test keeps the king

  /** On a sound grid, a piece of the list can generate moves and its test moves stay inside the array. */
  lemma ListedPieceCanGenerate(s: Position, piece: Piece)
    requires Sound(s) && piece in PiecesOf(s.grid)
    ensures CanGenerate(s.grid, piece)
    ensures ValidCell(piece.shortName)
    ensures piece.pieceType == Pawn <==> piece.shortName in {"P", "p"}
    ensures piece.pieceType == King <==> piece.shortName in {"K", "k"}
    ensures piece.color == White <==> piece.shortName in {"P", "N", "B", "R", "Q", "K"}
    ensures piece.pieceType == Pawn ==> 1 <= GetArrayIndex(piece.square).0 <= 6
    ensures IsSquare(piece.square)
    ensures s.grid[GetArrayIndex(piece.square).0][GetArrayIndex(piece.square).1] == piece.shortName
  {
    ValidCellsAreChars(s.grid);
    ListedPiece(s.grid, piece);
    var rc := GetArrayIndex(piece.square);
    LetterFacts(s.grid[rc.0][rc.1]);
    if piece.pieceType == Pawn {
      PawnOffBackRanks(s.grid, rc.0, rc.1);
    }
  }

  lemma PawnOffBackRanks(g: Grid, r: int, c: int)
    requires IsGrid(g) && NoBackRankPawns(g) && OnBoard(r, c) && g[r][c] in {"P", "p"}
    ensures 1 <= r <= 6
  {
    assert g[0][c] != "P" && g[0][c] != "p" && g[7][c] != "P" && g[7][c] != "p";
  }

  /** Without an en-passant target, every candidate of a listed piece of the
      side to move can be tested: the destination never holds the mover's
      own king, and a moving king is written at its destination. */
  lemma KingKeptWithoutEnPassant(s: Position, piece: Piece)
    requires Sound(s) && s.enPassant == "-" && HasKing(s.grid, s.active)
    requires piece in PiecesOf(s.grid) && piece.color == s.active
    ensures KingSurvivesTests(s, piece)
  {
    ListedPieceCanGenerate(s, piece);
    ValidCellsAreChars(s.grid);
    forall m | m in Pseudo(s.grid, piece, s.enPassant)
      ensures TestOk(s, piece, m) && HasKing(TestMovePos(s, piece, m).grid, s.active)
    {
      CandidateKeepsKing(s, piece, m);
    }
  }

  lemma CandidateKeepsKing(s: Position, piece: Piece, m: string)
    requires Sound(s) && s.enPassant == "-" && HasKing(s.grid, s.active)
    requires piece in PiecesOf(s.grid) && piece.color == s.active
    requires CanGenerate(s.grid, piece) && CellsAreChars(s.grid) && m in Pseudo(s.grid, piece, s.enPassant)
    ensures TestOk(s, piece, m) && HasKing(TestMovePos(s, piece, m).grid, s.active)
  {
    CandidateIsPlain(s.grid, piece, m);
    KingKeptByMove(s, piece, m);
  }

  /** Without an en-passant target a candidate is a plain move onto an empty
      or enemy cell: the king generator only steps to adjacent cells, so no
      candidate takes the castle branch. */
  lemma CandidateIsPlain(g: Grid, piece: Piece, m: string)
    requires IsGrid(g) && CellsAreChars(g) && CanGenerate(g, piece) && m in Pseudo(g, piece, "-")
    ensures IsSquare(m) && Target(g, piece.color, GetArrayIndex(m).0, GetArrayIndex(m).1)
    ensures !IsCastleMove(piece, GetArrayIndex(piece.square).1, GetArrayIndex(m).1)
  {
    assert IsSquare(m) && Target(g, piece.color, GetArrayIndex(m).0, GetArrayIndex(m).1) by {
      PseudoTargets(g, piece, "-");
    }
    var o := GetArrayIndex(piece.square);
    if piece.pieceType == King {
      assert m in KingMoves(g, piece.color, o.0, o.1);
      KingMovesSpec(g, piece.color, o.0, o.1);
    }
  }

  /** One candidate of KingKeptWithoutEnPassant. */
  lemma KingKeptByMove(s: Position, piece: Piece, m: string)
    requires Sound(s) && s.enPassant == "-" && HasKing(s.grid, s.active)
    requires piece in PiecesOf(s.grid) && piece.color == s.active
    requires IsSquare(m) && IsSquare(piece.square)
    requires Target(s.grid, piece.color, GetArrayIndex(m).0, GetArrayIndex(m).1)
    requires !IsCastleMove(piece, GetArrayIndex(piece.square).1, GetArrayIndex(m).1)
    ensures TestOk(s, piece, m) && HasKing(TestMovePos(s, piece, m).grid, s.active)
  {
    ListedPieceCanGenerate(s, piece);
    var o := GetArrayIndex(piece.square);
    var n := GetArrayIndex(m);
    var kr, kc :| 0 <= kr < 8 && 0 <= kc < 8 && s.grid[kr][kc] == KingLetter(s.active);
    assert TestOk(s, piece, m);
    PlainMoveFrame(s, o.0, o.1, n.0, n.1, piece, m);
    var t := TestMovePos(s, piece, m);
    if (kr, kc) == o {
      assert t.grid[n.0][n.1] == KingLetter(s.active);
    } else {
      assert (kr, kc) != n;
      assert t.grid[kr][kc] == KingLetter(s.active);
    }
  }

  /** The position the default constructor sets up can be played on. */
  lemma StartPlayable()
    ensures Playable(StartPosition)
  {
    StartPositionSound();
    var ps := PiecesOf(StartGrid);
    forall k | 0 <= k < |ps| && ps[k].color == White ensures KingSurvivesTests(StartPosition, ps[k]) {
      KingKeptWithoutEnPassant(StartPosition, ps[k]);
    }
  }

  // ---------------------------------------------------------------- CalculateAvailableMoves

  /** The position can be played on: every cell is empty or a piece letter, and every listed piece of
      the side to move passes KingSurvivesTests. */
  predicate Playable(s: Position)
  {
    && CellsValid(s.grid)
    && var ps := PiecesOf(s.grid);
       forall k {:trigger KingSurvivesTests(s, ps[k])} :: 0 <= k < |ps| && ps[k].color == s.active ==> KingSurvivesTests(s, ps[k])
  }

  /** The lists joined end to end. */
  function Flatten(ls: seq<seq<string>>): seq<string>
    decreases |ls|
  {
    if |ls| == 0 then [] else Flatten(ls[..|ls| - 1]) + ls[|ls| - 1]
  }

  /** An entry of the joined list is an entry of one of the lists, and conversely. */
  lemma {:induction false} FlattenMembers(ls: seq<seq<string>>)
    ensures forall m :: m in Flatten(ls) <==> exists i :: 0 <= i < |ls| && m in ls[i]
    decreases |ls|
  {
    if |ls| > 0 {
      var front := ls[..|ls| - 1];
      FlattenMembers(front);
      forall m ensures m in Flatten(ls) <==> exists i :: 0 <= i < |ls| && m in ls[i] {
        if m in Flatten(front) {
          var i :| 0 <= i < |front| && m in front[i];
          assert m in ls[i];
        }
        if exists i :: 0 <= i < |ls| && m in ls[i] {
          var i :| 0 <= i < |ls| && m in ls[i];
          if i < |ls| - 1 {
            assert m in front[i];
          }
        }
      }
    }
  }

  /** Joining one more list appends it. */
  lemma FlattenSnoc(ls: seq<seq<string>>, k: int)
    requires 0 <= k < |ls|
    ensures Flatten(ls[..k + 1]) == Flatten(ls[..k]) + ls[k]
  {
    assert ls[..k + 1][..k] == ls[..k];
  }

  /** The list CalculateAvailableMoves stores for the `k`-th listed piece:
      its legal moves when it belongs to the side to move, else nothing. */
  function PieceList(s: Position, k: int): seq<string>
    requires Playable(s) && 0 <= k < |PiecesOf(s.grid)|
  {
    var p := PiecesOf(s.grid)[k];
    if p.color == s.active then LegalMoves(s, p) else []
  }

  /** The lists of the first `n` listed pieces. */
  function ListsUpTo(s: Position, n: int): (ls: seq<seq<string>>)
    requires Playable(s) && 0 <= n <= |PiecesOf(s.grid)|
    ensures |ls| == n
    decreases n
  {
    if n == 0 then [] else ListsUpTo(s, n - 1) + [PieceList(s, n - 1)]
  }

  lemma {:induction false} ListsUpToAt(s: Position, n: int, k: int)
    requires Playable(s) && 0 <= k < n <= |PiecesOf(s.grid)|
    ensures ListsUpTo(s, n)[k] == PieceList(s, k)
    decreases n
  {
    var prev := ListsUpTo(s, n - 1);
    assert ListsUpTo(s, n) == prev + [PieceList(s, n - 1)];
    if k < n - 1 {
      ListsUpToAt(s, n - 1, k);
      assert (prev + [PieceList(s, n - 1)])[k] == prev[k];
    }
  }

  /** The per-piece lists CalculateAvailableMoves joins, one per listed piece. */
  function PieceLists(s: Position): (ls: seq<seq<string>>)
    requires Playable(s)
    ensures |ls| == |PiecesOf(s.grid)|
  {
    ListsUpTo(s, |PiecesOf(s.grid)|)
  }

  /** CalculateAvailableMoves' aggregate list. */
  function AllMoves(s: Position): seq<string>
    requires Playable(s)
  {
    Flatten(PieceLists(s))
  }

  /** `m` is a legal move of the `k`-th listed piece, which belongs to the side to move. */
  predicate MoveOfPiece(s: Position, k: int, m: string)
    requires Playable(s)
  {
    0 <= k < |PiecesOf(s.grid)| && PiecesOf(s.grid)[k].color == s.active && m in LegalMoves(s, PiecesOf(s.grid)[k])
  }

  lemma MoveOfPieceListed(s: Position, i: int, m: string)
    requires Playable(s) && 0 <= i < |PiecesOf(s.grid)|
    ensures MoveOfPiece(s, i, m) <==> m in PieceLists(s)[i]
  {
    ListsUpToAt(s, |PiecesOf(s.grid)|, i);
  }

  /** A move is in the aggregate exactly when it is a legal move of some listed piece of the side to move. */
  lemma AllMovesSpec(s: Position)
    requires Playable(s)
    ensures forall m :: m in AllMoves(s) <==> exists i :: 0 <= i < |PiecesOf(s.grid)| && MoveOfPiece(s, i, m)
  {
    var ls := PieceLists(s);
    FlattenMembers(ls);
    forall m ensures m in AllMoves(s) <==> exists i :: 0 <= i < |PiecesOf(s.grid)| && MoveOfPiece(s, i, m) {
      if m in AllMoves(s) {
        var i :| 0 <= i < |ls| && m in ls[i];
        MoveOfPieceListed(s, i, m);
      }
      if exists i :: 0 <= i < |PiecesOf(s.grid)| && MoveOfPiece(s, i, m) {
        var i :| 0 <= i < |PiecesOf(s.grid)| && MoveOfPiece(s, i, m);
        MoveOfPieceListed(s, i, m);
      }
    }
  }

  /** The `k`-th list is the `k`-th piece's legal moves when it belongs to
      the side to move (which the filter can then try), else empty. */
  lemma PieceListsAt(s: Position, k: int)
    requires Playable(s) && 0 <= k < |PiecesOf(s.grid)|
    ensures PiecesOf(s.grid)[k].color == s.active ==>
              KingSurvivesTests(s, PiecesOf(s.grid)[k]) && PieceLists(s)[k] == LegalMoves(s, PiecesOf(s.grid)[k])
    ensures PiecesOf(s.grid)[k].color != s.active ==> PieceLists(s)[k] == []
  {
    ListsUpToAt(s, |PiecesOf(s.grid)|, k);
  }

  /** A listed piece after CalculateAvailableMoves: the side to move holds
      its list, the other side holds none. */
  function Cached(p: Piece, moves: seq<string>, active: PieceColor): Piece
  {
    p.(possibleMoves := if p.color == active then Assigned(moves) else Unassigned)
  }

  /** The piece list with each piece given its entry of `ls`. */
  function CacheAll(ps: seq<Piece>, ls: seq<seq<string>>, active: PieceColor): (r: seq<Piece>)
    requires |ps| == |ls|
    ensures |r| == |ps|
    decreases |ps|
  {
    if |ps| == 0 then []
    else CacheAll(ps[..|ps| - 1], ls[..|ls| - 1], active) + [Cached(ps[|ps| - 1], ls[|ls| - 1], active)]
  }

  /** Entry `k` of the cached list is piece `k` given list `k`. */
  lemma {:induction false} CacheAllAt(ps: seq<Piece>, ls: seq<seq<string>>, active: PieceColor, k: int)
    requires |ps| == |ls| && 0 <= k < |ps|
    ensures CacheAll(ps, ls, active)[k] == Cached(ps[k], ls[k], active)
    decreases |ps|
  {
    var n := |ps| - 1;
    if k < n {
      CacheAllAt(ps[..n], ls[..n], active, k);
    }
  }

  /** Caching one more piece of a list whose first `k` pieces are cached. */
  lemma CacheStep(ps: seq<Piece>, ls: seq<seq<string>>, active: PieceColor, k: int)
    requires |ps| == |ls| && 0 <= k < |ps|
    ensures (CacheAll(ps[..k], ls[..k], active) + ps[k..])[k := Cached(ps[k], ls[k], active)]
            == CacheAll(ps[..k + 1], ls[..k + 1], active) + ps[k + 1..]
  {
    assert ps[..k + 1][..k] == ps[..k] && ls[..k + 1][..k] == ls[..k];
    assert CacheAll(ps[..k + 1], ls[..k + 1], active)
        == CacheAll(ps[..k], ls[..k], active) + [Cached(ps[k], ls[k], active)];
    assert ps[k..] == [ps[k]] + ps[k + 1..];
  }

  /** Once every piece is cached, the loop's list and aggregate are the whole ones. */
  lemma CacheDone(ps: seq<Piece>, ls: seq<seq<string>>, active: PieceColor, k: int)
    requires k == |ps| == |ls|
    ensures CacheAll(ps[..k], ls[..k], active) + ps[k..] == CacheAll(ps, ls, active)
    ensures Flatten(ls[..k]) == Flatten(ls)
  {
    assert ps[..k] == ps && ls[..k] == ls && ps[k..] == [];
  }

  /** What the loop of CalculateAvailableMoves works from: a playable
      position, its piece list with no destination lists set, and the list
      each piece is to receive. */
  predicate ScanSetup(s: Position, ps: seq<Piece>, ls: seq<seq<string>>)
  {
    Playable(s) && ps == PiecesOf(s.grid) && ls == PieceLists(s) && Bare(ps) == ps
  }

  /** The piece list and the aggregate after the first `k` passes of the
      loop of CalculateAvailableMoves: pieces before `k` cached, the lists
      of the first `k` pieces joined. */
  function Scan(ps: seq<Piece>, ls: seq<seq<string>>, active: PieceColor, k: int): (r: (seq<Piece>, seq<string>))
    requires |ps| == |ls| && 0 <= k <= |ps|
    ensures |r.0| == |ps|
    decreases k
  {
    if k == 0 then (ps, [])
    else
      var prev := Scan(ps, ls, active, k - 1);
      (prev.0[k - 1 := Cached(ps[k - 1], ls[k - 1], active)], prev.1 + ls[k - 1])
  }

  /** The passes so far have not touched piece `j` yet. */
  lemma {:induction false} ScanAhead(ps: seq<Piece>, ls: seq<seq<string>>, active: PieceColor, k: int, j: int)
    requires |ps| == |ls| && 0 <= k <= j < |ps|
    ensures Scan(ps, ls, active, k).0[j] == ps[j]
    decreases k
  {
    if k > 0 {
      ScanAhead(ps, ls, active, k - 1, j);
    }
  }

  /** After `k` passes the list is the cached prefix followed by the
      untouched rest, and the aggregate joins the first `k` lists. */
  lemma {:induction false} ScanPrefix(ps: seq<Piece>, ls: seq<seq<string>>, active: PieceColor, k: int)
    requires |ps| == |ls| && 0 <= k <= |ps|
    ensures Scan(ps, ls, active, k) == (CacheAll(ps[..k], ls[..k], active) + ps[k..], Flatten(ls[..k]))
    decreases k
  {
    if k == 0 {
      assert ps[..0] == [] && ls[..0] == [] && ps[0..] == ps;
      assert CacheAll(ps[..0], ls[..0], active) == [] && Flatten(ls[..0]) == [];
      assert CacheAll(ps[..0], ls[..0], active) + ps[0..] == ps;
    } else {
      ScanPrefix(ps, ls, active, k - 1);
      CacheStep(ps, ls, active, k - 1);
      FlattenSnoc(ls, k - 1);
      var prev := Scan(ps, ls, active, k - 1);
      assert Scan(ps, ls, active, k) == (prev.0[k - 1 := Cached(ps[k - 1], ls[k - 1], active)], prev.1 + ls[k - 1]);
    }
  }

  /** After a pass over every piece: every piece cached, every list joined. */
  lemma ScanDone(ps: seq<Piece>, ls: seq<seq<string>>, active: PieceColor)
    requires |ps| == |ls|
    ensures Scan(ps, ls, active, |ps|) == (CacheAll(ps, ls, active), Flatten(ls))
  {
    ScanPrefix(ps, ls, active, |ps|);
    CacheDone(ps, ls, active, |ps|);
  }

  /** Forgetting the cached lists of a list built with unset lists gives it back. */
  lemma BareCacheAll(ps: seq<Piece>, ls: seq<seq<string>>, active: PieceColor)
    requires |ps| == |ls| && Bare(ps) == ps
    ensures Bare(CacheAll(ps, ls, active)) == ps
  {
    var r := Bare(CacheAll(ps, ls, active));
    forall k | 0 <= k < |ps| ensures r[k] == ps[k] {
      assert Bare(ps)[k] == ps[k];
      CacheAllAt(ps, ls, active, k);
    }
  }

  /** CheckGameState can decide: the position is playable and, when no
      move is left, the side to move still has a king for IsKingInCheck. */
  predicate Classifiable(s: Position)
  {
    Playable(s) && (AllMoves(s) == [] ==> HasKing(s.grid, s.active))
  }

  /** CheckGameState: Checkmate when no move is left and the king is in
      check, Patt (stalemate) when no move is left otherwise, else Active. */
  function Classify(s: Position): (st: GameState)
    requires Classifiable(s)
    ensures st != Castle
    ensures st == Active <==> AllMoves(s) != []
  {
    if AllMoves(s) == [] then
      KingListedOfHasKing(s.grid, s.active);
      if IsKingInCheck(s.grid, PiecesOf(s.grid), s.active) then Checkmate else Patt
    else Active
  }

  /** Checkmate and stalemate differ exactly in whether the king is attacked. */
  lemma ClassifyNoMoves(s: Position)
    requires Playable(s) && HasKing(s.grid, s.active) && AllMoves(s) == []
    ensures KingListed(PiecesOf(s.grid), s.active)
    ensures Classify(s) == Checkmate <==> IsKingInCheck(s.grid, PiecesOf(s.grid), s.active)
    ensures Classify(s) == Patt <==> !IsKingInCheck(s.grid, PiecesOf(s.grid), s.active)
  {
    KingListedOfHasKing(s.grid, s.active);
  }

  // ---------------------------------------------------------------- MakeMove

  /** A pawn heading for row 0 or row 7: MakeMove returns the Castle sentinel and changes nothing. */
  predicate IsPromotion(piece: Piece, square: string)
    requires |square| >= 2
  {
    piece.pieceType == Pawn && (GetArrayIndex(square).0 == 0 || GetArrayIndex(square).0 == 7)
  }

  /** The position after MakeMove (no promotion): UpdateBoardState, then the
      side to move flips; the en-passant target is the square behind a pawn
      that moved two rows, else "-"; the halfmove counter restarts at 0
      after any pawn move and otherwise counts up, captures included; the
      move number grows when White is to move again. Both counters count as
      C# `int`s do, wrapping past the largest value, so they stay in range. */
  function AfterMove(s: Position, piece: Piece, square: string): (t: Position)
    requires TestOk(s, piece, square) && !IsPromotion(piece, square)
    ensures CellsValid(t.grid)
    ensures t.active == Opponent(s.active)
    ensures t.moveNumber == if s.active == Black then Increment(s.moveNumber) else s.moveNumber
    ensures t.halfMove == if piece.pieceType == Pawn then 0 else Increment(s.halfMove)
    ensures CountersFit(s) ==> CountersFit(t)
  {
    var o := GetArrayIndex(piece.square);
    var n := GetArrayIndex(square);
    var u := UpdateBoard(s, o.0, o.1, n.0, n.1, piece, square);
    var active := Opponent(s.active);
    var ep :=
      if piece.pieceType == Pawn && Abs(n.0 - o.0) == 2 then
        GetSquare(if active == White then n.0 - 1 else n.0 + 1, n.1)
      else "-";
    var half := if piece.pieceType == Pawn then 0 else Increment(s.halfMove);
    var number := if active == White then Increment(s.moveNumber) else s.moveNumber;
    u.(active := active, enPassant := ep, halfMove := half, moveNumber := number)
  }

  /** AfterMove field by field: the board after UpdateBoard, the other side to move,
      the en-passant target behind a pawn's double step, the two counters. */
  lemma AfterMoveFields(s: Position, piece: Piece, square: string, u: Position, active: PieceColor,
                        ep: string, half: int, number: int)
    requires TestOk(s, piece, square) && !IsPromotion(piece, square)
    requires var o := GetArrayIndex(piece.square);
      var n := GetArrayIndex(square);
      && u == UpdateBoard(s, o.0, o.1, n.0, n.1, piece, square)
      && active == Opponent(s.active)
      && ep == (if piece.pieceType == Pawn && Abs(n.0 - o.0) == 2 then
                  GetSquare(if active == White then n.0 - 1 else n.0 + 1, n.1) else "-")
      && half == (if piece.pieceType == Pawn then 0 else Increment(s.halfMove))
      && number == (if active == White then Increment(s.moveNumber) else s.moveNumber)
    ensures AfterMove(s, piece, square) == u.(active := active, enPassant := ep, halfMove := half, moveNumber := number)
  {
  }

  /** The en-passant text MakeMove writes holds no space, so the next FEN splits back into six fields. */
  lemma AfterMoveEnPassantText(s: Position, piece: Piece, square: string)
    requires TestOk(s, piece, square) && !IsPromotion(piece, square)
    ensures ' ' !in AfterMove(s, piece, square).enPassant
  {
    var o := GetArrayIndex(piece.square);
    var n := GetArrayIndex(square);
    if piece.pieceType == Pawn && Abs(n.0 - o.0) == 2 {
      var row := if Opponent(s.active) == White then n.0 - 1 else n.0 + 1;
      NoSpaceInInt(8 - row);
      assert GetSquare(row, n.1) == [(n.1 + 97) as char] + IntToString(8 - row);
    }
  }

  /** The grid and castling rights after MakeMove are those TestMove produces. */
  lemma AfterMoveBoard(s: Position, piece: Piece, square: string)
    requires TestOk(s, piece, square) && !IsPromotion(piece, square)
    ensures AfterMove(s, piece, square).grid == TestMovePos(s, piece, square).grid
    ensures AfterMove(s, piece, square).whiteCastle == TestMovePos(s, piece, square).whiteCastle
    ensures AfterMove(s, piece, square).blackCastle == TestMovePos(s, piece, square).blackCastle
  {
  }

  /** A pawn's double step sets the en-passant target to the square it passed
      over; every other move clears the target. */
  lemma EnPassantTargetIsSkippedSquare(s: Position, piece: Piece, square: string)
    requires TestOk(s, piece, square) && !IsPromotion(piece, square)
    requires piece.color == s.active
    ensures var o := GetArrayIndex(piece.square);
      var n := GetArrayIndex(square);
      var t := AfterMove(s, piece, square);
      && (piece.pieceType == Pawn && Abs(n.0 - o.0) == 2 && (n.0 - o.0 == 2 * PawnSign(s.active)) ==>
            IsSquare(t.enPassant) && GetArrayIndex(t.enPassant) == ((o.0 + n.0) / 2, n.1))
      && (!(piece.pieceType == Pawn && Abs(n.0 - o.0) == 2) ==> t.enPassant == "-")
  {
    var o := GetArrayIndex(piece.square);
    var n := GetArrayIndex(square);
    if piece.pieceType == Pawn && Abs(n.0 - o.0) == 2 && n.0 - o.0 == 2 * PawnSign(s.active) {
      var row := if Opponent(s.active) == White then n.0 - 1 else n.0 + 1;
      assert row == (o.0 + n.0) / 2;
      SquareIndexRoundTrip(row, n.1);
    }
  }

  /** A move of a listed piece keeps the position sound: pawns never reach
      the back ranks (those moves are the promotion sentinel) and the new
      en-passant target is "-" or a square. */
  lemma AfterMoveSound(s: Position, piece: Piece, square: string)
    requires Sound(s) && piece in PiecesOf(s.grid) && TestOk(s, piece, square) && !IsPromotion(piece, square)
    ensures Sound(AfterMove(s, piece, square))
  {
    ListedPieceCanGenerate(s, piece);
    var o := GetArrayIndex(piece.square);
    var n := GetArrayIndex(square);
    var t := AfterMove(s, piece, square);
    forall c | 0 <= c < 8 ensures t.grid[0][c] != "P" && t.grid[0][c] != "p" && t.grid[7][c] != "P" && t.grid[7][c] != "p" {
      SoundBackRank(s, o.0, o.1, n.0, n.1, piece, square, c);
    }
    if piece.pieceType == Pawn && Abs(n.0 - o.0) == 2 {
      var row := if t.active == White then n.0 - 1 else n.0 + 1;
      assert OnBoard(row, n.1);
    }
  }

  lemma SoundBackRank(s: Position, oldRow: int, oldCol: int, newRow: int, newCol: int, piece: Piece, square: string, c: int)
    requires Sound(s) && UpdateOk(s, oldRow, oldCol, newRow, newCol, piece, square) && 0 <= c < 8
    requires piece.pieceType == Pawn <==> piece.shortName in {"P", "p"}
    requires piece.pieceType == Pawn ==> newRow != 0 && newRow != 7
    ensures var t := UpdateBoard(s, oldRow, oldCol, newRow, newCol, piece, square);
      t.grid[0][c] != "P" && t.grid[0][c] != "p" && t.grid[7][c] != "P" && t.grid[7][c] != "p"
  {
  }

  /** Two moves in a row advance the move number by exactly one (modulo 2^32). */
  lemma TwoMovesOneNumber(s: Position, p1: Piece, sq1: string, p2: Piece, sq2: string)
    requires TestOk(s, p1, sq1) && !IsPromotion(p1, sq1)
    requires TestOk(AfterMove(s, p1, sq1), p2, sq2) && !IsPromotion(p2, sq2)
    ensures AfterMove(AfterMove(s, p1, sq1), p2, sq2).moveNumber == Increment(s.moveNumber)
    ensures AfterMove(AfterMove(s, p1, sq1), p2, sq2).active == s.active
  {
  }
}
