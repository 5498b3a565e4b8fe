/** A value snapshot of the fields of a Board (Chess/Board.cs:10-16): the
    grid, side to move, both castling rights, en-passant target and the two
    counters. The pure rules are stated over this value; the Board class
    exposes its fields as one. */
module Positions {
  import opened Pieces
  import opened Util

  datatype Position = Position(
    grid: Grid,
    active: PieceColor,
    whiteCastle: AvailableCastle,
    blackCastle: AvailableCastle,
    enPassant: string,
    halfMove: int,
    moveNumber: int)

  /** The twelve cell codes: "PNBRQK" for White, "pnbrqk" for Black. */
  predicate IsPieceLetter(ch: char)
  {
    ch in "PNBRQKpnbrqk"
  }

  predicate ValidCell(s: string)
  {
    s == "" || (|s| == 1 && IsPieceLetter(s[0]))
  }

  predicate CellsValid(g: Grid)
  {
    IsGrid(g) && forall r, c :: 0 <= r < 8 && 0 <= c < 8 ==> ValidCell(g[r][c])
  }

  /** No pawn stands on rank 1 or rank 8. */
  predicate NoBackRankPawns(g: Grid)
    requires IsGrid(g)
  {
    forall c :: 0 <= c < 8 ==> g[0][c] != "P" && g[0][c] != "p" && g[7][c] != "P" && g[7][c] != "p"
  }

  predicate EnPassantOk(ep: string)
  {
    ep == "-" || IsSquare(ep)
  }

  /** The positions the engine plays on: every cell a piece letter or
      empty, pawns off the back ranks, the en-passant field "-" or a square. */
  predicate Sound(s: Position)
  {
    CellsValid(s.grid) && NoBackRankPawns(s.grid) && EnPassantOk(s.enPassant)
  }

  /** Type and colour of each piece letter. */
  lemma LetterFacts(x: string)
    requires ValidCell(x) && x != ""
    ensures x in {"P", "N", "B", "R", "Q", "K", "p", "n", "b", "r", "q", "k"}
    ensures PieceTypeOf(x) == Pawn <==> x in {"P", "p"}
    ensures PieceTypeOf(x) == King <==> x in {"K", "k"}
    ensures GetPieceColor(x) == White <==> x in {"P", "N", "B", "R", "Q", "K"}
  {
    assert x == [x[0]];
    assert ToLower(x) == [ToLowerChar(x[0])];
  }

  lemma ValidCellsAreChars(g: Grid)
    requires CellsValid(g)
    ensures CellsAreChars(g)
  {
  }

  /** The grid with one cell replaced. */
  function SetCell(g: Grid, r: int, c: int, x: string): (h: Grid)
    requires IsGrid(g) && OnBoard(r, c)
    ensures IsGrid(h) && h[r][c] == x
    ensures forall i, j :: 0 <= i < 8 && 0 <= j < 8 && (i != r || j != c) ==> h[i][j] == g[i][j]
  {
    g[r := g[r][c := x]]
  }

  /** The cell code of a piece of `color` and type `t`. */
  function CellCode(color: PieceColor, t: PieceType): (x: string)
    ensures ValidCell(x) && x != ""
  {
    match t
    case Pawn => if color == White then "P" else "p"
    case Knight => if color == White then "N" else "n"
    case Bishop => if color == White then "B" else "b"
    case Rook => if color == White then "R" else "r"
    case Queen => if color == White then "Q" else "q"
    case King => if color == White then "K" else "k"
  }

  /** Each piece letter is the code of exactly one colour and type: the ones
      GetPieceColor and the type lookup read off it. */
  lemma CellCodeFacts(x: string, color: PieceColor, t: PieceType)
    requires ValidCell(x) && x != ""
    ensures x == CellCode(color, t) <==> GetPieceColor(x) == color && PieceTypeOf(x) == t
  {
    assert x == [x[0]];
    assert ToLower(x) == [ToLowerChar(x[0])];
  }

  function KingLetter(color: PieceColor): string
  {
    if color == White then "K" else "k"
  }

  /** Distinct colours or types have distinct cell codes. */
  lemma CellCodeInjective(c1: PieceColor, t1: PieceType, c2: PieceColor, t2: PieceType)
    ensures CellCode(c1, t1) == CellCode(c2, t2) <==> c1 == c2 && t1 == t2
  {
    CellCodeFacts(CellCode(c2, t2), c2, t2);
    CellCodeFacts(CellCode(c2, t2), c1, t1);
  }

  lemma KingLetterCode(color: PieceColor)
    ensures KingLetter(color) == CellCode(color, King)
  {
  }

  /** Some cell holds the king of `color`. */
  predicate HasKing(g: Grid, color: PieceColor)
    requires IsGrid(g)
  {
    exists r, c :: 0 <= r < 8 && 0 <= c < 8 && g[r][c] == KingLetter(color)
  }

  /** The opening layout of the default constructor (Chess/Board.cs:44-53): Black on rows 0-1, White on rows 6-7. */
  const StartLayout: Grid := [
    ["r", "n", "b", "q", "k", "b", "n", "r"],
    ["p", "p", "p", "p", "p", "p", "p", "p"],
    ["", "", "", "", "", "", "", ""],
    ["", "", "", "", "", "", "", ""],
    ["", "", "", "", "", "", "", ""],
    ["", "", "", "", "", "", "", ""],
    ["P", "P", "P", "P", "P", "P", "P", "P"],
    ["R", "N", "B", "Q", "K", "B", "N", "R"]
  ]

  /** The same grid, built row by row from the layout. */
  const StartGrid: Grid := seq(8, i requires 0 <= i < 8 => StartLayout[i])

  /** The state the default constructor sets up (Chess/Board.cs:44-67). */
  const StartPosition: Position := Position(StartGrid, White, Both, Both, "-", 0, 1)

  lemma StartPositionSound()
    ensures Sound(StartPosition)
    ensures HasKing(StartGrid, White) && HasKing(StartGrid, Black)
  {
    assert StartGrid[7][4] == "K" && StartGrid[0][4] == "k";
  }
}
