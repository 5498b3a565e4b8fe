/** Coordinates and the piece list (Chess/Util.cs).

    A square is written "e4"; its array index is [row, col] where row 0 is
    rank 8 and col 0 is file a. The grid holds one string per cell: "" for
    an empty cell, otherwise the piece's letter (upper case for White). */
module Util {
  import opened Pieces
  import opened Text

  type Grid = seq<seq<string>>

  predicate IsGrid(g: Grid)
  {
    |g| == 8 && forall i :: 0 <= i < 8 ==> |g[i]| == 8
  }

  predicate OnBoard(r: int, c: int)
  {
    0 <= r < 8 && 0 <= c < 8
  }

  /** The 64 names "a1" .. "h8". */
  predicate IsSquare(s: string)
  {
    |s| == 2 && 'a' <= s[0] <= 'h' && '1' <= s[1] <= '8'
  }

  /** `char.GetNumericValue` on ASCII text: a digit's value, -1 otherwise. */
  function NumericValue(ch: char): (v: int)
    ensures -1 <= v < 10
  {
    if IsDigit(ch) then DigitValue(ch) else -1
  }

  /** [row, col] of a square: the file letter minus 'a' and eight minus the rank digit. */
  function GetArrayIndex(square: string): (rc: (int, int))
    requires |square| >= 2
    ensures IsSquare(square) ==> OnBoard(rc.0, rc.1)
    ensures rc.1 == square[0] as int - 'a' as int
  {
    (8 - NumericValue(square[1]), square[0] as int - 97)
  }

  /** Columns whose `(char)(col + 97)` is a character (every column the engine uses). */
  predicate ColumnCastable(col: int)
  {
    -97 <= col < 0xD800 - 97
  }

  /** The square name of [row, col]: file letter then the decimal text of 8 - row. */
  function GetSquare(row: int, col: int): (s: string)
    requires ColumnCastable(col)
    ensures |s| >= 2 && s[0] as int == col + 97
    ensures OnBoard(row, col) ==> IsSquare(s)
  {
    [(col + 97) as char] + IntToString(8 - row)
  }

  /** The `int[]` overload: the square of an index pair. */
  function GetSquareOfIndex(rc: (int, int)): (s: string)
    requires ColumnCastable(rc.1)
    ensures |s| >= 2
    ensures OnBoard(rc.0, rc.1) ==> IsSquare(s) && GetArrayIndex(s) == rc
  {
    if OnBoard(rc.0, rc.1) then
      SquareIndexRoundTrip(rc.0, rc.1);
      GetSquare(rc.0, rc.1)
    else
      GetSquare(rc.0, rc.1)
  }

  /** Index to square and back. */
  lemma SquareIndexRoundTrip(r: int, c: int)
    requires OnBoard(r, c)
    ensures GetArrayIndex(GetSquare(r, c)) == (r, c)
  {
    assert GetSquare(r, c)[1] == DigitChar(8 - r);
  }

  /** Square to index and back. */
  lemma IndexSquareRoundTrip(s: string)
    requires IsSquare(s)
    ensures GetSquareOfIndex(GetArrayIndex(s)) == s
  {
    var rc := GetArrayIndex(s);
    assert 8 - rc.0 == DigitValue(s[1]);
    var t := GetSquare(rc.0, rc.1);
    assert t == [s[0]] + [DigitChar(8 - rc.0)];
  }

  /** GetSquare names a real square only for an index on the board. */
  lemma SquareOnlyOnBoard(r: int, c: int)
    requires ColumnCastable(c)
    requires IsSquare(GetSquare(r, c))
    ensures OnBoard(r, c)
  {
    var t := IntToString(8 - r);
    assert GetSquare(r, c)[1..] == t;
  }

  /** Different cells have different names. */
  lemma SquareInjective(r1: int, c1: int, r2: int, c2: int)
    requires OnBoard(r1, c1) && OnBoard(r2, c2)
    requires GetSquare(r1, c1) == GetSquare(r2, c2)
    ensures r1 == r2 && c1 == c2
  {
    SquareIndexRoundTrip(r1, c1);
    SquareIndexRoundTrip(r2, c2);
  }

  predicate IsUpper(ch: char)
  {
    'A' <= ch <= 'Z'
  }

  predicate IsLower(ch: char)
  {
    'a' <= ch <= 'z'
  }

  function ToLowerChar(ch: char): (l: char)
    ensures !IsUpper(l)
  {
    if IsUpper(ch) then (ch as int + 32) as char else ch
  }

  function ToLower(s: string): (t: string)
    ensures |t| == |s|
  {
    seq(|s|, k requires 0 <= k < |s| => ToLowerChar(s[k]))
  }

  /** The type named by a cell code, decided on its lower-case form. */
  function PieceTypeOf(name: string): (t: PieceType)
    ensures t == Pawn <==> ToLower(name) !in {"r", "n", "b", "q", "k"}
    ensures t == King <==> ToLower(name) == "k"
  {
    var l := ToLower(name);
    if l == "r" then Rook
    else if l == "n" then Knight
    else if l == "b" then Bishop
    else if l == "q" then Queen
    else if l == "k" then King
    else Pawn
  }

  /** The colour of a one-character cell code: White exactly for upper case. */
  function GetPieceColor(shortName: string): (c: PieceColor)
    requires |shortName| == 1
    ensures c == White <==> IsUpper(shortName[0])
  {
    if IsUpper(shortName[0]) then White else Black
  }

  /** Every cell is empty or one character (`char.Parse` fails otherwise). */
  predicate CellsAreChars(g: Grid)
    requires IsGrid(g)
  {
    forall r, c :: 0 <= r < 8 && 0 <= c < 8 ==> g[r][c] == "" || |g[r][c]| == 1
  }

  /** The piece the list builder makes for a non-empty cell. */
  function PieceFromCell(g: Grid, r: int, c: int): (p: Piece)
    requires IsGrid(g) && CellsAreChars(g) && OnBoard(r, c) && g[r][c] != ""
    ensures p.shortName == g[r][c] && p.square == GetSquare(r, c)
    ensures p.possibleMoves == Unassigned && IsSquare(p.square)
  {
    NewPiece(GetPieceColor(g[r][c]), PieceTypeOf(g[r][c]), g[r][c], GetSquare(r, c))
  }

  /** Positions of the row-major scan: a cell, or (8, 0) once every row is done. */
  predicate Cursor(i: int, j: int)
  {
    (0 <= i < 8 && 0 <= j <= 8) || (i == 8 && j == 0)
  }

  /** Cell (r, c) comes before cursor (i, j) in the row-major scan. */
  predicate Before(r: int, c: int, i: int, j: int)
  {
    r < i || (r == i && c < j)
  }

  /** The pieces of the cells the scan has passed, in scan order. */
  function PiecesBefore(g: Grid, i: int, j: int): seq<Piece>
    requires IsGrid(g) && CellsAreChars(g) && Cursor(i, j)
    decreases i, j, g
  {
    if j == 0 then
      (if i == 0 then [] else PiecesBefore(g, i - 1, 8))
    else
      PiecesBefore(g, i, j - 1) + (if g[i][j - 1] == "" then [] else [PieceFromCell(g, i, j - 1)])
  }

  /** PopulatePiecesList: one piece per non-empty cell, row 0 first, columns ascending. */
  function PiecesOf(g: Grid): seq<Piece>
    requires IsGrid(g) && CellsAreChars(g)
  {
    PiecesBefore(g, 8, 0)
  }

  /** The piece sits on a non-empty cell and is the one built from that cell. */
  predicate BuiltFromItsCell(g: Grid, p: Piece)
    requires IsGrid(g) && CellsAreChars(g)
  {
    IsSquare(p.square) &&
    var rc := GetArrayIndex(p.square);
    g[rc.0][rc.1] != "" && p == PieceFromCell(g, rc.0, rc.1)
  }

  /** The square of `a` comes before the square of `b` in row-major order. */
  predicate ScanOrdered(a: Piece, b: Piece)
    requires IsSquare(a.square) && IsSquare(b.square)
  {
    var ra := GetArrayIndex(a.square);
    var rb := GetArrayIndex(b.square);
    Before(ra.0, ra.1, rb.0, rb.1)
  }

  /** Each piece the scan has produced is built from its own cell, a cell the scan has passed. */
  lemma {:induction false} PiecesBeforeBuilt(g: Grid, i: int, j: int)
    requires IsGrid(g) && CellsAreChars(g) && Cursor(i, j)
    ensures forall m :: 0 <= m < |PiecesBefore(g, i, j)| ==>
      && BuiltFromItsCell(g, PiecesBefore(g, i, j)[m])
      && Before(GetArrayIndex(PiecesBefore(g, i, j)[m].square).0, GetArrayIndex(PiecesBefore(g, i, j)[m].square).1, i, j)
    decreases i, j
  {
    if j == 0 {
      if i > 0 {
        PiecesBeforeBuilt(g, i - 1, 8);
        assert PiecesBefore(g, i, 0) == PiecesBefore(g, i - 1, 8);
      }
    } else {
      PiecesBeforeBuilt(g, i, j - 1);
      if g[i][j - 1] != "" {
        SquareIndexRoundTrip(i, j - 1);
        assert PiecesBefore(g, i, j) == PiecesBefore(g, i, j - 1) + [PieceFromCell(g, i, j - 1)];
      }
    }
  }

  /** The scan produces its pieces in row-major order of their squares. */
  lemma {:induction false} PiecesBeforeOrdered(g: Grid, i: int, j: int)
    requires IsGrid(g) && CellsAreChars(g) && Cursor(i, j)
    ensures forall m :: 0 <= m < |PiecesBefore(g, i, j)| ==> IsSquare(PiecesBefore(g, i, j)[m].square)
    ensures forall m, n :: 0 <= m < n < |PiecesBefore(g, i, j)| ==>
      ScanOrdered(PiecesBefore(g, i, j)[m], PiecesBefore(g, i, j)[n])
    decreases i, j
  {
    PiecesBeforeBuilt(g, i, j);
    if j == 0 {
      if i > 0 {
        PiecesBeforeOrdered(g, i - 1, 8);
        assert PiecesBefore(g, i, 0) == PiecesBefore(g, i - 1, 8);
      }
    } else {
      PiecesBeforeOrdered(g, i, j - 1);
      PiecesBeforeBuilt(g, i, j - 1);
      var prev := PiecesBefore(g, i, j - 1);
      if g[i][j - 1] != "" {
        var p := PieceFromCell(g, i, j - 1);
        SquareIndexRoundTrip(i, j - 1);
        var ps := PiecesBefore(g, i, j);
        assert ps == prev + [p];
        forall m, n | 0 <= m < n < |ps| ensures ScanOrdered(ps[m], ps[n]) {
          assert ps[m] == prev[m];
          if n < |prev| {
            assert ps[n] == prev[n];
          } else {
            assert ps[n] == p && GetArrayIndex(p.square) == (i, j - 1);
          }
        }
      } else {
        assert PiecesBefore(g, i, j) == prev;
      }
    }
  }

  /** Every non-empty cell the scan has passed has its piece in the list. */
  lemma {:induction false} PiecesBeforeComplete(g: Grid, i: int, j: int)
    requires IsGrid(g) && CellsAreChars(g) && Cursor(i, j)
    ensures forall r, c :: OnBoard(r, c) && g[r][c] != "" && Before(r, c, i, j) ==> PieceFromCell(g, r, c) in PiecesBefore(g, i, j)
    decreases i, j
  {
    if j == 0 {
      if i > 0 {
        PiecesBeforeComplete(g, i - 1, 8);
        assert PiecesBefore(g, i, 0) == PiecesBefore(g, i - 1, 8);
      }
    } else {
      PiecesBeforeComplete(g, i, j - 1);
    }
  }

  /** The piece list holds exactly the non-empty cells, each once, in row-major order. */
  lemma PiecesOfSpec(g: Grid)
    requires IsGrid(g) && CellsAreChars(g)
    ensures var ps := PiecesOf(g);
      && (forall m :: 0 <= m < |ps| ==> BuiltFromItsCell(g, ps[m]))
      && (forall m, n :: 0 <= m < n < |ps| ==> ScanOrdered(ps[m], ps[n]))
      && (forall r, c :: OnBoard(r, c) && g[r][c] != "" ==> PieceFromCell(g, r, c) in ps)
  {
    PiecesBeforeBuilt(g, 8, 0);
    PiecesBeforeOrdered(g, 8, 0);
    PiecesBeforeComplete(g, 8, 0);
    assert PiecesOf(g) == PiecesBefore(g, 8, 0);
    assert forall r, c :: OnBoard(r, c) ==> Before(r, c, 8, 0);
  }

  /** A listed piece is the one built from its own cell. */
  lemma ListedPiece(g: Grid, p: Piece)
    requires IsGrid(g) && CellsAreChars(g) && p in PiecesOf(g)
    ensures BuiltFromItsCell(g, p)
  {
    PiecesOfSpec(g);
    var ps := PiecesOf(g);
    var m :| 0 <= m < |ps| && ps[m] == p;
    assert BuiltFromItsCell(g, ps[m]);
  }

  /** Every non-empty cell is listed. */
  lemma CellListed(g: Grid, r: int, c: int)
    requires IsGrid(g) && CellsAreChars(g) && OnBoard(r, c) && g[r][c] != ""
    ensures PieceFromCell(g, r, c) in PiecesOf(g)
  {
    PiecesOfSpec(g);
  }

  /** Two grids with the same cells are the same grid. */
  lemma GridExt(a: Grid, b: Grid)
    requires IsGrid(a) && IsGrid(b)
    requires forall i, j :: 0 <= i < 8 && 0 <= j < 8 ==> a[i][j] == b[i][j]
    ensures a == b
  {
    forall i | 0 <= i < 8 ensures a[i] == b[i] {
    }
  }

  /** A freshly built list has no destination list set: forgetting them changes nothing. */
  lemma PiecesOfUnassigned(g: Grid)
    requires IsGrid(g) && CellsAreChars(g)
    ensures forall m :: 0 <= m < |PiecesOf(g)| ==> PiecesOf(g)[m].possibleMoves == Unassigned
    ensures Bare(PiecesOf(g)) == PiecesOf(g)
  {
    PiecesOfSpec(g);
    var ps := PiecesOf(g);
    assert forall m :: 0 <= m < |ps| ==> Bare(ps)[m] == ps[m];
  }
}
