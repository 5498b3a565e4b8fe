/** Forsyth-Edwards Notation as the engine writes and reads it
    (Chess/Board.cs:258-358; the format is section 16.1 of the PGN Standard).

    A FEN text is six space-separated fields: the eight rows from rank 8
    down, '/'-separated, runs of empty cells written as a digit; "w" or "b";
    the castling letters in K, Q, k, q order or "-"; the en-passant target;
    the halfmove counter; the move number. */
module Fen {
  import opened Pieces
  import opened Text
  import opened Util
  import opened Positions

  // ---------------------------------------------------------------- writing

  /** The digit that flushes a run of `run` empty cells ("" when there is none). */
  function Pending(run: nat): (t: string)
    requires run <= 8
    ensures run == 0 ==> t == ""
    ensures run > 0 ==> t == [DigitChar(run)]
  {
    if run > 0 then NatToString(run) else ""
  }

  /** Text of the cells of `row` from column `j` on, while the `run` cells
      just before `j` are empty and not yet written. */
  function EncodeFrom(row: seq<string>, j: nat, run: nat): string
    requires |row| == 8 && run <= j <= 8
    decreases 8 - j, row
  {
    if j == 8 then Pending(run)
    else if row[j] != "" then Pending(run) + row[j] + EncodeFrom(row, j + 1, 0)
    else EncodeFrom(row, j + 1, run + 1)
  }

  /** What is still to be written of `row` from column `j` on; nothing once
      the row is done, its last run having been flushed. */
  function Unwritten(row: seq<string>, j: nat, run: nat): string
    requires |row| == 8 && run <= j <= 8
  {
    if j < 8 then EncodeFrom(row, j, run) else ""
  }

  /** One row: piece letters, and the length of each run of empty cells. */
  function EncodeRow(row: seq<string>): string
    requires |row| == 8
  {
    EncodeFrom(row, 0, 0)
  }

  function EncodedRows(g: Grid): (rows: seq<string>)
    requires IsGrid(g)
    ensures |rows| == 8 && forall i :: 0 <= i < 8 ==> rows[i] == EncodeRow(g[i])
  {
    seq(8, i requires 0 <= i < 8 => EncodeRow(g[i]))
  }

  function SideField(c: PieceColor): string
  {
    if c == White then "w" else "b"
  }

  /** White's castling letters: "K" for the kingside right, then "Q" for the queenside right. */
  function WhiteLetters(w: AvailableCastle): string
  {
    (if w == Both || w == Kingside then "K" else "") + (if w == Both || w == QueenSide then "Q" else "")
  }

  /** Black's castling letters, "k" then "q". */
  function BlackLetters(b: AvailableCastle): string
  {
    (if b == Both || b == Kingside then "k" else "") + (if b == Both || b == QueenSide then "q" else "")
  }

  /** White's letters then Black's; "-" only when neither side may castle. */
  function CastleField(w: AvailableCastle, b: AvailableCastle): string
  {
    if w == None && b == None then "-" else WhiteLetters(w) + BlackLetters(b)
  }

  function Fields(s: Position): (fs: seq<string>)
    requires IsGrid(s.grid)
    ensures |fs| == 6
  {
    [Join(EncodedRows(s.grid), '/'), SideField(s.active), CastleField(s.whiteCastle, s.blackCastle),
     s.enPassant, IntToString(s.halfMove), IntToString(s.moveNumber)]
  }

  /** WriteFEN: the six fields of the position joined by single spaces. */
  function FenOf(s: Position): string
    requires IsGrid(s.grid)
  {
    Join(Fields(s), ' ')
  }

  // ---------------------------------------------------------------- reading

  /** A digit stands for that many empty cells, any other character for one cell. */
  function DecodeChar(ch: char): (cells: seq<string>)
    ensures IsDigit(ch) ==> |cells| == DigitValue(ch) && forall k :: 0 <= k < |cells| ==> cells[k] == ""
    ensures !IsDigit(ch) ==> cells == [[ch]]
  {
    if IsDigit(ch) then seq(DigitValue(ch), _ => "") else [[ch]]
  }

  function DecodeRow(t: string): seq<string>
    decreases |t|
  {
    if |t| == 0 then [] else DecodeChar(t[0]) + DecodeRow(t[1..])
  }

  predicate RowChars(t: string)
  {
    forall k :: 0 <= k < |t| ==> IsDigit(t[k]) || IsPieceLetter(t[k])
  }

  /** A row text the model reads: digits and piece letters filling exactly eight cells (other texts are left out, see WellFormedFen). */
  predicate RowText(t: string)
  {
    RowChars(t) && |DecodeRow(t)| == 8
  }

  /** One castling letter: 'K' overwrites White's rights with Kingside, 'Q'
      turns Kingside into Both and anything else into QueenSide; likewise
      'k' and 'q' for Black; other characters are ignored. */
  function CastleStep(wb: (AvailableCastle, AvailableCastle), ch: char): (AvailableCastle, AvailableCastle)
  {
    if ch == 'K' then (Kingside, wb.1)
    else if ch == 'Q' then (if wb.0 == Kingside then Both else QueenSide, wb.1)
    else if ch == 'k' then (wb.0, Kingside)
    else if ch == 'q' then (wb.0, if wb.1 == Kingside then Both else QueenSide)
    else wb
  }

  function CastleFold(t: string, wb: (AvailableCastle, AvailableCastle)): (AvailableCastle, AvailableCastle)
    decreases |t|
  {
    if |t| == 0 then wb else CastleFold(t[1..], CastleStep(wb, t[0]))
  }

  /** Both rights start at None; unless the field starts with '-', its letters are applied in order. */
  function DecodeCastle(t: string): (AvailableCastle, AvailableCastle)
    requires |t| >= 1
  {
    if t[0] == '-' then (None, None) else CastleFold(t, (None, None))
  }

  /** The texts the model reads: at least six fields, at least eight rows
      each filling eight cells with digits and piece letters, a non-empty
      castling field and two integer counters within the range of a C# `int`.
      ReadFEN throws on too few fields or rows, an empty castling field, a row
      running past eight cells or a counter that is not such an integer; it
      reads a row with any other character, or one short of eight cells,
      without failing, and those texts are left out of the model too.
      Extra fields and rows are ignored, as ReadFEN ignores them. */
  predicate WellFormedFen(f: string)
  {
    var fields := Split(f, ' ');
    && |fields| >= 6
    && (var rows := Split(fields[0], '/'); |rows| >= 8 && forall i :: 0 <= i < 8 ==> RowText(rows[i]))
    && |fields[2]| >= 1
    && IsInt32Text(fields[4])
    && IsInt32Text(fields[5])
  }

  /** Both counters hold C# `int` values. */
  predicate CountersFit(s: Position)
  {
    IsInt32(s.halfMove) && IsInt32(s.moveNumber)
  }

  /** ReadFEN: the position a well-formed text describes. */
  function DecodeFen(f: string): (s: Position)
    requires WellFormedFen(f)
    ensures CellsValid(s.grid) && CountersFit(s)
  {
    var fields := Split(f, ' ');
    var rows := Split(fields[0], '/');
    var castle := DecodeCastle(fields[2]);
    var g := seq(8, i requires 0 <= i < 8 => DecodeRow(rows[i]));
    forall i | 0 <= i < 8 ensures forall c :: 0 <= c < 8 ==> ValidCell(g[i][c]) {
      DecodedCellsValid(rows[i]);
    }
    Position(g, if fields[1] == "w" then White else Black, castle.0, castle.1,
             fields[3], ParseInt(fields[4]), ParseInt(fields[5]))
  }

  // ---------------------------------------------------------------- lemmas

  lemma {:induction false} DecodeRowAppend(a: string, b: string)
    ensures DecodeRow(a + b) == DecodeRow(a) + DecodeRow(b)
    decreases |a|
  {
    if |a| == 0 {
      assert a + b == b;
    } else {
      assert (a + b)[0] == a[0];
      assert (a + b)[1..] == a[1..] + b;
      DecodeRowAppend(a[1..], b);
    }
  }

  /** Decoding a prefix one character longer adds that character's cells. */
  lemma DecodeRowStep(t: string, j: int)
    requires 0 <= j < |t|
    ensures DecodeRow(t[..j + 1]) == DecodeRow(t[..j]) + DecodeChar(t[j])
  {
    assert t[..j + 1] == t[..j] + [t[j]];
    DecodeRowAppend(t[..j], [t[j]]);
  }

  /** The cells decoded so far never outnumber those of the whole row. */
  lemma DecodeRowPrefix(t: string, j: int)
    requires 0 <= j <= |t|
    ensures |DecodeRow(t[..j])| <= |DecodeRow(t)|
  {
    assert t == t[..j] + t[j..];
    DecodeRowAppend(t[..j], t[j..]);
  }

  lemma {:induction false} DecodedCellsValid(t: string)
    requires RowChars(t)
    ensures forall k :: 0 <= k < |DecodeRow(t)| ==> ValidCell(DecodeRow(t)[k])
    decreases |t|
  {
    if |t| > 0 {
      DecodedCellsValid(t[1..]);
    }
  }

  function Empties(n: nat): (cells: seq<string>)
    ensures |cells| == n && forall k :: 0 <= k < n ==> cells[k] == ""
  {
    seq(n, _ => "")
  }

  lemma PendingDecodes(run: nat)
    requires run <= 8
    ensures RowChars(Pending(run)) && DecodeRow(Pending(run)) == Empties(run)
  {
    if run > 0 {
      assert DecodeRow(Pending(run)) == DecodeChar(DigitChar(run)) + DecodeRow([]);
    }
  }

  lemma RowCharsAppend(a: string, b: string)
    requires RowChars(a) && RowChars(b)
    ensures RowChars(a + b)
  {
    forall k | 0 <= k < |a + b| ensures IsDigit((a + b)[k]) || IsPieceLetter((a + b)[k]) {
      if k >= |a| {
        assert (a + b)[k] == b[k - |a|];
      }
    }
  }

  lemma CellDecodes(cell: string)
    requires ValidCell(cell) && cell != ""
    ensures RowChars(cell) && DecodeRow(cell) == [cell]
  {
    assert cell == [cell[0]];
    assert DecodeRow(cell) == DecodeChar(cell[0]) + DecodeRow([]);
  }

  /** The text of a flushed run, one cell and the rest decodes piecewise. */
  lemma FlushDecodes(run: nat, cell: string, tail: string, rest: seq<string>)
    requires run <= 8 && ValidCell(cell) && cell != ""
    requires RowChars(tail) && DecodeRow(tail) == rest
    ensures RowChars(Pending(run) + cell + tail)
    ensures DecodeRow(Pending(run) + cell + tail) == Empties(run) + [cell] + rest
  {
    PendingDecodes(run);
    CellDecodes(cell);
    RowCharsAppend(Pending(run), cell);
    RowCharsAppend(Pending(run) + cell, tail);
    DecodeRowAppend(Pending(run), cell);
    DecodeRowAppend(Pending(run) + cell, tail);
  }

  lemma ConsSlice(row: seq<string>, j: int, e: seq<string>)
    requires 0 <= j < |row|
    ensures [row[j]] + row[j + 1..] == row[j..]
    ensures e + [row[j]] + row[j + 1..] == e + row[j..]
  {
    assert [row[j]] + row[j + 1..] == row[j..];
  }

  /** One step of the round trip at a non-empty cell, given the rest of the row. */
  lemma FlushStep(row: seq<string>, j: nat, run: nat)
    requires |row| == 8 && run <= j < 8 && ValidCell(row[j]) && row[j] != ""
    requires RowChars(EncodeFrom(row, j + 1, 0))
    requires DecodeRow(EncodeFrom(row, j + 1, 0)) == Empties(0) + row[j + 1..]
    ensures RowChars(EncodeFrom(row, j, run))
    ensures DecodeRow(EncodeFrom(row, j, run)) == Empties(run) + row[j..]
  {
    var tail := EncodeFrom(row, j + 1, 0);
    assert Empties(0) + row[j + 1..] == row[j + 1..];
    FlushDecodes(run, row[j], tail, row[j + 1..]);
    assert EncodeFrom(row, j, run) == Pending(run) + row[j] + tail;
    ConsSlice(row, j, Empties(run));
  }

  /** Decoding the run-length text of a row gives the pending empty cells and then the rest of the row. */
  lemma {:induction false} EncodeFromRoundTrip(row: seq<string>, j: nat, run: nat)
    requires |row| == 8 && run <= j <= 8
    requires forall k :: 0 <= k < 8 ==> ValidCell(row[k])
    ensures RowChars(EncodeFrom(row, j, run))
    ensures DecodeRow(EncodeFrom(row, j, run)) == Empties(run) + row[j..]
    decreases 8 - j
  {
    if j == 8 {
      PendingDecodes(run);
      assert Empties(run) + row[j..] == Empties(run);
    } else if row[j] != "" {
      EncodeFromRoundTrip(row, j + 1, 0);
      FlushStep(row, j, run);
    } else {
      EncodeFromRoundTrip(row, j + 1, run + 1);
      assert Empties(run + 1) == Empties(run) + [row[j]];
      ConsSlice(row, j, Empties(run));
    }
  }

  lemma EncodeRowRoundTrip(row: seq<string>)
    requires |row| == 8 && forall k :: 0 <= k < 8 ==> ValidCell(row[k])
    ensures RowText(EncodeRow(row)) && DecodeRow(EncodeRow(row)) == row
  {
    EncodeFromRoundTrip(row, 0, 0);
    assert Empties(0) + row[0..] == row;
  }

  lemma {:induction false} CastleFoldAppend(a: string, b: string, wb: (AvailableCastle, AvailableCastle))
    ensures CastleFold(a + b, wb) == CastleFold(b, CastleFold(a, wb))
    decreases |a|
  {
    if |a| == 0 {
      assert a + b == b;
    } else {
      assert (a + b)[0] == a[0];
      assert (a + b)[1..] == a[1..] + b;
      CastleFoldAppend(a[1..], b, CastleStep(wb, a[0]));
    }
  }

  /** Folding one more letter applies one more CastleStep. */
  lemma CastleFoldSnoc(t: string, k: int, wb: (AvailableCastle, AvailableCastle))
    requires 0 <= k < |t|
    ensures CastleFold(t[..k + 1], wb) == CastleStep(CastleFold(t[..k], wb), t[k])
  {
    assert t[..k + 1] == t[..k] + [t[k]];
    CastleFoldAppend(t[..k], [t[k]], wb);
  }

  lemma WhiteLettersDecode(w: AvailableCastle, b: AvailableCastle)
    ensures CastleFold(WhiteLetters(w), (None, b)) == (w, b)
  {
    match w
    case None =>
      assert WhiteLetters(w) == "";
    case Kingside =>
      assert WhiteLetters(w) == "K";
    case QueenSide =>
      assert WhiteLetters(w) == "Q";
    case Both =>
      assert WhiteLetters(w) == "KQ";
      assert "KQ"[1..] == "Q";
  }

  lemma BlackLettersDecode(w: AvailableCastle, b: AvailableCastle)
    ensures CastleFold(BlackLetters(b), (w, None)) == (w, b)
  {
    match b
    case None =>
      assert BlackLetters(b) == "";
    case Kingside =>
      assert BlackLetters(b) == "k";
    case QueenSide =>
      assert BlackLetters(b) == "q";
    case Both =>
      assert BlackLetters(b) == "kq";
      assert "kq"[1..] == "q";
  }

  /** Reading the castling field back gives both rights. */
  lemma CastleRoundTrip(w: AvailableCastle, b: AvailableCastle)
    ensures |CastleField(w, b)| >= 1 && ' ' !in CastleField(w, b)
    ensures DecodeCastle(CastleField(w, b)) == (w, b)
  {
    if w != None || b != None {
      var t := CastleField(w, b);
      assert t[0] != '-' by {
        if |WhiteLetters(w)| > 0 {
          assert t[0] == WhiteLetters(w)[0];
        } else {
          assert t == BlackLetters(b);
        }
      }
      CastleFoldAppend(WhiteLetters(w), BlackLetters(b), (None, None));
      WhiteLettersDecode(w, None);
      BlackLettersDecode(w, b);
    }
  }

  lemma NoSpaceInInt(i: int)
    ensures ' ' !in IntToString(i)
  {
    IntTextRoundTrip(i);
    var s := IntToString(i);
    forall k | 0 <= k < |s| ensures s[k] != ' ' {
      if k > 0 && s[0] == '-' {
        assert s[1..][k - 1] == s[k];
      }
    }
  }

  lemma NoSeparatorInRow(t: string)
    requires RowChars(t)
    ensures '/' !in t && ' ' !in t
  {
    forall k | 0 <= k < |t| ensures t[k] != '/' && t[k] != ' ' {
    }
  }

  /** The board field of WriteFEN has no space, and ReadFEN splits it back
      into eight row texts that decode to the rows of the grid. */
  lemma BoardFieldRoundTrip(g: Grid)
    requires CellsValid(g)
    ensures ' ' !in Join(EncodedRows(g), '/')
    ensures var rows := Split(Join(EncodedRows(g), '/'), '/');
      |rows| == 8 && forall i :: 0 <= i < 8 ==> RowText(rows[i]) && DecodeRow(rows[i]) == g[i]
  {
    var rows := EncodedRows(g);
    forall i | 0 <= i < 8 ensures RowText(rows[i]) && DecodeRow(rows[i]) == g[i] && '/' !in rows[i] && ' ' !in rows[i] {
      EncodeRowRoundTrip(g[i]);
      NoSeparatorInRow(rows[i]);
    }
    SplitJoin(rows, '/');
    JoinAvoids(rows, '/', ' ');
  }

  /** ReadFEN's split at spaces gives back the six fields WriteFEN joined. */
  lemma FenFields(s: Position)
    requires CellsValid(s.grid) && ' ' !in s.enPassant
    ensures Split(FenOf(s), ' ') == Fields(s)
  {
    var fs := Fields(s);
    BoardFieldRoundTrip(s.grid);
    CastleRoundTrip(s.whiteCastle, s.blackCastle);
    NoSpaceInInt(s.halfMove);
    NoSpaceInInt(s.moveNumber);
    assert ' ' !in fs[1];
    SplitJoin(fs, ' ');
  }

  /** ReadFEN(WriteFEN(s)) restores the grid, the side to move, both castling
      rights, the en-passant text and both counters, for every position whose
      cells are piece letters or empty, whose en-passant text has no space and
      whose counters are `int` values. */
  lemma FenRoundTrip(s: Position)
    requires CellsValid(s.grid) && ' ' !in s.enPassant && CountersFit(s)
    ensures WellFormedFen(FenOf(s))
    ensures DecodeFen(FenOf(s)) == s
  {
    var g := s.grid;
    BoardFieldRoundTrip(g);
    FenFields(s);
    CastleRoundTrip(s.whiteCastle, s.blackCastle);
    IntTextRoundTrip(s.halfMove);
    IntTextRoundTrip(s.moveNumber);
    var d := DecodeFen(FenOf(s));
    assert d.grid == g;
  }

  /** A row with no empty cell is written as its letters. */
  lemma {:induction false} FullRowText(row: seq<string>, j: nat)
    requires |row| == 8 && j <= 8
    requires forall k :: j <= k < 8 ==> |row[k]| == 1
    ensures EncodeFrom(row, j, 0) == seq(8 - j, k requires 0 <= k < 8 - j => row[j + k][0])
    decreases 8 - j
  {
    if j < 8 {
      FullRowText(row, j + 1);
      assert row[j] == [row[j][0]];
    }
  }

  /** A row of empty cells is written "8". */
  lemma {:induction false} EmptyRowText(j: nat)
    requires j <= 8
    ensures EncodeFrom(Empties(8), j, j) == "8"
    decreases 8 - j
  {
    if j < 8 {
      EmptyRowText(j + 1);
    }
  }

  lemma StartRowText(r: int, text: string)
    requires r in {0, 1, 6, 7}
    requires text == seq(8, k requires 0 <= k < 8 => StartGrid[r][k][0])
    ensures EncodeRow(StartGrid[r]) == text
  {
    FullRowText(StartGrid[r], 0);
  }

  lemma StartEmptyRows()
    ensures EncodeRow(StartGrid[2]) == EncodeRow(StartGrid[3]) == "8"
    ensures EncodeRow(StartGrid[4]) == EncodeRow(StartGrid[5]) == "8"
  {
    EmptyRowText(0);
    assert StartGrid[2] == StartGrid[3] == StartGrid[4] == StartGrid[5] == Empties(8);
  }

  lemma StartBlackRows()
    ensures EncodeRow(StartGrid[0]) == "rnbqkbnr" && EncodeRow(StartGrid[1]) == "pppppppp"
  {
    StartRowText(0, "rnbqkbnr");
    StartRowText(1, "pppppppp");
  }

  lemma StartWhiteRows()
    ensures EncodeRow(StartGrid[6]) == "PPPPPPPP" && EncodeRow(StartGrid[7]) == "RNBQKBNR"
  {
    StartRowText(6, "PPPPPPPP");
    StartRowText(7, "RNBQKBNR");
  }

  /** The rows written for a grid, row by row. */
  lemma RowsOfGrid(g: Grid, r0: string, r1: string, r2: string, r3: string,
                   r4: string, r5: string, r6: string, r7: string)
    requires IsGrid(g)
    requires EncodeRow(g[0]) == r0 && EncodeRow(g[1]) == r1
    requires EncodeRow(g[2]) == r2 && EncodeRow(g[3]) == r3
    requires EncodeRow(g[4]) == r4 && EncodeRow(g[5]) == r5
    requires EncodeRow(g[6]) == r6 && EncodeRow(g[7]) == r7
    ensures EncodedRows(g) == [r0, r1, r2, r3, r4, r5, r6, r7]
  {
  }

  /** The opening layout is an 8-by-8 grid. */
  lemma StartGridShape()
    ensures IsGrid(StartGrid)
  {
  }

  /** The default constructor's board field: "rnbqkbnr/pppppppp/8/8/8/8/PPPPPPPP/RNBQKBNR". */
  lemma StartRows()
    ensures EncodedRows(StartGrid) == ["rnbqkbnr", "pppppppp", "8", "8", "8", "8", "PPPPPPPP", "RNBQKBNR"]
  {
    StartGridShape();
    StartBlackRows();
    StartWhiteRows();
    StartEmptyRows();
    RowsOfGrid(StartGrid, "rnbqkbnr", "pppppppp", "8", "8", "8", "8", "PPPPPPPP", "RNBQKBNR");
  }

  /** The default constructor's other fields: "w KQkq - 0 1". */
  lemma StartFields()
    ensures Fields(StartPosition)[1..] == ["w", "KQkq", "-", "0", "1"]
  {
    var fs := Fields(StartPosition);
    assert fs[2] == "KQkq" by {
      assert WhiteLetters(Both) == "KQ" && BlackLetters(Both) == "kq";
    }
    assert fs[4] == "0" && fs[5] == "1" by {
      assert DigitChar(0) == '0' && DigitChar(1) == '1';
    }
    assert fs[1] == "w" && fs[3] == "-";
  }

  /** The castling letters are read in order: "QK" leaves White with
      Kingside only, so a text is not always written back as it was read. */
  lemma CastleLettersOrderDependent()
    ensures DecodeCastle("QK") == (Kingside, None)
    ensures DecodeCastle("KQ") == (Both, None)
    ensures CastleField(Kingside, None) == "K"
  {
  }

  // ---------------------------------------------------------------- the text as WriteFEN builds it

  /** The text after the first `i` rows: each row followed by '/', the last one by a space. */
  function RowsWritten(rows: seq<string>, i: nat): string
    requires |rows| == 8 && i <= 8
    decreases i, rows
  {
    if i == 0 then "" else RowsWritten(rows, i - 1) + rows[i - 1] + (if i == 8 then " " else "/")
  }

  lemma {:induction false} RowsWrittenJoin(rows: seq<string>, i: nat)
    requires |rows| == 8 && 1 <= i <= 8
    ensures RowsWritten(rows, i) == Join(rows[..i], '/') + (if i == 8 then " " else "/")
  {
    if i > 1 {
      RowsWrittenJoin(rows, i - 1);
      JoinSnoc(rows[..i - 1], rows[i - 1], '/');
      assert rows[..i - 1] + [rows[i - 1]] == rows[..i];
    }
  }

  /** WriteFEN's text field by field: the rows, then each of the other five
      fields after a single space. */
  lemma FenLayout(s: Position)
    requires IsGrid(s.grid)
    ensures FenOf(s) == RowsWritten(EncodedRows(s.grid), 8) + SideField(s.active) + " "
      + CastleField(s.whiteCastle, s.blackCastle) + " " + s.enPassant + " "
      + IntToString(s.halfMove) + " " + IntToString(s.moveNumber)
  {
    var rows := EncodedRows(s.grid);
    RowsWrittenJoin(rows, 8);
    assert rows[..8] == rows;
    var fs := Fields(s);
    FieldsSnoc(fs, 1);
    FieldsSnoc(fs, 2);
    FieldsSnoc(fs, 3);
    FieldsSnoc(fs, 4);
    FieldsSnoc(fs, 5);
    assert fs[..6] == fs;
  }

  /** FenLayout grouped as WriteFEN appends its pieces. */
  lemma FenAsWritten(s: Position)
    requires IsGrid(s.grid)
    ensures FenOf(s) == RowsWritten(EncodedRows(s.grid), 8) + (if s.active == White then "w " else "b ")
      + CastleField(s.whiteCastle, s.blackCastle) + " " + (s.enPassant + " ")
      + (IntToString(s.halfMove) + " ") + IntToString(s.moveNumber)
  {
    FenLayout(s);
    var rows, side := RowsWritten(EncodedRows(s.grid), 8), SideField(s.active);
    var castle, ep := CastleField(s.whiteCastle, s.blackCastle), s.enPassant;
    var hm, mn := IntToString(s.halfMove), IntToString(s.moveNumber);
    assert side + " " == (if s.active == White then "w " else "b ");
    assert rows + side + " " == rows + (side + " ");
    var a := rows + (side + " ") + castle + " ";
    assert a + ep + " " == a + (ep + " ");
    var b := a + (ep + " ");
    assert b + hm + " " == b + (hm + " ");
  }

  lemma FieldsSnoc(fs: seq<string>, k: int)
    requires 1 <= k < |fs|
    ensures Join(fs[..k + 1], ' ') == Join(fs[..k], ' ') + " " + fs[k]
  {
    JoinSnoc(fs[..k], fs[k], ' ');
    assert fs[..k] + [fs[k]] == fs[..k + 1];
  }
}
