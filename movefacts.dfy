/** What the move generators and check detection of Chess/Moves.cs
    guarantee, stated over the functions of MoveRules. */
module MoveFacts {
  import opened Pieces
  import opened Text
  import opened Util
  import opened Positions
  import opened MoveRules

  // ---------------------------------------------------------------- colours

  /** For a piece letter, IsOppositeColor holds exactly when the letter's colour differs. */
  lemma OppositeColorOfCell(color: PieceColor, x: string)
    requires ValidCell(x) && x != ""
    ensures IsOppositeColor(color, x[0]) <==> GetPieceColor(x) != color
  {
  }

  // ---------------------------------------------------------------- rays

  /** Cell `m` steps along the walk is on the board, inside the loop guard. */
  predicate WalkCell(g: Grid, d: Dir, r: int, c: int, m: int)
  {
    InBounds(d, RowAt(d, r, m), ColAt(d, c, m)) && OnBoard(RowAt(d, r, m), ColAt(d, c, m))
  }

  /** The m-th square of `ray`, walked from (r, c), is the cell m steps
      along: inside the loop guard, on the board, a target, and empty unless
      it is the last one. */
  predicate RayCell(g: Grid, color: PieceColor, d: Dir, r: int, c: int, ray: seq<string>, m: int)
    requires IsGrid(g) && CellsAreChars(g) && 0 <= m < |ray|
  {
    && WalkCell(g, d, r, c, m)
    && ray[m] == GetSquare(RowAt(d, r, m), ColAt(d, c, m))
    && Target(g, color, RowAt(d, r, m), ColAt(d, c, m))
    && (m < |ray| - 1 ==> g[RowAt(d, r, m)][ColAt(d, c, m)] == "")
  }

  /** Where the walk stopped without an enemy: past the loop guard, or on a friendly piece. */
  predicate RayStop(g: Grid, color: PieceColor, d: Dir, r: int, c: int, ray: seq<string>)
    requires IsGrid(g) && CellsAreChars(g)
  {
    var n := |ray|;
    (n == 0 || (OnBoard(RowAt(d, r, n - 1), ColAt(d, c, n - 1)) && g[RowAt(d, r, n - 1)][ColAt(d, c, n - 1)] == ""))
      && InBounds(d, RowAt(d, r, n), ColAt(d, c, n)) ==>
      && OnBoard(RowAt(d, r, n), ColAt(d, c, n))
      && g[RowAt(d, r, n)][ColAt(d, c, n)] != ""
      && !IsOppositeColor(color, g[RowAt(d, r, n)][ColAt(d, c, n)][0])
  }

  /** The ray rule for the walk from (r, c): every square is a RayCell, and the walk stopped for a reason. */
  predicate RayShaped(g: Grid, color: PieceColor, d: Dir, r: int, c: int)
    requires IsGrid(g) && CellsAreChars(g) && Entering(d, r, c)
  {
    && (forall m :: 0 <= m < |Ray(g, color, d, r, c)| ==> RayCell(g, color, d, r, c, Ray(g, color, d, r, c), m))
    && RayStop(g, color, d, r, c, Ray(g, color, d, r, c))
  }

  lemma Shift(d: Dir, r: int, c: int, m: int)
    ensures RowAt(d, r + DRow(d), m) == RowAt(d, r, m + 1)
    ensures ColAt(d, c + DCol(d), m) == ColAt(d, c, m + 1)
  {
  }

  /** One step of RayShape, for the squares: those of the walk from the
      next cell (r', c') give those from (r, c). */
  lemma RayCellsStep(g: Grid, color: PieceColor, d: Dir, r: int, c: int, r': int, c': int)
    requires IsGrid(g) && CellsAreChars(g) && Entering(d, r, c) && InBounds(d, r, c)
    requires r' == r + DRow(d) && c' == c + DCol(d)
    requires OnBoard(r, c) && Entering(d, r', c') && g[r][c] == ""
    requires forall m :: 0 <= m < |Ray(g, color, d, r', c')| ==> RayCell(g, color, d, r', c', Ray(g, color, d, r', c'), m)
    ensures forall m :: 0 <= m < |Ray(g, color, d, r, c)| ==> RayCell(g, color, d, r, c, Ray(g, color, d, r, c), m)
  {
    assert Ray(g, color, d, r, c) == [GetSquare(r, c)] + Ray(g, color, d, r', c');
    RayCellsShift(g, color, d, r, c, r', c', Ray(g, color, d, r, c), Ray(g, color, d, r', c'));
  }

  /** RayCell for a walk one empty cell longer than another, read off the squares alone. */
  lemma RayCellsShift(g: Grid, color: PieceColor, d: Dir, r: int, c: int, r': int, c': int, ray: seq<string>, rest: seq<string>)
    requires IsGrid(g) && CellsAreChars(g) && InBounds(d, r, c) && OnBoard(r, c) && g[r][c] == ""
    requires r' == r + DRow(d) && c' == c + DCol(d) && ray == [GetSquare(r, c)] + rest
    requires forall m :: 0 <= m < |rest| ==> RayCell(g, color, d, r', c', rest, m)
    ensures forall m :: 0 <= m < |ray| ==> RayCell(g, color, d, r, c, ray, m)
  {
    forall m | 0 <= m < |ray| ensures RayCell(g, color, d, r, c, ray, m) {
      if m > 0 {
        Shift(d, r, c, m - 1);
        assert RayCell(g, color, d, r', c', rest, m - 1);
        assert ray[m] == rest[m - 1];
      } else {
        assert RowAt(d, r, 0) == r && ColAt(d, c, 0) == c;
      }
    }
  }

  /** One step of RayShape, for where the walk stops. */
  lemma RayStopStep(g: Grid, color: PieceColor, d: Dir, r: int, c: int, r': int, c': int)
    requires IsGrid(g) && CellsAreChars(g) && Entering(d, r, c) && InBounds(d, r, c)
    requires r' == r + DRow(d) && c' == c + DCol(d)
    requires OnBoard(r, c) && Entering(d, r', c') && g[r][c] == ""
    requires RayStop(g, color, d, r', c', Ray(g, color, d, r', c'))
    ensures RayStop(g, color, d, r, c, Ray(g, color, d, r, c))
  {
    assert |Ray(g, color, d, r, c)| == |Ray(g, color, d, r', c')| + 1;
    RayStopShift(g, color, d, r, c, Ray(g, color, d, r, c), Ray(g, color, d, r', c'));
  }

  /** RayStop for a walk one empty cell longer than another, read off the lengths alone. */
  lemma RayStopShift(g: Grid, color: PieceColor, d: Dir, r: int, c: int, ray: seq<string>, rest: seq<string>)
    requires IsGrid(g) && CellsAreChars(g) && OnBoard(r, c) && g[r][c] == ""
    requires |ray| == |rest| + 1 && RayStop(g, color, d, r + DRow(d), c + DCol(d), rest)
    ensures RayStop(g, color, d, r, c, ray)
  {
    Shift(d, r, c, |rest|);
    if |rest| > 0 {
      Shift(d, r, c, |rest| - 1);
    } else {
      assert RowAt(d, r, 0) == r && ColAt(d, c, 0) == c;
    }
  }

  /** One step of RayShape. */
  lemma RayShapeStep(g: Grid, color: PieceColor, d: Dir, r: int, c: int, r': int, c': int)
    requires IsGrid(g) && CellsAreChars(g) && Entering(d, r, c) && InBounds(d, r, c)
    requires r' == r + DRow(d) && c' == c + DCol(d)
    requires OnBoard(r, c) && Entering(d, r', c') && g[r][c] == ""
    requires RayShaped(g, color, d, r', c')
    ensures RayShaped(g, color, d, r, c)
  {
    RayCellsStep(g, color, d, r, c, r', c');
    RayStopStep(g, color, d, r, c, r', c');
  }

  /** RayShape where the walk ends at once: past the guard, or on an occupied cell. */
  lemma RayShapeEnd(g: Grid, color: PieceColor, d: Dir, r: int, c: int)
    requires IsGrid(g) && CellsAreChars(g) && Entering(d, r, c)
    requires InBounds(d, r, c) ==> OnBoard(r, c) && g[r][c] != ""
    ensures RayShaped(g, color, d, r, c)
  {
    assert RowAt(d, r, 0) == r && ColAt(d, c, 0) == c;
    if InBounds(d, r, c) && IsOppositeColor(color, g[r][c][0]) {
      assert Ray(g, color, d, r, c) == [GetSquare(r, c)];
    } else {
      assert Ray(g, color, d, r, c) == [];
    }
  }

  /** The ray rule: the m-th square is the cell m steps along, every cell
      before the last is empty, the last is empty or an enemy; and if the
      ray does not end on an enemy, the next cell is past the loop guard or
      holds a friendly piece. */
  lemma {:induction false} RayShape(g: Grid, color: PieceColor, d: Dir, r: int, c: int)
    requires IsGrid(g) && CellsAreChars(g) && Entering(d, r, c)
    ensures RayShaped(g, color, d, r, c)
    decreases Remaining(d, r, c)
  {
    if InBounds(d, r, c) && g[r][c] == "" {
      StepInside(d, r, c);
      RayShape(g, color, d, r + DRow(d), c + DCol(d));
      RayShapeStep(g, color, d, r, c, r + DRow(d), c + DCol(d));
    } else {
      RayShapeEnd(g, color, d, r, c);
    }
  }

  /** Every square of a ray names a target cell the loop guard admitted. */
  lemma {:induction false} RayTargets(g: Grid, color: PieceColor, d: Dir, r: int, c: int)
    requires IsGrid(g) && CellsAreChars(g) && Entering(d, r, c)
    ensures forall s :: s in Ray(g, color, d, r, c) ==>
      && IsSquare(s)
      && Target(g, color, GetArrayIndex(s).0, GetArrayIndex(s).1)
      && InBounds(d, GetArrayIndex(s).0, GetArrayIndex(s).1)
    decreases Remaining(d, r, c)
  {
    if InBounds(d, r, c) {
      StepInside(d, r, c);
      SquareIndexRoundTrip(r, c);
      if g[r][c] == "" {
        RayTargets(g, color, d, r + DRow(d), c + DCol(d));
      }
    }
  }

  /** Every square of a piece's ray names a target cell. */
  lemma RayFromTargets(g: Grid, color: PieceColor, d: Dir, r: int, c: int)
    requires IsGrid(g) && CellsAreChars(g) && OnBoard(r, c)
    ensures forall s :: s in RayFrom(g, color, d, r, c) ==>
      && IsSquare(s)
      && Target(g, color, GetArrayIndex(s).0, GetArrayIndex(s).1)
      && InBounds(d, GetArrayIndex(s).0, GetArrayIndex(s).1)
  {
    StartEntering(d, r, c);
    RayTargets(g, color, d, r + DRow(d), c + DCol(d));
  }

  /** The "left-down" walk, in move generation and in check detection, never
      looks at row 7 (rank 1): its guard is `row < 7`. */
  lemma LeftDownSkipsLastRow(g: Grid, pieces: seq<Piece>, color: PieceColor, r: int, c: int)
    requires IsGrid(g) && CellsAreChars(g) && OnBoard(r, c)
    ensures forall s :: s in RayFrom(g, color, LeftDown, r, c) ==> IsSquare(s) && GetArrayIndex(s).0 < 7
    ensures var h := FirstHit(g, pieces, LeftDown, r + 1, c - 1); h.Some? ==> h.value.1 < 7
  {
    RayFromTargets(g, color, LeftDown, r, c);
    StartEntering(LeftDown, r, c);
    FirstHitInBounds(g, pieces, LeftDown, r + 1, c - 1);
  }

  /** The row a ray lookup reports is one the loop guard admitted. */
  lemma {:induction false} FirstHitInBounds(g: Grid, pieces: seq<Piece>, d: Dir, r: int, c: int)
    requires IsGrid(g) && Entering(d, r, c)
    ensures var h := FirstHit(g, pieces, d, r, c);
      h.Some? ==> exists m :: 0 <= m && InBounds(d, RowAt(d, r, m), ColAt(d, c, m)) && h.value.1 == RowAt(d, r, m)
    decreases Remaining(d, r, c)
  {
    if InBounds(d, r, c) {
      StepInside(d, r, c);
      assert RowAt(d, r, 0) == r && ColAt(d, c, 0) == c;
      if Probe(g, pieces, r, c).Nothing? {
        var r', c' := r + DRow(d), c + DCol(d);
        FirstHitInBounds(g, pieces, d, r', c');
        var h := FirstHit(g, pieces, d, r', c');
        if h.Some? {
          var m :| 0 <= m && InBounds(d, RowAt(d, r', m), ColAt(d, c', m)) && h.value.1 == RowAt(d, r', m);
          assert RowAt(d, r', m) == RowAt(d, r, m + 1) && ColAt(d, c', m) == ColAt(d, c, m + 1);
        }
      }
    }
  }

  // ---------------------------------------------------------------- knight

  predicate KnightTarget(g: Grid, color: PieceColor, r: int, c: int, rr: int, cc: int)
    requires IsGrid(g) && CellsAreChars(g)
  {
    KnightOffset(rr - r, cc - c) && Target(g, color, rr, cc)
  }

  /** A jump yields at most its own square, and only when that is a target. */
  lemma JumpSpec(g: Grid, color: PieceColor, r: int, c: int, i: int, j: int)
    requires IsGrid(g) && CellsAreChars(g)
    ensures forall s :: s in Jump(g, color, r, c, i, j) ==>
      IsSquare(s) && GetArrayIndex(s) == (r + i, c + j) && Target(g, color, r + i, c + j)
    ensures Target(g, color, r + i, c + j) ==> GetSquare(r + i, c + j) in Jump(g, color, r, c, i, j)
  {
    if Target(g, color, r + i, c + j) {
      SquareIndexRoundTrip(r + i, c + j);
    }
  }

  lemma {:induction false} KnightRowSound(g: Grid, color: PieceColor, r: int, c: int, i: int, j: int)
    requires IsGrid(g) && CellsAreChars(g) && -2 <= i <= 2 && -2 <= j <= 3
    ensures forall s :: s in KnightRow(g, color, r, c, i, j) ==>
      IsSquare(s) && KnightTarget(g, color, r, c, GetArrayIndex(s).0, GetArrayIndex(s).1)
    decreases j + 2
  {
    if j > -2 {
      KnightRowSound(g, color, r, c, i, j - 1);
      var prev := KnightRow(g, color, r, c, i, j - 1);
      var step := KnightStep(g, color, r, c, i, j - 1);
      assert KnightRow(g, color, r, c, i, j) == prev + step;
      forall s | s in step ensures IsSquare(s) && KnightTarget(g, color, r, c, GetArrayIndex(s).0, GetArrayIndex(s).1) {
        JumpSpec(g, color, r, c, i, j - 1);
      }
    }
  }

  /** The row pass j' of a knight row lists that square when it is a target. */
  lemma {:induction false} KnightRowHas(g: Grid, color: PieceColor, r: int, c: int, i: int, j: int, j': int)
    requires IsGrid(g) && CellsAreChars(g) && -2 <= j' < j <= 3
    requires KnightOffset(i, j') && Target(g, color, r + i, c + j')
    ensures GetSquare(r + i, c + j') in KnightRow(g, color, r, c, i, j)
    decreases j + 2
  {
    var prev := KnightRow(g, color, r, c, i, j - 1);
    var step := KnightStep(g, color, r, c, i, j - 1);
    assert KnightRow(g, color, r, c, i, j) == prev + step;
    if j' < j - 1 {
      KnightRowHas(g, color, r, c, i, j - 1, j');
    } else {
      JumpSpec(g, color, r, c, i, j');
      assert GetSquare(r + i, c + j') in step;
    }
  }

  lemma {:induction false} KnightRowsSound(g: Grid, color: PieceColor, r: int, c: int, i: int)
    requires IsGrid(g) && CellsAreChars(g) && -2 <= i <= 3
    ensures forall s :: s in KnightRows(g, color, r, c, i) ==>
      IsSquare(s) && KnightTarget(g, color, r, c, GetArrayIndex(s).0, GetArrayIndex(s).1)
    decreases i + 2
  {
    if i > -2 {
      KnightRowsSound(g, color, r, c, i - 1);
      KnightRowSound(g, color, r, c, i - 1, 3);
      assert KnightRows(g, color, r, c, i) == KnightRows(g, color, r, c, i - 1) + KnightRow(g, color, r, c, i - 1, 3);
    }
  }

  lemma {:induction false} KnightRowsHas(g: Grid, color: PieceColor, r: int, c: int, i: int, i': int, j': int)
    requires IsGrid(g) && CellsAreChars(g) && -2 <= i' < i <= 3
    requires KnightOffset(i', j') && Target(g, color, r + i', c + j')
    ensures GetSquare(r + i', c + j') in KnightRows(g, color, r, c, i)
    decreases i + 2
  {
    assert KnightRows(g, color, r, c, i) == KnightRows(g, color, r, c, i - 1) + KnightRow(g, color, r, c, i - 1, 3);
    if i' < i - 1 {
      KnightRowsHas(g, color, r, c, i - 1, i', j');
    } else {
      KnightRowHas(g, color, r, c, i', 3, j');
    }
  }

  lemma KnightMovesSound(g: Grid, color: PieceColor, r: int, c: int)
    requires IsGrid(g) && CellsAreChars(g)
    ensures forall s :: s in KnightMoves(g, color, r, c) ==>
      && IsSquare(s)
      && KnightTarget(g, color, r, c, GetArrayIndex(s).0, GetArrayIndex(s).1)
      && GetArrayIndex(s).0 != r && GetArrayIndex(s).1 != c
  {
    KnightRowsSound(g, color, r, c, 3);
    forall s | s in KnightMoves(g, color, r, c)
      ensures GetArrayIndex(s).0 != r && GetArrayIndex(s).1 != c
    {
      assert KnightOffset(GetArrayIndex(s).0 - r, GetArrayIndex(s).1 - c);
    }
  }

  /** GetKnightMoves yields exactly the squares a knight's jump away that are
      on the board and empty or enemy; such a jump changes both row and column. */
  lemma KnightMovesSpec(g: Grid, color: PieceColor, r: int, c: int)
    requires IsGrid(g) && CellsAreChars(g)
    ensures forall s :: s in KnightMoves(g, color, r, c) ==>
      && IsSquare(s)
      && KnightTarget(g, color, r, c, GetArrayIndex(s).0, GetArrayIndex(s).1)
      && GetArrayIndex(s).0 != r && GetArrayIndex(s).1 != c
    ensures forall rr, cc :: KnightTarget(g, color, r, c, rr, cc) ==> GetSquare(rr, cc) in KnightMoves(g, color, r, c)
  {
    KnightMovesSound(g, color, r, c);
    KnightMovesComplete(g, color, r, c);
  }

  lemma KnightMovesComplete(g: Grid, color: PieceColor, r: int, c: int)
    requires IsGrid(g) && CellsAreChars(g)
    ensures forall rr, cc :: KnightTarget(g, color, r, c, rr, cc) ==> GetSquare(rr, cc) in KnightMoves(g, color, r, c)
  {
    forall rr, cc | KnightTarget(g, color, r, c, rr, cc)
      ensures GetSquare(rr, cc) in KnightMoves(g, color, r, c)
    {
      KnightRowsHas(g, color, r, c, 3, rr - r, cc - c);
      assert r + (rr - r) == rr && c + (cc - c) == cc;
    }
  }

  // ---------------------------------------------------------------- king

  /** One of the eight neighbouring offsets. */
  predicate KingOffset(i: int, j: int)
  {
    -1 <= i <= 1 && -1 <= j <= 1 && (i != 0 || j != 0)
  }

  predicate KingTarget(g: Grid, color: PieceColor, r: int, c: int, rr: int, cc: int)
    requires IsGrid(g) && CellsAreChars(g)
  {
    KingOffset(rr - r, cc - c) && Target(g, color, rr, cc)
  }

  lemma {:induction false} KingRowSound(g: Grid, color: PieceColor, r: int, c: int, i: int, j: int)
    requires IsGrid(g) && CellsAreChars(g) && -1 <= i <= 1 && -1 <= j <= 2
    ensures forall s :: s in KingRow(g, color, r, c, i, j) ==>
      IsSquare(s) && KingTarget(g, color, r, c, GetArrayIndex(s).0, GetArrayIndex(s).1)
    decreases j + 1
  {
    if j > -1 {
      KingRowSound(g, color, r, c, i, j - 1);
      var prev := KingRow(g, color, r, c, i, j - 1);
      var step := KingStep(g, color, r, c, i, j - 1);
      assert KingRow(g, color, r, c, i, j) == prev + step;
      forall s | s in step ensures IsSquare(s) && KingTarget(g, color, r, c, GetArrayIndex(s).0, GetArrayIndex(s).1) {
        JumpSpec(g, color, r, c, i, j - 1);
      }
    }
  }

  /** The row pass j' of a king row lists that square when it is a target. */
  lemma {:induction false} KingRowHas(g: Grid, color: PieceColor, r: int, c: int, i: int, j: int, j': int)
    requires IsGrid(g) && CellsAreChars(g) && -1 <= j' < j <= 2
    requires KingOffset(i, j') && Target(g, color, r + i, c + j')
    ensures GetSquare(r + i, c + j') in KingRow(g, color, r, c, i, j)
    decreases j + 1
  {
    var prev := KingRow(g, color, r, c, i, j - 1);
    var step := KingStep(g, color, r, c, i, j - 1);
    assert KingRow(g, color, r, c, i, j) == prev + step;
    if j' < j - 1 {
      KingRowHas(g, color, r, c, i, j - 1, j');
    } else {
      JumpSpec(g, color, r, c, i, j');
      assert GetSquare(r + i, c + j') in step;
    }
  }

  lemma {:induction false} KingRowsSound(g: Grid, color: PieceColor, r: int, c: int, i: int)
    requires IsGrid(g) && CellsAreChars(g) && -1 <= i <= 2
    ensures forall s :: s in KingRows(g, color, r, c, i) ==>
      IsSquare(s) && KingTarget(g, color, r, c, GetArrayIndex(s).0, GetArrayIndex(s).1)
    decreases i + 1
  {
    if i > -1 {
      KingRowsSound(g, color, r, c, i - 1);
      KingRowSound(g, color, r, c, i - 1, 2);
    }
  }

  lemma {:induction false} KingRowsHas(g: Grid, color: PieceColor, r: int, c: int, i: int, i': int, j': int)
    requires IsGrid(g) && CellsAreChars(g) && -1 <= i' < i <= 2
    requires KingOffset(i', j') && Target(g, color, r + i', c + j')
    ensures GetSquare(r + i', c + j') in KingRows(g, color, r, c, i)
    decreases i + 1
  {
    var before, row := KingRows(g, color, r, c, i - 1), KingRow(g, color, r, c, i - 1, 2);
    assert KingRows(g, color, r, c, i) == before + row;
    if i' < i - 1 {
      KingRowsHas(g, color, r, c, i - 1, i', j');
      assert GetSquare(r + i', c + j') in before;
    } else {
      KingRowHas(g, color, r, c, i', 2, j');
      assert GetSquare(r + i', c + j') in row;
    }
  }

  /** A row of king offsets that leaves the board adds nothing, so the
      king loops may skip it. */
  lemma KingRowOffBoard(g: Grid, color: PieceColor, r: int, c: int, i: int)
    requires IsGrid(g) && CellsAreChars(g) && !(0 <= r + i < 8)
    ensures KingRow(g, color, r, c, i, 2) == []
  {
    assert KingRow(g, color, r, c, i, 0) == [];
    assert KingRow(g, color, r, c, i, 1) == [];
  }

  /** GetKingMoves yields exactly the neighbouring cells that are on the board
      and empty or enemy; in particular no castling destination two columns away. */
  lemma KingMovesSpec(g: Grid, color: PieceColor, r: int, c: int)
    requires IsGrid(g) && CellsAreChars(g)
    ensures forall s :: s in KingMoves(g, color, r, c) ==>
      IsSquare(s) && KingTarget(g, color, r, c, GetArrayIndex(s).0, GetArrayIndex(s).1)
    ensures forall rr, cc :: KingTarget(g, color, r, c, rr, cc) ==> GetSquare(rr, cc) in KingMoves(g, color, r, c)
  {
    KingRowsSound(g, color, r, c, 2);
    KingMovesComplete(g, color, r, c);
  }

  lemma KingMovesComplete(g: Grid, color: PieceColor, r: int, c: int)
    requires IsGrid(g) && CellsAreChars(g)
    ensures forall rr, cc :: KingTarget(g, color, r, c, rr, cc) ==> GetSquare(rr, cc) in KingMoves(g, color, r, c)
  {
    forall rr, cc | KingTarget(g, color, r, c, rr, cc)
      ensures GetSquare(rr, cc) in KingMoves(g, color, r, c)
    {
      KingRowsHas(g, color, r, c, 2, rr - r, cc - c);
      assert r + (rr - r) == rr && c + (cc - c) == cc;
    }
  }

  // ---------------------------------------------------------------- pawn

  /** Why a pawn may go to (rr, cc): a single step onto an empty cell; from
      its start row, a double step whose destination is empty (the cell in
      between is not looked at); a diagonal step onto an enemy; a diagonal
      step onto the en-passant target. */
  predicate PawnTarget(g: Grid, color: PieceColor, r: int, c: int, ep: string, rr: int, cc: int)
    requires IsGrid(g) && CellsAreChars(g)
  {
    var sign := PawnSign(color);
    && OnBoard(rr, cc)
    && (|| (rr == r + sign && cc == c && g[rr][cc] == "")
        || (r == PawnStartRow(color) && rr == r + 2 * sign && cc == c && g[rr][cc] == "")
        || (rr == r + sign && (cc == c - 1 || cc == c + 1) && g[rr][cc] != "" && IsOppositeColor(color, g[rr][cc][0]))
        || (rr == r + sign && (cc == c - 1 || cc == c + 1) && GetSquare(rr, cc) == ep))
  }

  /** A conditional square that is a pawn target whenever it is present. */
  lemma SquareIfPawnTarget(g: Grid, color: PieceColor, r: int, c: int, ep: string, cond: bool, rr: int, cc: int)
    requires IsGrid(g) && CellsAreChars(g) && ColumnCastable(cc)
    requires cond ==> PawnTarget(g, color, r, c, ep, rr, cc)
    ensures forall s :: s in SquareIf(cond, rr, cc) ==>
      IsSquare(s) && PawnTarget(g, color, r, c, ep, GetArrayIndex(s).0, GetArrayIndex(s).1)
  {
    if cond {
      SquareIndexRoundTrip(rr, cc);
    }
  }

  /** Every square GetPawnMoves yields is a pawn target. */
  lemma PawnMovesSound(g: Grid, color: PieceColor, r: int, c: int, ep: string)
    requires IsGrid(g) && CellsAreChars(g) && OnBoard(r, c) && OnBoard(r + PawnSign(color), c)
    requires EnPassantOk(ep)
    ensures forall s :: s in PawnMoves(g, color, r, c, ep) ==>
      IsSquare(s) && PawnTarget(g, color, r, c, ep, GetArrayIndex(s).0, GetArrayIndex(s).1)
  {
    var sign := PawnSign(color);
    var f := r + sign;
    var a := SquareIf(r == PawnStartRow(color) && g[r + 2 * sign][c] == "", r + 2 * sign, c);
    var b := SquareIf(g[f][c] == "", f, c);
    var captures := PawnCaptures(g, color, f, c, ep);
    assert PawnMoves(g, color, r, c, ep) == a + b + captures;
    assert forall s :: s in a + b ==> IsSquare(s) && PawnTarget(g, color, r, c, ep, GetArrayIndex(s).0, GetArrayIndex(s).1) by {
      PawnStepsSound(g, color, r, c, ep);
      PawnTargetsJoin(g, color, r, c, ep, a, b);
    }
    assert forall s :: s in captures ==> IsSquare(s) && PawnTarget(g, color, r, c, ep, GetArrayIndex(s).0, GetArrayIndex(s).1) by {
      PawnCapturesSound(g, color, r, c, ep);
    }
    PawnTargetsJoin(g, color, r, c, ep, a + b, captures);
  }

  /** Every diagonal square GetPawnMoves yields is a pawn target. */
  lemma PawnCapturesSound(g: Grid, color: PieceColor, r: int, c: int, ep: string)
    requires IsGrid(g) && CellsAreChars(g) && OnBoard(r, c) && OnBoard(r + PawnSign(color), c)
    requires EnPassantOk(ep)
    ensures forall s :: s in PawnCaptures(g, color, r + PawnSign(color), c, ep) ==>
      IsSquare(s) && PawnTarget(g, color, r, c, ep, GetArrayIndex(s).0, GetArrayIndex(s).1)
  {
    var f := r + PawnSign(color);
    var left := c - 1 >= 0 && g[f][c - 1] != "" && IsOppositeColor(color, g[f][c - 1][0]);
    var right := c + 1 <= 7 && g[f][c + 1] != "" && IsOppositeColor(color, g[f][c + 1][0]);
    var takes := SquareIf(left, f, c - 1) + SquareIf(right, f, c + 1);
    var firstThree := takes + SquareIf(GetSquare(f, c - 1) == ep, f, c - 1);
    assert forall s :: s in takes ==> IsSquare(s) && PawnTarget(g, color, r, c, ep, GetArrayIndex(s).0, GetArrayIndex(s).1) by {
      PawnTakeSound(g, color, r, c, ep, c - 1, left);
      PawnTakeSound(g, color, r, c, ep, c + 1, right);
      PawnTargetsJoin(g, color, r, c, ep, SquareIf(left, f, c - 1), SquareIf(right, f, c + 1));
    }
    assert forall s :: s in firstThree ==> IsSquare(s) && PawnTarget(g, color, r, c, ep, GetArrayIndex(s).0, GetArrayIndex(s).1) by {
      PawnPassSound(g, color, r, c, ep, c - 1);
      PawnTargetsJoin(g, color, r, c, ep, takes, SquareIf(GetSquare(f, c - 1) == ep, f, c - 1));
    }
    PawnPassSound(g, color, r, c, ep, c + 1);
    PawnTargetsJoin(g, color, r, c, ep, firstThree, SquareIf(GetSquare(f, c + 1) == ep, f, c + 1));
  }

  /** The capture of a piece of the other colour on a front diagonal is a pawn target. */
  lemma PawnTakeSound(g: Grid, color: PieceColor, r: int, c: int, ep: string, cc: int, cond: bool)
    requires IsGrid(g) && CellsAreChars(g) && OnBoard(r + PawnSign(color), c) && (cc == c - 1 || cc == c + 1)
    requires cond ==> OnBoard(r + PawnSign(color), cc) && g[r + PawnSign(color)][cc] != ""
    requires cond ==> IsOppositeColor(color, g[r + PawnSign(color)][cc][0])
    ensures forall s :: s in SquareIf(cond, r + PawnSign(color), cc) ==>
      IsSquare(s) && PawnTarget(g, color, r, c, ep, GetArrayIndex(s).0, GetArrayIndex(s).1)
  {
    SquareIfPawnTarget(g, color, r, c, ep, cond, r + PawnSign(color), cc);
  }

  /** The en-passant square on a front diagonal is a pawn target. */
  lemma PawnPassSound(g: Grid, color: PieceColor, r: int, c: int, ep: string, cc: int)
    requires IsGrid(g) && CellsAreChars(g) && OnBoard(r + PawnSign(color), c) && (cc == c - 1 || cc == c + 1)
    requires EnPassantOk(ep)
    ensures forall s :: s in SquareIf(GetSquare(r + PawnSign(color), cc) == ep, r + PawnSign(color), cc) ==>
      IsSquare(s) && PawnTarget(g, color, r, c, ep, GetArrayIndex(s).0, GetArrayIndex(s).1)
  {
    var f := r + PawnSign(color);
    if GetSquare(f, cc) == ep {
      SquareOnlyOnBoard(f, cc);
    }
    SquareIfPawnTarget(g, color, r, c, ep, GetSquare(f, cc) == ep, f, cc);
  }

  /** Two lists of pawn-target squares joined are pawn-target squares. */
  lemma PawnTargetsJoin(g: Grid, color: PieceColor, r: int, c: int, ep: string, a: seq<string>, b: seq<string>)
    requires IsGrid(g) && CellsAreChars(g)
    requires forall s :: s in a ==> IsSquare(s) && PawnTarget(g, color, r, c, ep, GetArrayIndex(s).0, GetArrayIndex(s).1)
    requires forall s :: s in b ==> IsSquare(s) && PawnTarget(g, color, r, c, ep, GetArrayIndex(s).0, GetArrayIndex(s).1)
    ensures forall s :: s in a + b ==> IsSquare(s) && PawnTarget(g, color, r, c, ep, GetArrayIndex(s).0, GetArrayIndex(s).1)
  {
  }

  /** The double step and the single step GetPawnMoves yields are pawn targets. */
  lemma PawnStepsSound(g: Grid, color: PieceColor, r: int, c: int, ep: string)
    requires IsGrid(g) && CellsAreChars(g) && OnBoard(r, c) && OnBoard(r + PawnSign(color), c)
    ensures forall s :: s in SquareIf(r == PawnStartRow(color) && g[r + 2 * PawnSign(color)][c] == "", r + 2 * PawnSign(color), c) ==>
      IsSquare(s) && PawnTarget(g, color, r, c, ep, GetArrayIndex(s).0, GetArrayIndex(s).1)
    ensures forall s :: s in SquareIf(g[r + PawnSign(color)][c] == "", r + PawnSign(color), c) ==>
      IsSquare(s) && PawnTarget(g, color, r, c, ep, GetArrayIndex(s).0, GetArrayIndex(s).1)
  {
    var sign := PawnSign(color);
    SquareIfPawnTarget(g, color, r, c, ep, r == PawnStartRow(color) && g[r + 2 * sign][c] == "", r + 2 * sign, c);
    SquareIfPawnTarget(g, color, r, c, ep, g[r + sign][c] == "", r + sign, c);
  }

  /** Every pawn target is among the squares GetPawnMoves yields. */
  lemma PawnMovesComplete(g: Grid, color: PieceColor, r: int, c: int, ep: string)
    requires IsGrid(g) && CellsAreChars(g) && OnBoard(r, c) && OnBoard(r + PawnSign(color), c)
    ensures forall rr, cc :: PawnTarget(g, color, r, c, ep, rr, cc) ==> GetSquare(rr, cc) in PawnMoves(g, color, r, c, ep)
  {
    var sign := PawnSign(color);
    var f := r + sign;
    forall rr, cc | PawnTarget(g, color, r, c, ep, rr, cc) ensures GetSquare(rr, cc) in PawnMoves(g, color, r, c, ep) {
      if rr == f && cc == c && g[rr][cc] == "" {
        assert GetSquare(rr, cc) in SquareIf(g[f][c] == "", f, c);
      } else if r == PawnStartRow(color) && rr == r + 2 * sign && cc == c && g[rr][cc] == "" {
        assert GetSquare(rr, cc) in SquareIf(r == PawnStartRow(color) && g[r + 2 * sign][c] == "", r + 2 * sign, c);
      } else if rr == f && cc == c - 1 && g[rr][cc] != "" && IsOppositeColor(color, g[rr][cc][0]) {
        assert GetSquare(rr, cc) in SquareIf(c - 1 >= 0 && g[f][c - 1] != "" && IsOppositeColor(color, g[f][c - 1][0]), f, c - 1);
      } else if rr == f && cc == c + 1 && g[rr][cc] != "" && IsOppositeColor(color, g[rr][cc][0]) {
        assert GetSquare(rr, cc) in SquareIf(c + 1 <= 7 && g[f][c + 1] != "" && IsOppositeColor(color, g[f][c + 1][0]), f, c + 1);
      } else if cc == c - 1 {
        assert GetSquare(rr, cc) in SquareIf(GetSquare(f, c - 1) == ep, f, c - 1);
      } else {
        assert GetSquare(rr, cc) in SquareIf(GetSquare(f, c + 1) == ep, f, c + 1);
      }
    }
  }

  /** GetPawnMoves yields exactly the pawn targets. */
  lemma PawnMovesSpec(g: Grid, color: PieceColor, r: int, c: int, ep: string)
    requires IsGrid(g) && CellsAreChars(g) && OnBoard(r, c) && OnBoard(r + PawnSign(color), c)
    requires EnPassantOk(ep)
    ensures forall s :: s in PawnMoves(g, color, r, c, ep) ==>
      IsSquare(s) && PawnTarget(g, color, r, c, ep, GetArrayIndex(s).0, GetArrayIndex(s).1)
    ensures forall rr, cc :: PawnTarget(g, color, r, c, ep, rr, cc) ==> GetSquare(rr, cc) in PawnMoves(g, color, r, c, ep)
  {
    PawnMovesSound(g, color, r, c, ep);
    PawnMovesComplete(g, color, r, c, ep);
  }

  /** The double step jumps a blocked cell: a pawn on its start row whose
      next cell is occupied gets no single step, yet still gets the two-row
      step onto an empty cell. */
  lemma PawnDoubleStepIgnoresMiddle(g: Grid, color: PieceColor, r: int, c: int, ep: string)
    requires IsGrid(g) && CellsAreChars(g) && OnBoard(r, c) && OnBoard(r + PawnSign(color), c)
    requires EnPassantOk(ep)
    requires r == PawnStartRow(color) && g[r + PawnSign(color)][c] != "" && g[r + 2 * PawnSign(color)][c] == ""
    ensures GetSquare(r + 2 * PawnSign(color), c) in PawnMoves(g, color, r, c, ep)
    ensures GetSquare(r + PawnSign(color), c) !in PawnMoves(g, color, r, c, ep)
  {
    var sign := PawnSign(color);
    PawnMovesSpec(g, color, r, c, ep);
    assert PawnTarget(g, color, r, c, ep, r + 2 * sign, c);
    SquareIndexRoundTrip(r + sign, c);
  }

  // ---------------------------------------------------------------- all candidates

  /** Every candidate is a square; it holds nothing or an enemy, except a pawn's en-passant move. */
  lemma PseudoTargets(g: Grid, piece: Piece, ep: string)
    requires IsGrid(g) && CellsAreChars(g) && CanGenerate(g, piece) && EnPassantOk(ep)
    ensures forall s :: s in Pseudo(g, piece, ep) ==>
      && IsSquare(s)
      && (Target(g, piece.color, GetArrayIndex(s).0, GetArrayIndex(s).1) || (piece.pieceType == Pawn && s == ep))
  {
    var rc := GetArrayIndex(piece.square);
    var r, c, color := rc.0, rc.1, piece.color;
    var ms := Pseudo(g, piece, ep);
    match piece.pieceType
    case Pawn =>
      PawnMovesSound(g, color, r, c, ep);
      forall s | s in ms ensures IsSquare(s) && (Target(g, color, GetArrayIndex(s).0, GetArrayIndex(s).1) || s == ep) {
        if s != ep {
          IndexSquareRoundTrip(s);
        }
      }
    case Knight =>
      KnightMovesSpec(g, color, r, c);
    case King =>
      KingMovesSpec(g, color, r, c);
    case Rook =>
      RookTargets(g, color, r, c);
    case Bishop =>
      BishopTargets(g, color, r, c);
    case Queen =>
      RookTargets(g, color, r, c);
      BishopTargets(g, color, r, c);
  }

  lemma RookTargets(g: Grid, color: PieceColor, r: int, c: int)
    requires IsGrid(g) && CellsAreChars(g) && OnBoard(r, c)
    ensures forall s :: s in RookMoves(g, color, r, c) ==>
      IsSquare(s) && Target(g, color, GetArrayIndex(s).0, GetArrayIndex(s).1)
  {
    RayFromTargets(g, color, Down, r, c);
    RayFromTargets(g, color, Up, r, c);
    RayFromTargets(g, color, Right, r, c);
    RayFromTargets(g, color, Left, r, c);
  }

  lemma BishopTargets(g: Grid, color: PieceColor, r: int, c: int)
    requires IsGrid(g) && CellsAreChars(g) && OnBoard(r, c)
    ensures forall s :: s in BishopMoves(g, color, r, c) ==>
      IsSquare(s) && Target(g, color, GetArrayIndex(s).0, GetArrayIndex(s).1)
  {
    RayFromTargets(g, color, RightDown, r, c);
    RayFromTargets(g, color, RightUp, r, c);
    RayFromTargets(g, color, LeftUp, r, c);
    RayFromTargets(g, color, LeftDown, r, c);
  }

  // ---------------------------------------------------------------- lookups

  /** On a list built from the grid, the only piece on a cell's square is the one built from that cell. */
  lemma OnlyPieceOnSquare(g: Grid, r: int, c: int)
    requires IsGrid(g) && CellsAreChars(g) && OnBoard(r, c) && g[r][c] != ""
    ensures PieceFromCell(g, r, c) in PiecesOf(g)
    ensures forall p :: p in PiecesOf(g) && p.square == GetSquare(r, c) ==> p == PieceFromCell(g, r, c)
  {
    var ps := PiecesOf(g);
    PiecesOfSpec(g);
    SquareIndexRoundTrip(r, c);
    forall p | p in ps && p.square == GetSquare(r, c) ensures p == PieceFromCell(g, r, c) {
      var m :| 0 <= m < |ps| && ps[m] == p;
      assert BuiltFromItsCell(g, ps[m]);
    }
  }

  /** On a list built from the grid, the lookup of a cell finds the piece built from that cell. */
  lemma LookupOnPiecesOf(g: Grid, r: int, c: int)
    requires IsGrid(g) && CellsAreChars(g) && OnBoard(r, c) && g[r][c] != ""
    ensures FindFirst(PiecesOf(g), GetSquare(r, c)) == Some(PieceFromCell(g, r, c))
    ensures FindLast(PiecesOf(g), GetSquare(r, c)) == Some(PieceFromCell(g, r, c))
    ensures Probe(g, PiecesOf(g), r, c) == Some(PieceFromCell(g, r, c))
  {
    OnlyPieceOnSquare(g, r, c);
  }

  /** The cached destination lists play no part in the lookups. */
  lemma {:induction false} FindFirstIgnoresMoveLists(ps: seq<Piece>, square: string)
    ensures FindFirst(Bare(ps), square).Some? == FindFirst(ps, square).Some?
    ensures FindFirst(ps, square).Some? ==> FindFirst(Bare(ps), square).value == Stripped(FindFirst(ps, square).value)
    decreases |ps|
  {
    if |ps| > 0 {
      var b := Bare(ps);
      assert b[0] == Stripped(ps[0]);
      assert b[1..] == Bare(ps[1..]);
      FindFirstIgnoresMoveLists(ps[1..], square);
    }
  }

  lemma {:induction false} FindLastIgnoresMoveLists(ps: seq<Piece>, square: string)
    ensures FindLast(Bare(ps), square).Some? == FindLast(ps, square).Some?
    ensures FindLast(ps, square).Some? ==> FindLast(Bare(ps), square).value == Stripped(FindLast(ps, square).value)
    decreases |ps|
  {
    if |ps| > 0 {
      var n := |ps| - 1;
      var b := Bare(ps);
      assert b[n] == Stripped(ps[n]);
      assert b[..n] == Bare(ps[..n]);
      FindLastIgnoresMoveLists(ps[..n], square);
    }
  }

  /** FindKing returns the first king of `color` in list order. */
  lemma {:induction false} FindKingFirst(pieces: seq<Piece>, color: PieceColor, n: int)
    requires 0 <= n < |pieces| && pieces[n].pieceType == King && pieces[n].color == color
    requires forall m :: 0 <= m < n ==> !(pieces[m].pieceType == King && pieces[m].color == color)
    ensures FindKing(pieces, color) == Some(pieces[n])
  {
    if n > 0 {
      assert !(pieces[0].pieceType == King && pieces[0].color == color);
      FindKingFirst(pieces[1..], color, n - 1);
    }
  }

  /** The king FindKing returns stands no later in the list than any king of `color`. */
  lemma {:induction false} FindKingBefore(pieces: seq<Piece>, color: PieceColor, n: int)
    requires 0 <= n < |pieces| && pieces[n].pieceType == King && pieces[n].color == color
    ensures FindKing(pieces, color).Some?
    ensures exists m :: 0 <= m <= n && pieces[m] == FindKing(pieces, color).value
  {
    if pieces[0].pieceType == King && pieces[0].color == color {
      assert pieces[0] == FindKing(pieces, color).value;
    } else {
      FindKingBefore(pieces[1..], color, n - 1);
      var m :| 0 <= m <= n - 1 && pieces[1..][m] == FindKing(pieces[1..], color).value;
      assert pieces[m + 1] == pieces[1..][m];
    }
  }

  lemma {:induction false} FindKingIgnoresMoveLists(ps: seq<Piece>, color: PieceColor)
    ensures FindKing(Bare(ps), color).Some? == FindKing(ps, color).Some?
    ensures FindKing(ps, color).Some? ==> FindKing(Bare(ps), color).value == Stripped(FindKing(ps, color).value)
    decreases |ps|
  {
    if |ps| > 0 {
      var b := Bare(ps);
      assert b[0] == Stripped(ps[0]);
      assert b[1..] == Bare(ps[1..]);
      FindKingIgnoresMoveLists(ps[1..], color);
    }
  }

  lemma {:induction false} FirstHitIgnoresMoveLists(g: Grid, ps: seq<Piece>, d: Dir, r: int, c: int)
    requires IsGrid(g) && Entering(d, r, c)
    ensures FirstHit(g, Bare(ps), d, r, c).Some? == FirstHit(g, ps, d, r, c).Some?
    ensures FirstHit(g, ps, d, r, c).Some? ==>
      FirstHit(g, Bare(ps), d, r, c).value == (Stripped(FirstHit(g, ps, d, r, c).value.0), FirstHit(g, ps, d, r, c).value.1)
    decreases Remaining(d, r, c)
  {
    if InBounds(d, r, c) {
      StepInside(d, r, c);
      ProbeIgnoresMoveLists(g, ps, r, c);
      if Probe(g, ps, r, c).Nothing? {
        FirstHitIgnoresMoveLists(g, ps, d, r + DRow(d), c + DCol(d));
      }
    }
  }

  /** Looking up a cell's piece does not look at the cached destination lists. */
  lemma ProbeIgnoresMoveLists(g: Grid, ps: seq<Piece>, r: int, c: int)
    requires IsGrid(g) && OnBoard(r, c)
    ensures Probe(g, Bare(ps), r, c).Some? == Probe(g, ps, r, c).Some?
    ensures Probe(g, ps, r, c).Some? ==> Probe(g, Bare(ps), r, c).value == Stripped(Probe(g, ps, r, c).value)
  {
    if g[r][c] != "" {
      FindFirstIgnoresMoveLists(ps, GetSquare(r, c));
    }
  }

  /** Two hits that differ only in the cached destination list agree on colour, type and row. */
  lemma HitsAgree(bare: Option<(Piece, int)>, full: Option<(Piece, int)>)
    requires bare.Some? == full.Some?
    requires full.Some? ==> bare.value == (Stripped(full.value.0), full.value.1)
    ensures bare.Some? ==> bare.value.0.color == full.value.0.color && bare.value.0.pieceType == full.value.0.pieceType
    ensures bare.Some? ==> bare.value.1 == full.value.1
  {
  }

  /** The rook and queen test along one orthogonal ray does not look at the cached destination lists. */
  lemma OrthogonalAttackIgnoresMoveLists(g: Grid, ps: seq<Piece>, active: PieceColor, d: Dir, kr: int, kc: int)
    requires IsGrid(g) && OnBoard(kr, kc)
    ensures OrthogonalAttack(g, Bare(ps), active, d, kr, kc) == OrthogonalAttack(g, ps, active, d, kr, kc)
  {
    StartEntering(d, kr, kc);
    FirstHitIgnoresMoveLists(g, ps, d, kr + DRow(d), kc + DCol(d));
    var bare, full := FirstHit(g, Bare(ps), d, kr + DRow(d), kc + DCol(d)), FirstHit(g, ps, d, kr + DRow(d), kc + DCol(d));
    OrthogonalAttackOfHit(g, Bare(ps), active, d, kr, kc);
    OrthogonalAttackOfHit(g, ps, active, d, kr, kc);
    HitsAgree(bare, full);
  }

  /** The bishop, queen and pawn test along one diagonal does not look at the cached destination lists. */
  lemma DiagonalAttackIgnoresMoveLists(g: Grid, ps: seq<Piece>, active: PieceColor, d: Dir, kr: int, kc: int)
    requires IsGrid(g) && OnBoard(kr, kc)
    ensures DiagonalAttack(g, Bare(ps), active, d, kr, kc) == DiagonalAttack(g, ps, active, d, kr, kc)
  {
    StartEntering(d, kr, kc);
    FirstHitIgnoresMoveLists(g, ps, d, kr + DRow(d), kc + DCol(d));
    var bare, full := FirstHit(g, Bare(ps), d, kr + DRow(d), kc + DCol(d)), FirstHit(g, ps, d, kr + DRow(d), kc + DCol(d));
    DiagonalAttackOfHit(g, Bare(ps), active, d, kr, kc);
    DiagonalAttackOfHit(g, ps, active, d, kr, kc);
    HitsAgree(bare, full);
  }

  lemma KnightAttackIgnoresMoveLists(g: Grid, ps: seq<Piece>, active: PieceColor, kr: int, kc: int)
    requires IsGrid(g)
    ensures KnightAttack(g, Bare(ps), active, kr, kc) == KnightAttack(g, ps, active, kr, kc)
  {
    forall rr, cc | OnBoard(rr, cc) ensures KnightAt(g, Bare(ps), active, rr, cc) == KnightAt(g, ps, active, rr, cc) {
      FindLastIgnoresMoveLists(ps, GetSquare(rr, cc));
    }
  }

  /** IsKingInCheck reads colours, types and squares only: forgetting every
      cached destination list changes nothing. */
  lemma CheckIgnoresMoveLists(g: Grid, ps: seq<Piece>, active: PieceColor)
    requires IsGrid(g) && KingListed(ps, active)
    ensures KingListed(Bare(ps), active)
    ensures IsKingInCheck(g, Bare(ps), active) == IsKingInCheck(g, ps, active)
  {
    FindKingIgnoresMoveLists(ps, active);
    var rc := GetArrayIndex(FindKing(ps, active).value.square);
    assert GetArrayIndex(FindKing(Bare(ps), active).value.square) == rc;
    forall d: Dir
      ensures OrthogonalAttack(g, Bare(ps), active, d, rc.0, rc.1) == OrthogonalAttack(g, ps, active, d, rc.0, rc.1)
      ensures DiagonalAttack(g, Bare(ps), active, d, rc.0, rc.1) == DiagonalAttack(g, ps, active, d, rc.0, rc.1)
    {
      OrthogonalAttackIgnoresMoveLists(g, ps, active, d, rc.0, rc.1);
      DiagonalAttackIgnoresMoveLists(g, ps, active, d, rc.0, rc.1);
    }
    KnightAttackIgnoresMoveLists(g, ps, active, rc.0, rc.1);
  }

  /** Only rooks, bishops, queens, pawns and knights give check: on a list
      holding nothing but kings, a king is never in check, even when the
      other king stands next to it. */
  lemma KingsNeverGiveCheck(g: Grid, ps: seq<Piece>, active: PieceColor)
    requires IsGrid(g) && KingListed(ps, active)
    requires forall m :: 0 <= m < |ps| ==> ps[m].pieceType == King
    ensures !IsKingInCheck(g, ps, active)
  {
    var rc := GetArrayIndex(FindKing(ps, active).value.square);
    var kr, kc := rc.0, rc.1;
    forall d: Dir
      ensures !OrthogonalAttack(g, ps, active, d, kr, kc) && !DiagonalAttack(g, ps, active, d, kr, kc)
    {
      StartEntering(d, kr, kc);
    }
    forall rr, cc | OnBoard(rr, cc) ensures !KnightAt(g, ps, active, rr, cc) {
    }
  }

  // ---------------------------------------------------------------- check read off the grid

  /** The first occupied cell met walking along `d` from (r, c) on, while
      the loop guard holds. */
  function FirstOccupied(g: Grid, d: Dir, r: int, c: int): (o: Option<(int, int)>)
    requires IsGrid(g) && Entering(d, r, c)
    ensures o.Some? ==> OnBoard(o.value.0, o.value.1) && g[o.value.0][o.value.1] != ""
    decreases Remaining(d, r, c)
  {
    if !InBounds(d, r, c) then Nothing
    else
      StepInside(d, r, c);
      if g[r][c] != "" then Some((r, c)) else FirstOccupied(g, d, r + DRow(d), c + DCol(d))
  }

  /** The cell holds a piece of type `t` of the side not to move. */
  predicate EnemyOn(g: Grid, active: PieceColor, r: int, c: int, t: PieceType)
    requires IsGrid(g) && OnBoard(r, c)
  {
    g[r][c] == CellCode(Opponent(active), t)
  }

  /** Along `d`, the first occupied cell inside the loop guard holds an enemy
      rook or queen (orthogonal rays), or an enemy bishop or queen, or an
      enemy pawn one row away on a facing diagonal (diagonal rays). */
  predicate RayAttacked(g: Grid, active: PieceColor, d: Dir, kr: int, kc: int)
    requires IsGrid(g) && OnBoard(kr, kc)
  {
    StartEntering(d, kr, kc);
    match FirstOccupied(g, d, kr + DRow(d), kc + DCol(d))
    case Nothing => false
    case Some(rc) =>
      if DRow(d) == 0 || DCol(d) == 0 then
        EnemyOn(g, active, rc.0, rc.1, Rook) || EnemyOn(g, active, rc.0, rc.1, Queen)
      else
        || EnemyOn(g, active, rc.0, rc.1, Bishop) || EnemyOn(g, active, rc.0, rc.1, Queen)
        || (EnemyOn(g, active, rc.0, rc.1, Pawn) && PawnFacing(d, active, kr, rc.0))
  }

  /** The cell (kr, kc) is attacked, read off the cell codes alone: along a
      ray, or by an enemy knight a knight's jump away. */
  predicate SquareAttacked(g: Grid, active: PieceColor, kr: int, kc: int)
    requires IsGrid(g) && OnBoard(kr, kc)
  {
    || (exists d: Dir :: RayAttacked(g, active, d, kr, kc))
    || (exists rr, cc :: 0 <= rr < 8 && 0 <= cc < 8 && KnightOffset(rr - kr, cc - kc) && EnemyOn(g, active, rr, cc, Knight))
  }

  /** (kr, kc) is the first cell in row-major order holding the king of `color`. */
  predicate FirstKingCell(g: Grid, color: PieceColor, kr: int, kc: int)
    requires IsGrid(g)
  {
    && OnBoard(kr, kc) && g[kr][kc] == KingLetter(color)
    && forall r, c :: 0 <= r < 8 && 0 <= c < 8 && Before(r, c, kr, kc) ==> g[r][c] != KingLetter(color)
  }

  /** The side to move is in check, read off the grid: its first king in row-major order is attacked. */
  predicate InCheckOnGrid(g: Grid, active: PieceColor)
    requires IsGrid(g)
  {
    exists kr, kc :: 0 <= kr < 8 && 0 <= kc < 8 && FirstKingCell(g, active, kr, kc) && SquareAttacked(g, active, kr, kc)
  }

  /** The ray lookup's answer for an occupied cell: the piece built from it, and its row. */
  function CellHit(g: Grid, o: Option<(int, int)>): Option<(Piece, int)>
    requires IsGrid(g) && CellsAreChars(g)
    requires o.Some? ==> OnBoard(o.value.0, o.value.1) && g[o.value.0][o.value.1] != ""
  {
    match o
    case Nothing => Nothing
    case Some(rc) => Some((PieceFromCell(g, rc.0, rc.1), rc.0))
  }

  /** On the list built from the grid, the ray lookup meets the first occupied cell. */
  lemma {:induction false} FirstHitOnPiecesOf(g: Grid, d: Dir, r: int, c: int)
    requires IsGrid(g) && CellsAreChars(g) && Entering(d, r, c)
    ensures FirstHit(g, PiecesOf(g), d, r, c) == CellHit(g, FirstOccupied(g, d, r, c))
    decreases Remaining(d, r, c)
  {
    if InBounds(d, r, c) {
      StepInside(d, r, c);
      if g[r][c] != "" {
        LookupOnPiecesOf(g, r, c);
      } else {
        FirstHitOnPiecesOf(g, d, r + DRow(d), c + DCol(d));
      }
    }
  }

  /** The first occupied cell along `d` from next to (kr, kc), if any, holds a piece letter. */
  predicate HitValid(g: Grid, d: Dir, kr: int, kc: int)
    requires IsGrid(g) && OnBoard(kr, kc)
  {
    StartEntering(d, kr, kc);
    var o := FirstOccupied(g, d, kr + DRow(d), kc + DCol(d));
    o.Some? ==> ValidCell(g[o.value.0][o.value.1])
  }

  lemma HitValidOfCellsValid(g: Grid, d: Dir, kr: int, kc: int)
    requires CellsValid(g) && OnBoard(kr, kc)
    ensures HitValid(g, d, kr, kc)
  {
    StartEntering(d, kr, kc);
    var o := FirstOccupied(g, d, kr + DRow(d), kc + DCol(d));
    if o.Some? {
      assert ValidCell(g[o.value.0][o.value.1]);
    }
  }

  /** The piece built from an occupied cell is an enemy of type `t` exactly when the cell holds that enemy's code. */
  lemma EnemyPieceFromCell(g: Grid, active: PieceColor, r: int, c: int, t: PieceType)
    requires IsGrid(g) && CellsAreChars(g) && OnBoard(r, c) && g[r][c] != "" && ValidCell(g[r][c])
    ensures PieceFromCell(g, r, c).color != active && PieceFromCell(g, r, c).pieceType == t <==> EnemyOn(g, active, r, c, t)
  {
    CellCodeFacts(g[r][c], Opponent(active), t);
  }

  /** OrthogonalAttack in terms of the ray lookup's answer. */
  lemma OrthogonalAttackOfHit(g: Grid, ps: seq<Piece>, active: PieceColor, d: Dir, kr: int, kc: int)
    requires IsGrid(g) && OnBoard(kr, kc)
    ensures Entering(d, kr + DRow(d), kc + DCol(d))
    ensures OrthogonalAttack(g, ps, active, d, kr, kc) <==>
      && FirstHit(g, ps, d, kr + DRow(d), kc + DCol(d)).Some?
      && FirstHit(g, ps, d, kr + DRow(d), kc + DCol(d)).value.0.color != active
      && FirstHit(g, ps, d, kr + DRow(d), kc + DCol(d)).value.0.pieceType in {Rook, Queen}
  {
    StartEntering(d, kr, kc);
  }

  /** DiagonalAttack in terms of the ray lookup's answer. */
  lemma DiagonalAttackOfHit(g: Grid, ps: seq<Piece>, active: PieceColor, d: Dir, kr: int, kc: int)
    requires IsGrid(g) && OnBoard(kr, kc)
    ensures Entering(d, kr + DRow(d), kc + DCol(d))
    ensures DiagonalAttack(g, ps, active, d, kr, kc) <==>
      && FirstHit(g, ps, d, kr + DRow(d), kc + DCol(d)).Some?
      && FirstHit(g, ps, d, kr + DRow(d), kc + DCol(d)).value.0.color != active
      && (|| FirstHit(g, ps, d, kr + DRow(d), kc + DCol(d)).value.0.pieceType in {Bishop, Queen}
          || (&& FirstHit(g, ps, d, kr + DRow(d), kc + DCol(d)).value.0.pieceType == Pawn
              && PawnFacing(d, active, kr, FirstHit(g, ps, d, kr + DRow(d), kc + DCol(d)).value.1)))
  {
    StartEntering(d, kr, kc);
  }

  /** RayAttacked in terms of the first occupied cell. */
  lemma RayAttackedOfOccupied(g: Grid, active: PieceColor, d: Dir, kr: int, kc: int)
    requires IsGrid(g) && OnBoard(kr, kc)
    ensures Entering(d, kr + DRow(d), kc + DCol(d))
    ensures RayAttacked(g, active, d, kr, kc) <==>
      var o := FirstOccupied(g, d, kr + DRow(d), kc + DCol(d));
      && o.Some?
      && if DRow(d) == 0 || DCol(d) == 0 then
           EnemyOn(g, active, o.value.0, o.value.1, Rook) || EnemyOn(g, active, o.value.0, o.value.1, Queen)
         else
           || EnemyOn(g, active, o.value.0, o.value.1, Bishop) || EnemyOn(g, active, o.value.0, o.value.1, Queen)
           || (EnemyOn(g, active, o.value.0, o.value.1, Pawn) && PawnFacing(d, active, kr, o.value.0))
  {
    StartEntering(d, kr, kc);
  }

  /** RayAttacked along an orthogonal ray: an enemy rook or queen on its first occupied cell. */
  lemma RayAttackedOrthogonal(g: Grid, active: PieceColor, d: Dir, kr: int, kc: int)
    requires IsGrid(g) && OnBoard(kr, kc) && (DRow(d) == 0 || DCol(d) == 0)
    ensures Entering(d, kr + DRow(d), kc + DCol(d))
    ensures RayAttacked(g, active, d, kr, kc) <==>
      var o := FirstOccupied(g, d, kr + DRow(d), kc + DCol(d));
      o.Some? && (EnemyOn(g, active, o.value.0, o.value.1, Rook) || EnemyOn(g, active, o.value.0, o.value.1, Queen))
  {
    RayAttackedOfOccupied(g, active, d, kr, kc);
  }

  /** RayAttacked along a diagonal: an enemy bishop or queen, or an enemy pawn facing the cell, on its first occupied cell. */
  lemma RayAttackedDiagonal(g: Grid, active: PieceColor, d: Dir, kr: int, kc: int)
    requires IsGrid(g) && OnBoard(kr, kc) && DRow(d) != 0 && DCol(d) != 0
    ensures Entering(d, kr + DRow(d), kc + DCol(d))
    ensures RayAttacked(g, active, d, kr, kc) <==>
      var o := FirstOccupied(g, d, kr + DRow(d), kc + DCol(d));
      && o.Some?
      && (|| EnemyOn(g, active, o.value.0, o.value.1, Bishop) || EnemyOn(g, active, o.value.0, o.value.1, Queen)
          || (EnemyOn(g, active, o.value.0, o.value.1, Pawn) && PawnFacing(d, active, kr, o.value.0)))
  {
    RayAttackedOfOccupied(g, active, d, kr, kc);
  }

  /** When the ray lookup answers with the first occupied cell's piece, the
      rook and queen test reads that cell's code. */
  lemma OrthogonalAttackOfCell(g: Grid, ps: seq<Piece>, active: PieceColor, d: Dir, kr: int, kc: int)
    requires IsGrid(g) && CellsAreChars(g) && OnBoard(kr, kc) && HitValid(g, d, kr, kc)
    requires Entering(d, kr + DRow(d), kc + DCol(d))
    requires FirstHit(g, ps, d, kr + DRow(d), kc + DCol(d)) == CellHit(g, FirstOccupied(g, d, kr + DRow(d), kc + DCol(d)))
    ensures OrthogonalAttack(g, ps, active, d, kr, kc) <==>
      var o := FirstOccupied(g, d, kr + DRow(d), kc + DCol(d));
      o.Some? && (EnemyOn(g, active, o.value.0, o.value.1, Rook) || EnemyOn(g, active, o.value.0, o.value.1, Queen))
  {
    OrthogonalAttackOfHit(g, ps, active, d, kr, kc);
    var o := FirstOccupied(g, d, kr + DRow(d), kc + DCol(d));
    if o.Some? {
      EnemyPieceFromCell(g, active, o.value.0, o.value.1, Rook);
      EnemyPieceFromCell(g, active, o.value.0, o.value.1, Queen);
    }
  }

  /** When the ray lookup answers with the first occupied cell's piece, the
      bishop, queen and pawn test reads that cell's code. */
  lemma DiagonalAttackOfCell(g: Grid, ps: seq<Piece>, active: PieceColor, d: Dir, kr: int, kc: int)
    requires IsGrid(g) && CellsAreChars(g) && OnBoard(kr, kc) && HitValid(g, d, kr, kc)
    requires Entering(d, kr + DRow(d), kc + DCol(d))
    requires FirstHit(g, ps, d, kr + DRow(d), kc + DCol(d)) == CellHit(g, FirstOccupied(g, d, kr + DRow(d), kc + DCol(d)))
    ensures DiagonalAttack(g, ps, active, d, kr, kc) <==>
      var o := FirstOccupied(g, d, kr + DRow(d), kc + DCol(d));
      && o.Some?
      && (|| EnemyOn(g, active, o.value.0, o.value.1, Bishop) || EnemyOn(g, active, o.value.0, o.value.1, Queen)
          || (EnemyOn(g, active, o.value.0, o.value.1, Pawn) && PawnFacing(d, active, kr, o.value.0)))
  {
    DiagonalAttackOfHit(g, ps, active, d, kr, kc);
    var o := FirstOccupied(g, d, kr + DRow(d), kc + DCol(d));
    if o.Some? {
      EnemyPieceFromCell(g, active, o.value.0, o.value.1, Bishop);
      EnemyPieceFromCell(g, active, o.value.0, o.value.1, Queen);
      EnemyPieceFromCell(g, active, o.value.0, o.value.1, Pawn);
    }
  }

  /** When the ray lookup answers with the first occupied cell's piece, the
      rook and queen test is RayAttacked. */
  lemma OrthogonalAttackOfRay(g: Grid, ps: seq<Piece>, active: PieceColor, d: Dir, kr: int, kc: int)
    requires IsGrid(g) && CellsAreChars(g) && OnBoard(kr, kc) && HitValid(g, d, kr, kc) && (DRow(d) == 0 || DCol(d) == 0)
    requires Entering(d, kr + DRow(d), kc + DCol(d))
    requires FirstHit(g, ps, d, kr + DRow(d), kc + DCol(d)) == CellHit(g, FirstOccupied(g, d, kr + DRow(d), kc + DCol(d)))
    ensures OrthogonalAttack(g, ps, active, d, kr, kc) <==> RayAttacked(g, active, d, kr, kc)
  {
    OrthogonalAttackOfCell(g, ps, active, d, kr, kc);
    RayAttackedOrthogonal(g, active, d, kr, kc);
  }

  /** On the list built from a playable grid, the ray lookup answers with the
      first occupied cell's piece, and that cell holds a piece letter. */
  lemma RayLookupOnGrid(g: Grid, d: Dir, kr: int, kc: int)
    requires CellsValid(g) && OnBoard(kr, kc)
    ensures CellsAreChars(g) && HitValid(g, d, kr, kc) && Entering(d, kr + DRow(d), kc + DCol(d))
    ensures FirstHit(g, PiecesOf(g), d, kr + DRow(d), kc + DCol(d)) == CellHit(g, FirstOccupied(g, d, kr + DRow(d), kc + DCol(d)))
  {
    HitValidOfCellsValid(g, d, kr, kc);
    ValidCellsAreChars(g);
    StartEntering(d, kr, kc);
    var r, c := kr + DRow(d), kc + DCol(d);
    assert FirstHit(g, PiecesOf(g), d, r, c) == CellHit(g, FirstOccupied(g, d, r, c)) by {
      FirstHitOnPiecesOf(g, d, r, c);
    }
  }

  /** On the list built from the grid, the rook and queen test along an orthogonal ray is RayAttacked. */
  lemma OrthogonalAttackOnGrid(g: Grid, active: PieceColor, d: Dir, kr: int, kc: int)
    requires CellsValid(g) && OnBoard(kr, kc) && (DRow(d) == 0 || DCol(d) == 0)
    ensures OrthogonalAttack(g, PiecesOf(g), active, d, kr, kc) <==> RayAttacked(g, active, d, kr, kc)
  {
    RayLookupOnGrid(g, d, kr, kc);
    OrthogonalAttackOfRay(g, PiecesOf(g), active, d, kr, kc);
  }

  /** When the ray lookup answers with the first occupied cell's piece, the
      bishop, queen and pawn test is RayAttacked. */
  lemma DiagonalAttackOfRay(g: Grid, ps: seq<Piece>, active: PieceColor, d: Dir, kr: int, kc: int)
    requires IsGrid(g) && CellsAreChars(g) && OnBoard(kr, kc) && HitValid(g, d, kr, kc) && DRow(d) != 0 && DCol(d) != 0
    requires Entering(d, kr + DRow(d), kc + DCol(d))
    requires FirstHit(g, ps, d, kr + DRow(d), kc + DCol(d)) == CellHit(g, FirstOccupied(g, d, kr + DRow(d), kc + DCol(d)))
    ensures DiagonalAttack(g, ps, active, d, kr, kc) <==> RayAttacked(g, active, d, kr, kc)
  {
    DiagonalAttackOfCell(g, ps, active, d, kr, kc);
    RayAttackedDiagonal(g, active, d, kr, kc);
  }

  /** On the list built from the grid, the bishop, queen and pawn test along a diagonal is RayAttacked. */
  lemma DiagonalAttackOnGrid(g: Grid, active: PieceColor, d: Dir, kr: int, kc: int)
    requires CellsValid(g) && OnBoard(kr, kc) && DRow(d) != 0 && DCol(d) != 0
    ensures DiagonalAttack(g, PiecesOf(g), active, d, kr, kc) <==> RayAttacked(g, active, d, kr, kc)
  {
    RayLookupOnGrid(g, d, kr, kc);
    DiagonalAttackOfRay(g, PiecesOf(g), active, d, kr, kc);
  }

  /** On the list built from the grid, the knight test looks for an enemy knight's code. */
  lemma KnightAttackOnGrid(g: Grid, active: PieceColor, kr: int, kc: int)
    requires CellsValid(g)
    ensures KnightAttack(g, PiecesOf(g), active, kr, kc) <==>
      exists rr, cc :: 0 <= rr < 8 && 0 <= cc < 8 && KnightOffset(rr - kr, cc - kc) && EnemyOn(g, active, rr, cc, Knight)
  {
    ValidCellsAreChars(g);
    forall rr, cc | OnBoard(rr, cc)
      ensures KnightAt(g, PiecesOf(g), active, rr, cc) <==> EnemyOn(g, active, rr, cc, Knight)
    {
      if g[rr][cc] != "" {
        LookupOnPiecesOf(g, rr, cc);
        EnemyPieceFromCell(g, active, rr, cc, Knight);
      }
    }
  }

  /** A grid with a king of `color` lists one: IsKingInCheck finds it. */
  lemma KingListedOfHasKing(g: Grid, color: PieceColor)
    requires CellsValid(g) && HasKing(g, color)
    ensures KingListed(PiecesOf(g), color)
  {
    ValidCellsAreChars(g);
    var r, c :| 0 <= r < 8 && 0 <= c < 8 && g[r][c] == KingLetter(color);
    CellListed(g, r, c);
    LetterFacts(g[r][c]);
    var ps := PiecesOf(g);
    var p := PieceFromCell(g, r, c);
    assert p.pieceType == King && p.color == color;
    var m :| 0 <= m < |ps| && ps[m] == p;
    var k := FindKing(ps, color).value;
    ListedPiece(g, k);
  }

  /** Two pieces of the list built from the grid stand in row-major order of their squares. */
  lemma PiecesOfOrdered(g: Grid, m: int, n: int)
    requires IsGrid(g) && CellsAreChars(g) && 0 <= m < n < |PiecesOf(g)|
    ensures IsSquare(PiecesOf(g)[m].square) && IsSquare(PiecesOf(g)[n].square)
    ensures ScanOrdered(PiecesOf(g)[m], PiecesOf(g)[n])
  {
    PiecesOfSpec(g);
  }

  /** A cell holding the king of `color` gives a listed king of `color` standing on that cell. */
  lemma KingCellListed(g: Grid, color: PieceColor, r: int, c: int)
    requires IsGrid(g) && CellsAreChars(g) && OnBoard(r, c) && g[r][c] == KingLetter(color)
    ensures var p := PieceFromCell(g, r, c);
      p in PiecesOf(g) && p.pieceType == King && p.color == color && GetArrayIndex(p.square) == (r, c)
  {
    KingLetterCode(color);
    CellCodeFacts(g[r][c], color, King);
    CellListed(g, r, c);
    SquareIndexRoundTrip(r, c);
  }

  /** No cell holding the king of `color` comes before the square of the king FindKing returns. */
  lemma NoKingBeforeFound(g: Grid, color: PieceColor, r: int, c: int)
    requires CellsValid(g) && KingListed(PiecesOf(g), color)
    requires OnBoard(r, c) && g[r][c] == KingLetter(color)
    ensures var rc := GetArrayIndex(FindKing(PiecesOf(g), color).value.square);
      !Before(r, c, rc.0, rc.1)
  {
    ValidCellsAreChars(g);
    var ps := PiecesOf(g);
    var p := PieceFromCell(g, r, c);
    KingCellListed(g, color, r, c);
    var n :| 0 <= n < |ps| && ps[n] == p;
    FindKingBefore(ps, color, n);
    var m :| 0 <= m <= n && ps[m] == FindKing(ps, color).value;
    if m < n {
      PiecesOfOrdered(g, m, n);
    }
  }

  /** The king IsKingInCheck takes from the list built from the grid stands
      on the first cell in row-major order holding that king's code. */
  lemma FoundKingIsFirstKingCell(g: Grid, color: PieceColor)
    requires CellsValid(g) && HasKing(g, color)
    ensures KingListed(PiecesOf(g), color)
    ensures var rc := GetArrayIndex(FindKing(PiecesOf(g), color).value.square);
      FirstKingCell(g, color, rc.0, rc.1)
  {
    ValidCellsAreChars(g);
    KingListedOfHasKing(g, color);
    var k := FindKing(PiecesOf(g), color).value;
    ListedPiece(g, k);
    var rc := GetArrayIndex(k.square);
    KingLetterCode(color);
    CellCodeFacts(g[rc.0][rc.1], color, King);
    forall r, c | OnBoard(r, c) && g[r][c] == KingLetter(color) ensures !Before(r, c, rc.0, rc.1) {
      NoKingBeforeFound(g, color, r, c);
    }
  }

  /** Two first king cells of one colour are the same cell. */
  lemma FirstKingCellUnique(g: Grid, color: PieceColor, r: int, c: int, r': int, c': int)
    requires IsGrid(g) && FirstKingCell(g, color, r, c) && FirstKingCell(g, color, r', c')
    ensures r == r' && c == c'
  {
    assert !Before(r, c, r', c') && !Before(r', c', r, c);
  }

  /** On the list built from the grid, the nine tests of IsKingInCheck for
      a king on (kr, kc) say exactly that the cell is attacked on the grid. */
  lemma AttackedAtOnGrid(g: Grid, active: PieceColor, kr: int, kc: int)
    requires CellsValid(g) && OnBoard(kr, kc)
    ensures AttackedAt(g, PiecesOf(g), active, kr, kc) <==> SquareAttacked(g, active, kr, kc)
  {
    OrthogonalAttackOnGrid(g, active, Down, kr, kc);
    OrthogonalAttackOnGrid(g, active, Up, kr, kc);
    OrthogonalAttackOnGrid(g, active, Right, kr, kc);
    OrthogonalAttackOnGrid(g, active, Left, kr, kc);
    DiagonalAttackOnGrid(g, active, RightDown, kr, kc);
    DiagonalAttackOnGrid(g, active, RightUp, kr, kc);
    DiagonalAttackOnGrid(g, active, LeftUp, kr, kc);
    DiagonalAttackOnGrid(g, active, LeftDown, kr, kc);
    KnightAttackOnGrid(g, active, kr, kc);
    if exists d: Dir :: RayAttacked(g, active, d, kr, kc) {
      var d: Dir :| RayAttacked(g, active, d, kr, kc);
      assert AttackedAt(g, PiecesOf(g), active, kr, kc) by {
        match d
        case Down =>
        case Up =>
        case Right =>
        case Left =>
        case RightDown =>
        case RightUp =>
        case LeftUp =>
        case LeftDown =>
      }
    }
  }

  /** IsKingInCheck, on the list the board builds from its grid, says
      exactly that the first king of the side to move is attacked on the grid. */
  lemma KingInCheckOnGrid(g: Grid, active: PieceColor)
    requires CellsValid(g) && HasKing(g, active)
    ensures KingListed(PiecesOf(g), active)
    ensures IsKingInCheck(g, PiecesOf(g), active) <==> InCheckOnGrid(g, active)
  {
    FoundKingIsFirstKingCell(g, active);
    var rc := GetArrayIndex(FindKing(PiecesOf(g), active).value.square);
    AttackedAtOnGrid(g, active, rc.0, rc.1);
    forall kr, kc | 0 <= kr < 8 && 0 <= kc < 8 && FirstKingCell(g, active, kr, kc) ensures kr == rc.0 && kc == rc.1 {
      FirstKingCellUnique(g, active, rc.0, rc.1, kr, kc);
    }
  }

  /** The same cells are occupied in both grids. */
  predicate SameOccupancy(g: Grid, h: Grid)
    requires IsGrid(g) && IsGrid(h)
  {
    forall i, j :: 0 <= i < 8 && 0 <= j < 8 ==> (g[i][j] == "") == (h[i][j] == "")
  }

  /** The cell (i, j) holds the king of `active` in both grids or in neither,
      and an enemy piece of each type that checks in both or in neither. */
  predicate SameCellForCheck(g: Grid, h: Grid, active: PieceColor, i: int, j: int)
    requires IsGrid(g) && IsGrid(h) && OnBoard(i, j)
  {
    && (g[i][j] == KingLetter(active)) == (h[i][j] == KingLetter(active))
    && (EnemyOn(g, active, i, j, Pawn) <==> EnemyOn(h, active, i, j, Pawn))
    && (EnemyOn(g, active, i, j, Knight) <==> EnemyOn(h, active, i, j, Knight))
    && (EnemyOn(g, active, i, j, Bishop) <==> EnemyOn(h, active, i, j, Bishop))
    && (EnemyOn(g, active, i, j, Rook) <==> EnemyOn(h, active, i, j, Rook))
    && (EnemyOn(g, active, i, j, Queen) <==> EnemyOn(h, active, i, j, Queen))
  }

  /** Two grids agree on all that check detection for `active` reads: which
      cells are occupied, where the enemy's pawns, knights, bishops, rooks and
      queens stand, and where the king of `active` stands. */
  predicate SameForCheck(g: Grid, h: Grid, active: PieceColor)
    requires IsGrid(g) && IsGrid(h)
  {
    && SameOccupancy(g, h)
    && forall i, j :: 0 <= i < 8 && 0 <= j < 8 ==> SameCellForCheck(g, h, active, i, j)
  }

  lemma {:induction false} FirstOccupiedSameOccupancy(g: Grid, h: Grid, d: Dir, r: int, c: int)
    requires IsGrid(g) && IsGrid(h) && SameOccupancy(g, h) && Entering(d, r, c)
    ensures FirstOccupied(g, d, r, c) == FirstOccupied(h, d, r, c)
    decreases Remaining(d, r, c)
  {
    if InBounds(d, r, c) {
      StepInside(d, r, c);
      FirstOccupiedSameOccupancy(g, h, d, r + DRow(d), c + DCol(d));
    }
  }

  /** Cells that agree on what check detection reads give the same verdict as the first occupied cell of a ray. */
  lemma SameCellSameVerdict(g: Grid, h: Grid, active: PieceColor, d: Dir, kr: int, rr: int, cc: int)
    requires IsGrid(g) && IsGrid(h) && OnBoard(rr, cc) && SameCellForCheck(g, h, active, rr, cc)
    ensures (if DRow(d) == 0 || DCol(d) == 0 then
               EnemyOn(g, active, rr, cc, Rook) || EnemyOn(g, active, rr, cc, Queen)
             else
               || EnemyOn(g, active, rr, cc, Bishop) || EnemyOn(g, active, rr, cc, Queen)
               || (EnemyOn(g, active, rr, cc, Pawn) && PawnFacing(d, active, kr, rr)))
        <==>
            (if DRow(d) == 0 || DCol(d) == 0 then
               EnemyOn(h, active, rr, cc, Rook) || EnemyOn(h, active, rr, cc, Queen)
             else
               || EnemyOn(h, active, rr, cc, Bishop) || EnemyOn(h, active, rr, cc, Queen)
               || (EnemyOn(h, active, rr, cc, Pawn) && PawnFacing(d, active, kr, rr)))
  {
  }

  /** A ray gives the same verdict in two grids whose first occupied cells
      along it coincide and agree on what check detection reads. */
  lemma RayAttackedSameHit(g: Grid, h: Grid, active: PieceColor, d: Dir, kr: int, kc: int)
    requires IsGrid(g) && IsGrid(h) && OnBoard(kr, kc) && Entering(d, kr + DRow(d), kc + DCol(d))
    requires FirstOccupied(g, d, kr + DRow(d), kc + DCol(d)) == FirstOccupied(h, d, kr + DRow(d), kc + DCol(d))
    requires var o := FirstOccupied(g, d, kr + DRow(d), kc + DCol(d));
      o.Some? ==> SameCellForCheck(g, h, active, o.value.0, o.value.1)
    ensures RayAttacked(g, active, d, kr, kc) <==> RayAttacked(h, active, d, kr, kc)
  {
    RayAttackedOfOccupied(g, active, d, kr, kc);
    RayAttackedOfOccupied(h, active, d, kr, kc);
    var o := FirstOccupied(g, d, kr + DRow(d), kc + DCol(d));
    if o.Some? {
      SameCellSameVerdict(g, h, active, d, kr, o.value.0, o.value.1);
    }
  }

  lemma RayAttackedSameForCheck(g: Grid, h: Grid, active: PieceColor, d: Dir, kr: int, kc: int)
    requires IsGrid(g) && IsGrid(h) && SameForCheck(g, h, active) && OnBoard(kr, kc)
    ensures RayAttacked(g, active, d, kr, kc) <==> RayAttacked(h, active, d, kr, kc)
  {
    StartEntering(d, kr, kc);
    FirstOccupiedSameForCheck(g, h, active, d, kr + DRow(d), kc + DCol(d));
    RayAttackedSameHit(g, h, active, d, kr, kc);
  }

  /** Grids that agree on what check detection reads have the same first occupied cell along a ray, and agree on it. */
  lemma FirstOccupiedSameForCheck(g: Grid, h: Grid, active: PieceColor, d: Dir, r: int, c: int)
    requires IsGrid(g) && IsGrid(h) && SameForCheck(g, h, active) && Entering(d, r, c)
    ensures FirstOccupied(g, d, r, c) == FirstOccupied(h, d, r, c)
    ensures var o := FirstOccupied(g, d, r, c);
      o.Some? ==> SameCellForCheck(g, h, active, o.value.0, o.value.1)
  {
    FirstOccupiedSameOccupancy(g, h, d, r, c);
    var o := FirstOccupied(g, d, r, c);
    if o.Some? {
      assert SameCellForCheck(g, h, active, o.value.0, o.value.1);
    }
  }

  lemma SquareAttackedSameForCheck(g: Grid, h: Grid, active: PieceColor, kr: int, kc: int)
    requires IsGrid(g) && IsGrid(h) && SameForCheck(g, h, active) && OnBoard(kr, kc)
    ensures SquareAttacked(g, active, kr, kc) <==> SquareAttacked(h, active, kr, kc)
  {
    forall d: Dir ensures RayAttacked(g, active, d, kr, kc) <==> RayAttacked(h, active, d, kr, kc) {
      RayAttackedSameForCheck(g, h, active, d, kr, kc);
    }
    forall rr, cc | 0 <= rr < 8 && 0 <= cc < 8 ensures EnemyOn(g, active, rr, cc, Knight) <==> EnemyOn(h, active, rr, cc, Knight) {
      assert SameCellForCheck(g, h, active, rr, cc);
    }
  }

  /** Grids that agree on what check detection reads agree on whether the side to move is in check. */
  lemma InCheckSameForCheck(g: Grid, h: Grid, active: PieceColor)
    requires IsGrid(g) && IsGrid(h) && SameForCheck(g, h, active)
    ensures InCheckOnGrid(g, active) <==> InCheckOnGrid(h, active)
  {
    forall r, c | 0 <= r < 8 && 0 <= c < 8 ensures (g[r][c] == KingLetter(active)) == (h[r][c] == KingLetter(active)) {
      assert SameCellForCheck(g, h, active, r, c);
    }
    forall kr, kc | OnBoard(kr, kc)
      ensures FirstKingCell(g, active, kr, kc) <==> FirstKingCell(h, active, kr, kc)
      ensures SquareAttacked(g, active, kr, kc) <==> SquareAttacked(h, active, kr, kc)
    {
      SquareAttackedSameForCheck(g, h, active, kr, kc);
    }
  }

  /** Replacing the enemy king by a rook of the side to move changes nothing check detection reads. */
  lemma EnemyKingToRook(g: Grid, active: PieceColor, r: int, c: int)
    requires IsGrid(g) && OnBoard(r, c) && g[r][c] == KingLetter(Opponent(active))
    ensures SameForCheck(g, SetCell(g, r, c, CellCode(active, Rook)), active)
  {
    var h := SetCell(g, r, c, CellCode(active, Rook));
    KingLetterCode(active);
    KingLetterCode(Opponent(active));
    forall t ensures g[r][c] != CellCode(Opponent(active), t) || t == King
      ensures h[r][c] != CellCode(Opponent(active), t) && h[r][c] != CellCode(active, King)
    {
      CellCodeInjective(Opponent(active), King, Opponent(active), t);
      CellCodeInjective(active, Rook, Opponent(active), t);
      CellCodeInjective(active, Rook, active, King);
    }
    CellCodeInjective(Opponent(active), King, active, King);
    assert SameCellForCheck(g, h, active, r, c);
    forall i, j | 0 <= i < 8 && 0 <= j < 8 && (i != r || j != c)
      ensures (g[i][j] == "") == (h[i][j] == "") && SameCellForCheck(g, h, active, i, j)
    {
      assert h[i][j] == g[i][j];
    }
  }

  /** An enemy king gives no check: IsKingInCheck answers the same when the
      enemy king is replaced by a rook of the side to move, a piece that
      attacks nothing and blocks the same rays. */
  lemma EnemyKingGivesNoCheck(g: Grid, active: PieceColor, r: int, c: int)
    requires CellsValid(g) && HasKing(g, active)
    requires OnBoard(r, c) && g[r][c] == KingLetter(Opponent(active))
    ensures CellsValid(SetCell(g, r, c, CellCode(active, Rook)))
    ensures HasKing(SetCell(g, r, c, CellCode(active, Rook)), active)
    ensures KingListed(PiecesOf(g), active) && KingListed(PiecesOf(SetCell(g, r, c, CellCode(active, Rook))), active)
    ensures IsKingInCheck(g, PiecesOf(g), active) <==>
      IsKingInCheck(SetCell(g, r, c, CellCode(active, Rook)), PiecesOf(SetCell(g, r, c, CellCode(active, Rook))), active)
  {
    var h := SetCell(g, r, c, CellCode(active, Rook));
    var kr, kc :| 0 <= kr < 8 && 0 <= kc < 8 && g[kr][kc] == KingLetter(active);
    assert h[kr][kc] == KingLetter(active);
    EnemyKingToRook(g, active, r, c);
    KingInCheckOnGrid(g, active);
    KingInCheckOnGrid(h, active);
    InCheckSameForCheck(g, h, active);
  }

  /** Appending nothing changes nothing. */
  lemma AppendEmpty<T>(s: seq<T>)
    ensures s + [] == s && [] + s == s
  {
  }

  lemma AppendAssoc<T>(a: seq<T>, b: seq<T>, c: seq<T>)
    ensures a + (b + c) == a + b + c
  {
  }
}
