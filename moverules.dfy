/** Pseudo-legal move generation and check detection as pure functions
    over a grid (Chess/Moves.cs). The loop-based generators of the Board
    module are proved equal to these. */
module MoveRules {
  import opened Pieces
  import opened Text
  import opened Util
  import opened Positions

  /** `IsOppositeColor`: a lower-case letter is an enemy of White, an upper-case one of Black. */
  predicate IsOppositeColor(color: PieceColor, ch: char)
  {
    if color == White then IsLower(ch) else IsUpper(ch)
  }

  /** A destination the generators accept: on the board, empty or holding an enemy. */
  predicate Target(g: Grid, color: PieceColor, r: int, c: int)
    requires IsGrid(g) && CellsAreChars(g)
  {
    OnBoard(r, c) && (g[r][c] == "" || IsOppositeColor(color, g[r][c][0]))
  }

  // ---------------------------------------------------------------- rays

  /** The eight walking directions of the rook, bishop and queen loops. */
  datatype Dir = Down | Up | Right | Left | RightDown | RightUp | LeftUp | LeftDown

  function DRow(d: Dir): int
  {
    match d
    case Down | RightDown | LeftDown => 1
    case Up | RightUp | LeftUp => -1
    case Right | Left => 0
  }

  function DCol(d: Dir): int
  {
    match d
    case Right | RightDown | RightUp => 1
    case Left | LeftUp | LeftDown => -1
    case Down | Up => 0
  }

  /** The loop guards as the source writes them; "left-down" stops at `row < 7`. */
  predicate InBounds(d: Dir, r: int, c: int)
  {
    match d
    case Down => r < 8
    case Up => r >= 0
    case Right => c < 8
    case Left => c >= 0
    case RightDown => r < 8 && c < 8
    case RightUp => r >= 0 && c < 8
    case LeftUp => r >= 0 && c >= 0
    case LeftDown => r < 7 && c >= 0
  }

  /** Where a walk can be: a coordinate that moves may have just left the
      board on the side the walk heads to; the others are on the board. */
  predicate Entering(d: Dir, r: int, c: int)
  {
    Low(DRow(d)) <= r <= High(DRow(d)) && Low(DCol(d)) <= c <= High(DCol(d))
  }

  /** The least and the greatest coordinate a walk with step `k` can be at. */
  function Low(k: int): int
  {
    if k == -1 then -1 else 0
  }

  function High(k: int): int
  {
    if k == 1 then 8 else 7
  }

  function Remaining(d: Dir, r: int, c: int): nat
    requires Entering(d, r, c)
  {
    if DRow(d) == 1 then 8 - r
    else if DRow(d) == -1 then r + 1
    else if DCol(d) == 1 then 8 - c
    else c + 1
  }

  lemma StepInside(d: Dir, r: int, c: int)
    requires Entering(d, r, c) && InBounds(d, r, c)
    ensures OnBoard(r, c)
    ensures Entering(d, r + DRow(d), c + DCol(d))
    ensures Remaining(d, r + DRow(d), c + DCol(d)) < Remaining(d, r, c)
  {
  }

  lemma StartEntering(d: Dir, r: int, c: int)
    requires OnBoard(r, c)
    ensures Entering(d, r + DRow(d), c + DCol(d))
  {
  }

  /** The row and column `m` steps along `d` from (r, c). */
  function RowAt(d: Dir, r: int, m: int): int
  {
    if DRow(d) == 1 then r + m else if DRow(d) == -1 then r - m else r
  }

  function ColAt(d: Dir, c: int, m: int): int
  {
    if DCol(d) == 1 then c + m else if DCol(d) == -1 then c - m else c
  }

  /** The squares a slider reaches from (r, c) on, walking along `d`: each
      empty cell, then the first occupied cell if it holds an enemy. */
  function Ray(g: Grid, color: PieceColor, d: Dir, r: int, c: int): seq<string>
    requires IsGrid(g) && CellsAreChars(g) && Entering(d, r, c)
    decreases Remaining(d, r, c)
  {
    if !InBounds(d, r, c) then []
    else
      StepInside(d, r, c);
      if g[r][c] == "" then [GetSquare(r, c)] + Ray(g, color, d, r + DRow(d), c + DCol(d))
      else if IsOppositeColor(color, g[r][c][0]) then [GetSquare(r, c)]
      else []
  }

  /** The ray of a piece standing on (r, c). */
  function RayFrom(g: Grid, color: PieceColor, d: Dir, r: int, c: int): seq<string>
    requires IsGrid(g) && CellsAreChars(g) && OnBoard(r, c)
  {
    StartEntering(d, r, c);
    Ray(g, color, d, r + DRow(d), c + DCol(d))
  }

  /** GetRookMoves: down, up, right, left. */
  function RookMoves(g: Grid, color: PieceColor, r: int, c: int): seq<string>
    requires IsGrid(g) && CellsAreChars(g) && OnBoard(r, c)
  {
    RayFrom(g, color, Down, r, c) + RayFrom(g, color, Up, r, c)
      + RayFrom(g, color, Right, r, c) + RayFrom(g, color, Left, r, c)
  }

  /** GetBishopMoves: right-down, right-up, left-up, left-down. */
  function BishopMoves(g: Grid, color: PieceColor, r: int, c: int): seq<string>
    requires IsGrid(g) && CellsAreChars(g) && OnBoard(r, c)
  {
    RayFrom(g, color, RightDown, r, c) + RayFrom(g, color, RightUp, r, c)
      + RayFrom(g, color, LeftUp, r, c) + RayFrom(g, color, LeftDown, r, c)
  }

  /** GetQueenMoves: the rook's moves followed by the bishop's. */
  function QueenMoves(g: Grid, color: PieceColor, r: int, c: int): seq<string>
    requires IsGrid(g) && CellsAreChars(g) && OnBoard(r, c)
  {
    RookMoves(g, color, r, c) + BishopMoves(g, color, r, c)
  }

  // ---------------------------------------------------------------- knight and king

  function Abs(x: int): nat
  {
    if x < 0 then -x else x
  }

  /** An offset of the knight loops that is a jump: |i| + |j| = 3. */
  predicate KnightOffset(i: int, j: int)
  {
    -2 <= i <= 2 && -2 <= j <= 2 && Abs(i) + Abs(j) == 3
  }

  /** The one-element list of (r + i, c + j) if it is a target, else nothing. */
  function Jump(g: Grid, color: PieceColor, r: int, c: int, i: int, j: int): seq<string>
    requires IsGrid(g) && CellsAreChars(g)
  {
    if Target(g, color, r + i, c + j) then [GetSquare(r + i, c + j)] else []
  }

  /** What the knight loops add at offset (i, j). */
  function KnightStep(g: Grid, color: PieceColor, r: int, c: int, i: int, j: int): seq<string>
    requires IsGrid(g) && CellsAreChars(g)
  {
    if Abs(i) + Abs(j) != 3 then [] else Jump(g, color, r, c, i, j)
  }

  /** The knight's additions in row offset `i`, column offsets -2 up to `j - 1`. */
  function KnightRow(g: Grid, color: PieceColor, r: int, c: int, i: int, j: int): seq<string>
    requires IsGrid(g) && CellsAreChars(g) && -2 <= j <= 3
    decreases j + 2, g
  {
    if j == -2 then [] else KnightRow(g, color, r, c, i, j - 1) + KnightStep(g, color, r, c, i, j - 1)
  }

  /** The knight's list after the row offsets -2 up to `i - 1`. */
  function KnightRows(g: Grid, color: PieceColor, r: int, c: int, i: int): seq<string>
    requires IsGrid(g) && CellsAreChars(g) && -2 <= i <= 3
    decreases i + 2, g
  {
    if i == -2 then [] else KnightRows(g, color, r, c, i - 1) + KnightRow(g, color, r, c, i - 1, 3)
  }

  /** GetKnightMoves. */
  function KnightMoves(g: Grid, color: PieceColor, r: int, c: int): seq<string>
    requires IsGrid(g) && CellsAreChars(g)
  {
    KnightRows(g, color, r, c, 3)
  }

  /** What the king loops add at offset (i, j): nothing at (0, 0). */
  function KingStep(g: Grid, color: PieceColor, r: int, c: int, i: int, j: int): seq<string>
    requires IsGrid(g) && CellsAreChars(g)
  {
    if i == 0 && j == 0 then [] else Jump(g, color, r, c, i, j)
  }

  /** The king's additions in row offset `i`, column offsets -1 up to `j - 1`. */
  function KingRow(g: Grid, color: PieceColor, r: int, c: int, i: int, j: int): seq<string>
    requires IsGrid(g) && CellsAreChars(g) && -1 <= j <= 2
    decreases j + 1, g
  {
    if j == -1 then [] else KingRow(g, color, r, c, i, j - 1) + KingStep(g, color, r, c, i, j - 1)
  }

  /** The king's list after the row offsets -1 up to `i - 1`. */
  function KingRows(g: Grid, color: PieceColor, r: int, c: int, i: int): seq<string>
    requires IsGrid(g) && CellsAreChars(g) && -1 <= i <= 2
    decreases i + 1, g
  {
    if i == -1 then [] else KingRows(g, color, r, c, i - 1) + KingRow(g, color, r, c, i - 1, 2)
  }

  /** GetKingMoves. */
  function KingMoves(g: Grid, color: PieceColor, r: int, c: int): seq<string>
    requires IsGrid(g) && CellsAreChars(g)
  {
    KingRows(g, color, r, c, 2)
  }

  // ---------------------------------------------------------------- pawn

  /** -1 for White (towards row 0), +1 for Black. */
  function PawnSign(color: PieceColor): int
  {
    if color == White then -1 else 1
  }

  /** The row a pawn may double-step from: `(int)(3.5f - 2.5f * sign)`, which is 6 or 1. */
  function PawnStartRow(color: PieceColor): int
  {
    if color == White then 6 else 1
  }

  /** The one-element list of (r, c) when `cond` holds, else nothing. */
  function SquareIf(cond: bool, r: int, c: int): seq<string>
    requires ColumnCastable(c)
  {
    if cond then [GetSquare(r, c)] else []
  }

  /** GetPawnMoves: the double step (only its destination is checked), the
      single step, then the captures and en-passant moves onto row `r + sign`. */
  function PawnMoves(g: Grid, color: PieceColor, r: int, c: int, ep: string): seq<string>
    requires IsGrid(g) && CellsAreChars(g) && OnBoard(r, c) && OnBoard(r + PawnSign(color), c)
  {
    var sign := PawnSign(color);
    SquareIf(r == PawnStartRow(color) && g[r + 2 * sign][c] == "", r + 2 * sign, c)
    + SquareIf(g[r + sign][c] == "", r + sign, c)
    + PawnCaptures(g, color, r + sign, c, ep)
  }

  /** The diagonal part of GetPawnMoves, onto row `f`: the two captures of an
      enemy, then the two diagonal squares that equal the en-passant target. */
  function PawnCaptures(g: Grid, color: PieceColor, f: int, c: int, ep: string): seq<string>
    requires IsGrid(g) && CellsAreChars(g) && OnBoard(f, c)
  {
    SquareIf(c - 1 >= 0 && g[f][c - 1] != "" && IsOppositeColor(color, g[f][c - 1][0]), f, c - 1)
    + SquareIf(c + 1 <= 7 && g[f][c + 1] != "" && IsOppositeColor(color, g[f][c + 1][0]), f, c + 1)
    + SquareIf(GetSquare(f, c - 1) == ep, f, c - 1)
    + SquareIf(GetSquare(f, c + 1) == ep, f, c + 1)
  }

  // ---------------------------------------------------------------- dispatch

  /** The generators' demands on the moving piece: it stands on a square,
      and a pawn has a row in front of it. */
  predicate CanGenerate(g: Grid, piece: Piece)
  {
    && IsSquare(piece.square)
    && var rc := GetArrayIndex(piece.square);
       piece.pieceType == Pawn ==> OnBoard(rc.0 + PawnSign(piece.color), rc.1)
  }

  /** The candidate list GetAvailableMoves builds before filtering. */
  function Pseudo(g: Grid, piece: Piece, ep: string): seq<string>
    requires IsGrid(g) && CellsAreChars(g) && CanGenerate(g, piece)
  {
    var rc := GetArrayIndex(piece.square);
    match piece.pieceType
    case Pawn => PawnMoves(g, piece.color, rc.0, rc.1, ep)
    case Rook => RookMoves(g, piece.color, rc.0, rc.1)
    case Knight => KnightMoves(g, piece.color, rc.0, rc.1)
    case Bishop => BishopMoves(g, piece.color, rc.0, rc.1)
    case Queen => QueenMoves(g, piece.color, rc.0, rc.1)
    case King => KingMoves(g, piece.color, rc.0, rc.1)
  }

  // ---------------------------------------------------------------- check detection

  datatype Option<T> = Nothing | Some(value: T)

  /** The first king of `color` in the list. */
  function FindKing(pieces: seq<Piece>, color: PieceColor): (k: Option<Piece>)
    ensures k.Some? ==> k.value in pieces && k.value.pieceType == King && k.value.color == color
    ensures k.Nothing? <==> forall m :: 0 <= m < |pieces| ==> !(pieces[m].pieceType == King && pieces[m].color == color)
  {
    if |pieces| == 0 then Nothing
    else if pieces[0].pieceType == King && pieces[0].color == color then Some(pieces[0])
    else FindKing(pieces[1..], color)
  }

  /** The first piece of the list standing on `square` (CheckIteratedMove's lookup). */
  function FindFirst(pieces: seq<Piece>, square: string): (p: Option<Piece>)
    ensures p.Some? ==> p.value in pieces && p.value.square == square
    ensures p.Nothing? <==> forall m :: 0 <= m < |pieces| ==> pieces[m].square != square
  {
    if |pieces| == 0 then Nothing
    else if pieces[0].square == square then Some(pieces[0])
    else FindFirst(pieces[1..], square)
  }

  /** The last piece of the list standing on `square` (the knight lookup keeps overwriting). */
  function FindLast(pieces: seq<Piece>, square: string): (p: Option<Piece>)
    ensures p.Some? ==> p.value in pieces && p.value.square == square
    ensures p.Nothing? <==> forall m :: 0 <= m < |pieces| ==> pieces[m].square != square
  {
    if |pieces| == 0 then Nothing
    else if pieces[|pieces| - 1].square == square then Some(pieces[|pieces| - 1])
    else FindLast(pieces[..|pieces| - 1], square)
  }

  /** CheckIteratedMove (the lookup overload): the listed piece on a non-empty cell. */
  function Probe(g: Grid, pieces: seq<Piece>, r: int, c: int): Option<Piece>
    requires IsGrid(g) && OnBoard(r, c)
  {
    if g[r][c] != "" then FindFirst(pieces, GetSquare(r, c)) else Nothing
  }

  /** The first listed piece met walking along `d` from (r, c) on, with its row. */
  function FirstHit(g: Grid, pieces: seq<Piece>, d: Dir, r: int, c: int): (h: Option<(Piece, int)>)
    requires IsGrid(g) && Entering(d, r, c)
    ensures h.Some? ==> h.value.0 in pieces
    decreases Remaining(d, r, c)
  {
    if !InBounds(d, r, c) then Nothing
    else
      StepInside(d, r, c);
      match Probe(g, pieces, r, c)
      case Some(p) => Some((p, r))
      case Nothing => FirstHit(g, pieces, d, r + DRow(d), c + DCol(d))
  }

  /** An enemy rook or queen is the first piece on an orthogonal ray. */
  predicate OrthogonalAttack(g: Grid, pieces: seq<Piece>, active: PieceColor, d: Dir, kr: int, kc: int)
    requires IsGrid(g) && OnBoard(kr, kc)
  {
    StartEntering(d, kr, kc);
    match FirstHit(g, pieces, d, kr + DRow(d), kc + DCol(d))
    case Nothing => false
    case Some(h) => h.0.color != active && (h.0.pieceType == Rook || h.0.pieceType == Queen)
  }

  /** The diagonals a pawn of the other colour attacks from: one row below
      for a Black king, one row above for a White king. */
  predicate PawnFacing(d: Dir, active: PieceColor, kr: int, row: int)
  {
    if DRow(d) == 1 then active == Black && row - kr == 1 else active == White && kr - row == 1
  }

  /** An enemy bishop or queen, or an adjacent enemy pawn on a facing diagonal, is the first piece on a diagonal. */
  predicate DiagonalAttack(g: Grid, pieces: seq<Piece>, active: PieceColor, d: Dir, kr: int, kc: int)
    requires IsGrid(g) && OnBoard(kr, kc)
  {
    StartEntering(d, kr, kc);
    match FirstHit(g, pieces, d, kr + DRow(d), kc + DCol(d))
    case Nothing => false
    case Some(h) =>
      || (h.0.color != active && (h.0.pieceType == Bishop || h.0.pieceType == Queen))
      || (h.0.color != active && PawnFacing(d, active, kr, h.1) && h.0.pieceType == Pawn)
  }

  /** The cell (rr, cc) is occupied and the last listed piece on it is an enemy knight. */
  predicate KnightAt(g: Grid, pieces: seq<Piece>, active: PieceColor, rr: int, cc: int)
    requires IsGrid(g)
  {
    && OnBoard(rr, cc) && g[rr][cc] != ""
    && var p := FindLast(pieces, GetSquare(rr, cc));
       p.Some? && p.value.pieceType == Knight && p.value.color != active
  }

  predicate KnightAttack(g: Grid, pieces: seq<Piece>, active: PieceColor, kr: int, kc: int)
    requires IsGrid(g)
  {
    exists rr, cc :: 0 <= rr < 8 && 0 <= cc < 8 && KnightOffset(rr - kr, cc - kc) && KnightAt(g, pieces, active, rr, cc)
  }

  /** What IsKingInCheck needs to avoid a null dereference: a king of the side to move in the list, on a square. */
  predicate KingListed(pieces: seq<Piece>, active: PieceColor)
  {
    FindKing(pieces, active).Some? && IsSquare(FindKing(pieces, active).value.square)
  }

  /** IsKingInCheck: the first listed king of the side to move is attacked
      along one of the eight rays or from a knight offset. */
  predicate IsKingInCheck(g: Grid, pieces: seq<Piece>, active: PieceColor)
    requires IsGrid(g) && KingListed(pieces, active)
  {
    var rc := GetArrayIndex(FindKing(pieces, active).value.square);
    AttackedAt(g, pieces, active, rc.0, rc.1)
  }

  /** The nine tests of IsKingInCheck for a king on (kr, kc), in the source's order. */
  predicate AttackedAt(g: Grid, pieces: seq<Piece>, active: PieceColor, kr: int, kc: int)
    requires IsGrid(g) && OnBoard(kr, kc)
  {
    || OrthogonalAttack(g, pieces, active, Down, kr, kc)
    || OrthogonalAttack(g, pieces, active, Up, kr, kc)
    || OrthogonalAttack(g, pieces, active, Right, kr, kc)
    || OrthogonalAttack(g, pieces, active, Left, kr, kc)
    || DiagonalAttack(g, pieces, active, RightDown, kr, kc)
    || DiagonalAttack(g, pieces, active, RightUp, kr, kc)
    || DiagonalAttack(g, pieces, active, LeftUp, kr, kc)
    || DiagonalAttack(g, pieces, active, LeftDown, kr, kc)
    || KnightAttack(g, pieces, active, kr, kc)
  }
}
