/** The engine's enumerations and the piece record (Chess/Piece.cs).

    The four enumerations are not declared in the modelled files; they are
    defined here from the way the engine uses them. */
module Pieces {

  datatype PieceColor = White | Black

  datatype PieceType = Pawn | Knight | Bishop | Rook | Queen | King

  /** Castling rights of one colour. */
  datatype AvailableCastle = None | Kingside | QueenSide | Both

  /** Outcome of a move. `Castle` is also what a pawn move onto the last
      rank reports: the engine uses it as a "promotion pending" sentinel. */
  datatype GameState = Active | Checkmate | Patt | Castle

  /** The piece's `possibleMoves` list: unset (null) until the board assigns it. */
  datatype MoveList = Unassigned | Assigned(squares: seq<string>)

  /** A piece: colour, type, the cell code it occupies ("P", "n", ...), its
      algebraic square and its cached destination list. */
  datatype Piece = Piece(color: PieceColor, pieceType: PieceType, shortName: string,
                         square: string, possibleMoves: MoveList)

  /** The constructor: stores the four given fields without any check and
      leaves the destination list unset. */
  function NewPiece(color: PieceColor, pieceType: PieceType, shortName: string, square: string): (p: Piece)
    ensures p.color == color && p.pieceType == pieceType
    ensures p.shortName == shortName && p.square == square
    ensures p.possibleMoves == Unassigned
  {
    Piece(color, pieceType, shortName, square, Unassigned)
  }

  function Opponent(c: PieceColor): (o: PieceColor)
    ensures o != c
  {
    if c == White then Black else White
  }

  /** A piece with its cached destination list forgotten. */
  function Stripped(p: Piece): Piece
  {
    p.(possibleMoves := Unassigned)
  }

  /** The piece list with every cached destination list forgotten. */
  function Bare(ps: seq<Piece>): (r: seq<Piece>)
    ensures |r| == |ps|
    ensures forall k :: 0 <= k < |ps| ==> r[k] == Stripped(ps[k])
  {
    seq(|ps|, k requires 0 <= k < |ps| => Stripped(ps[k]))
  }
}
