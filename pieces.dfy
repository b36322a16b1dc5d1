/** Pieces, the move variants a pawn produces, and the board the pawn generator reads. */
module Pieces {
  import opened Options
  import opened BoardUtils
  import opened Alliances

  datatype PieceType = PawnType | KnightType | BishopType | RookType | QueenType | KingType

  datatype Piece = Piece(pieceType: PieceType, pieceAlliance: Alliance, piecePosition: int, isFirstMove: bool)

  /** The move variants of the pawn generator. A promotion decorates a plain move with the promoted piece. */
  datatype Move =
    | PawnMove(movedPiece: Piece, destinationCoordinate: int)
    | PawnJump(movedPiece: Piece, destinationCoordinate: int)
    | PawnAttackMove(movedPiece: Piece, destinationCoordinate: int, attackedPiece: Piece)
    | PawnEnPassantAttackMove(movedPiece: Piece, destinationCoordinate: int, attackedPiece: Piece)
    | PawnPromotion(decoratedMove: Move, promotionPiece: Piece)
  {
    /** A promotion delegates its destination and its moved piece to the move it decorates. */
    function Destination(): int {
      if PawnPromotion? then decoratedMove.Destination() else destinationCoordinate
    }

    function MovedPiece(): Piece {
      if PawnPromotion? then decoratedMove.MovedPiece() else movedPiece
    }
  }

  /** The tiles a8..h1 and the pawn that has just made a two-square advance, if any. */
  datatype Board = Board(tiles: seq<Option<Piece>>, enPassantPawn: Option<Piece>) {
    predicate Valid() {
      |tiles| == NumTiles
    }

    predicate IsTileOccupied(coordinate: int)
      requires Valid() && IsValidTileCoordinate(coordinate)
    {
      tiles[coordinate].Some?
    }
  }
}
