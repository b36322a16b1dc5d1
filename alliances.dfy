/**
 * The two sides. The engine's Alliance enum is not part of this model: its pawn
 * direction (white moves towards index 0), opposite direction and promotion squares
 * are stated here as assumptions.
 */
module Alliances {
  import opened BoardUtils

  datatype Alliance = White | Black

  function Direction(alliance: Alliance): int {
    match alliance
    case White => -1
    case Black => 1
  }

  function OppositeDirection(alliance: Alliance): int {
    -Direction(alliance)
  }

  function Opposite(alliance: Alliance): Alliance {
    match alliance
    case White => Black
    case Black => White
  }

  /** White promotes on the row of a8..h8 (row 0), black on the row of a1..h1 (row 7). */
  predicate IsPawnPromotionSquare(alliance: Alliance, square: int) {
    IsValidTileCoordinate(square) &&
    match alliance
    case White => Row(square) == 0
    case Black => Row(square) == 7
  }
}
