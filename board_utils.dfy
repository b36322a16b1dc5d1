/**
 * Square geometry of the 64-tile board: index 0 is a8, index 63 is h1, a row holds
 * eight consecutive indices. The engine's BoardUtils class is not part of this model;
 * its column and rank tables are stated here as predicates on the index.
 */
module BoardUtils {
  const NumTiles: int := 64
  const NumTilesPerRow: int := 8

  /** The four centre squares, counting a8 as 0. */
  const D5: int := 27
  const E5: int := 28
  const D4: int := 35
  const E4: int := 36

  predicate IsValidTileCoordinate(coordinate: int) {
    0 <= coordinate < NumTiles
  }

  function Column(square: int): int {
    square % NumTilesPerRow
  }

  function Row(square: int): int {
    square / NumTilesPerRow
  }

  /** FIRST_COLUMN: the a-file. */
  predicate FirstColumn(square: int) {
    Column(square) == 0
  }

  /** EIGHTH_COLUMN: the h-file. */
  predicate EighthColumn(square: int) {
    Column(square) == 7
  }

  /** SECOND_RANK as the pawn generator uses it: the row of squares 8..15, where black pawns start. */
  predicate SecondRank(square: int) {
    IsValidTileCoordinate(square) && Row(square) == 1
  }

  /** SEVENTH_RANK as the pawn generator uses it: the row of squares 48..55, where white pawns start. */
  predicate SeventhRank(square: int) {
    IsValidTileCoordinate(square) && Row(square) == 6
  }

  predicate IsCenterSquare(square: int) {
    square == D5 || square == E5 || square == D4 || square == E4
  }
}
