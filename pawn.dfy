/**
 * Pseudo-legal move generation for one pawn (Pawn.calculateLegalMoves) and the pawn
 * that results from moving it (Pawn.movePiece).
 *
 * The generator is a loop over the candidate offsets 7, 8, 9 and 16, each multiplied
 * by the pawn's direction, that appends to a growing list. CandidateMoves states what
 * one offset appends; PawnLegalMoves is the whole list; CalculateLegalMoves is the loop.
 * The two GUI settings the source reads (whether the computer is choosing a move, and
 * the promotion piece a human has configured) are the parameters aiIsDone and
 * promotionChoice.
 */
module Pawn {
  import opened Options
  import opened BoardUtils
  import opened Alliances
  import opened Pieces

  const CandidateMoveCoordinate: seq<int> := [7, 8, 9, 16]

  /** The order in which a promotion fan lists the promoted pieces. */
  const PromotionOrder: seq<PieceType> := [QueenType, RookType, BishopType, KnightType]

  /** A pawn the generator can be asked about: a pawn standing on one of the 64 tiles. */
  predicate IsPawnOnBoard(pawn: Piece) {
    pawn.pieceType == PawnType && IsValidTileCoordinate(pawn.piecePosition)
  }

  /** The piece a promotion creates on the destination square; it has moved, so it is not on its first move. */
  function PromotedPiece(pieceType: PieceType, alliance: Alliance, destination: int): Piece {
    Piece(pieceType, alliance, destination, false)
  }

  /**
   * Where the promotion switch starts emitting. With the computer choosing, all four
   * pieces are emitted. Otherwise the switch has no break statements, so it emits the
   * matched label and every label below it; an unmatched string emits nothing.
   */
  function SwitchEntry(aiIsDone: bool, promotionChoice: string): nat {
    if aiIsDone then 0
    else if promotionChoice == "Queen" then 0
    else if promotionChoice == "Rook" then 1
    else if promotionChoice == "Bishop" then 2
    else if promotionChoice == "Knight" then 3
    else 4
  }

  function Promotions(pawn: Piece, destination: int, pieceTypes: seq<PieceType>): seq<Move> {
    seq(|pieceTypes|, i requires 0 <= i < |pieceTypes| =>
      PawnPromotion(PawnMove(pawn, destination), PromotedPiece(pieceTypes[i], pawn.pieceAlliance, destination)))
  }

  /** The promotion moves emitted for one destination on the last rank (push or capture alike). */
  function PromotionFan(pawn: Piece, destination: int, aiIsDone: bool, promotionChoice: string): seq<Move> {
    Promotions(pawn, destination, PromotionOrder[SwitchEntry(aiIsDone, promotionChoice)..])
  }

  /** The square an en-passant victim must stand on for the diagonal of this offset. */
  function EnPassantSquare(pawn: Piece, offset: int): int {
    if offset == 7 then pawn.piecePosition + OppositeDirection(pawn.pieceAlliance)
    else pawn.piecePosition - OppositeDirection(pawn.pieceAlliance)
  }

  /**
   * Whether the diagonal of this offset stays on the board's columns: offset 7 is
   * blocked for a white pawn on the h-file and a black pawn on the a-file, offset 9
   * for a white pawn on the a-file and a black pawn on the h-file.
   */
  predicate DiagonalAllowed(pawn: Piece, offset: int) {
    var position := pawn.piecePosition;
    var white := pawn.pieceAlliance == White;
    if offset == 7 then !((EighthColumn(position) && white) || (FirstColumn(position) && !white))
    else if offset == 9 then !((FirstColumn(position) && white) || (EighthColumn(position) && !white))
    else false
  }

  /** The pawn stands on the row its side starts from: black on row 1, white on row 6. */
  predicate OnStartingRow(pawn: Piece) {
    (SecondRank(pawn.piecePosition) && pawn.pieceAlliance == Black) ||
    (SeventhRank(pawn.piecePosition) && pawn.pieceAlliance == White)
  }

  function Target(pawn: Piece, offset: int): int {
    pawn.piecePosition + Direction(pawn.pieceAlliance) * offset
  }

  /** What a diagonal offset emits once the destination is known to be on the board and the diagonal allowed. */
  function DiagonalMoves(board: Board, pawn: Piece, destination: int, enPassantSquare: int,
                         aiIsDone: bool, promotionChoice: string): seq<Move>
    requires board.Valid() && IsValidTileCoordinate(destination)
  {
    if board.IsTileOccupied(destination) then
      var pieceOnCandidate := board.tiles[destination].value;
      if pawn.pieceAlliance != pieceOnCandidate.pieceAlliance then
        if IsPawnPromotionSquare(pawn.pieceAlliance, destination) then
          PromotionFan(pawn, destination, aiIsDone, promotionChoice)
        else
          [PawnAttackMove(pawn, destination, pieceOnCandidate)]
      else []
    else if board.enPassantPawn.Some? then
      var enPassantPawn := board.enPassantPawn.value;
      if enPassantPawn.piecePosition == enPassantSquare && pawn.pieceAlliance != enPassantPawn.pieceAlliance then
        [PawnEnPassantAttackMove(pawn, destination, enPassantPawn)]
      else []
    else []
  }

  /** The moves one pass of the generator's loop appends for the given offset. */
  function CandidateMoves(board: Board, pawn: Piece, offset: int, aiIsDone: bool, promotionChoice: string): seq<Move>
    requires board.Valid() && IsPawnOnBoard(pawn)
  {
    var destination := Target(pawn, offset);
    if !IsValidTileCoordinate(destination) then []
    else if offset == 8 && !board.IsTileOccupied(destination) then
      if IsPawnPromotionSquare(pawn.pieceAlliance, destination) then
        PromotionFan(pawn, destination, aiIsDone, promotionChoice)
      else
        [PawnMove(pawn, destination)]
    else if offset == 16 && pawn.isFirstMove && OnStartingRow(pawn) then
      var behind := Target(pawn, 8);
      if !board.IsTileOccupied(behind) && !board.IsTileOccupied(destination) then
        [PawnJump(pawn, destination)]
      else []
    else if offset == 7 && DiagonalAllowed(pawn, 7) then
      DiagonalMoves(board, pawn, destination, EnPassantSquare(pawn, 7), aiIsDone, promotionChoice)
    else if offset == 9 && DiagonalAllowed(pawn, 9) then
      DiagonalMoves(board, pawn, destination, EnPassantSquare(pawn, 9), aiIsDone, promotionChoice)
    else []
  }

  /** The list after the loop has handled the first k candidate offsets. */
  function MovesForOffsets(board: Board, pawn: Piece, aiIsDone: bool, promotionChoice: string, k: nat): seq<Move>
    requires board.Valid() && IsPawnOnBoard(pawn) && k <= |CandidateMoveCoordinate|
  {
    if k == 0 then []
    else MovesForOffsets(board, pawn, aiIsDone, promotionChoice, k - 1) +
         CandidateMoves(board, pawn, CandidateMoveCoordinate[k - 1], aiIsDone, promotionChoice)
  }

  /** Everything the generator returns, in the order it returns it. */
  function PawnLegalMoves(board: Board, pawn: Piece, aiIsDone: bool, promotionChoice: string): seq<Move>
    requires board.Valid() && IsPawnOnBoard(pawn)
  {
    MovesForOffsets(board, pawn, aiIsDone, promotionChoice, |CandidateMoveCoordinate|)
  }

  /**
   * Appends the promotion moves for one destination: all four when the computer is
   * choosing, otherwise the switch on the configured piece, falling through from the
   * matched label to the end.
   */
  method AddPromotions(legalMoves: seq<Move>, pawn: Piece, destination: int, aiIsDone: bool, promotionChoice: string)
    returns (result: seq<Move>)
    ensures result == legalMoves + PromotionFan(pawn, destination, aiIsDone, promotionChoice)
  {
    var alliance := pawn.pieceAlliance;
    var queen := PawnPromotion(PawnMove(pawn, destination), PromotedPiece(QueenType, alliance, destination));
    var rook := PawnPromotion(PawnMove(pawn, destination), PromotedPiece(RookType, alliance, destination));
    var bishop := PawnPromotion(PawnMove(pawn, destination), PromotedPiece(BishopType, alliance, destination));
    var knight := PawnPromotion(PawnMove(pawn, destination), PromotedPiece(KnightType, alliance, destination));
    result := legalMoves;
    if !aiIsDone {
      var falling := promotionChoice == "Queen";
      if falling { result := result + [queen]; }
      falling := falling || promotionChoice == "Rook";
      if falling { result := result + [rook]; }
      falling := falling || promotionChoice == "Bishop";
      if falling { result := result + [bishop]; }
      falling := falling || promotionChoice == "Knight";
      if falling { result := result + [knight]; }
    } else {
      result := result + [queen, rook, bishop, knight];
    }
    ghost var fan := PromotionFan(pawn, destination, aiIsDone, promotionChoice);
    assert result == legalMoves + fan by {
      var entry := SwitchEntry(aiIsDone, promotionChoice);
      assert |fan| == 4 - entry;
      assert forall i :: 0 <= i < |fan| ==> fan[i] == [queen, rook, bishop, knight][entry + i];
    }
  }

  /** Appends what a diagonal emits: a capture or promotion fan on an enemy piece, else possibly en passant. */
  method AddDiagonalMoves(legalMoves: seq<Move>, board: Board, pawn: Piece, destination: int, enPassantSquare: int,
                          aiIsDone: bool, promotionChoice: string)
    returns (result: seq<Move>)
    requires board.Valid() && IsValidTileCoordinate(destination)
    ensures result == legalMoves + DiagonalMoves(board, pawn, destination, enPassantSquare, aiIsDone, promotionChoice)
  {
    result := legalMoves;
    if board.tiles[destination].Some? {
      var pieceOnCandidate := board.tiles[destination].value;
      if pawn.pieceAlliance != pieceOnCandidate.pieceAlliance {
        if IsPawnPromotionSquare(pawn.pieceAlliance, destination) {
          result := AddPromotions(result, pawn, destination, aiIsDone, promotionChoice);
        } else {
          result := result + [PawnAttackMove(pawn, destination, pieceOnCandidate)];
        }
      }
    } else if board.enPassantPawn.Some? {
      if board.enPassantPawn.value.piecePosition == enPassantSquare {
        var piece := board.enPassantPawn.value;
        if pawn.pieceAlliance != piece.pieceAlliance {
          result := result + [PawnEnPassantAttackMove(pawn, destination, piece)];
        }
      }
    }
  }

  /** One pass of the generator's loop: appends what the given candidate offset emits. */
  method AddCandidateMoves(legalMoves: seq<Move>, board: Board, pawn: Piece, currentCandidateOffset: int,
                           aiIsDone: bool, promotionChoice: string)
    returns (result: seq<Move>)
    requires board.Valid() && IsPawnOnBoard(pawn)
    ensures result == legalMoves + CandidateMoves(board, pawn, currentCandidateOffset, aiIsDone, promotionChoice)
  {
    result := legalMoves;
    var candidateDestinationCoordinate :=
      pawn.piecePosition + Direction(pawn.pieceAlliance) * currentCandidateOffset;
    if !IsValidTileCoordinate(candidateDestinationCoordinate) {
      return;
    }
    if currentCandidateOffset == 8 && board.tiles[candidateDestinationCoordinate].None? {
      if IsPawnPromotionSquare(pawn.pieceAlliance, candidateDestinationCoordinate) {
        result := AddPromotions(result, pawn, candidateDestinationCoordinate, aiIsDone, promotionChoice);
      } else {
        result := result + [PawnMove(pawn, candidateDestinationCoordinate)];
      }
    } else if currentCandidateOffset == 16 && pawn.isFirstMove && OnStartingRow(pawn) {
      var behindCandidateDestinationCoordinate := pawn.piecePosition + Direction(pawn.pieceAlliance) * 8;
      if board.tiles[behindCandidateDestinationCoordinate].None? && board.tiles[candidateDestinationCoordinate].None? {
        result := result + [PawnJump(pawn, candidateDestinationCoordinate)];
      }
    } else if currentCandidateOffset == 7 && DiagonalAllowed(pawn, 7) {
      result := AddDiagonalMoves(result, board, pawn, candidateDestinationCoordinate,
                                 pawn.piecePosition + OppositeDirection(pawn.pieceAlliance),
                                 aiIsDone, promotionChoice);
    } else if currentCandidateOffset == 9 && DiagonalAllowed(pawn, 9) {
      result := AddDiagonalMoves(result, board, pawn, candidateDestinationCoordinate,
                                 pawn.piecePosition - OppositeDirection(pawn.pieceAlliance),
                                 aiIsDone, promotionChoice);
    }
  }

  /** The generator: one pass per candidate offset, appending to the list it returns. */
  method CalculateLegalMoves(board: Board, pawn: Piece, aiIsDone: bool, promotionChoice: string)
    returns (legalMoves: seq<Move>)
    requires board.Valid() && IsPawnOnBoard(pawn)
    ensures legalMoves == PawnLegalMoves(board, pawn, aiIsDone, promotionChoice)
  {
    legalMoves := [];
    for k := 0 to |CandidateMoveCoordinate|
      invariant legalMoves == MovesForOffsets(board, pawn, aiIsDone, promotionChoice, k)
    {
      legalMoves := AddCandidateMoves(legalMoves, board, pawn, CandidateMoveCoordinate[k], aiIsDone, promotionChoice);
    }
  }

  /**
   * The pawn after a move: same side, on the move's destination, built with the
   * two-argument constructor and so again marked as on its first move.
   */
  function MovePiece(move: Move): (moved: Piece)
    ensures moved.pieceType == PawnType
    ensures moved.pieceAlliance == move.MovedPiece().pieceAlliance
    ensures moved.piecePosition == move.Destination()
    ensures moved.isFirstMove
  {
    Piece(PawnType, move.MovedPiece().pieceAlliance, move.Destination(), true)
  }
}
