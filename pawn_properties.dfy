/**
 * What the pawn generator promises: every destination is on the board, diagonals never
 * wrap around a file edge, and each move kind is emitted exactly under the conditions
 * the generator tests, with the promotion fan sized by the switch's fall-through.
 */
module PawnProperties {
  import opened Options
  import opened BoardUtils
  import opened Alliances
  import opened Pieces
  import opened Pawn

  /** The moves of a list that land on the given square, in list order. */
  function MovesTo(moves: seq<Move>, destination: int): (r: seq<Move>)
    ensures |r| <= |moves|
    ensures forall m :: m in r ==> m in moves && m.Destination() == destination
  {
    if moves == [] then []
    else
      var last := moves[|moves| - 1];
      MovesTo(moves[..|moves| - 1], destination) + (if last.Destination() == destination then [last] else [])
  }

  /** How many promotion moves one promotion destination yields. */
  function FanSize(aiIsDone: bool, promotionChoice: string): nat {
    if aiIsDone then 4
    else if promotionChoice == "Queen" then 4
    else if promotionChoice == "Rook" then 3
    else if promotionChoice == "Bishop" then 2
    else if promotionChoice == "Knight" then 1
    else 0
  }

  /** Conditions under which a diagonal of this offset captures the piece q on square d. */
  predicate CaptureCondition(board: Board, pawn: Piece, offset: int, d: int, q: Piece)
    requires board.Valid()
  {
    d == Target(pawn, offset) && IsValidTileCoordinate(d) && DiagonalAllowed(pawn, offset) &&
    board.tiles[d] == Some(q) && q.pieceAlliance != pawn.pieceAlliance
  }

  /** Conditions under which a diagonal of this offset takes the pawn q en passant, landing on d. */
  predicate EnPassantCondition(board: Board, pawn: Piece, offset: int, d: int, q: Piece)
    requires board.Valid()
  {
    d == Target(pawn, offset) && IsValidTileCoordinate(d) && DiagonalAllowed(pawn, offset) &&
    board.tiles[d].None? && board.enPassantPawn == Some(q) &&
    q.piecePosition == EnPassantSquare(pawn, offset) && q.pieceAlliance != pawn.pieceAlliance
  }

  // ----- helpers about the list structure -----

  lemma LegalMovesUnfold(board: Board, pawn: Piece, aiIsDone: bool, promotionChoice: string)
    requires board.Valid() && IsPawnOnBoard(pawn)
    ensures PawnLegalMoves(board, pawn, aiIsDone, promotionChoice) ==
            CandidateMoves(board, pawn, 7, aiIsDone, promotionChoice) +
            CandidateMoves(board, pawn, 8, aiIsDone, promotionChoice) +
            CandidateMoves(board, pawn, 9, aiIsDone, promotionChoice) +
            CandidateMoves(board, pawn, 16, aiIsDone, promotionChoice)
  {
    var c := CandidateMoveCoordinate;
    assert MovesForOffsets(board, pawn, aiIsDone, promotionChoice, 1) ==
           CandidateMoves(board, pawn, c[0], aiIsDone, promotionChoice);
    assert MovesForOffsets(board, pawn, aiIsDone, promotionChoice, 2) ==
           MovesForOffsets(board, pawn, aiIsDone, promotionChoice, 1) + CandidateMoves(board, pawn, c[1], aiIsDone, promotionChoice);
    assert MovesForOffsets(board, pawn, aiIsDone, promotionChoice, 3) ==
           MovesForOffsets(board, pawn, aiIsDone, promotionChoice, 2) + CandidateMoves(board, pawn, c[2], aiIsDone, promotionChoice);
  }

  lemma {:induction false} MovesToAppend(a: seq<Move>, b: seq<Move>, d: int)
    ensures MovesTo(a + b, d) == MovesTo(a, d) + MovesTo(b, d)
  {
    if b != [] {
      var ab := a + b;
      assert ab[..|ab| - 1] == a + b[..|b| - 1];
      assert ab[|ab| - 1] == b[|b| - 1];
      MovesToAppend(a, b[..|b| - 1], d);
    } else {
      assert a + b == a;
    }
  }

  lemma {:induction false} MovesToAll(s: seq<Move>, d: int)
    requires forall m :: m in s ==> m.Destination() == d
    ensures MovesTo(s, d) == s
  {
    if s != [] {
      assert s[|s| - 1] in s;
      assert forall m :: m in s[..|s| - 1] ==> m in s;
      MovesToAll(s[..|s| - 1], d);
      assert s[..|s| - 1] + [s[|s| - 1]] == s;
    }
  }

  lemma {:induction false} MovesToNone(s: seq<Move>, d: int)
    requires forall m :: m in s ==> m.Destination() != d
    ensures MovesTo(s, d) == []
  {
    if s != [] {
      assert s[|s| - 1] in s;
      assert forall m :: m in s[..|s| - 1] ==> m in s;
      MovesToNone(s[..|s| - 1], d);
    }
  }

  lemma PromotionFanShape(pawn: Piece, destination: int, aiIsDone: bool, promotionChoice: string, m: Move)
    requires m in PromotionFan(pawn, destination, aiIsDone, promotionChoice)
    ensures m.PawnPromotion? && m.decoratedMove == PawnMove(pawn, destination)
    ensures m.promotionPiece == PromotedPiece(m.promotionPiece.pieceType, pawn.pieceAlliance, destination)
    ensures m.promotionPiece.pieceType in PromotionOrder[SwitchEntry(aiIsDone, promotionChoice)..]
    ensures m.Destination() == destination && m.MovedPiece() == pawn
  {
    var fan := PromotionFan(pawn, destination, aiIsDone, promotionChoice);
    var i :| 0 <= i < |fan| && fan[i] == m;
    assert PromotionOrder[SwitchEntry(aiIsDone, promotionChoice)..][i] == m.promotionPiece.pieceType;
  }

  /** Every move one offset emits lands on that offset's target, is made by this pawn, and has the offset's kind. */
  lemma CandidateShape(board: Board, pawn: Piece, offset: int, aiIsDone: bool, promotionChoice: string, m: Move)
    requires board.Valid() && IsPawnOnBoard(pawn)
    requires m in CandidateMoves(board, pawn, offset, aiIsDone, promotionChoice)
    ensures m.Destination() == Target(pawn, offset) && IsValidTileCoordinate(m.Destination())
    ensures m.MovedPiece() == pawn
    ensures offset == 7 || offset == 8 || offset == 9 || offset == 16
    ensures m.PawnMove? ==> offset == 8
    ensures m.PawnJump? ==> offset == 16
    ensures m.PawnAttackMove? || m.PawnEnPassantAttackMove? ==> (offset == 7 || offset == 9) && DiagonalAllowed(pawn, offset)
    ensures m.PawnPromotion? ==>
              IsPawnPromotionSquare(pawn.pieceAlliance, m.Destination()) &&
              (offset == 8 || ((offset == 7 || offset == 9) && DiagonalAllowed(pawn, offset)))
  {
    var d := Target(pawn, offset);
    if m.PawnPromotion? {
      PromotionFanShape(pawn, d, aiIsDone, promotionChoice, m);
    } else if offset != 8 && offset != 16 && IsValidTileCoordinate(d) && board.IsTileOccupied(d) {
      var fan := PromotionFan(pawn, d, aiIsDone, promotionChoice);
      assert m !in fan by {
        if m in fan { PromotionFanShape(pawn, d, aiIsDone, promotionChoice, m); }
      }
    } else if offset == 8 && IsValidTileCoordinate(d) && !board.IsTileOccupied(d) {
      var fan := PromotionFan(pawn, d, aiIsDone, promotionChoice);
      assert m !in fan by {
        if m in fan { PromotionFanShape(pawn, d, aiIsDone, promotionChoice, m); }
      }
    }
  }

  /** A move is in the generator's result exactly when one of the four offsets emits it. */
  lemma MemberOfLegalMoves(board: Board, pawn: Piece, aiIsDone: bool, promotionChoice: string, m: Move)
    requires board.Valid() && IsPawnOnBoard(pawn)
    ensures m in PawnLegalMoves(board, pawn, aiIsDone, promotionChoice) <==>
            m in CandidateMoves(board, pawn, 7, aiIsDone, promotionChoice) ||
            m in CandidateMoves(board, pawn, 8, aiIsDone, promotionChoice) ||
            m in CandidateMoves(board, pawn, 9, aiIsDone, promotionChoice) ||
            m in CandidateMoves(board, pawn, 16, aiIsDone, promotionChoice)
  {
    LegalMovesUnfold(board, pawn, aiIsDone, promotionChoice);
  }

  /** Row and column of an offset's target, for the offsets the generator does not skip. */
  lemma TargetGeometry(pawn: Piece, offset: int)
    requires IsPawnOnBoard(pawn) && IsValidTileCoordinate(Target(pawn, offset))
    requires offset == 8 || offset == 16 || ((offset == 7 || offset == 9) && DiagonalAllowed(pawn, offset))
    ensures Row(Target(pawn, offset)) == Row(pawn.piecePosition) + Direction(pawn.pieceAlliance) * (if offset == 16 then 2 else 1)
    ensures offset == 8 || offset == 16 ==> Column(Target(pawn, offset)) == Column(pawn.piecePosition)
    ensures offset == 7 ==> Column(Target(pawn, offset)) == Column(pawn.piecePosition) + OppositeDirection(pawn.pieceAlliance)
    ensures offset == 9 ==> Column(Target(pawn, offset)) == Column(pawn.piecePosition) - OppositeDirection(pawn.pieceAlliance)
  {
    var p := pawn.piecePosition;
    var r, c := p / 8, p % 8;
    assert p == 8 * r + c;
    var t := Target(pawn, offset);
    if pawn.pieceAlliance == White {
      if offset == 7 { assert t == 8 * (r - 1) + (c + 1); }
      else if offset == 8 { assert t == 8 * (r - 1) + c; }
      else if offset == 9 { assert t == 8 * (r - 1) + (c - 1); }
      else { assert t == 8 * (r - 2) + c; }
    } else {
      if offset == 7 { assert t == 8 * (r + 1) + (c - 1); }
      else if offset == 8 { assert t == 8 * (r + 1) + c; }
      else if offset == 9 { assert t == 8 * (r + 1) + (c + 1); }
      else { assert t == 8 * (r + 2) + c; }
    }
  }

  // ----- the properties -----

  /** Every emitted move is this pawn's and lands on one of the 64 tiles. */
  lemma DestinationsOnBoard(board: Board, pawn: Piece, aiIsDone: bool, promotionChoice: string)
    requires board.Valid() && IsPawnOnBoard(pawn)
    ensures forall m :: m in PawnLegalMoves(board, pawn, aiIsDone, promotionChoice) ==>
              IsValidTileCoordinate(m.Destination()) && m.MovedPiece() == pawn
  {
    forall m | m in PawnLegalMoves(board, pawn, aiIsDone, promotionChoice)
      ensures IsValidTileCoordinate(m.Destination()) && m.MovedPiece() == pawn
    {
      MemberOfLegalMoves(board, pawn, aiIsDone, promotionChoice, m);
      if m in CandidateMoves(board, pawn, 7, aiIsDone, promotionChoice) {
        CandidateShape(board, pawn, 7, aiIsDone, promotionChoice, m);
      } else if m in CandidateMoves(board, pawn, 8, aiIsDone, promotionChoice) {
        CandidateShape(board, pawn, 8, aiIsDone, promotionChoice, m);
      } else if m in CandidateMoves(board, pawn, 9, aiIsDone, promotionChoice) {
        CandidateShape(board, pawn, 9, aiIsDone, promotionChoice, m);
      } else {
        CandidateShape(board, pawn, 16, aiIsDone, promotionChoice, m);
      }
    }
  }

  /**
   * No move wraps around a file edge: every move goes one row forward (two for a jump),
   * pushes and jumps stay on the pawn's column, and captures, en-passant captures
   * included, go to a neighbouring column.
   */
  lemma NoWrapAround(board: Board, pawn: Piece, aiIsDone: bool, promotionChoice: string, m: Move)
    requires board.Valid() && IsPawnOnBoard(pawn)
    requires m in PawnLegalMoves(board, pawn, aiIsDone, promotionChoice)
    ensures Row(m.Destination()) == Row(pawn.piecePosition) + Direction(pawn.pieceAlliance) * (if m.PawnJump? then 2 else 1)
    ensures -1 <= Column(m.Destination()) - Column(pawn.piecePosition) <= 1
    ensures m.PawnMove? || m.PawnJump? ==> Column(m.Destination()) == Column(pawn.piecePosition)
    ensures m.PawnAttackMove? || m.PawnEnPassantAttackMove? ==>
              Column(m.Destination()) - Column(pawn.piecePosition) == 1 ||
              Column(m.Destination()) - Column(pawn.piecePosition) == -1
  {
    MemberOfLegalMoves(board, pawn, aiIsDone, promotionChoice, m);
    var offset: int :| offset in CandidateMoveCoordinate && m in CandidateMoves(board, pawn, offset, aiIsDone, promotionChoice);
    CandidateShape(board, pawn, offset, aiIsDone, promotionChoice, m);
    TargetGeometry(pawn, offset);
  }

  /** A plain one-square push to d is emitted exactly when d is the square ahead, empty, and not a promotion square. */
  lemma PawnMoveIff(board: Board, pawn: Piece, aiIsDone: bool, promotionChoice: string, d: int)
    requires board.Valid() && IsPawnOnBoard(pawn)
    ensures PawnMove(pawn, d) in PawnLegalMoves(board, pawn, aiIsDone, promotionChoice) <==>
              d == Target(pawn, 8) && IsValidTileCoordinate(d) && board.tiles[d].None? &&
              !IsPawnPromotionSquare(pawn.pieceAlliance, d)
  {
    var m := PawnMove(pawn, d);
    MemberOfLegalMoves(board, pawn, aiIsDone, promotionChoice, m);
    if m in PawnLegalMoves(board, pawn, aiIsDone, promotionChoice) {
      var offset: int :| offset in CandidateMoveCoordinate && m in CandidateMoves(board, pawn, offset, aiIsDone, promotionChoice);
      CandidateShape(board, pawn, offset, aiIsDone, promotionChoice, m);
      if IsPawnPromotionSquare(pawn.pieceAlliance, d) {
        var fan := PromotionFan(pawn, d, aiIsDone, promotionChoice);
        if m in fan { PromotionFanShape(pawn, d, aiIsDone, promotionChoice, m); }
      }
    }
  }

  /**
   * A two-square jump to d is emitted exactly when the pawn is on its first move and on
   * its starting row, d is two rows ahead, and both d and the square between are empty.
   */
  lemma PawnJumpIff(board: Board, pawn: Piece, aiIsDone: bool, promotionChoice: string, d: int)
    requires board.Valid() && IsPawnOnBoard(pawn)
    ensures PawnJump(pawn, d) in PawnLegalMoves(board, pawn, aiIsDone, promotionChoice) <==>
              d == Target(pawn, 16) && IsValidTileCoordinate(d) &&
              pawn.isFirstMove && OnStartingRow(pawn) &&
              board.tiles[Target(pawn, 8)].None? && board.tiles[d].None?
  {
    var m := PawnJump(pawn, d);
    MemberOfLegalMoves(board, pawn, aiIsDone, promotionChoice, m);
    if m in PawnLegalMoves(board, pawn, aiIsDone, promotionChoice) {
      var offset: int :| offset in CandidateMoveCoordinate && m in CandidateMoves(board, pawn, offset, aiIsDone, promotionChoice);
      CandidateShape(board, pawn, offset, aiIsDone, promotionChoice, m);
    }
  }

  /**
   * A capture of q on d is emitted exactly when d is an allowed diagonal target, q stands
   * there, q belongs to the other side, and d is not a promotion square.
   */
  lemma PawnAttackMoveIff(board: Board, pawn: Piece, aiIsDone: bool, promotionChoice: string, d: int, q: Piece)
    requires board.Valid() && IsPawnOnBoard(pawn)
    ensures PawnAttackMove(pawn, d, q) in PawnLegalMoves(board, pawn, aiIsDone, promotionChoice) <==>
              (CaptureCondition(board, pawn, 7, d, q) || CaptureCondition(board, pawn, 9, d, q)) &&
              !IsPawnPromotionSquare(pawn.pieceAlliance, d)
  {
    var m := PawnAttackMove(pawn, d, q);
    MemberOfLegalMoves(board, pawn, aiIsDone, promotionChoice, m);
    if m in PawnLegalMoves(board, pawn, aiIsDone, promotionChoice) {
      var offset: int :| offset in CandidateMoveCoordinate && m in CandidateMoves(board, pawn, offset, aiIsDone, promotionChoice);
      CandidateShape(board, pawn, offset, aiIsDone, promotionChoice, m);
      if board.IsTileOccupied(d) && IsPawnPromotionSquare(pawn.pieceAlliance, d) {
        var fan := PromotionFan(pawn, d, aiIsDone, promotionChoice);
        if m in fan { PromotionFanShape(pawn, d, aiIsDone, promotionChoice, m); }
      }
    }
  }

  /**
   * An en-passant capture of q landing on d is emitted exactly when d is an allowed,
   * empty diagonal target and q is the board's en-passant pawn, of the other side,
   * standing on the square the offset designates.
   */
  lemma PawnEnPassantIff(board: Board, pawn: Piece, aiIsDone: bool, promotionChoice: string, d: int, q: Piece)
    requires board.Valid() && IsPawnOnBoard(pawn)
    ensures PawnEnPassantAttackMove(pawn, d, q) in PawnLegalMoves(board, pawn, aiIsDone, promotionChoice) <==>
              EnPassantCondition(board, pawn, 7, d, q) || EnPassantCondition(board, pawn, 9, d, q)
  {
    var m := PawnEnPassantAttackMove(pawn, d, q);
    MemberOfLegalMoves(board, pawn, aiIsDone, promotionChoice, m);
    if m in PawnLegalMoves(board, pawn, aiIsDone, promotionChoice) {
      var offset: int :| offset in CandidateMoveCoordinate && m in CandidateMoves(board, pawn, offset, aiIsDone, promotionChoice);
      CandidateShape(board, pawn, offset, aiIsDone, promotionChoice, m);
      if board.IsTileOccupied(d) && IsPawnPromotionSquare(pawn.pieceAlliance, d) {
        var fan := PromotionFan(pawn, d, aiIsDone, promotionChoice);
        if m in fan { PromotionFanShape(pawn, d, aiIsDone, promotionChoice, m); }
      }
    }
  }

  /** The pawn taken en passant stands beside the capturing pawn, on the column the capture lands on. */
  lemma EnPassantVictimBeside(board: Board, pawn: Piece, offset: int, d: int, q: Piece)
    requires board.Valid() && IsPawnOnBoard(pawn)
    requires EnPassantCondition(board, pawn, offset, d, q)
    ensures Row(q.piecePosition) == Row(pawn.piecePosition)
    ensures Column(q.piecePosition) == Column(d)
  {
    TargetGeometry(pawn, offset);
    var p := pawn.piecePosition;
    var r, c := p / 8, p % 8;
    assert p == 8 * r + c;
    if offset == 7 {
      assert q.piecePosition == 8 * r + (c + OppositeDirection(pawn.pieceAlliance));
    } else {
      assert q.piecePosition == 8 * r + (c - OppositeDirection(pawn.pieceAlliance));
    }
  }

  /**
   * Every promotion move lands on the side's last row, decorates a plain PawnMove (also
   * for a capture), and promotes to a piece of the switch's fall-through range.
   */
  lemma PromotionMovesShape(board: Board, pawn: Piece, aiIsDone: bool, promotionChoice: string, m: Move)
    requires board.Valid() && IsPawnOnBoard(pawn)
    requires m in PawnLegalMoves(board, pawn, aiIsDone, promotionChoice) && m.PawnPromotion?
    ensures IsPawnPromotionSquare(pawn.pieceAlliance, m.Destination())
    ensures m.decoratedMove == PawnMove(pawn, m.Destination())
    ensures m.promotionPiece == PromotedPiece(m.promotionPiece.pieceType, pawn.pieceAlliance, m.Destination())
    ensures m.promotionPiece.pieceType in PromotionOrder[SwitchEntry(aiIsDone, promotionChoice)..]
  {
    MemberOfLegalMoves(board, pawn, aiIsDone, promotionChoice, m);
    var offset: int :| offset in CandidateMoveCoordinate && m in CandidateMoves(board, pawn, offset, aiIsDone, promotionChoice);
    CandidateShape(board, pawn, offset, aiIsDone, promotionChoice, m);
    var d := Target(pawn, offset);
    var fan := PromotionFan(pawn, d, aiIsDone, promotionChoice);
    assert m in fan;
    PromotionFanShape(pawn, d, aiIsDone, promotionChoice, m);
  }

  /**
   * A promotion to a piece of type t landing on d is emitted exactly when d is a
   * promotion square, t is in the fall-through range of the switch, and d is either the
   * empty square ahead or an allowed diagonal target holding a piece of the other side.
   * So no promotion lands on an occupied square ahead or on one of the pawn's own pieces.
   */
  lemma PromotionIff(board: Board, pawn: Piece, aiIsDone: bool, promotionChoice: string, d: int, t: PieceType)
    requires board.Valid() && IsPawnOnBoard(pawn)
    ensures PawnPromotion(PawnMove(pawn, d), PromotedPiece(t, pawn.pieceAlliance, d)) in PawnLegalMoves(board, pawn, aiIsDone, promotionChoice) <==>
              IsPawnPromotionSquare(pawn.pieceAlliance, d) &&
              t in PromotionOrder[SwitchEntry(aiIsDone, promotionChoice)..] &&
              ((d == Target(pawn, 8) && board.tiles[d].None?) ||
               (exists q :: CaptureCondition(board, pawn, 7, d, q) || CaptureCondition(board, pawn, 9, d, q)))
  {
    var m := PawnPromotion(PawnMove(pawn, d), PromotedPiece(t, pawn.pieceAlliance, d));
    if m in PawnLegalMoves(board, pawn, aiIsDone, promotionChoice) {
      PromotionOnlyIf(board, pawn, aiIsDone, promotionChoice, m);
    }
    if PromotionCondition(board, pawn, aiIsDone, promotionChoice, d, t) {
      PromotionIf(board, pawn, aiIsDone, promotionChoice, d, t);
    }
  }

  /** The conditions under which the generator promotes to a t on d. */
  ghost predicate PromotionCondition(board: Board, pawn: Piece, aiIsDone: bool, promotionChoice: string, d: int, t: PieceType)
    requires board.Valid()
  {
    IsPawnPromotionSquare(pawn.pieceAlliance, d) &&
    t in PromotionOrder[SwitchEntry(aiIsDone, promotionChoice)..] &&
    ((d == Target(pawn, 8) && board.tiles[d].None?) ||
     (exists q :: CaptureCondition(board, pawn, 7, d, q) || CaptureCondition(board, pawn, 9, d, q)))
  }

  lemma PromotionOnlyIf(board: Board, pawn: Piece, aiIsDone: bool, promotionChoice: string, m: Move)
    requires board.Valid() && IsPawnOnBoard(pawn)
    requires m in PawnLegalMoves(board, pawn, aiIsDone, promotionChoice) && m.PawnPromotion?
    ensures m == PawnPromotion(PawnMove(pawn, m.Destination()), PromotedPiece(m.promotionPiece.pieceType, pawn.pieceAlliance, m.Destination()))
    ensures PromotionCondition(board, pawn, aiIsDone, promotionChoice, m.Destination(), m.promotionPiece.pieceType)
  {
    MemberOfLegalMoves(board, pawn, aiIsDone, promotionChoice, m);
    var offset: int :| offset in CandidateMoveCoordinate && m in CandidateMoves(board, pawn, offset, aiIsDone, promotionChoice);
    CandidateShape(board, pawn, offset, aiIsDone, promotionChoice, m);
    var d := m.Destination();
    if offset == 7 || offset == 9 {
      assert board.IsTileOccupied(d);
      var q := board.tiles[d].value;
      assert CaptureCondition(board, pawn, offset, d, q);
    }
    assert m in PromotionFan(pawn, d, aiIsDone, promotionChoice);
    PromotionFanShape(pawn, d, aiIsDone, promotionChoice, m);
  }

  lemma PromotionIf(board: Board, pawn: Piece, aiIsDone: bool, promotionChoice: string, d: int, t: PieceType)
    requires board.Valid() && IsPawnOnBoard(pawn)
    requires PromotionCondition(board, pawn, aiIsDone, promotionChoice, d, t)
    ensures PawnPromotion(PawnMove(pawn, d), PromotedPiece(t, pawn.pieceAlliance, d)) in PawnLegalMoves(board, pawn, aiIsDone, promotionChoice)
  {
    var m := PawnPromotion(PawnMove(pawn, d), PromotedPiece(t, pawn.pieceAlliance, d));
    var fan := PromotionFan(pawn, d, aiIsDone, promotionChoice);
    var suffix := PromotionOrder[SwitchEntry(aiIsDone, promotionChoice)..];
    var i :| 0 <= i < |suffix| && suffix[i] == t;
    assert fan[i] == m;
    MemberOfLegalMoves(board, pawn, aiIsDone, promotionChoice, m);
    if d == Target(pawn, 8) && board.tiles[d].None? {
      assert CandidateMoves(board, pawn, 8, aiIsDone, promotionChoice) == fan;
    } else {
      var q, o :| (o == 7 || o == 9) && CaptureCondition(board, pawn, o, d, q);
      CapturePromotes(board, pawn, o, d, q, aiIsDone, promotionChoice);
    }
  }

  /** A capture onto the last rank yields the promotion fan for that square. */
  lemma CapturePromotes(board: Board, pawn: Piece, o: int, d: int, q: Piece, aiIsDone: bool, promotionChoice: string)
    requires board.Valid() && IsPawnOnBoard(pawn)
    requires (o == 7 || o == 9) && CaptureCondition(board, pawn, o, d, q) && IsPawnPromotionSquare(pawn.pieceAlliance, d)
    ensures CandidateMoves(board, pawn, o, aiIsDone, promotionChoice) == PromotionFan(pawn, d, aiIsDone, promotionChoice)
  {
  }

  /**
   * The promotion fan for one destination: four moves Q, R, B, N when the computer is
   * choosing; otherwise, by fall-through, 4 for "Queen", 3 for "Rook", 2 for "Bishop",
   * 1 for "Knight" and none for any other string, always ending with the knight.
   */
  lemma PromotionFanSize(pawn: Piece, destination: int, aiIsDone: bool, promotionChoice: string)
    ensures |PromotionFan(pawn, destination, aiIsDone, promotionChoice)| == FanSize(aiIsDone, promotionChoice)
    ensures forall i :: 0 <= i < FanSize(aiIsDone, promotionChoice) ==>
              PromotionFan(pawn, destination, aiIsDone, promotionChoice)[i] ==
              PawnPromotion(PawnMove(pawn, destination),
                            PromotedPiece(PromotionOrder[4 - FanSize(aiIsDone, promotionChoice) + i], pawn.pieceAlliance, destination))
  {
  }

  lemma MovesToCandidate(board: Board, pawn: Piece, aiIsDone: bool, promotionChoice: string, o: int, d: int)
    requires board.Valid() && IsPawnOnBoard(pawn)
    ensures MovesTo(CandidateMoves(board, pawn, o, aiIsDone, promotionChoice), d) ==
            if Target(pawn, o) == d then CandidateMoves(board, pawn, o, aiIsDone, promotionChoice) else []
  {
    var s := CandidateMoves(board, pawn, o, aiIsDone, promotionChoice);
    forall m | m in s ensures m.Destination() == Target(pawn, o) {
      CandidateShape(board, pawn, o, aiIsDone, promotionChoice, m);
    }
    if Target(pawn, o) == d { MovesToAll(s, d); } else { MovesToNone(s, d); }
  }

  /** The moves landing on one offset's target are exactly what that offset emitted: targets of different offsets differ. */
  lemma MovesToTarget(board: Board, pawn: Piece, aiIsDone: bool, promotionChoice: string, offset: int)
    requires board.Valid() && IsPawnOnBoard(pawn)
    requires offset in CandidateMoveCoordinate
    ensures MovesTo(PawnLegalMoves(board, pawn, aiIsDone, promotionChoice), Target(pawn, offset)) ==
            CandidateMoves(board, pawn, offset, aiIsDone, promotionChoice)
  {
    var d := Target(pawn, offset);
    LegalMovesUnfold(board, pawn, aiIsDone, promotionChoice);
    var c7 := CandidateMoves(board, pawn, 7, aiIsDone, promotionChoice);
    var c8 := CandidateMoves(board, pawn, 8, aiIsDone, promotionChoice);
    var c9 := CandidateMoves(board, pawn, 9, aiIsDone, promotionChoice);
    var c16 := CandidateMoves(board, pawn, 16, aiIsDone, promotionChoice);
    MovesToAppend(c7 + c8 + c9, c16, d);
    MovesToAppend(c7 + c8, c9, d);
    MovesToAppend(c7, c8, d);
    MovesToCandidate(board, pawn, aiIsDone, promotionChoice, 7, d);
    MovesToCandidate(board, pawn, aiIsDone, promotionChoice, 8, d);
    MovesToCandidate(board, pawn, aiIsDone, promotionChoice, 9, d);
    MovesToCandidate(board, pawn, aiIsDone, promotionChoice, 16, d);
    var dir := Direction(pawn.pieceAlliance);
    assert dir == 1 || dir == -1;
    SelectOne(MovesTo(c7, d), MovesTo(c8, d), MovesTo(c9, d), MovesTo(c16, d),
              if offset == 7 then c7 else if offset == 8 then c8 else if offset == 9 then c9 else c16,
              if offset == 7 then 0 else if offset == 8 then 1 else if offset == 9 then 2 else 3);
  }

  lemma SelectOne(a: seq<Move>, b: seq<Move>, c: seq<Move>, e: seq<Move>, x: seq<Move>, which: int)
    requires 0 <= which < 4
    requires a == (if which == 0 then x else [])
    requires b == (if which == 1 then x else [])
    requires c == (if which == 2 then x else [])
    requires e == (if which == 3 then x else [])
    ensures a + b + c + e == x
  {
  }

  /**
   * Pushing onto an empty promotion square yields exactly the promotion fan there, so
   * FanSize moves land on it; a push that does not promote yields exactly one PawnMove.
   */
  lemma PushCount(board: Board, pawn: Piece, aiIsDone: bool, promotionChoice: string)
    requires board.Valid() && IsPawnOnBoard(pawn)
    requires IsValidTileCoordinate(Target(pawn, 8)) && board.tiles[Target(pawn, 8)].None?
    ensures var pushes := MovesTo(PawnLegalMoves(board, pawn, aiIsDone, promotionChoice), Target(pawn, 8));
            if IsPawnPromotionSquare(pawn.pieceAlliance, Target(pawn, 8)) then
              pushes == PromotionFan(pawn, Target(pawn, 8), aiIsDone, promotionChoice) &&
              |pushes| == FanSize(aiIsDone, promotionChoice)
            else
              pushes == [PawnMove(pawn, Target(pawn, 8))]
  {
    MovesToTarget(board, pawn, aiIsDone, promotionChoice, 8);
    PromotionFanSize(pawn, Target(pawn, 8), aiIsDone, promotionChoice);
  }

  /** Capturing an enemy piece on a promotion square yields exactly the promotion fan there. */
  lemma PromotionCaptureCount(board: Board, pawn: Piece, aiIsDone: bool, promotionChoice: string, offset: int)
    requires board.Valid() && IsPawnOnBoard(pawn)
    requires offset == 7 || offset == 9
    requires IsValidTileCoordinate(Target(pawn, offset)) && DiagonalAllowed(pawn, offset)
    requires board.tiles[Target(pawn, offset)].Some?
    requires board.tiles[Target(pawn, offset)].value.pieceAlliance != pawn.pieceAlliance
    requires IsPawnPromotionSquare(pawn.pieceAlliance, Target(pawn, offset))
    ensures var captures := MovesTo(PawnLegalMoves(board, pawn, aiIsDone, promotionChoice), Target(pawn, offset));
            captures == PromotionFan(pawn, Target(pawn, offset), aiIsDone, promotionChoice) &&
            |captures| == FanSize(aiIsDone, promotionChoice)
  {
    MovesToTarget(board, pawn, aiIsDone, promotionChoice, offset);
    PromotionFanSize(pawn, Target(pawn, offset), aiIsDone, promotionChoice);
  }

  /**
   * movePiece marks the moved pawn as on its first move again, yet it can never jump:
   * a pawn that starts no further back than its starting row ends up past it.
   */
  lemma MovedPawnNeverJumps(board: Board, pawn: Piece, aiIsDone: bool, promotionChoice: string, m: Move,
                            next: Board, nextAiIsDone: bool, nextChoice: string)
    requires board.Valid() && IsPawnOnBoard(pawn) && next.Valid()
    requires m in PawnLegalMoves(board, pawn, aiIsDone, promotionChoice) && !m.PawnPromotion?
    requires pawn.pieceAlliance == White ==> Row(pawn.piecePosition) <= 6
    requires pawn.pieceAlliance == Black ==> Row(pawn.piecePosition) >= 1
    ensures IsPawnOnBoard(MovePiece(m)) && MovePiece(m).isFirstMove && !OnStartingRow(MovePiece(m))
    ensures forall j :: j in PawnLegalMoves(next, MovePiece(m), nextAiIsDone, nextChoice) ==> !j.PawnJump?
  {
    DestinationsOnBoard(board, pawn, aiIsDone, promotionChoice);
    NoWrapAround(board, pawn, aiIsDone, promotionChoice, m);
    var moved := MovePiece(m);
    forall j | j in PawnLegalMoves(next, moved, nextAiIsDone, nextChoice) ensures !j.PawnJump? {
      if j.PawnJump? {
        DestinationsOnBoard(next, moved, nextAiIsDone, nextChoice);
        PawnJumpIff(next, moved, nextAiIsDone, nextChoice, j.destinationCoordinate);
      }
    }
  }
}
