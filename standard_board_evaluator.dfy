/**
 * The static evaluator: white's score minus black's score, each side's score the sum
 * of nine terms. A side is given by the facts the evaluator reads from its Player:
 * its active pieces (value and square), the destinations of its legal moves, whether
 * it is in check or checkmate, whether it has castled, and the scores of the pawn and
 * rook structure analysers, which are not part of this model and enter as given numbers.
 * Integers are mathematical: Java int overflow of the checkmate term is not modelled.
 */
module StandardBoardEvaluator {
  import opened BoardUtils
  import opened Alliances

  const CheckBonus: int := 50
  const CheckMateBonus: int := 10000
  const DepthBonusFactor: int := 80
  const CastleBonus: int := 60
  /** Below this many pieces on the board, castling and the centre no longer score. */
  const MiddleGamePieces: int := 10

  datatype ActivePiece = ActivePiece(pieceValue: int, piecePosition: int)

  datatype PlayerFacts = PlayerFacts(
    alliance: Alliance,
    activePieces: seq<ActivePiece>,
    legalMoveDestinations: seq<int>,
    isInCheck: bool,
    isInCheckMate: bool,
    isCastled: bool,
    pawnStructureScore: int,
    rookStructureScore: int)

  datatype BoardFacts = BoardFacts(whitePlayer: PlayerFacts, blackPlayer: PlayerFacts) {
    predicate WellFormed() {
      whitePlayer.alliance == White && blackPlayer.alliance == Black
    }
  }

  function TotalPieces(player: PlayerFacts, opponent: PlayerFacts): nat {
    |player.activePieces| + |opponent.activePieces|
  }

  /** The sum of the values of the given pieces. */
  function Material(pieces: seq<ActivePiece>): int {
    if pieces == [] then 0
    else Material(pieces[..|pieces| - 1]) + pieces[|pieces| - 1].pieceValue
  }

  /** mobility: one point per legal move. */
  function MobilityScore(player: PlayerFacts): (mobility: nat)
    ensures mobility == |player.legalMoveDestinations|
  {
    |player.legalMoveDestinations|
  }

  /** check: the bonus exactly when the opponent is in check, nothing otherwise. */
  function CheckScore(opponent: PlayerFacts): (bonus: int)
    ensures bonus == CheckBonus <==> opponent.isInCheck
    ensures bonus == 0 <==> !opponent.isInCheck
  {
    if opponent.isInCheck then CheckBonus else 0
  }

  /** depthBonus: 1 at the search horizon, 80 per remaining ply before it. */
  function DepthBonus(depth: int): (bonus: int)
    ensures depth >= 0 ==> bonus >= 1
    ensures depth >= 1 ==> bonus >= DepthBonusFactor && bonus % DepthBonusFactor == 0
  {
    if depth == 0 then 1 else DepthBonusFactor * depth
  }

  /** checkmate: a multiple of the mate bonus when the opponent is mated, at least the bonus itself at a non-negative depth. */
  function CheckmateScore(player: PlayerFacts, opponent: PlayerFacts, depth: int): (score: int)
    ensures !opponent.isInCheckMate ==> score == 0
    ensures score % CheckMateBonus == 0
    ensures opponent.isInCheckMate && depth >= 0 ==> score >= CheckMateBonus
  {
    if opponent.isInCheckMate then
      CheckMateBonus * (DepthBonus(depth) + Min(120, |player.activePieces| * 10 + |opponent.activePieces| * 10))
    else 0
  }

  function Min(a: int, b: int): int {
    if a <= b then a else b
  }

  /** castled: the bonus exactly when castled with ten or more pieces on the board, nothing otherwise. */
  function CastledScore(player: PlayerFacts, opponent: PlayerFacts): (bonus: int)
    ensures bonus == CastleBonus <==> player.isCastled && TotalPieces(player, opponent) >= MiddleGamePieces
    ensures bonus == 0 || bonus == CastleBonus
  {
    if TotalPieces(player, opponent) >= MiddleGamePieces then
      if player.isCastled then CastleBonus else 0
    else 0
  }

  /** How many of the given pieces stand on d4, d5, e4 or e5. */
  function CenterCount(pieces: seq<ActivePiece>): nat {
    if pieces == [] then 0
    else CenterCount(pieces[..|pieces| - 1]) + (if IsCenterSquare(pieces[|pieces| - 1].piecePosition) then 1 else 0)
  }

  function CenterOccupationScore(player: PlayerFacts, opponent: PlayerFacts): int {
    if TotalPieces(player, opponent) >= MiddleGamePieces then 4 * CenterCount(player.activePieces) else 0
  }

  /** Player.calculateAttacksOnTile, counted: how many of the moves land on the square. */
  function AttacksOnTile(square: int, destinations: seq<int>): nat {
    if destinations == [] then 0
    else AttacksOnTile(square, destinations[..|destinations| - 1]) + (if destinations[|destinations| - 1] == square then 1 else 0)
  }

  /** White doubles its attacks on the e-squares, black on the d-squares. */
  function WeightedCenterAttacks(player: PlayerFacts): int {
    var moves := player.legalMoveDestinations;
    var d5, e5, d4, e4 := AttacksOnTile(D5, moves), AttacksOnTile(E5, moves), AttacksOnTile(D4, moves), AttacksOnTile(E4, moves);
    match player.alliance
    case White => d5 + e5 * 2 + d4 + e4 * 2
    case Black => d5 * 2 + e5 + d4 * 2 + e4
  }

  function CenterAttackScore(player: PlayerFacts, opponent: PlayerFacts): int {
    var attackBonus := if TotalPieces(player, opponent) >= MiddleGamePieces then WeightedCenterAttacks(player) else 0;
    if attackBonus <= 0 then 0 else attackBonus
  }

  /**
   * scorePlayer: the nine terms. Apart from material and the two structure scores every
   * term is a bonus, so at a non-negative depth the score never falls below those three.
   */
  function ScorePlayer(player: PlayerFacts, opponent: PlayerFacts, depth: int): (score: int)
    ensures depth >= 0 ==>
              score >= Material(player.activePieces) + player.pawnStructureScore + player.rookStructureScore
    ensures depth >= 0 ==>
              score >= Material(player.activePieces) + MobilityScore(player) + CheckScore(opponent) +
                       player.pawnStructureScore + player.rookStructureScore
  {
    Material(player.activePieces) + MobilityScore(player) + CheckScore(opponent) +
    CheckmateScore(player, opponent, depth) + CastledScore(player, opponent) +
    CenterOccupationScore(player, opponent) + CenterAttackScore(player, opponent) +
    player.pawnStructureScore + player.rookStructureScore
  }

  /** evaluate: white's score minus black's; a side facing an identical copy of itself scores 0. */
  function Evaluate(board: BoardFacts, depth: int): (score: int)
    ensures board.whitePlayer == board.blackPlayer ==> score == 0
  {
    ScorePlayer(board.whitePlayer, board.blackPlayer, depth) - ScorePlayer(board.blackPlayer, board.whitePlayer, depth)
  }

  // ----- the three terms the source computes with loops and statements -----

  /** pieceValue: the loop that adds up the values of the active pieces. */
  method PieceValue(player: PlayerFacts) returns (pieceValueScore: int)
    ensures pieceValueScore == Material(player.activePieces)
  {
    var pieces := player.activePieces;
    pieceValueScore := 0;
    for i := 0 to |pieces|
      invariant pieceValueScore == Material(pieces[..i])
    {
      assert pieces[..i + 1][..i] == pieces[..i];
      pieceValueScore := pieceValueScore + pieces[i].pieceValue;
    }
    assert pieces[..|pieces|] == pieces;
  }

  /** centerOccupationBonus: four points per own piece on a centre square, while ten or more pieces remain. */
  method CenterOccupationBonus(player: PlayerFacts, opponent: PlayerFacts) returns (occupationBonus: int)
    ensures occupationBonus == CenterOccupationScore(player, opponent)
    ensures occupationBonus >= 0 && occupationBonus % 4 == 0
    ensures TotalPieces(player, opponent) < MiddleGamePieces ==> occupationBonus == 0
  {
    occupationBonus := 0;
    if |player.activePieces| + |opponent.activePieces| >= MiddleGamePieces {
      var pieces := player.activePieces;
      for i := 0 to |pieces|
        invariant occupationBonus == 4 * CenterCount(pieces[..i])
      {
        assert pieces[..i + 1][..i] == pieces[..i];
        var position := pieces[i].piecePosition;
        if position == D5 || position == E5 || position == D4 || position == E4 {
          occupationBonus := occupationBonus + 4;
        }
      }
      assert pieces[..|pieces|] == pieces;
    }
  }

  /**
   * centerAttackBonus: the weighted number of legal moves onto the centre squares while
   * ten or more pieces remain. The final clamp at zero never fires, since the counts
   * cannot be negative.
   */
  method CenterAttackBonus(player: PlayerFacts, opponent: PlayerFacts) returns (bonus: int)
    ensures bonus == CenterAttackScore(player, opponent)
    ensures bonus >= 0
    ensures TotalPieces(player, opponent) < MiddleGamePieces ==> bonus == 0
    ensures TotalPieces(player, opponent) >= MiddleGamePieces ==> bonus == WeightedCenterAttacks(player)
  {
    var attackBonus := 0;
    if |player.activePieces| + |opponent.activePieces| >= MiddleGamePieces {
      var moves := player.legalMoveDestinations;
      var attackMovesOnD5 := AttacksOnTile(D5, moves);
      var attackMovesOnE5 := AttacksOnTile(E5, moves);
      var attackMovesOnD4 := AttacksOnTile(D4, moves);
      var attackMovesOnE4 := AttacksOnTile(E4, moves);
      if player.alliance == White {
        attackBonus := attackBonus + (attackMovesOnD5 + attackMovesOnE5 * 2 + attackMovesOnD4 + attackMovesOnE4 * 2);
      } else if player.alliance == Black {
        attackBonus := attackBonus + (attackMovesOnD5 * 2 + attackMovesOnE5 + attackMovesOnD4 * 2 + attackMovesOnE4);
      }
    }
    if attackBonus <= 0 {
      bonus := 0;
    } else {
      bonus := attackBonus;
    }
  }
}
