/**
 * Properties of the static evaluator: antisymmetry in the two sides, bounds of the
 * individual terms, and the board symmetry the evaluator actually has. The centre
 * attack weights (white doubles the e-squares, black the d-squares) make the score
 * symmetric under turning the board by 180 degrees with the colours swapped, and not
 * under the top-to-bottom mirror with the colours swapped.
 */
module EvaluatorProperties {
  import opened BoardUtils
  import opened Alliances
  import opened StandardBoardEvaluator

  /** Exchanging the two players' facts negates the evaluation. */
  lemma EvaluateSwapSides(board: BoardFacts, depth: int)
    ensures Evaluate(BoardFacts(board.blackPlayer, board.whitePlayer), depth) == -Evaluate(board, depth)
  {
  }

  /** The checkmate term: nothing unless the opponent is mated; then at least the mate bonus, more the deeper the search still had to go. */
  lemma CheckmateScoreProperties(player: PlayerFacts, opponent: PlayerFacts, d1: int, d2: int)
    requires 0 <= d1 <= d2
    ensures !opponent.isInCheckMate ==> CheckmateScore(player, opponent, d1) == 0
    ensures opponent.isInCheckMate ==> CheckmateScore(player, opponent, d1) >= CheckMateBonus
    ensures CheckmateScore(player, opponent, d1) <= CheckmateScore(player, opponent, d2)
  {
  }

  /** The small terms: check 50 or 0, castling 60 exactly when castled with ten or more pieces left, centre attack never negative and nothing below ten pieces. */
  lemma TermValues(player: PlayerFacts, opponent: PlayerFacts)
    ensures CheckScore(opponent) == (if opponent.isInCheck then CheckBonus else 0)
    ensures CastledScore(player, opponent) == CastleBonus <==>
              player.isCastled && TotalPieces(player, opponent) >= MiddleGamePieces
    ensures CastledScore(player, opponent) == 0 || CastledScore(player, opponent) == CastleBonus
    ensures MobilityScore(player) >= 0
    ensures CenterAttackScore(player, opponent) >= 0
    ensures TotalPieces(player, opponent) < MiddleGamePieces ==>
              CastledScore(player, opponent) == 0 && CenterOccupationScore(player, opponent) == 0 &&
              CenterAttackScore(player, opponent) == 0
  {
  }

  /** Material adds up over a split of the pieces, in any order of the halves. */
  lemma {:induction false} MaterialAppend(a: seq<ActivePiece>, b: seq<ActivePiece>)
    ensures Material(a + b) == Material(a) + Material(b)
    ensures Material(a + b) == Material(b + a)
    decreases |b|
  {
    MaterialConcat(a, b);
    MaterialConcat(b, a);
  }

  lemma {:induction false} MaterialConcat(a: seq<ActivePiece>, b: seq<ActivePiece>)
    ensures Material(a + b) == Material(a) + Material(b)
    decreases |b|
  {
    if b != [] {
      var init := b[..|b| - 1];
      assert (a + b)[..|a + b| - 1] == a + init;
      MaterialConcat(a, init);
    } else {
      assert a + b == a;
    }
  }

  // ----- centre occupation is at most 16 -----

  /** The centre squares occupied by the given pieces. */
  function OccupiedCenter(pieces: seq<ActivePiece>): (r: set<int>)
    ensures forall sq :: sq in r ==> IsCenterSquare(sq)
  {
    if pieces == [] then {}
    else
      var last := pieces[|pieces| - 1].piecePosition;
      OccupiedCenter(pieces[..|pieces| - 1]) + (if IsCenterSquare(last) then {last} else {})
  }

  predicate DistinctSquares(pieces: seq<ActivePiece>) {
    forall i, j :: 0 <= i < j < |pieces| ==> pieces[i].piecePosition != pieces[j].piecePosition
  }

  lemma {:induction false} OccupiedCenterContains(pieces: seq<ActivePiece>, sq: int)
    requires sq in OccupiedCenter(pieces)
    ensures exists i :: 0 <= i < |pieces| && pieces[i].piecePosition == sq
  {
    if pieces != [] {
      var init := pieces[..|pieces| - 1];
      if sq in OccupiedCenter(init) {
        OccupiedCenterContains(init, sq);
        var i :| 0 <= i < |init| && init[i].piecePosition == sq;
        assert pieces[i].piecePosition == sq;
      }
    }
  }

  lemma {:induction false} CenterCountIsOccupied(pieces: seq<ActivePiece>)
    requires DistinctSquares(pieces)
    ensures CenterCount(pieces) == |OccupiedCenter(pieces)|
  {
    if pieces != [] {
      var init := pieces[..|pieces| - 1];
      var last := pieces[|pieces| - 1].piecePosition;
      CenterCountIsOccupied(init);
      if last in OccupiedCenter(init) {
        OccupiedCenterContains(init, last);
        assert false;
      }
    }
  }

  lemma SubsetOfCenterAtMostFour(s: set<int>)
    requires forall sq :: sq in s ==> IsCenterSquare(sq)
    ensures |s| <= 4
  {
    var center := {D5, E5, D4, E4};
    forall sq | sq in s ensures sq in center { }
    assert |center| == 4;
    SubsetCardinality(s, center);
  }

  lemma SubsetCardinality(a: set<int>, b: set<int>)
    requires a <= b
    ensures |a| <= |b|
  {
    var rest := b - a;
    assert b == a + rest;
    assert a * rest == {};
  }

  /** With no two pieces on one square, centre occupation earns between 0 and 16 points. */
  lemma CenterOccupationAtMostSixteen(player: PlayerFacts, opponent: PlayerFacts)
    requires DistinctSquares(player.activePieces)
    ensures 0 <= CenterOccupationScore(player, opponent) <= 16
  {
    CenterCountIsOccupied(player.activePieces);
    SubsetOfCenterAtMostFour(OccupiedCenter(player.activePieces));
  }

  // ----- the symmetry the evaluator has: a half turn of the board with colours swapped -----

  function RotateSquare(square: int): int {
    NumTiles - 1 - square
  }

  function RotatePieces(pieces: seq<ActivePiece>): (r: seq<ActivePiece>)
    ensures |r| == |pieces|
  {
    if pieces == [] then []
    else
      var last := pieces[|pieces| - 1];
      RotatePieces(pieces[..|pieces| - 1]) + [ActivePiece(last.pieceValue, RotateSquare(last.piecePosition))]
  }

  function RotateSquares(squares: seq<int>): (r: seq<int>)
    ensures |r| == |squares|
  {
    if squares == [] then []
    else RotateSquares(squares[..|squares| - 1]) + [RotateSquare(squares[|squares| - 1])]
  }

  /** The same player seen on the board turned by 180 degrees, playing the other colour. */
  function RotatedPlayer(player: PlayerFacts): PlayerFacts {
    player.(alliance := Opposite(player.alliance),
            activePieces := RotatePieces(player.activePieces),
            legalMoveDestinations := RotateSquares(player.legalMoveDestinations))
  }

  function RotatedBoard(board: BoardFacts): BoardFacts {
    BoardFacts(RotatedPlayer(board.blackPlayer), RotatedPlayer(board.whitePlayer))
  }

  lemma {:induction false} RotatePiecesPreserves(pieces: seq<ActivePiece>)
    ensures Material(RotatePieces(pieces)) == Material(pieces)
    ensures CenterCount(RotatePieces(pieces)) == CenterCount(pieces)
  {
    if pieces != [] {
      var r := RotatePieces(pieces);
      assert r[..|r| - 1] == RotatePieces(pieces[..|pieces| - 1]);
      RotatePiecesPreserves(pieces[..|pieces| - 1]);
    }
  }

  lemma {:induction false} AttacksOnRotated(square: int, squares: seq<int>)
    ensures AttacksOnTile(square, RotateSquares(squares)) == AttacksOnTile(RotateSquare(square), squares)
  {
    if squares != [] {
      var r := RotateSquares(squares);
      assert r[..|r| - 1] == RotateSquares(squares[..|squares| - 1]);
      AttacksOnRotated(square, squares[..|squares| - 1]);
    }
  }

  lemma RotatedCenterAttacks(player: PlayerFacts)
    ensures WeightedCenterAttacks(RotatedPlayer(player)) == WeightedCenterAttacks(player)
  {
    var moves := player.legalMoveDestinations;
    AttacksOnRotated(D5, moves);
    AttacksOnRotated(E5, moves);
    AttacksOnRotated(D4, moves);
    AttacksOnRotated(E4, moves);
  }

  lemma RotatedPlayerScores(player: PlayerFacts, opponent: PlayerFacts, depth: int)
    ensures ScorePlayer(RotatedPlayer(player), RotatedPlayer(opponent), depth) == ScorePlayer(player, opponent, depth)
  {
    var rp, ro := RotatedPlayer(player), RotatedPlayer(opponent);
    RotatePiecesPreserves(player.activePieces);
    RotatedCenterAttacks(player);
    assert TotalPieces(rp, ro) == TotalPieces(player, opponent);
    assert CenterOccupationScore(rp, ro) == CenterOccupationScore(player, opponent);
    assert CenterAttackScore(rp, ro) == CenterAttackScore(player, opponent);
    assert CheckmateScore(rp, ro, depth) == CheckmateScore(player, opponent, depth);
  }

  /** Turning the board by 180 degrees and swapping the colours negates the evaluation. */
  lemma EvaluateRotationAntisymmetric(board: BoardFacts, depth: int)
    ensures board.WellFormed() ==> RotatedBoard(board).WellFormed()
    ensures Evaluate(RotatedBoard(board), depth) == -Evaluate(board, depth)
  {
    RotatedPlayerScores(board.whitePlayer, board.blackPlayer, depth);
    RotatedPlayerScores(board.blackPlayer, board.whitePlayer, depth);
  }

  // ----- the symmetry it does not have: the top-to-bottom mirror with colours swapped -----

  function MirrorSquare(square: int): int {
    (7 - Row(square)) * NumTilesPerRow + Column(square)
  }

  function MirrorPieces(pieces: seq<ActivePiece>): seq<ActivePiece> {
    seq(|pieces|, i requires 0 <= i < |pieces| => ActivePiece(pieces[i].pieceValue, MirrorSquare(pieces[i].piecePosition)))
  }

  function MirrorSquares(squares: seq<int>): seq<int> {
    seq(|squares|, i requires 0 <= i < |squares| => MirrorSquare(squares[i]))
  }

  function MirroredPlayer(player: PlayerFacts): PlayerFacts {
    player.(alliance := Opposite(player.alliance),
            activePieces := MirrorPieces(player.activePieces),
            legalMoveDestinations := MirrorSquares(player.legalMoveDestinations))
  }

  function MirroredBoard(board: BoardFacts): BoardFacts {
    BoardFacts(MirroredPlayer(board.blackPlayer), MirroredPlayer(board.whitePlayer))
  }

  lemma {:induction false} SameValuesSameMaterial(a: seq<ActivePiece>, b: seq<ActivePiece>)
    requires |a| == |b| && forall i :: 0 <= i < |a| ==> a[i].pieceValue == b[i].pieceValue
    ensures Material(a) == Material(b)
  {
    if a != [] {
      SameValuesSameMaterial(a[..|a| - 1], b[..|b| - 1]);
    }
  }

  lemma {:induction false} OffCenter(pieces: seq<ActivePiece>)
    requires forall i :: 0 <= i < |pieces| ==> !IsCenterSquare(pieces[i].piecePosition)
    ensures CenterCount(pieces) == 0
  {
    if pieces != [] {
      OffCenter(pieces[..|pieces| - 1]);
    }
  }

  /** Five pieces of the given values on the consecutive squares from first on. */
  function Row5(values: seq<int>, first: int): (pieces: seq<ActivePiece>)
    requires |values| == 5
    ensures |pieces| == 5
  {
    seq(5, i requires 0 <= i < 5 => ActivePiece(values[i], first + i))
  }

  const WitnessValues: seq<int> := [10000, 900, 500, 300, 100]

  /** Black on a8..e8, white on d1..h1, the same values on both sides, and one white move, onto e5. */
  function MirrorWitness(): BoardFacts {
    BoardFacts(PlayerFacts(White, Row5(WitnessValues, 59), [E5], false, false, false, 0, 0),
               PlayerFacts(Black, Row5(WitnessValues, 0), [], false, false, false, 0, 0))
  }

  lemma MirrorWitnessShape()
    ensures MirrorWitness().WellFormed()
    ensures DistinctSquares(MirrorWitness().whitePlayer.activePieces + MirrorWitness().blackPlayer.activePieces)
    ensures |MirrorWitness().whitePlayer.activePieces| == |MirrorWitness().blackPlayer.activePieces|
    ensures Material(MirrorWitness().whitePlayer.activePieces) == Material(MirrorWitness().blackPlayer.activePieces)
  {
    var board := MirrorWitness();
    var all := board.whitePlayer.activePieces + board.blackPlayer.activePieces;
    assert forall i :: 0 <= i < 5 ==> all[i].piecePosition == 59 + i;
    assert forall i :: 5 <= i < 10 ==> all[i].piecePosition == i - 5;
    SameValuesSameMaterial(board.whitePlayer.activePieces, board.blackPlayer.activePieces);
  }

  /** White scores its material plus one move plus 2 for the doubled attack on e5; black its material alone. */
  lemma MirrorWitnessEvaluates()
    ensures Evaluate(MirrorWitness(), 0) == 3
  {
    var board := MirrorWitness();
    MirrorWitnessShape();
    OffCenter(board.whitePlayer.activePieces);
    OffCenter(board.blackPlayer.activePieces);
    assert AttacksOnTile(E5, [E5]) == 1;
    assert AttacksOnTile(D5, [E5]) == 0 && AttacksOnTile(D4, [E5]) == 0 && AttacksOnTile(E4, [E5]) == 0;
    assert WeightedCenterAttacks(board.whitePlayer) == 2;
    assert WeightedCenterAttacks(board.blackPlayer) == 0;
  }

  /** Mirrored, black has the one move, onto e4, worth 1 plus 1 for the single-weighted attack. */
  lemma MirroredWitnessEvaluates()
    ensures Evaluate(MirroredBoard(MirrorWitness()), 0) == -2
  {
    var board := MirrorWitness();
    var mirrored := MirroredBoard(board);
    var mw, mb := mirrored.whitePlayer, mirrored.blackPlayer;
    assert mw.activePieces == Row5(WitnessValues, 56);
    assert mb.activePieces == Row5(WitnessValues, 3);
    SameValuesSameMaterial(mw.activePieces, mb.activePieces);
    OffCenter(mw.activePieces);
    OffCenter(mb.activePieces);
    assert mb.legalMoveDestinations == [E4];
    assert mw.legalMoveDestinations == [];
    assert AttacksOnTile(E4, [E4]) == 1;
    assert AttacksOnTile(D5, [E4]) == 0 && AttacksOnTile(D4, [E4]) == 0 && AttacksOnTile(E5, [E4]) == 0;
    assert WeightedCenterAttacks(mb) == 1;
    assert WeightedCenterAttacks(mw) == 0;
  }

  /**
   * A position whose colour-mirrored twin does not evaluate to the negated score: both
   * sides hold pieces of the same values on ten distinct squares, and white's one move
   * goes to e5, which white's weights double. Mirrored, it is a black move onto e4, which
   * black's weights do not double.
   */
  lemma MirrorSymmetryFails()
    ensures exists board: BoardFacts, depth: int ::
              board.WellFormed() &&
              DistinctSquares(board.whitePlayer.activePieces + board.blackPlayer.activePieces) &&
              |board.whitePlayer.activePieces| == |board.blackPlayer.activePieces| &&
              Material(board.whitePlayer.activePieces) == Material(board.blackPlayer.activePieces) &&
              Evaluate(MirroredBoard(board), depth) != -Evaluate(board, depth)
  {
    MirrorWitnessShape();
    MirrorWitnessEvaluates();
    MirroredWitnessEvaluates();
    var board, depth := MirrorWitness(), 0;
    assert Evaluate(MirroredBoard(board), depth) != -Evaluate(board, depth);
  }
}
