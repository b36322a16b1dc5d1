/**
 * Plain minimax search over an abstract game. A Game bundles what the search asks of
 * a board: the current player's legal moves, making a move (a transition with a
 * status), the evaluator, checkmate and stalemate of the current player, and the side
 * to move. Evaluation results are Java ints, so the sentinels Integer.MIN_VALUE and
 * Integer.MAX_VALUE are genuine bounds of every value the search compares.
 */
module MiniMax {
  import opened Options
  import opened Alliances

  const IntegerMinValue: int := -0x8000_0000
  const IntegerMaxValue: int := 0x7fff_ffff

  type Int32 = x: int | IntegerMinValue <= x <= IntegerMaxValue

  datatype MoveStatus = Done | IllegalMove | LeavesPlayerInCheck

  datatype MoveTransition<B> = MoveTransition(toBoard: B, moveStatus: MoveStatus)

  datatype Game<!B, !M> = Game(
    legalMoves: B -> seq<M>,
    makeMove: (B, M) -> MoveTransition<B>,
    evaluate: (B, int) -> Int32,
    isInCheckMate: B -> bool,
    isInStaleMate: B -> bool,
    currentAlliance: B -> Alliance)

  /** The plain minimax does not count the boards it evaluates. */
  function NumBoardsEvaluated(): (boardsEvaluated: nat)
    ensures boardsEvaluated == 0
  {
    0
  }

  predicate IsEndGameScenario<B, M>(game: Game<B, M>, board: B) {
    game.isInCheckMate(board) || game.isInStaleMate(board)
  }

  /** Whether making the i-th legal move succeeds. */
  predicate IsDone<B, M>(game: Game<B, M>, board: B, i: int)
    requires 0 <= i < |game.legalMoves(board)|
  {
    game.makeMove(board, game.legalMoves(board)[i]).moveStatus == Done
  }

  /** The board the i-th legal move leads to. */
  function Child<B, M>(game: Game<B, M>, board: B, i: int): B
    requires 0 <= i < |game.legalMoves(board)|
  {
    game.makeMove(board, game.legalMoves(board)[i]).toBoard
  }

  /** The value min returns: the evaluation at a leaf, else the loop below over all legal moves. */
  function MinValue<B, M>(game: Game<B, M>, board: B, depth: int): Int32
    requires depth >= 0
    decreases depth, 1, 0
  {
    if depth == 0 || IsEndGameScenario(game, board) then game.evaluate(board, depth)
    else LowestSeen(game, board, depth, |game.legalMoves(board)|)
  }

  /** min's lowestSeenValue after the first k legal moves: successors that are not Done are skipped. */
  function LowestSeen<B, M>(game: Game<B, M>, board: B, depth: int, k: nat): Int32
    requires depth >= 1 && k <= |game.legalMoves(board)|
    decreases depth, 0, k
  {
    if k == 0 then IntegerMaxValue
    else
      var lowestSeenValue := LowestSeen(game, board, depth, k - 1);
      if IsDone(game, board, k - 1) then
        var currentValue := MaxValue(game, Child(game, board, k - 1), depth - 1);
        if currentValue <= lowestSeenValue then currentValue else lowestSeenValue
      else lowestSeenValue
  }

  /** The value max returns: the evaluation at a leaf, else the loop below over all legal moves. */
  function MaxValue<B, M>(game: Game<B, M>, board: B, depth: int): Int32
    requires depth >= 0
    decreases depth, 1, 0
  {
    if depth == 0 || IsEndGameScenario(game, board) then game.evaluate(board, depth)
    else HighestSeen(game, board, depth, |game.legalMoves(board)|)
  }

  /** max's highestSeenValue after the first k legal moves. */
  function HighestSeen<B, M>(game: Game<B, M>, board: B, depth: int, k: nat): Int32
    requires depth >= 1 && k <= |game.legalMoves(board)|
    decreases depth, 0, k
  {
    if k == 0 then IntegerMinValue
    else
      var highestSeenValue := HighestSeen(game, board, depth, k - 1);
      if IsDone(game, board, k - 1) then
        var currentValue := MinValue(game, Child(game, board, k - 1), depth - 1);
        if currentValue >= highestSeenValue then currentValue else highestSeenValue
      else highestSeenValue
  }

  /** The value execute gives the i-th root move: min of the child for white, max for black. */
  function RootValue<B, M>(game: Game<B, M>, board: B, searchDepth: int, i: int): Int32
    requires searchDepth >= 1 && 0 <= i < |game.legalMoves(board)|
  {
    if game.currentAlliance(board) == White then MinValue(game, Child(game, board, i), searchDepth - 1)
    else MaxValue(game, Child(game, board, i), searchDepth - 1)
  }

  /** For the side to move, value a is at least as good as value b. */
  predicate AtLeastAsGood(alliance: Alliance, a: int, b: int) {
    if alliance == White then a >= b else a <= b
  }

  /**
   * The root move execute picks: a Done move whose value is best for the side to move,
   * and the last one among equally good moves (ties go to the later move).
   */
  predicate IsBestRootMove<B, M>(game: Game<B, M>, board: B, searchDepth: int, i: int)
    requires searchDepth >= 1
  {
    var moves := game.legalMoves(board);
    var alliance := game.currentAlliance(board);
    0 <= i < |moves| && IsDone(game, board, i) &&
    (forall j :: 0 <= j < |moves| && IsDone(game, board, j) ==>
       AtLeastAsGood(alliance, RootValue(game, board, searchDepth, i), RootValue(game, board, searchDepth, j))) &&
    (forall j :: i < j < |moves| && IsDone(game, board, j) ==>
       !AtLeastAsGood(alliance, RootValue(game, board, searchDepth, j), RootValue(game, board, searchDepth, i)))
  }

  method Min<B, M>(game: Game<B, M>, board: B, depth: int) returns (value: Int32)
    requires depth >= 0
    ensures value == MinValue(game, board, depth)
    decreases depth
  {
    if depth == 0 || game.isInCheckMate(board) || game.isInStaleMate(board) {
      return game.evaluate(board, depth);
    }
    var moves := game.legalMoves(board);
    var lowestSeenValue: Int32 := IntegerMaxValue;
    for i := 0 to |moves|
      invariant lowestSeenValue == LowestSeen(game, board, depth, i)
    {
      var moveTransition := game.makeMove(board, moves[i]);
      if moveTransition.moveStatus == Done {
        var currentValue := Max(game, moveTransition.toBoard, depth - 1);
        if currentValue <= lowestSeenValue {
          lowestSeenValue := currentValue;
        }
      }
    }
    return lowestSeenValue;
  }

  method Max<B, M>(game: Game<B, M>, board: B, depth: int) returns (value: Int32)
    requires depth >= 0
    ensures value == MaxValue(game, board, depth)
    decreases depth
  {
    if depth == 0 || game.isInCheckMate(board) || game.isInStaleMate(board) {
      return game.evaluate(board, depth);
    }
    var moves := game.legalMoves(board);
    var highestSeenValue: Int32 := IntegerMinValue;
    for i := 0 to |moves|
      invariant highestSeenValue == HighestSeen(game, board, depth, i)
    {
      var moveTransition := game.makeMove(board, moves[i]);
      if moveTransition.moveStatus == Done {
        var currentValue := Min(game, moveTransition.toBoard, depth - 1);
        if currentValue >= highestSeenValue {
          highestSeenValue := currentValue;
        }
      }
    }
    return highestSeenValue;
  }

  /**
   * execute: tries every legal root move, searches below each Done one, and keeps the
   * best for the side to move, taking later moves on ties. No move when none is Done.
   * The search depth must be at least 1: with 0 the children would be searched at
   * depth -1 and the depth would never reach 0.
   */
  method Execute<B, M>(game: Game<B, M>, board: B, searchDepth: int) returns (bestMove: Option<M>)
    requires searchDepth >= 1
    ensures bestMove.None? <==> forall i :: 0 <= i < |game.legalMoves(board)| ==> !IsDone(game, board, i)
    ensures bestMove.Some? ==>
              exists i :: IsBestRootMove(game, board, searchDepth, i) && game.legalMoves(board)[i] == bestMove.value
  {
    var moves := game.legalMoves(board);
    var alliance := game.currentAlliance(board);
    bestMove := None;
    var highestSeenValue: Int32 := IntegerMinValue;
    var lowestSeenValue: Int32 := IntegerMaxValue;
    ghost var bestIndex := 0;
    for i := 0 to |moves|
      invariant bestMove.None? <==> forall j :: 0 <= j < i ==> !IsDone(game, board, j)
      invariant bestMove.None? ==> highestSeenValue == IntegerMinValue && lowestSeenValue == IntegerMaxValue
      invariant bestMove.Some? ==> 0 <= bestIndex < i && IsDone(game, board, bestIndex) && moves[bestIndex] == bestMove.value
      invariant bestMove.Some? ==>
                  (if alliance == White then highestSeenValue else lowestSeenValue) ==
                  RootValue(game, board, searchDepth, bestIndex)
      invariant bestMove.Some? ==> forall j :: 0 <= j < i && IsDone(game, board, j) ==>
                  AtLeastAsGood(alliance, RootValue(game, board, searchDepth, bestIndex), RootValue(game, board, searchDepth, j))
      invariant bestMove.Some? ==> forall j :: bestIndex < j < i && IsDone(game, board, j) ==>
                  !AtLeastAsGood(alliance, RootValue(game, board, searchDepth, j), RootValue(game, board, searchDepth, bestIndex))
    {
      var moveTransition := game.makeMove(board, moves[i]);
      assert IsDone(game, board, i) <==> moveTransition.moveStatus == Done;
      if moveTransition.moveStatus == Done {
        var currentValue: Int32;
        if alliance == White {
          currentValue := Min(game, moveTransition.toBoard, searchDepth - 1);
        } else {
          currentValue := Max(game, moveTransition.toBoard, searchDepth - 1);
        }
        assert currentValue == RootValue(game, board, searchDepth, i);
        if alliance == White && currentValue >= highestSeenValue {
          highestSeenValue := currentValue;
          bestMove := Some(moves[i]);
          bestIndex := i;
        } else if alliance == Black && currentValue <= lowestSeenValue {
          lowestSeenValue := currentValue;
          bestMove := Some(moves[i]);
          bestIndex := i;
        }
        assert bestMove.Some?;
      }
    }
    if bestMove.Some? {
      assert IsBestRootMove(game, board, searchDepth, bestIndex);
    }
  }
}
