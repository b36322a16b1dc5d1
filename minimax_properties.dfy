/**
 * What min and max compute: at a leaf (depth 0, checkmate or stalemate) the evaluation;
 * otherwise the minimum, respectively maximum, over the Done successors searched one
 * level shallower, or the sentinel when no successor is Done.
 */
module MiniMaxProperties {
  import opened MiniMax

  predicate HasDoneChild<B, M>(game: Game<B, M>, board: B) {
    exists i :: 0 <= i < |game.legalMoves(board)| && IsDone(game, board, i)
  }

  lemma {:induction false} LowestSeenIsMinimum<B, M>(game: Game<B, M>, board: B, depth: int, k: nat)
    requires depth >= 1 && k <= |game.legalMoves(board)|
    ensures forall i :: 0 <= i < k && IsDone(game, board, i) ==>
              LowestSeen(game, board, depth, k) <= MaxValue(game, Child(game, board, i), depth - 1)
    ensures (forall i :: 0 <= i < k ==> !IsDone(game, board, i)) ==> LowestSeen(game, board, depth, k) == IntegerMaxValue
    ensures (exists i :: 0 <= i < k && IsDone(game, board, i)) ==>
              exists i :: 0 <= i < k && IsDone(game, board, i) &&
                LowestSeen(game, board, depth, k) == MaxValue(game, Child(game, board, i), depth - 1)
  {
    if k > 0 {
      LowestSeenIsMinimum(game, board, depth, k - 1);
      if IsDone(game, board, k - 1) && !(exists i :: 0 <= i < k - 1 && IsDone(game, board, i)) {
        assert LowestSeen(game, board, depth, k) == MaxValue(game, Child(game, board, k - 1), depth - 1);
      }
    }
  }

  lemma {:induction false} HighestSeenIsMaximum<B, M>(game: Game<B, M>, board: B, depth: int, k: nat)
    requires depth >= 1 && k <= |game.legalMoves(board)|
    ensures forall i :: 0 <= i < k && IsDone(game, board, i) ==>
              HighestSeen(game, board, depth, k) >= MinValue(game, Child(game, board, i), depth - 1)
    ensures (forall i :: 0 <= i < k ==> !IsDone(game, board, i)) ==> HighestSeen(game, board, depth, k) == IntegerMinValue
    ensures (exists i :: 0 <= i < k && IsDone(game, board, i)) ==>
              exists i :: 0 <= i < k && IsDone(game, board, i) &&
                HighestSeen(game, board, depth, k) == MinValue(game, Child(game, board, i), depth - 1)
  {
    if k > 0 {
      HighestSeenIsMaximum(game, board, depth, k - 1);
      if IsDone(game, board, k - 1) && !(exists i :: 0 <= i < k - 1 && IsDone(game, board, i)) {
        assert HighestSeen(game, board, depth, k) == MinValue(game, Child(game, board, k - 1), depth - 1);
      }
    }
  }

  /**
   * min: the evaluation at a leaf; otherwise the least value max gives a Done successor
   * one level shallower, attained by one of them, or Integer.MAX_VALUE when none is Done.
   */
  lemma MinValueCharacterization<B, M>(game: Game<B, M>, board: B, depth: int)
    requires depth >= 0
    ensures depth == 0 || IsEndGameScenario(game, board) ==> MinValue(game, board, depth) == game.evaluate(board, depth)
    ensures depth > 0 && !IsEndGameScenario(game, board) ==>
              (forall i :: 0 <= i < |game.legalMoves(board)| && IsDone(game, board, i) ==>
                 MinValue(game, board, depth) <= MaxValue(game, Child(game, board, i), depth - 1)) &&
              (HasDoneChild(game, board) ==>
                 exists i :: 0 <= i < |game.legalMoves(board)| && IsDone(game, board, i) &&
                   MinValue(game, board, depth) == MaxValue(game, Child(game, board, i), depth - 1)) &&
              (!HasDoneChild(game, board) ==> MinValue(game, board, depth) == IntegerMaxValue)
  {
    if depth > 0 && !IsEndGameScenario(game, board) {
      LowestSeenIsMinimum(game, board, depth, |game.legalMoves(board)|);
    }
  }

  /**
   * max: the evaluation at a leaf; otherwise the greatest value min gives a Done
   * successor one level shallower, attained by one of them, or Integer.MIN_VALUE when none is Done.
   */
  lemma MaxValueCharacterization<B, M>(game: Game<B, M>, board: B, depth: int)
    requires depth >= 0
    ensures depth == 0 || IsEndGameScenario(game, board) ==> MaxValue(game, board, depth) == game.evaluate(board, depth)
    ensures depth > 0 && !IsEndGameScenario(game, board) ==>
              (forall i :: 0 <= i < |game.legalMoves(board)| && IsDone(game, board, i) ==>
                 MaxValue(game, board, depth) >= MinValue(game, Child(game, board, i), depth - 1)) &&
              (HasDoneChild(game, board) ==>
                 exists i :: 0 <= i < |game.legalMoves(board)| && IsDone(game, board, i) &&
                   MaxValue(game, board, depth) == MinValue(game, Child(game, board, i), depth - 1)) &&
              (!HasDoneChild(game, board) ==> MaxValue(game, board, depth) == IntegerMinValue)
  {
    if depth > 0 && !IsEndGameScenario(game, board) {
      HighestSeenIsMaximum(game, board, depth, |game.legalMoves(board)|);
    }
  }

  /**
   * isEndGameScenario: a board whose side to move is checkmated or stalemated is a leaf at
   * every remaining depth. Both searches return its evaluation at that depth, so a mate
   * found nearer the root is scored with the larger depth still left.
   */
  lemma EndGameIsLeaf<B, M>(game: Game<B, M>, board: B, depth: int)
    requires depth >= 0
    requires game.isInCheckMate(board) || game.isInStaleMate(board)
    ensures IsEndGameScenario(game, board)
    ensures MinValue(game, board, depth) == game.evaluate(board, depth)
    ensures MaxValue(game, board, depth) == game.evaluate(board, depth)
  {
  }

  /**
   * other is game with makeMove changed only where the move is not Done: the same Done
   * transitions, and no move that is not Done in game becomes Done.
   */
  ghost predicate AgreeOnDone<B(!new), M(!new)>(game: Game<B, M>, other: Game<B, M>) {
    other == game.(makeMove := other.makeMove) &&
    (forall b: B, m: M :: game.makeMove(b, m).moveStatus == Done ==> other.makeMove(b, m) == game.makeMove(b, m)) &&
    (forall b: B, m: M :: other.makeMove(b, m).moveStatus == Done ==> game.makeMove(b, m).moveStatus == Done)
  }

  /** Only Done successors count: two games that differ only on moves that are not Done search to the same value. */
  lemma {:induction false} OnlyDoneSuccessorsMatter<B(!new), M(!new)>(game: Game<B, M>, board: B, depth: int, other: Game<B, M>)
    requires depth >= 0
    requires AgreeOnDone(game, other)
    ensures MinValue(other, board, depth) == MinValue(game, board, depth)
    ensures MaxValue(other, board, depth) == MaxValue(game, board, depth)
    decreases depth
  {
    if depth > 0 && !IsEndGameScenario(game, board) {
      OnlyDoneLoops(game, board, depth, other, |game.legalMoves(board)|);
    }
  }

  lemma {:induction false} OnlyDoneLoops<B(!new), M(!new)>(game: Game<B, M>, board: B, depth: int, other: Game<B, M>, k: nat)
    requires depth >= 1 && k <= |game.legalMoves(board)|
    requires AgreeOnDone(game, other)
    ensures LowestSeen(other, board, depth, k) == LowestSeen(game, board, depth, k)
    ensures HighestSeen(other, board, depth, k) == HighestSeen(game, board, depth, k)
    decreases depth, k
  {
    if k > 0 {
      OnlyDoneLoops(game, board, depth, other, k - 1);
      if IsDone(game, board, k - 1) {
        assert IsDone(other, board, k - 1);
        assert Child(other, board, k - 1) == Child(game, board, k - 1);
        OnlyDoneSuccessorsMatter(game, Child(game, board, k - 1), depth - 1, other);
      } else {
        assert !IsDone(other, board, k - 1);
      }
    }
  }
}
