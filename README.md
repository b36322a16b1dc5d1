# JChess engine core in Dafny

This project models four parts of the JChess engine and proves properties of them:

- the pawn move generator (`Pawn.calculateLegalMoves`) and the pawn that results from a move (`Pawn.movePiece`);
- the static evaluator (`StandardBoardEvaluator`): white's score minus black's score, each the sum of nine terms;
- plain minimax search (`MiniMax`): `execute`, `min` and `max`, and the boards-evaluated counter;
- the capture weighting `MoveUtils.exchangeScore`.

Modules:

| file | module | contents |
|---|---|---|
| options.dfy | Options | `Option` |
| board_utils.dfy | BoardUtils | tile indices (a8 = 0, h1 = 63), rows and columns, the starting rows, the four centre squares |
| alliances.dfy | Alliances | the two sides, the pawn direction, the promotion rows |
| pieces.dfy | Pieces | pieces, the five pawn move variants, the board the generator reads |
| pawn.dfy | Pawn | the generator: a spec function per offset plus the imperative loop that is proved equal to it |
| pawn_properties.dfy | PawnProperties | what the generator emits, and when |
| standard_board_evaluator.dfy | StandardBoardEvaluator | the nine terms; the three loops of the source as methods |
| evaluator_properties.dfy | EvaluatorProperties | antisymmetry, term bounds, and the board symmetry the evaluator has or lacks |
| minimax.dfy | MiniMax | the search as mutually recursive methods, each proved against a spec function |
| minimax_properties.dfy | MiniMaxProperties | what min and max compute |
| move_utils.dfy | MoveUtils | `exchangeScore` in Java int arithmetic, and the unbounded version |

The generator's loop over the offsets 7, 8, 9 and 16 appends to a list. In the model that list is a `seq<Move>`. The method `CalculateLegalMoves` is proved equal to `PawnLegalMoves`, and every pawn property is then proved about `PawnLegalMoves`.

The GUI supplies two settings to the generator: whether the computer is choosing a move (`AIisDone`), and the promotion piece a human has configured. These become the parameters `aiIsDone` and `promotionChoice`.

The promotion `switch` has no `break`. It therefore emits the matched piece and every piece listed after it. This fall-through is modelled as written.

A side, as the evaluator sees it, is a `PlayerFacts` record:

- its active pieces, each with a value and a square;
- the destinations of its legal moves;
- whether it is in check or in checkmate;
- whether it has castled;
- the pawn-structure and rook-structure scores, taken as given numbers.

The search works over an abstract `Game`. It bundles legal moves, making a move (a transition with a status), the evaluator, checkmate and stalemate tests, and the side to move. The evaluator returns Java `int` values, so `Integer.MIN_VALUE` and `Integer.MAX_VALUE` bound every value the search compares.

Two points of the evaluator are easy to misread:

- **Checkmate term.** The depth bonus is *added* to `min(120, …)`, not multiplied by it: 10000 · (depthBonus(depth) + min(120, 10 · own pieces + 10 · opponent pieces)).
- **Board symmetry.** The centre-attack weights differ by colour: white doubles its attacks on e4/e5, black on d4/d5. As a result, mirroring the board top to bottom and swapping the colours does not in general negate the evaluation.
  - `EvaluatorProperties.MirrorSymmetryFails` gives a set of player facts where it does not. Both sides have pieces of the same values on ten distinct squares, and white has one move, onto e5.
  - What does hold is antisymmetry under a half turn of the board with the colours swapped (`EvaluatorProperties.EvaluateRotationAntisymmetric`).

## Model

| member | source | states |
|---|---|---|
| Pawn.CalculateLegalMoves | src/com/chess/engine/pieces/Pawn.java:31-193 | The loop over offsets 7, 8, 9, 16 (skipping off-board candidates, with the push, jump and two diagonal branches) returns exactly the concatenation of what each offset emits, in offset order. |
| Pawn.AddPromotions | src/com/chess/engine/pieces/Pawn.java:45-71 | Appends the promotion fan. With the computer choosing, that is Q, R, B, N. Otherwise it is the suffix of Q, R, B, N that starts at the configured piece (switch fall-through), and nothing for an unknown string. |
| Pawn.AddDiagonalMoves | src/com/chess/engine/pieces/Pawn.java:88-135 | One diagonal appends exactly its spec: a promotion fan or an attack on an enemy piece, nothing on an own piece, else en passant on the matching en-passant pawn of the other side. |
| Pawn.MovePiece | src/com/chess/engine/pieces/Pawn.java:201-203 | The moved pawn has the moving piece's alliance and stands on the move's destination. The two-argument constructor marks it as on its first move. |
| PawnProperties.DestinationsOnBoard | src/com/chess/engine/pieces/Pawn.java:38-42 | Every emitted move has a destination in [0, 64) and moves this pawn. |
| PawnProperties.NoWrapAround | src/com/chess/engine/pieces/Pawn.java:84-86 | Every move goes one row forward in the pawn's direction (two for a jump). Pushes and jumps stay on the column. Captures and en-passant captures go to an adjacent column, so no diagonal wraps around a board edge. |
| PawnProperties.PawnMoveIff | src/com/chess/engine/pieces/Pawn.java:44-74 | A `PawnMove` to d is emitted if and only if d is the square ahead, on the board, empty and not a promotion square. |
| PawnProperties.PawnJumpIff | src/com/chess/engine/pieces/Pawn.java:76-83 | A `PawnJump` to d is emitted if and only if d is two rows ahead and all of these hold: the pawn is on its first move; it stands on its starting row (black row 1, white row 6); the square between and d are both empty. |
| PawnProperties.PawnAttackMoveIff | src/com/chess/engine/pieces/Pawn.java:88-124 | A `PawnAttackMove` capturing q on d is emitted if and only if all of these hold: offset 7 or 9 targets d and is not suppressed at the edge; q stands on d; q belongs to the other side; d is not a promotion square. |
| PawnProperties.PawnEnPassantIff | src/com/chess/engine/pieces/Pawn.java:127-184 | An en-passant capture of q landing on d is emitted if and only if all of these hold: d is an allowed, empty diagonal target; q is the board's en-passant pawn; q belongs to the other side; q stands at position + oppositeDirection (offset 7) or position − oppositeDirection (offset 9). |
| PawnProperties.EnPassantVictimBeside | src/com/chess/engine/pieces/Pawn.java:127-184 | On either diagonal, the pawn taken en passant stands on the capturing pawn's row, in the column the capture lands on. |
| PawnProperties.PromotionMovesShape | src/com/chess/engine/pieces/Pawn.java:92-120 | Every promotion lands on the side's last row. It decorates a plain `PawnMove`, even when it captures. It promotes to a fresh piece of the side, of a type in the fall-through range. |
| PawnProperties.PromotionIff | src/com/chess/engine/pieces/Pawn.java:44-169 | A promotion to a piece of type t on d is emitted if and only if all of these hold: d is a promotion square; t is in the fall-through range of the switch; d is either the empty square ahead, or an allowed diagonal target holding a piece of the other side. No promotion lands on an occupied square ahead or on one of the pawn's own pieces. |
| PawnProperties.PromotionFanSize | src/com/chess/engine/pieces/Pawn.java:46-71 | The fan for one destination has 4 moves with the computer choosing. Otherwise it has 4 for "Queen", 3 for "Rook", 2 for "Bishop", 1 for "Knight" and 0 for any other string. The moves come in Q, R, B, N order, ending with the knight. |
| PawnProperties.MovesToTarget | src/com/chess/engine/pieces/Pawn.java:36-38 | The emitted moves landing on one offset's target are exactly what that offset emitted, because the four targets differ. |
| PawnProperties.PushCount | src/com/chess/engine/pieces/Pawn.java:44-74 | A push onto an empty square yields exactly one `PawnMove` there. On a promotion square it yields exactly the promotion fan. |
| PawnProperties.PromotionCaptureCount | src/com/chess/engine/pieces/Pawn.java:88-169 | On either diagonal, capturing an enemy piece on a promotion square yields exactly the promotion fan on that square. |
| PawnProperties.MovedPawnNeverJumps | src/com/chess/engine/pieces/Pawn.java:201-203 | `movePiece` returns a pawn on its first move, yet that pawn is off its starting row, so the generator never offers it a jump. |
| StandardBoardEvaluator.PieceValue | src/com/chess/engine/player/ai/StandardBoardEvaluator.java:115-121 | The loop returns the sum of the values of the active pieces. |
| StandardBoardEvaluator.CenterOccupationBonus | src/com/chess/engine/player/ai/StandardBoardEvaluator.java:40-54 | 4 per own piece on d4/d5/e4/e5 while ten or more pieces remain, otherwise 0. The result is a non-negative multiple of 4. |
| StandardBoardEvaluator.CenterAttackBonus | src/com/chess/engine/player/ai/StandardBoardEvaluator.java:57-80 | Weighted centre attacks (white doubles e4/e5, black doubles d4/d5) while ten or more pieces remain, otherwise 0. The result is never negative. |
| StandardBoardEvaluator.Evaluate | src/com/chess/engine/player/ai/StandardBoardEvaluator.java:26-29 | White's score minus black's score: a side facing an identical copy of itself scores 0. `EvaluateSwapSides` and `EvaluateRotationAntisymmetric` state its antisymmetries. |
| StandardBoardEvaluator.ScorePlayer | src/com/chess/engine/player/ai/StandardBoardEvaluator.java:31-38 | The sum of the nine terms. Every term except material and the two structure scores is a bonus, so at a non-negative depth the score is at least material + mobility + check bonus + the structure scores. |
| StandardBoardEvaluator.MobilityScore | src/com/chess/engine/player/ai/StandardBoardEvaluator.java:103-105 | The number of the side's legal moves. |
| StandardBoardEvaluator.CheckScore | src/com/chess/engine/player/ai/StandardBoardEvaluator.java:99-101 | 50 exactly when the opponent is in check, and 0 exactly when it is not. |
| StandardBoardEvaluator.CastledScore | src/com/chess/engine/player/ai/StandardBoardEvaluator.java:83-88 | 60 exactly when the side has castled and ten or more pieces remain on the board, otherwise 0. |
| StandardBoardEvaluator.DepthBonus | src/com/chess/engine/player/ai/StandardBoardEvaluator.java:95-97 | At least 1 at any non-negative depth; from depth 1 on, a positive multiple of 80. |
| StandardBoardEvaluator.CheckmateScore | src/com/chess/engine/player/ai/StandardBoardEvaluator.java:90-93 | 0 unless the opponent is mated. Always a multiple of 10000, and at least 10000 when the opponent is mated at a non-negative depth. `CheckmateScoreProperties` adds monotonicity in the depth. |
| EvaluatorProperties.EvaluateSwapSides | src/com/chess/engine/player/ai/StandardBoardEvaluator.java:26-29 | Evaluation is white's score minus black's score, so exchanging the two sides negates it. |
| EvaluatorProperties.TermValues | src/com/chess/engine/player/ai/StandardBoardEvaluator.java:83-105 | The check bonus is 50 when the opponent is in check, else 0. Castling scores 60 exactly when castled with ten or more pieces left, else 0. Mobility and centre attack are never negative. Below ten pieces, castling and both centre terms are 0. |
| EvaluatorProperties.CheckmateScoreProperties | src/com/chess/engine/player/ai/StandardBoardEvaluator.java:90-97 | The checkmate term is 0 unless the opponent is mated. When it applies it is at least 10000, and it never decreases with a greater depth. |
| EvaluatorProperties.MaterialAppend | src/com/chess/engine/player/ai/StandardBoardEvaluator.java:115-121 | Material is additive over a split of the pieces and does not depend on the order of the two halves. |
| EvaluatorProperties.CenterOccupationAtMostSixteen | src/com/chess/engine/player/ai/StandardBoardEvaluator.java:40-54 | With no two pieces on one square, centre occupation lies between 0 and 16. |
| EvaluatorProperties.EvaluateRotationAntisymmetric | src/com/chess/engine/player/ai/StandardBoardEvaluator.java:26-80 | Turning the board by 180 degrees and swapping the colours keeps a well-formed board well-formed and negates the evaluation. |
| EvaluatorProperties.MirrorSymmetryFails | src/com/chess/engine/player/ai/StandardBoardEvaluator.java:67-72 | Well-formed player facts exist whose top-to-bottom, colour-swapped mirror does not evaluate to the negated score. The two sides hold the same number of pieces, of equal total value, on ten distinct squares. |
| MiniMax.NumBoardsEvaluated | src/com/chess/engine/player/ai/MiniMax.java:56-58 | Always 0. |
| MiniMax.Min | src/com/chess/engine/player/ai/MiniMax.java:65-83 | The loop with its early return computes `MinValue`: the evaluation at a leaf, else the running minimum over Done successors searched by max one level shallower. |
| MiniMax.Max | src/com/chess/engine/player/ai/MiniMax.java:85-105 | The dual of `Min` with `MaxValue`. |
| MiniMax.Execute | src/com/chess/engine/player/ai/MiniMax.java:22-53 | Returns no move if and only if no root move is Done. Otherwise it returns a Done move whose value is best for the side to move (white maximises min, black minimises max), and the last one among equally good moves. |
| MiniMaxProperties.MinValueCharacterization | src/com/chess/engine/player/ai/MiniMax.java:65-83 | min is the evaluation when depth is 0 or the side to move is mated or stalemated. Otherwise it is at most max of every Done child at depth − 1 and equal to one of them, or `Integer.MAX_VALUE` when no child is Done. |
| MiniMaxProperties.MaxValueCharacterization | src/com/chess/engine/player/ai/MiniMax.java:85-105 | The dual: at least min of every Done child, attained by one of them, or `Integer.MIN_VALUE` when no child is Done. |
| MiniMaxProperties.LowestSeenIsMinimum | src/com/chess/engine/player/ai/MiniMax.java:71-80 | After the first k moves, the running value is at most the value of every Done move among them and equal to one of them, or still `Integer.MAX_VALUE` when none was Done. |
| MiniMaxProperties.HighestSeenIsMaximum | src/com/chess/engine/player/ai/MiniMax.java:92-101 | The dual for `HighestSeenValue` with `Integer.MIN_VALUE`. |
| MiniMaxProperties.EndGameIsLeaf | src/com/chess/engine/player/ai/MiniMax.java:60-63 | `isEndGameScenario` holds when the side to move is checkmated or stalemated. Such a board is a leaf at every remaining depth: both min and max return its evaluation at that depth. |
| MiniMaxProperties.OnlyDoneSuccessorsMatter | src/com/chess/engine/player/ai/MiniMax.java:73-74 | Changing the transitions of moves that are not Done changes neither min nor max: only Done successors are explored. |
| MoveUtils.ExchangeScore | src/com/chess/engine/player/MoveUtils.java:8-16 | The recursion as written: 1 at the null move, times 5 in int arithmetic per attack, unchanged for a quiet move. The result is always a Java int. |
| MoveUtils.ExchangeScoreIsWrappedPower | src/com/chess/engine/player/MoveUtils.java:8-16 | As written, the score is 5 to the number of attacks on the chain, reduced modulo 2^32 to a Java int. |
| MoveUtils.ExchangeScoreExactUpToThirteenAttacks | src/com/chess/engine/player/MoveUtils.java:8-16 | With at most 13 attacks on the chain, the score is exactly 5^k, so at least 1. |
| MoveUtils.ExchangeScoreOdd | src/com/chess/engine/player/MoveUtils.java:12-14 | Even with wrap-around, the score is odd, so never zero. |
| MoveUtils.FourteenAttacksOverflow | src/com/chess/engine/player/MoveUtils.java:13 | A chain of 14 attacks scores 1808548329 instead of 5^14 = 6103515625. |
| MoveUtils.SixteenAttacksNegative | src/com/chess/engine/player/MoveUtils.java:13 | A chain of 16 attacks scores −2030932031. |
| MoveUtils.ExactExchangeScore | src/com/chess/engine/player/MoveUtils.java:8-16 | The recursion in unbounded integers: 1 at the null move, times 5 per attack. It is proved equal to 5^(number of attacks), hence at least 1. |

## Left out

- The GUI (`Table`, `TakenPiecesPanel`), the test suite declaration, and the logging `System.out.println` in `execute`: display and I/O only.
- `Pawn.locationBonus` and `Pawn.toString`: they read the `Alliance` bonus tables, which are not part of this model.
- `Alliance`, `BoardUtils` and `PieceUtils` are not part of this model. Their behaviour is stated as assumptions:
  - direction −1 for white and +1 for black, with the opposite direction its negation;
  - promotion on row 0 for white and row 7 for black;
  - starting rows: row 1 (`SECOND_RANK`) for black, row 6 (`SEVENTH_RANK`) for white;
  - the centre squares d5 = 27, e5 = 28, d4 = 35, e4 = 36;
  - `getMovedX` gives a piece of that kind and side on the destination, not on its first move.
- The `Board` reference each Java move carries is omitted. The tiles and the en-passant pawn are the only parts of the board the generator reads.
- `AIisDone` is read once into a static field when the class loads; in the model it is simply a parameter. The promotion piece is also a parameter.
- `Player.makeMove`, `isInCheckMate`, `isInStaleMate`, legal-move generation for the other pieces, and the pawn and rook structure analysers are not part of this model. The search takes them as functions of the `Game` value; the evaluator takes them as given facts and scores.
- StandardBoardEvaluator: integers are mathematical. The Java int overflow that a large checkmate term could cause is not modelled.
- MiniMax.Execute: requires `searchDepth >= 1`. With 0, the root would search its children at depth −1, and that depth never reaches 0.
- MoveUtils: a transition-move chain is a finite datatype ending at the null move. A chain that never reaches the null move, along which the Java recursion would not terminate, cannot be expressed.

## Findings

| source | as written | input that shows it | evidently intended | confidence | as-written member | corrected member |
|---|---|---|---|---|---|---|
| src/com/chess/engine/player/MoveUtils.java:13 | `5 * exchangeScore(...)` is Java int arithmetic and wraps around modulo 2^32 | a chain holding 14 attacks scores 1808548329 (not 5^14); with 16 attacks it scores −2030932031, a negative score | the score is 5^(number of attacks), always at least 1 | medium, not executed | MoveUtils.SixteenAttacksNegative | MoveUtils.ExactExchangeScore |

The transition-move chain runs back over the whole game to the null move. Fourteen captures in one game is therefore an ordinary count.
