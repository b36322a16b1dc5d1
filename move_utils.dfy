/**
 * exchangeScore: walks back along the chain of moves that led to the current board,
 * from a move to the transition move of the board it was made on, until the null move,
 * and multiplies by 5 for every attack on the way. The multiplication is Java int
 * arithmetic and wraps around modulo 2^32.
 */
module MoveUtils {
  const TwoTo31: int := 0x8000_0000
  const TwoTo32: int := 0x1_0000_0000

  /** A move and, behind it, the transition move of the board it was made on, back to the null move. */
  datatype MoveChain = NullMove | ChainedMove(isAttack: bool, transitionMove: MoveChain)

  /** The number of attacks on the chain. */
  function AttackCount(move: MoveChain): nat {
    match move
    case NullMove => 0
    case ChainedMove(isAttack, previous) => (if isAttack then 1 else 0) + AttackCount(previous)
  }

  function Pow5(k: nat): (p: nat)
    ensures p >= 1
  {
    if k == 0 then 1 else 5 * Pow5(k - 1)
  }

  /** The Java int that an integer becomes: the representative of x modulo 2^32 in [-2^31, 2^31). */
  function Wrap32(x: int): (w: int)
    ensures -TwoTo31 <= w < TwoTo31
    ensures (w - x) % TwoTo32 == 0
    ensures -TwoTo31 <= x < TwoTo31 ==> w == x
  {
    (x + TwoTo31) % TwoTo32 - TwoTo31
  }

  /** exchangeScore as written: 1 at the null move, times 5 (in int arithmetic) per attack. */
  function ExchangeScore(move: MoveChain): (score: int)
    ensures -TwoTo31 <= score < TwoTo31
  {
    match move
    case NullMove => 1
    case ChainedMove(isAttack, previous) =>
      if isAttack then Wrap32(5 * ExchangeScore(previous)) else ExchangeScore(previous)
  }

  /** exchangeScore in unbounded integers: what the recursion is evidently meant to compute. */
  function ExactExchangeScore(move: MoveChain): (score: nat)
    ensures score >= 1
    ensures score == Pow5(AttackCount(move))
  {
    match move
    case NullMove => 1
    case ChainedMove(isAttack, previous) =>
      if isAttack then 5 * ExactExchangeScore(previous) else ExactExchangeScore(previous)
  }

  // ----- wrap-around arithmetic -----

  /** Two integers that differ by a multiple of 2^32 wrap to the same int. */
  lemma Wrap32Congruent(x: int, y: int)
    requires (x - y) % TwoTo32 == 0
    ensures Wrap32(x) == Wrap32(y)
  {
    var q := (x - y) / TwoTo32;
    assert x + TwoTo31 == (y + TwoTo31) + TwoTo32 * q;
    ModAddMultiple(y + TwoTo31, q);
  }

  lemma {:induction false} ModAddMultiple(a: int, q: int)
    ensures (a + TwoTo32 * q) % TwoTo32 == a % TwoTo32
    decreases if q < 0 then -q else q
  {
    if q > 0 {
      ModAddMultiple(a, q - 1);
      assert a + TwoTo32 * q == (a + TwoTo32 * (q - 1)) + TwoTo32;
    } else if q < 0 {
      ModAddMultiple(a, q + 1);
      assert a + TwoTo32 * q == (a + TwoTo32 * (q + 1)) - TwoTo32;
    }
  }

  /** Wrapping before the multiplication by 5 gives the same int as wrapping after it. */
  lemma WrapTimesFive(x: int)
    ensures Wrap32(5 * Wrap32(x)) == Wrap32(5 * x)
  {
    var q := (Wrap32(x) - x) / TwoTo32;
    assert Wrap32(x) == x + TwoTo32 * q;
    assert 5 * Wrap32(x) - 5 * x == TwoTo32 * (5 * q);
    Wrap32Congruent(5 * Wrap32(x), 5 * x);
  }

  /** As written, the score is 5 to the number of attacks, reduced to a Java int. */
  lemma {:induction false} ExchangeScoreIsWrappedPower(move: MoveChain)
    ensures ExchangeScore(move) == Wrap32(Pow5(AttackCount(move)))
  {
    match move
    case NullMove =>
    case ChainedMove(isAttack, previous) =>
      ExchangeScoreIsWrappedPower(previous);
      if isAttack {
        WrapTimesFive(Pow5(AttackCount(previous)));
      }
  }

  /** As written, the score is 5^k exactly, hence at least 1, while the chain has at most 13 attacks (5^13 < 2^31 <= 5^14). */
  lemma ExchangeScoreExactUpToThirteenAttacks(move: MoveChain)
    requires AttackCount(move) <= 13
    ensures ExchangeScore(move) == ExactExchangeScore(move) >= 1
  {
    ExchangeScoreIsWrappedPower(move);
    Pow5Monotone(AttackCount(move), 13);
    assert Pow5(13) == 1220703125;
  }

  lemma {:induction false} Pow5Monotone(j: nat, k: nat)
    requires j <= k
    ensures Pow5(j) <= Pow5(k)
    decreases k
  {
    if j < k {
      Pow5Monotone(j, k - 1);
    }
  }

  /** Even as written, the score is odd, so never zero: 5^k is odd and wrapping subtracts a multiple of 2^32. */
  lemma {:induction false} ExchangeScoreOdd(move: MoveChain)
    ensures ExchangeScore(move) % 2 == 1
  {
    match move
    case NullMove =>
    case ChainedMove(isAttack, previous) =>
      ExchangeScoreOdd(previous);
      if isAttack {
        OddTimesFive(ExchangeScore(previous));
        WrapKeepsParity(5 * ExchangeScore(previous));
      }
  }

  lemma Pow5Fourteen()
    ensures Pow5(14) == 6103515625
  {
    assert Pow5(2) == 25;
    assert Pow5(4) == 25 * Pow5(2);
    assert Pow5(6) == 25 * Pow5(4);
    assert Pow5(8) == 25 * Pow5(6);
    assert Pow5(10) == 25 * Pow5(8);
    assert Pow5(12) == 25 * Pow5(10);
    assert Pow5(14) == 25 * Pow5(12);
  }

  lemma WrapFourteen()
    ensures Wrap32(6103515625) == 1808548329
  {
  }

  lemma WrapSixteen()
    ensures Wrap32(152587890625) == -2030932031
  {
  }

  lemma OddTimesFive(y: int)
    requires y % 2 == 1
    ensures (5 * y) % 2 == 1
  {
    assert 5 * y == 2 * (2 * y) + y;
  }

  /** Wrapping subtracts a multiple of 2^32, an even number, so it keeps the parity. */
  lemma WrapKeepsParity(x: int)
    ensures Wrap32(x) % 2 == x % 2
  {
    var w := Wrap32(x);
    var q := (w - x) / TwoTo32;
    assert w - x == TwoTo32 * q;
    assert w == x + 2 * (TwoTo31 * q);
  }

  function Attacks(n: nat): (chain: MoveChain)
    ensures AttackCount(chain) == n
  {
    if n == 0 then NullMove else ChainedMove(true, Attacks(n - 1))
  }

  /** Fourteen attacks: the first chain whose score as written is no longer 5^14. */
  lemma FourteenAttacksOverflow()
    ensures ExchangeScore(Attacks(14)) == 1808548329
    ensures ExactExchangeScore(Attacks(14)) == 6103515625
  {
    var chain := Attacks(14);
    ExchangeScoreIsWrappedPower(chain);
    Pow5Fourteen();
    assert ExchangeScore(chain) == Wrap32(6103515625);
    WrapFourteen();
  }

  /** Sixteen attacks: the score as written is negative. */
  lemma SixteenAttacksNegative()
    ensures ExchangeScore(Attacks(16)) == -2030932031 < 0
    ensures ExactExchangeScore(Attacks(16)) == 152587890625
  {
    var chain := Attacks(16);
    ExchangeScoreIsWrappedPower(chain);
    Pow5Fourteen();
    assert Pow5(16) == 25 * Pow5(14);
    assert ExchangeScore(chain) == Wrap32(152587890625);
    WrapSixteen();
  }
}
