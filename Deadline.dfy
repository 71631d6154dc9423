// The per-turn time budget that DepthFirstPlayer.kt, WidthFirstPlayer.kt and
// MonteCarloPlayer.kt compute before searching. Clocks are not modelled: only the
// arithmetic on `Long` milliseconds is.
module Deadlines {

  /** The `MARGIN` constants of the three players. */
  const DepthFirstMargin: int := 20
  const WidthFirstMargin: int := 30
  const MonteCarloMargin: int := 45

  /** Kotlin's `Long` division, which truncates toward zero. */
  function KotlinDiv(a: int, b: int): (q: int)
    requires b != 0
    ensures var r := a - q * b;
      && (a >= 0 ==> 0 <= r < if b > 0 then b else -b)
      && (a < 0 ==> (if b > 0 then -b else b) < r <= 0)
  {
    if a >= 0 then (if b > 0 then a / b else -(a / -b))
    else (if b > 0 then -((-a) / b) else (-a) / (-b))
  }

  /** `remainedMyTurns`: half the empty cells, rounded up. */
  function RemainingTurns(empties: nat): (n: nat)
    ensures empties <= 2 * n <= empties + 1
  {
    (empties + 1) / 2
  }

  /**
   * `millisForThisTurn = min(perTurn, inGame / remainedMyTurns) - MARGIN`; the
   * source divides by zero on a full board, so an empty cell is required.
   */
  function Budget(perTurn: int, inGame: int, empties: nat, margin: int): (ms: int)
    requires empties >= 1
    ensures ms + margin <= perTurn
    ensures ms + margin <= KotlinDiv(inGame, RemainingTurns(empties))
    ensures ms + margin == perTurn || ms + margin == KotlinDiv(inGame, RemainingTurns(empties))
  {
    var share := KotlinDiv(inGame, RemainingTurns(empties));
    (if perTurn <= share then perTurn else share) - margin
  }

  /** The divisor is at least 1 exactly when some cell is empty. */
  lemma RemainingTurnsPositive(empties: nat)
    ensures RemainingTurns(empties) >= 1 <==> empties >= 1
  {
  }

  /** With one remaining turn the whole game allowance is available, capped by the per-turn limit. */
  lemma BudgetLastTurn(perTurn: int, inGame: int, margin: int)
    ensures Budget(perTurn, inGame, 1, margin) == (if perTurn <= inGame then perTurn else inGame) - margin
    ensures Budget(perTurn, inGame, 2, margin) == Budget(perTurn, inGame, 1, margin)
  {
    assert KotlinDiv(inGame, 1) == inGame;
  }

  /** Truncation differs from Dafny's Euclidean division on negative allowances. */
  lemma KotlinDivExamples()
    ensures KotlinDiv(-7, 2) == -3 && -7 / 2 == -4
    ensures KotlinDiv(7, -2) == -3 && KotlinDiv(-7, -2) == 3 && KotlinDiv(7, 2) == 3
  {
  }
}
