// The `Evaluators` object of players/WidthFirstPlayer.kt: scores of a board from
// the point of view of one colour. The source returns `Double`; every evaluator
// kept here computes an integer, so the scores are `int`.
module Evaluators {
  import opened Wrappers
  import opened Colors
  import opened Points
  import opened Boards
  import opened Rules

  /** `evaluateBoard1`: own stones minus the opponent's. */
  function Evaluate1(b: Board, c: Color): int {
    b.Count(c) - b.Count(c.Reversed())
  }

  /** `evaluateBoard2`: own legal placements minus the opponent's. */
  function Evaluate2(b: Board, c: Color): int {
    |Puttables(b, c)| - |Puttables(b, c.Reversed())|
  }

  /**
   * The numerator of `evaluateBoard3`: stones weight the stone difference and
   * empty cells the mobility difference; the source divides this by 64.
   */
  function Evaluate3Numerator(b: Board, c: Color): int {
    var stones := |b.cells|;
    Evaluate1(b, c) * stones + Evaluate2(b, c) * (Height * Width - stones)
  }

  /** `evaluateBoard4`: the same score for every board. */
  function Evaluate4(b: Board, c: Color): int {
    0
  }

  /** The weight table of `evaluateBoard5`, row by row. */
  const Weights: seq<seq<int>> := [
    [10, -3, 7, 5, 5, 7, -3, 10],
    [-3, -5, 3, 2, 2, 3, -5, -3],
    [7, 3, 8, 5, 5, 8, 3, 7],
    [5, 2, 5, 3, 3, 5, 2, 5],
    [5, 2, 5, 3, 3, 5, 2, 5],
    [7, 3, 8, 5, 5, 8, 3, 7],
    [-3, -5, 3, 2, 2, 3, -5, -3],
    [10, -3, 7, 5, 5, 7, -3, 10]]

  /**
   * `weights[it.i][it.j]` in a table t. A cell beyond t weighs 0; every cell
   * lies inside the 8 by 8 `Weights` (`WeightsSymmetric` states its shape).
   */
  function WeightIn(t: seq<seq<int>>, p: Point): int {
    if I(p) < |t| && J(p) < |t[I(p)]| then t[I(p)][J(p)] else 0
  }

  /** The sum of the weights in t of c's stones at ordinals k and above. */
  function WeightFrom(b: Board, c: Color, t: seq<seq<int>>, k: nat): int
    requires k <= Height * Width
    decreases Height * Width - k
  {
    if k == Height * Width then 0
    else (if b.Get(k as Point) == Some(c) then WeightIn(t, k as Point) else 0) + WeightFrom(b, c, t, k + 1)
  }

  /** `myScore` and `hisScore`: the weights of all of c's stones. */
  function WeightedSum(b: Board, c: Color): int {
    WeightFrom(b, c, Weights, 0)
  }

  /** `evaluateBoard5`: own weighted sum minus the opponent's. */
  function Evaluate5(b: Board, c: Color): int {
    WeightedSum(b, c) - WeightedSum(b, c.Reversed())
  }

  /** The table is symmetric top-bottom, left-right and about the main diagonal. */
  lemma WeightsSymmetric()
    ensures |Weights| == Height && forall i :: 0 <= i < Height ==> |Weights[i]| == Width
    ensures forall i, j {:trigger Weights[i][j]} :: 0 <= i < Height && 0 <= j < Width ==>
      && Weights[i][j] == Weights[Height - 1 - i][j]
      && Weights[i][j] == Weights[i][Width - 1 - j]
      && Weights[i][j] == Weights[j][i]
  {
    forall i, j {:trigger Weights[i][j]} | 0 <= i < Height && 0 <= j < Width
      ensures Weights[i][j] == Weights[Height - 1 - i][j]
      ensures Weights[i][j] == Weights[i][Width - 1 - j]
      ensures Weights[i][j] == Weights[j][i]
    {
      assert i == 0 || i == 1 || i == 2 || i == 3 || i == 4 || i == 5 || i == 6 || i == 7;
      assert j == 0 || j == 1 || j == 2 || j == 3 || j == 4 || j == 5 || j == 6 || j == 7;
    }
  }

  /** A colour with no stone on the board has weighted sum 0, whatever the weights. */
  lemma {:induction false} WeightFromNoStones(b: Board, c: Color, t: seq<seq<int>>, k: nat)
    requires k <= Height * Width
    requires forall p: Point :: b.Get(p) != Some(c)
    ensures WeightFrom(b, c, t, k) == 0
    decreases Height * Width - k
  {
    if k < Height * Width {
      WeightFromNoStones(b, c, t, k + 1);
    }
  }

  /** The sum of the weights in t of all cells at ordinals k and above. */
  function TableFrom(t: seq<seq<int>>, k: nat): int
    requires k <= Height * Width
    decreases Height * Width - k
  {
    if k == Height * Width then 0 else WeightIn(t, k as Point) + TableFrom(t, k + 1)
  }

  /** From ordinal k on, where every cell holds a stone, the two colours' weights make up the table's. */
  lemma {:induction false} FullWeightFrom(b: Board, t: seq<seq<int>>, k: nat)
    requires k <= Height * Width
    requires forall p: Point :: k <= p ==> b.Get(p).Some?
    ensures WeightFrom(b, Black, t, k) + WeightFrom(b, White, t, k) == TableFrom(t, k)
    decreases Height * Width - k
  {
    if k < Height * Width {
      FullWeightFrom(b, t, k + 1);
      FullWeightStep(b, t, k);
    }
  }

  /** An occupied cell adds its weight to exactly one of the two colours' sums. */
  lemma FullWeightStep(b: Board, t: seq<seq<int>>, k: nat)
    requires k < Height * Width && b.Get(k as Point).Some?
    requires WeightFrom(b, Black, t, k + 1) + WeightFrom(b, White, t, k + 1) == TableFrom(t, k + 1)
    ensures WeightFrom(b, Black, t, k) + WeightFrom(b, White, t, k) == TableFrom(t, k)
  {
    if b.Get(k as Point).value == Black {
      assert b.Get(k as Point) != Some(White);
    } else {
      assert b.Get(k as Point).value == White;
    }
  }

  /** The weights of the whole table sum to 216. */
  lemma TableTotal()
    ensures TableFrom(Weights, 0) == 216
  {
    assert TableFrom(Weights, 60) == 19;
    assert TableFrom(Weights, 56) == 38;
    assert TableFrom(Weights, 52) == 35;
    assert TableFrom(Weights, 48) == 32;
    assert TableFrom(Weights, 44) == 55;
    assert TableFrom(Weights, 40) == 78;
    assert TableFrom(Weights, 36) == 93;
    assert TableFrom(Weights, 32) == 108;
    assert TableFrom(Weights, 28) == 123;
    assert TableFrom(Weights, 24) == 138;
    assert TableFrom(Weights, 20) == 161;
    assert TableFrom(Weights, 16) == 184;
    assert TableFrom(Weights, 12) == 181;
    assert TableFrom(Weights, 8) == 178;
    assert TableFrom(Weights, 4) == 197;
  }

  /**
   * On a full board the two weighted sums add up to the table's 216, so
   * `evaluateBoard5` is twice the own weighted sum less 216.
   */
  lemma FullBoardWeights(b: Board)
    requires b.Empties() == 0
    ensures WeightedSum(b, Black) + WeightedSum(b, White) == 216
    ensures Evaluate5(b, Black) == 2 * WeightedSum(b, Black) - 216
  {
    forall p: Point ensures b.Get(p).Some? {
      assert b.Get(p).None? ==> p in b.EmptyPoints();
    }
    FullWeightFrom(b, Weights, 0);
    TableTotal();
  }

  /** Every evaluator kept is antisymmetric in colour; `evaluateBoard4` is constant. */
  lemma EvaluatorsAntisymmetric(b: Board, c: Color)
    ensures Evaluate1(b, c) == -Evaluate1(b, c.Reversed())
    ensures Evaluate2(b, c) == -Evaluate2(b, c.Reversed())
    ensures Evaluate3Numerator(b, c) == -Evaluate3Numerator(b, c.Reversed())
    ensures Evaluate4(b, c) == 0
    ensures Evaluate5(b, c) == -Evaluate5(b, c.Reversed())
  {
    ReversedInvolution(c);
    NegatedMix(Evaluate1(b, c), Evaluate2(b, c), Evaluate1(b, c.Reversed()), Evaluate2(b, c.Reversed()), |b.cells|);
  }

  /** Negating both differences negates the stone- and mobility-weighted mix. */
  lemma NegatedMix(e1: int, e2: int, r1: int, r2: int, stones: int)
    requires r1 == -e1 && r2 == -e2
    ensures r1 * stones + r2 * (Height * Width - stones) == -(e1 * stones + e2 * (Height * Width - stones))
  {
    calc {
      r1 * stones + r2 * (Height * Width - stones);
      (-e1) * stones + (-e2) * (Height * Width - stones);
      -(e1 * stones + e2 * (Height * Width - stones));
    }
  }

  /**
   * On a full board nobody can put, so the mobility evaluator gives 0 and the
   * mixed evaluator is the stone difference alone.
   */
  lemma FullBoardEvaluations(b: Board, c: Color)
    requires |b.cells| == Height * Width
    ensures Evaluate2(b, c) == 0
    ensures Evaluate3Numerator(b, c) == Height * Width * Evaluate1(b, c)
  {
    EmptiesAndStones(b);
    NoPuttablesWhenFull(b, c);
    NoPuttablesWhenFull(b, c.Reversed());
  }

  /** A full board has no legal placement for c. */
  lemma NoPuttablesWhenFull(b: Board, c: Color)
    requires b.Empties() == 0
    ensures Puttables(b, c) == []
  {
    assert b.EmptyPoints() == {};
    forall p: Point ensures !CanPutAt(b, c, p) {
      assert p in PointsBelow(Height * Width);
    }
    NoPuttablesFrom(b, c, 0);
  }

  /** With no legal point from ordinal k on, the scan from k finds nothing. */
  lemma {:induction false} NoPuttablesFrom(b: Board, c: Color, k: nat)
    requires k <= Height * Width
    requires forall p: Point :: !CanPutAt(b, c, p)
    ensures PuttablesFrom(b, c, k) == []
    decreases Height * Width - k
  {
    if k < Height * Width {
      NoPuttablesFrom(b, c, k + 1);
    }
  }
}
