// players/MixedPlayer.kt: hands the move to another player chosen by how many
// cells are still empty: random early, rules of thumb next, Monte Carlo
// playouts later, and the exhaustive search at the end.
module MixedPlayer {
  import opened Wrappers
  import opened Colors
  import opened Points
  import opened Boards
  import opened Rules
  import RandomPlayer
  import RuleBased
  import MonteCarlo
  import DepthFirst

  /** The player `choosePoint` delegates to. */
  datatype Delegate = UseRandom | UseRuleBased | UseMonteCarlo | UseDepthFirst

  /** The order in which a game hands the move from one delegate to the next. */
  function Phase(d: Delegate): nat {
    match d
    case UseRandom => 0
    case UseRuleBased => 1
    case UseMonteCarlo => 2
    case UseDepthFirst => 3
  }

  /** `blankCells`: the number of empty cells. */
  function BlankCells(b: Board): (n: nat)
    ensures n + |b.cells| == Height * Width
    ensures n + b.Count(Black) + b.Count(White) == Height * Width
  {
    EmptiesAndStones(b);
    b.Empties()
  }

  /**
   * The `when` of `choosePoint`: more than 50 empty cells, the random player;
   * 36 to 50, the rule-based one; 11 to 35, Monte Carlo; 10 or fewer, the
   * depth-first search.
   */
  function Select(blankCells: int): (d: Delegate)
    ensures d == UseRandom <==> 50 < blankCells
    ensures d == UseRuleBased <==> 35 < blankCells <= 50
    ensures d == UseMonteCarlo <==> 10 < blankCells <= 35
    ensures d == UseDepthFirst <==> blankCells <= 10
  {
    if 50 < blankCells then UseRandom
    else if 35 < blankCells then UseRuleBased
    else if 10 < blankCells then UseMonteCarlo
    else UseDepthFirst
  }

  /**
   * As cells fill up the choice only moves forward through the phases, and
   * every count of empty cells from 0 to 64 selects exactly one delegate,
   * each delegate for some count.
   */
  lemma SelectPhases(fewer: int, more: int)
    requires fewer <= more
    ensures Phase(Select(more)) <= Phase(Select(fewer))
    ensures Select(64) == UseRandom && Select(50) == UseRuleBased && Select(36) == UseRuleBased
    ensures Select(35) == UseMonteCarlo && Select(11) == UseMonteCarlo && Select(10) == UseDepthFirst
    ensures Select(0) == UseDepthFirst
  {
  }

  /**
   * `choosePoint`: the selected delegate's answer for the same board, passed
   * on unchanged, so the answer is None exactly when c cannot put and
   * otherwise a legal placement. The time left is a round budget for Monte
   * Carlo and an abort for the depth-first search; `rnd` stands for the
   * random choices.
   */
  method ChoosePoint(board: Board, color: Color, rounds: nat, rnd: nat) returns (r: Option<Point>)
    ensures r.None? <==> !CanPut(board, color)
    ensures r.Some? ==> CanPutAt(board, color, r.value)
    ensures Select(BlankCells(board)) == UseRandom ==> r == RandomPlayer.ChoosePoint(board, color, rnd)
    ensures Select(BlankCells(board)) == UseRuleBased ==> r == RuleBased.ChoosePoint(board, color, rnd)
  {
    var blankCells := BlankCells(board);
    match Select(blankCells)
    case UseRandom =>
      r := RandomPlayer.ChoosePoint(board, color, rnd);
    case UseRuleBased =>
      r := RuleBased.ChoosePoint(board, color, rnd);
      RuleBased.ChoosePointLegal(board, color, rnd);
    case UseMonteCarlo =>
      ghost var history, totals;
      r, history, totals := MonteCarlo.ChoosePoint(board, color, rounds, rnd);
    case UseDepthFirst =>
      ghost var solved;
      r, solved := DepthFirst.ChoosePoint(board, color);
  }
}
