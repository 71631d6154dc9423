// players/MonteCarloPlayer.kt: plays every legal placement out to the end of
// the game `Times` times with random moves, adds up the wins each placement
// led to, and keeps doing so while time remains; then answers the placement
// with the most wins. The clock is a number of rounds, `rounds`, and each
// `random()` a nondeterministic choice: the model says which outcomes can be
// reached, never which one is.
module MonteCarlo {
  import opened Wrappers
  import opened Colors
  import opened Points
  import opened Moves
  import opened Boards
  import opened Rules
  import opened BoardMoves
  import DepthFirst
  import RandomPlayer

  /** `TIMES`: playouts per candidate and round. */
  const Times: nat := 25

  /** Whose turn it is after n moves from c's. */
  function Turn(c: Color, n: nat): (r: Color)
    ensures n % 2 == 0 ==> r == c
    ensures n % 2 == 1 ==> r == c.Reversed()
  {
    if n % 2 == 0 then c else c.Reversed()
  }

  /** The turn passes to the other colour with every move. */
  lemma TurnNext(c: Color, n: nat)
    ensures Turn(c, n + 1) == Turn(c, n).Reversed()
  {
    ReversedInvolution(c);
  }

  /**
   * The board after playing ms from b with c to move, None unless the colours
   * alternate and every move is one `canApply` accepts.
   */
  ghost function Play(b: Board, c: Color, ms: seq<Move>): Option<Board>
    decreases |ms|
  {
    if ms == [] then Some(b)
    else
      var prev := Play(b, c, ms[..|ms| - 1]);
      var m := ms[|ms| - 1];
      if prev.Some? && m.color == Turn(c, |ms| - 1) && CanApply(prev.value, m)
      then Some(PlusMove(prev.value, m).value)
      else None
  }

  /** Playing one more legal move extends a play. */
  lemma PlayAppend(b: Board, c: Color, ms: seq<Move>, m: Move)
    requires Play(b, c, ms).Some? && m.color == Turn(c, |ms|) && CanApply(Play(b, c, ms).value, m)
    ensures Play(b, c, ms + [m]) == Some(PlusMove(Play(b, c, ms).value, m).value)
  {
    assert (ms + [m])[..|ms|] == ms;
  }

  /** A legal move of the mover's extends a play by one, and hands the turn over. */
  lemma PlayStep(b: Board, c: Color, ms: seq<Move>, before: Board, m: Move)
    requires Play(b, c, ms) == Some(before) && m.color == Turn(c, |ms|) && CanApply(before, m)
    ensures Play(b, c, ms + [m]) == Some(PlusMove(before, m).value)
    ensures Turn(c, |ms| + 1) == m.color.Reversed()
  {
    PlayAppend(b, c, ms, m);
    TurnNext(c, |ms|);
  }

  /** Every legal move of an ongoing game lowers the measure the depth-first search also uses. */
  lemma MeasureDrops(b: Board, m: Move)
    requires CanApply(b, m)
    ensures DepthFirst.Measure(PlusMove(b, m).value, m.color.Reversed()) < DepthFirst.Measure(b, m.color)
  {
    if m.IsPass() {
      DepthFirst.PassHandsOver(b, m.color);
    } else {
      DepthFirst.PlacementsShrink(b, m.color);
      assert CanPutAt(b, m.color, m.point.value);
    }
  }

  /** Some game played from b with c to move ends with w's win, or a draw when w is None. */
  ghost predicate Finishes(b: Board, c: Color, w: Option<Color>) {
    exists ms :: Play(b, c, ms).Some? && !IsGameOngoing(Play(b, c, ms).value) && w == Leader(Play(b, c, ms).value)
  }

  /**
   * `playOut1`: while the game goes on, the mover puts at a random legal point,
   * or, having none, passes by doing nothing; then the turn changes. The board
   * ends finished, as some legal game from the given one leaves it, and the
   * answer is its `winner`.
   */
  method PlayOut1(board: MutableBoard, currTurn: Color) returns (w: Option<Color>, ghost trace: seq<Move>)
    modifies board
    ensures Play(old(board.ToBoard()), currTurn, trace) == Some(board.ToBoard())
    ensures !IsGameOngoing(board.ToBoard())
    ensures w == Leader(board.ToBoard())
  {
    var turn := currTurn;
    trace := [];
    while IsGameOngoing(board.ToBoard())
      invariant Play(old(board.ToBoard()), currTurn, trace) == Some(board.ToBoard())
      invariant turn == Turn(currTurn, |trace|)
      decreases DepthFirst.Measure(board.ToBoard(), turn)
    {
      ghost var before := board.ToBoard();
      var availables := Puttables(board.ToBoard(), turn);
      ghost var m := Move(turn, None);
      PuttablesSpec(before, turn);
      CanPutIffSomePoint(before, turn);
      if availables != [] {
        var p :| p in availables;
        var err := board.Apply(Move(turn, Some(p)));
        m := Move(turn, Some(p));
      }
      assert CanApply(before, m) && board.ToBoard() == PlusMove(before, m).value;
      MeasureDrops(before, m);
      PlayStep(old(board.ToBoard()), currTurn, trace, before, m);
      trace := trace + [m];
      turn := turn.Reversed();
    }
    var result := Winner(board.ToBoard());
    w := result.value;
  }

  /** outs are the outcomes of `Times` games played from c's placement at p, with the opponent to move. */
  ghost predicate Tally(b: Board, c: Color, p: Point, outs: seq<Option<Color>>) {
    && |outs| == Times
    && forall i :: 0 <= i < |outs| ==> Finishes(Place(b, c, p), c.Reversed(), outs[i])
  }

  /** n is a number of wins for c that `Times` playouts after c's placement at p can give. */
  ghost predicate PossibleWins(b: Board, c: Color, p: Point, n: nat) {
    exists outs :: Tally(b, c, p, outs) && n == multiset(outs)[Some(c)]
  }

  /**
   * `playOutN(currBoard, candidate)`: the candidate must be legal; it is played,
   * then `Times` games are played out from a copy of the result with the
   * opponent to move, and the answer is how many of them the player won, draws
   * not counted.
   */
  method PlayOutN(currBoard: Board, color: Color, candidate: Point) returns (wins: nat, ghost outcomes: seq<Option<Color>>)
    requires CanPutAt(currBoard, color, candidate)
    ensures Tally(currBoard, color, candidate, outcomes)
    ensures wins == multiset(outcomes)[Some(color)] && wins <= Times
  {
    assert CanPut(currBoard, color);
    var nextBoard := PlusMove(currBoard, Move(color, Some(candidate))).value;
    wins := 0;
    outcomes := [];
    var i := 0;
    while i < Times
      invariant i <= Times && |outcomes| == i && wins <= i
      invariant forall j :: 0 <= j < i ==> Finishes(nextBoard, color.Reversed(), outcomes[j])
      invariant wins == multiset(outcomes)[Some(color)]
    {
      var copy := new MutableBoard(nextBoard);
      var w, trace := PlayOut1(copy, color.Reversed());
      assert Play(nextBoard, color.Reversed(), trace).Some?;
      outcomes := outcomes + [w];
      if w == Some(color) {
        wins := wins + 1;
      }
      i := i + 1;
    }
  }

  /** row holds, for each candidate in order, a win count its playouts can give. */
  ghost predicate RoundSeen(board: Board, color: Color, availables: seq<Point>, row: seq<nat>) {
    && |row| == |availables|
    && forall i :: 0 <= i < |row| ==> row[i] <= Times && PossibleWins(board, color, availables[i], row[i])
  }

  /** `associateWith { playOutN(board, it) }`: the win count of every candidate, in order. */
  method PlayRound(board: Board, color: Color, availables: seq<Point>) returns (wins: seq<nat>)
    requires forall p :: p in availables ==> CanPutAt(board, color, p)
    ensures RoundSeen(board, color, availables, wins)
  {
    wins := [];
    while |wins| < |availables|
      invariant |wins| <= |availables|
      invariant RoundSeen(board, color, availables[..|wins|], wins)
    {
      var n, outs := PlayOutN(board, color, availables[|wins|]);
      RoundSeenStep(board, color, availables, wins, n, outs);
      wins := wins + [n];
    }
    assert availables[..|wins|] == availables;
  }

  /** A round seen up to candidate k extends by a count candidate k's playouts gave. */
  lemma RoundSeenStep(board: Board, color: Color, availables: seq<Point>, wins: seq<nat>, n: nat, outs: seq<Option<Color>>)
    requires |wins| < |availables| && RoundSeen(board, color, availables[..|wins|], wins)
    requires Tally(board, color, availables[|wins|], outs) && n == multiset(outs)[Some(color)] && n <= Times
    ensures RoundSeen(board, color, availables[..|wins| + 1], wins + [n])
  {
    var k := |wins|;
    assert PossibleWins(board, color, availables[k], n);
    forall i | 0 <= i < k + 1
      ensures (wins + [n])[i] <= Times && PossibleWins(board, color, availables[..k + 1][i], (wins + [n])[i])
    {
      if i < k {
        assert availables[..k + 1][i] == availables[..k][i];
      }
    }
  }

  /** `totalWins[it] ?: 0`. */
  function Get(totals: map<Point, nat>, p: Point): nat {
    if p in totals then totals[p] else 0
  }

  /** The totals after adding wins[i] to the entry of ps[i], for each i in turn. */
  function Added(totals: map<Point, nat>, ps: seq<Point>, wins: seq<nat>): map<Point, nat>
    decreases |ps|
  {
    if ps == [] || wins == [] then totals
    else Added(totals[ps[0] := Get(totals, ps[0]) + wins[0]], ps[1..], wins[1..])
  }

  /** No point occurs twice in ps. */
  predicate Distinct(ps: seq<Point>) {
    forall i, j :: 0 <= i < j < |ps| ==> ps[i] != ps[j]
  }

  /**
   * Adding enters every candidate, raises each candidate's entry by its own
   * wins, leaves the other entries alone, and so lowers no entry.
   */
  lemma {:induction false} AddedSpec(totals: map<Point, nat>, ps: seq<Point>, wins: seq<nat>)
    requires |ps| == |wins| && Distinct(ps)
    ensures Added(totals, ps, wins).Keys == totals.Keys + set p | p in ps
    ensures forall i :: 0 <= i < |ps| ==> Added(totals, ps, wins)[ps[i]] == Get(totals, ps[i]) + wins[i]
    ensures forall p :: p in totals && p !in ps ==> Added(totals, ps, wins)[p] == totals[p]
    ensures forall p :: p in totals ==> totals[p] <= Added(totals, ps, wins)[p]
    decreases |ps|
  {
    if ps != [] {
      var next := totals[ps[0] := Get(totals, ps[0]) + wins[0]];
      AddedSpec(next, ps[1..], wins[1..]);
      forall i | 0 <= i < |ps| ensures Added(totals, ps, wins)[ps[i]] == Get(totals, ps[i]) + wins[i] {
        if i > 0 {
          assert ps[1..][i - 1] == ps[i] && ps[i] != ps[0];
        }
      }
    }
  }

  /** `availables.forEach { totalWins[it] = (totalWins[it] ?: 0) + (wins[it] ?: 0) }`. */
  method Accumulate(totals: map<Point, nat>, ps: seq<Point>, wins: seq<nat>) returns (next: map<Point, nat>)
    requires |ps| == |wins|
    ensures next == Added(totals, ps, wins)
  {
    next := totals;
    var i := 0;
    while i < |ps|
      invariant i <= |ps|
      invariant Added(next, ps[i..], wins[i..]) == Added(totals, ps, wins)
    {
      assert ps[i..][1..] == ps[i + 1..] && wins[i..][1..] == wins[i + 1..];
      next := next[ps[i] := Get(next, ps[i]) + wins[i]];
      i := i + 1;
    }
  }

  /** The totals after the given rounds, each a list of win counts in the order of ps. */
  function Totals(ps: seq<Point>, history: seq<seq<nat>>): map<Point, nat>
    decreases |history|
  {
    if history == [] then map[]
    else Added(Totals(ps, history[..|history| - 1]), ps, history[|history| - 1])
  }

  /**
   * `totalWins.maxBy { it.value }`: the map holds the candidates in the order
   * they were first entered, which is the order of ps, and `maxBy` keeps the
   * first entry of greatest value.
   */
  method FirstMax(totals: map<Point, nat>, ps: seq<Point>) returns (best: Point, ghost at: nat)
    requires ps != [] && forall p :: p in ps ==> p in totals
    ensures at < |ps| && ps[at] == best
    ensures forall p :: p in ps ==> totals[p] <= totals[best]
    ensures forall j :: 0 <= j < at ==> totals[ps[j]] < totals[best]
  {
    best, at := ps[0], 0;
    var i := 1;
    while i < |ps|
      invariant 1 <= i <= |ps| && at < i && ps[at] == best
      invariant forall j :: 0 <= j < i ==> totals[ps[j]] <= totals[best]
      invariant forall j :: 0 <= j < at ==> totals[ps[j]] < totals[best]
    {
      if totals[best] < totals[ps[i]] {
        best, at := ps[i], i;
      }
      i := i + 1;
    }
  }

  /**
   * After `rounds` rounds over the candidates ps: `history` holds each round's
   * counts, every one possible for its candidate, and `totals` their sums, one
   * entry per candidate, each at most `Times` per round.
   */
  ghost predicate Simulated(board: Board, color: Color, ps: seq<Point>, rounds: nat,
                            history: seq<seq<nat>>, totals: map<Point, nat>) {
    && |history| == rounds
    && (forall k :: 0 <= k < rounds ==> RoundSeen(board, color, ps, history[k]))
    && totals == Totals(ps, history)
    && (rounds > 0 ==> totals.Keys == Elements(ps))
    && (forall p :: p in totals ==> totals[p] <= Times * rounds)
  }

  /**
   * The `while` loop of `choosePoint`: `rounds` rounds, each playing every
   * candidate out and adding its wins to its total. `history` holds each
   * round's counts in the order of the candidates.
   */
  method Simulate(board: Board, color: Color, availables: seq<Point>, rounds: nat)
    returns (totalWins: map<Point, nat>, ghost history: seq<seq<nat>>)
    requires forall i, j :: 0 <= i < j < |availables| ==> availables[i] < availables[j]
    requires forall p :: p in availables ==> CanPutAt(board, color, p)
    ensures Simulated(board, color, availables, rounds, history, totalWins)
    ensures rounds == 0 ==> totalWins == map[]
  {
    totalWins, history := map[], [];
    var done := 0;
    while done < rounds
      invariant done <= rounds && |history| == done
      invariant forall k :: 0 <= k < done ==> RoundSeen(board, color, availables, history[k])
      invariant totalWins == Totals(availables, history)
      invariant done == 0 ==> totalWins == map[]
      invariant done > 0 ==> totalWins.Keys == Elements(availables)
      invariant forall p :: p in totalWins ==> totalWins[p] <= Times * done
    {
      var wins := PlayRound(board, color, availables);
      ghost var before := totalWins;
      totalWins := Accumulate(totalWins, availables, wins);
      AddedSpec(before, availables, wins);
      RoundBound(before, availables, wins, done);
      history := history + [wins];
      assert history[..done] == history[..|history| - 1];
      done := done + 1;
    }
  }

  /**
   * The simulation of `choosePoint` over the candidates, in increasing ordinal
   * order: after `rounds` rounds of playouts, the first candidate with the most
   * wins, or None when no round ran and the totals are empty.
   */
  method MostWins(board: Board, color: Color, availables: seq<Point>, rounds: nat)
    returns (best: Option<Point>, ghost history: seq<seq<nat>>, ghost totals: map<Point, nat>)
    requires availables != [] && forall i, j :: 0 <= i < j < |availables| ==> availables[i] < availables[j]
    requires forall p :: p in availables ==> CanPutAt(board, color, p)
    ensures best.None? <==> rounds == 0
    ensures best.Some? ==>
      && Simulated(board, color, availables, rounds, history, totals)
      && best.value in totals
      && (forall p :: p in totals ==> totals[p] <= totals[best.value])
      && (forall p :: p in totals && p < best.value ==> totals[p] < totals[best.value])
  {
    var totalWins;
    totalWins, history := Simulate(board, color, availables, rounds);
    totals := totalWins;
    if totalWins != map[] {
      assert rounds > 0 && totalWins.Keys == Elements(availables);
      var p, at := FirstMax(totalWins, availables);
      OrdinalFirst(totalWins, availables, p, at);
      best := Some(p);
    } else {
      assert availables[0] !in totalWins;
      best := None;
    }
  }

  /**
   * `choosePoint`: None without a legal placement, the only one when there is
   * one, otherwise the answer of the simulation, or the random player's answer
   * when no round ran.
   */
  method ChoosePoint(board: Board, color: Color, rounds: nat, rnd: nat)
    returns (r: Option<Point>, ghost history: seq<seq<nat>>, ghost totals: map<Point, nat>)
    ensures r.None? <==> !CanPut(board, color)
    ensures r.Some? ==> CanPutAt(board, color, r.value)
    ensures |Puttables(board, color)| == 1 ==> r == Some(Puttables(board, color)[0])
    ensures |Puttables(board, color)| >= 2 && rounds == 0 ==> r == RandomPlayer.ChoosePoint(board, color, rnd)
    ensures |Puttables(board, color)| >= 2 && rounds > 0 ==>
      && Simulated(board, color, Puttables(board, color), rounds, history, totals)
      && r.Some? && r.value in totals
      && (forall p :: p in totals ==> totals[p] <= totals[r.value])
      && (forall p :: p in totals && p < r.value ==> totals[p] < totals[r.value])
  {
    var availables := Puttables(board, color);
    PuttablesSpec(board, color);
    CanPutIffSomePoint(board, color);
    history, totals := [], map[];
    if availables == [] {
      r := None;
    } else if |availables| == 1 {
      r := Some(availables[0]);
    } else {
      r, history, totals := MostWins(board, color, availables, rounds);
      if r.None? {
        r := RandomPlayer.ChoosePoint(board, color, rnd);
      } else {
        assert r.value in Elements(availables);
      }
    }
  }

  /** A round keeps every total within `Times` per round played. */
  lemma RoundBound(before: map<Point, nat>, ps: seq<Point>, wins: seq<nat>, done: nat)
    requires |ps| == |wins| && Distinct(ps)
    requires forall p :: p in before ==> before[p] <= Times * done
    requires forall i :: 0 <= i < |wins| ==> wins[i] <= Times
    requires forall p :: p in before ==> p in ps
    ensures forall p :: p in Added(before, ps, wins) ==> Added(before, ps, wins)[p] <= Times * (done + 1)
  {
    AddedSpec(before, ps, wins);
    forall p | p in Added(before, ps, wins) ensures Added(before, ps, wins)[p] <= Times * (done + 1) {
      var i :| 0 <= i < |ps| && ps[i] == p;
    }
  }

  /** Over an increasing list, the first maximum is also the maximum of least ordinal. */
  lemma OrdinalFirst(totals: map<Point, nat>, ps: seq<Point>, best: Point, at: nat)
    requires forall i, j :: 0 <= i < j < |ps| ==> ps[i] < ps[j]
    requires totals.Keys == Elements(ps)
    requires at < |ps| && ps[at] == best
    requires forall j :: 0 <= j < at ==> totals[ps[j]] < totals[best]
    ensures forall p :: p in totals && p < best ==> totals[p] < totals[best]
  {
    forall p | p in totals && p < best ensures totals[p] < totals[best] {
      var j :| 0 <= j < |ps| && ps[j] == p;
    }
  }
}
