// players/DepthFirstPlayer.kt: exhaustive search for the game-theoretic outcome.
// The wall-clock deadline is a nondeterministic abort at each searched node.
module DepthFirst {
  import opened Wrappers
  import opened Colors
  import opened Points
  import opened Moves
  import opened Boards
  import opened Rules
  import opened BoardMoves

  /** Every legal placement fills one empty cell. */
  lemma PlacementsShrink(b: Board, c: Color)
    ensures forall p :: CanPutAt(b, c, p) ==> Place(b, c, p).Empties() == b.Empties() - 1
  {
    forall p | CanPutAt(b, c, p) ensures Place(b, c, p).Empties() == b.Empties() - 1 {
      PlaceCounts(b, c, p);
    }
  }

  /** An ongoing game in which c cannot place is one in which the opponent can. */
  lemma PassHandsOver(b: Board, c: Color)
    requires IsGameOngoing(b) && !CanPut(b, c)
    ensures CanPut(b, c.Reversed())
  {
  }

  /**
   * The measure that shrinks on every move of a game: a placement fills a cell,
   * and a pass is followed by a colour that can place.
   */
  function Measure(b: Board, c: Color): nat {
    2 * b.Empties() + (if CanPut(b, c) then 0 else 1)
  }

  /**
   * The outcome of perfect play from b with c to move: the winner, or None for a
   * draw. The mover wins if some placement leads to its win, draws if some
   * placement leads to a draw, and otherwise loses.
   */
  ghost function Value(b: Board, c: Color): Option<Color>
    decreases Measure(b, c)
  {
    if !IsGameOngoing(b) then Leader(b)
    else if !CanPut(b, c) then
      PassHandsOver(b, c);
      Value(b, c.Reversed())
    else
      PlacementsShrink(b, c);
      if exists p :: CanPutAt(b, c, p) && Value(Place(b, c, p), c.Reversed()) == Some(c) then Some(c)
      else if exists p :: CanPutAt(b, c, p) && Value(Place(b, c, p), c.Reversed()) == None then None
      else Some(c.Reversed())
  }

  /** The value of the position after c places at p. */
  ghost function ChildValue(b: Board, c: Color, p: Point): Option<Color> {
    Value(Place(b, c, p), c.Reversed())
  }

  /** `vals` lists the value of each placement in `ps`, in order. */
  ghost predicate ChildValuesAre(b: Board, c: Color, ps: seq<Point>, vals: seq<Option<Color>>) {
    |vals| == |ps| &&
    forall k {:trigger ChildValue(b, c, ps[k])} :: 0 <= k < |ps| ==> vals[k] == ChildValue(b, c, ps[k])
  }

  /** How good an outcome is for c: win 2, draw 1, loss 0. */
  function Rank(c: Color, w: Option<Color>): nat {
    if w == Some(c) then 2 else if w == None then 1 else 0
  }

  /** No placement gives the mover a better outcome than the value. */
  lemma ValueIsMaximal(b: Board, c: Color, p: Point)
    requires CanPutAt(b, c, p)
    ensures Rank(c, ChildValue(b, c, p)) <= Rank(c, Value(b, c))
  {
  }

  /** A finished game is worth its leader. */
  lemma ValueOver(b: Board, c: Color)
    requires !IsGameOngoing(b)
    ensures Value(b, c) == Leader(b)
  {
  }

  /** A pass is worth what the opponent's turn is worth. */
  lemma ValuePass(b: Board, c: Color)
    requires IsGameOngoing(b) && !CanPut(b, c)
    ensures Value(b, c) == Value(b, c.Reversed())
  {
  }

  /** One winning placement makes the position a win. */
  lemma ValueWin(b: Board, c: Color, p: Point)
    requires CanPutAt(b, c, p) && ChildValue(b, c, p) == Some(c)
    ensures Value(b, c) == Some(c)
  {
  }

  /** Without a winning placement, one drawing placement makes the position a draw. */
  lemma ValueDraw(b: Board, c: Color, p: Point)
    requires CanPutAt(b, c, p) && ChildValue(b, c, p) == None
    requires forall q :: CanPutAt(b, c, q) ==> ChildValue(b, c, q) != Some(c)
    ensures Value(b, c) == None
  {
  }

  /** When every placement loses, the position is lost, and so is each placement. */
  lemma ValueLoss(b: Board, c: Color, p: Point)
    requires CanPutAt(b, c, p)
    requires forall q :: CanPutAt(b, c, q) ==> ChildValue(b, c, q) == Some(c.Reversed())
    ensures Value(b, c) == Some(c.Reversed())
    ensures ChildValue(b, c, p) == Some(c.Reversed())
  {
  }

  /** The pair `search` returns: the chosen point (None on a pass or a finished game) and the winner. */
  datatype Outcome = Outcome(point: Option<Point>, winner: Option<Color>)

  /**
   * `search(board, currColor)`: TimeUp when the deadline passes; otherwise the
   * exact value, with a placement that attains it whenever c can place.
   */
  method Search(b: Board, c: Color) returns (r: Result<Outcome>)
    ensures !IsGameOngoing(b) ==> r == Success(Outcome(None, Winner(b).value))
    ensures r.Failure? ==> r.error == TimeUp
    ensures r.Success? ==> r.value.winner == Value(b, c)
    ensures r.Success? ==> (r.value.point.Some? <==> IsGameOngoing(b) && CanPut(b, c))
    ensures r.Success? && r.value.point.Some? ==>
      CanPutAt(b, c, r.value.point.value) && ChildValue(b, c, r.value.point.value) == Value(b, c)
    decreases Measure(b, c), 2
  {
    if !IsGameOngoing(b) {
      ValueOver(b, c);
      return Success(Outcome(None, Winner(b).value));
    }
    var timeUp: bool :| true;
    if timeUp {
      return Failure(TimeUp);
    }
    var puttables := Puttables(b, c);
    if puttables == [] {
      CanPutIffSomePoint(b, c);
      PassHandsOver(b, c);
      ValuePass(b, c);
      var sub := Search(b, c.Reversed());
      if sub.Failure? {
        return Failure(sub.error);
      }
      return Success(Outcome(None, sub.value.winner));
    }
    r := SearchPlacements(b, c, puttables);
  }

  /**
   * What the scan over all placements learnt, stated for every legal point:
   * `want` holds the value of each placement in list order, `at` the index at
   * which each collected draw was found.
   */
  lemma ScanComplete(b: Board, c: Color, puttables: seq<Point>, want: seq<Option<Color>>,
                     drawPoints: set<Point>, at: map<Point, nat>)
    requires puttables == Puttables(b, c) && ChildValuesAre(b, c, puttables, want)
    requires forall k :: 0 <= k < |puttables| ==> want[k] != Some(c)
    requires at.Keys == drawPoints
    requires forall q :: q in at ==> at[q] < |puttables| && puttables[at[q]] == q && want[at[q]] == None
    requires drawPoints == {} ==> forall k :: 0 <= k < |puttables| ==> want[k] != None
    ensures forall q :: CanPutAt(b, c, q) ==> ChildValue(b, c, q) != Some(c)
    ensures forall q :: q in drawPoints ==> CanPutAt(b, c, q) && ChildValue(b, c, q) == None
    ensures drawPoints == {} ==> forall q :: CanPutAt(b, c, q) ==> ChildValue(b, c, q) == Some(c.Reversed())
  {
    PuttablesSpec(b, c);
    forall q | CanPutAt(b, c, q)
      ensures ChildValue(b, c, q) != Some(c)
      ensures drawPoints == {} ==> ChildValue(b, c, q) == Some(c.Reversed())
    {
      assert q in puttables;
      var k :| 0 <= k < |puttables| && puttables[k] == q;
      assert want[k] == ChildValue(b, c, puttables[k]);
      if drawPoints == {} {
        var v := want[k];
        assert v != Some(c) && v != None;
        assert v.value != c;
        assert v == Some(c.Reversed());
      }
    }
    forall q | q in drawPoints
      ensures CanPutAt(b, c, q) && ChildValue(b, c, q) == None
    {
      assert puttables[at[q]] in puttables;
      assert want[at[q]] == ChildValue(b, c, puttables[at[q]]);
    }
  }

  /**
   * `search(board + Move(currColor, it), currColor.reversed())` for the i-th
   * legal point, keeping only the winner; `want` lists the placements' values.
   */
  method SearchChild(b: Board, c: Color, puttables: seq<Point>, ghost want: seq<Option<Color>>, i: nat)
    returns (r: Result<Option<Color>>)
    requires puttables == Puttables(b, c) && ChildValuesAre(b, c, puttables, want) && i < |puttables|
    ensures r.Failure? ==> r.error == TimeUp
    ensures r.Success? ==> r.value == want[i]
    decreases Measure(b, c), 0
  {
    var p := puttables[i];
    assert CanPutAt(b, c, p) by {
      PuttablesSpec(b, c);
      assert p in puttables;
    }
    assert CanPut(b, c);
    PlaceCounts(b, c, p);
    var next := PlusMove(b, Move(c, Some(p))).value;
    var sub := Search(next, c.Reversed());
    if sub.Failure? {
      return Failure(sub.error);
    }
    assert want[i] == ChildValue(b, c, puttables[i]);
    return Success(sub.value.winner);
  }

  /** No placement before the i-th wins when none of their listed values does. */
  lemma NoEarlierWin(b: Board, c: Color, puttables: seq<Point>, want: seq<Option<Color>>, i: nat)
    requires ChildValuesAre(b, c, puttables, want) && i <= |puttables|
    requires forall k :: 0 <= k < i ==> want[k] != Some(c)
    ensures forall k :: 0 <= k < i ==> ChildValue(b, c, puttables[k]) != Some(c)
  {
  }

  /**
   * The `puttables.forEach` of `search`: the first winning placement is returned
   * at once, drawing ones are collected; afterwards a random drawing placement,
   * or failing that a random placement, which then loses.
   */
  method SearchPlacements(b: Board, c: Color, puttables: seq<Point>) returns (r: Result<Outcome>)
    requires puttables == Puttables(b, c) && puttables != []
    ensures r.Failure? ==> r.error == TimeUp
    ensures r.Success? ==> r.value.winner == Value(b, c) && r.value.point.Some?
    ensures r.Success? ==> CanPutAt(b, c, r.value.point.value) && ChildValue(b, c, r.value.point.value) == Value(b, c)
    ensures r.Success? && r.value.winner == Some(c) ==>
      exists i :: 0 <= i < |puttables| && puttables[i] == r.value.point.value &&
        forall k :: 0 <= k < i ==> ChildValue(b, c, puttables[k]) != Some(c)
    decreases Measure(b, c), 1
  {
    assert exists w: seq<Option<Color>> :: ChildValuesAre(b, c, puttables, w) by {
      var w := seq(|puttables|, k requires 0 <= k < |puttables| => ChildValue(b, c, puttables[k]));
      assert ChildValuesAre(b, c, puttables, w);
    }
    ghost var want: seq<Option<Color>> :| ChildValuesAre(b, c, puttables, want);
    var drawPoints: set<Point> := {};
    ghost var at: map<Point, nat> := map[];
    var i := 0;
    while i < |puttables|
      invariant 0 <= i <= |puttables|
      invariant forall k :: 0 <= k < i ==> want[k] != Some(c)
      invariant at.Keys == drawPoints
      invariant forall q :: q in at ==> at[q] < i && puttables[at[q]] == q && want[at[q]] == None
      invariant drawPoints == {} ==> forall k :: 0 <= k < i ==> want[k] != None
    {
      var p := puttables[i];
      var sub := SearchChild(b, c, puttables, want, i);
      if sub.Failure? {
        return Failure(sub.error);
      }
      if sub.value == Some(c) {
        assert CanPutAt(b, c, p) && ChildValue(b, c, p) == Some(c) by {
          PuttablesSpec(b, c);
          assert p in puttables;
          assert want[i] == ChildValue(b, c, puttables[i]);
        }
        ValueWin(b, c, p);
        NoEarlierWin(b, c, puttables, want, i);
        return Success(Outcome(Some(p), Some(c)));
      } else if sub.value == None {
        drawPoints := drawPoints + {p};
        at := at[p := i];
      }
      i := i + 1;
    }
    ScanComplete(b, c, puttables, want, drawPoints, at);
    if drawPoints != {} {
      var q :| q in drawPoints;
      ValueDraw(b, c, q);
      return Success(Outcome(Some(q), None));
    }
    assert puttables[0] in puttables;
    var q :| q in puttables;
    assert CanPutAt(b, c, q) by {
      PuttablesSpec(b, c);
    }
    ValueLoss(b, c, q);
    return Success(Outcome(Some(q), Some(c.Reversed())));
  }

  /**
   * `choosePoint`: None without a legal placement, the only one without
   * searching, otherwise the searched point, or a random legal one after a time-out.
   * `solved` tells whether the search finished, in which case the point attains
   * the game's value.
   */
  method ChoosePoint(b: Board, c: Color) returns (r: Option<Point>, ghost solved: bool)
    ensures r.None? <==> !CanPut(b, c)
    ensures r.Some? ==> CanPutAt(b, c, r.value)
    ensures |Puttables(b, c)| == 1 ==> r == Some(Puttables(b, c)[0])
    ensures solved ==> r.Some? && ChildValue(b, c, r.value) == Value(b, c)
  {
    var puttables := Puttables(b, c);
    CanPutIffSomePoint(b, c);
    PuttablesSpec(b, c);
    if |puttables| == 0 {
      return None, false;
    } else if |puttables| == 1 {
      return Some(puttables[0]), false;
    }
    var result := Search(b, c);
    if result.Success? {
      return result.value.point, true;
    }
    assert puttables[0] in puttables;
    var q :| q in puttables;
    return Some(q), false;
  }
}
