// players/Utils.kt: the stable-stone classifier. Each round judges every
// still-unclear stone against the same snapshot of the stable and unclear
// sets; stones judged stable join the stable set, stones judged either way
// leave the unclear set.
module Stability {
  import opened Wrappers
  import opened Colors
  import opened Directions
  import opened Points
  import opened Boards
  import opened Rules

  /** The three answers of the `Boolean?` verdicts: true, false and null. */
  datatype Verdict = Stable | Unstable | Unclear

  /** Some cell after p in direction d is empty (`generateSequence(testee + direction) { it + direction }.any { … }`). */
  function EmptyAhead(b: Board, p: Point, d: Direction): bool
    decreases StepsToEdge(p, d)
  {
    match Plus(p, d)
    case None => false
    case Some(q) => b.Get(q).None? || EmptyAhead(b, q, d)
  }

  lemma {:induction false} EmptyAheadOnRay(b: Board, p: Point, d: Direction)
    ensures EmptyAhead(b, p, d) <==> exists q :: q in Ray(p, d) && b.Get(q).None?
    decreases StepsToEdge(p, d)
  {
    if Plus(p, d).Some? {
      var n := Plus(p, d).value;
      EmptyAheadOnRay(b, n, d);
      RayTail(p, d);
    }
  }

  /** The direction-wise `isStable(board, stablePoints, unclearPoints, testee, direction)`. */
  function DirVerdict(b: Board, stable: set<Point>, unclear: set<Point>, x: Point, d: Direction): Verdict {
    if !EmptyAhead(b, x, d) then Stable
    else
      match Plus(x, d.Opposite())
      case None => Stable
      case Some(o) =>
        if b.Get(o) != b.Get(x) then Unstable
        else if o in stable then Stable
        else if o in unclear then Unclear
        else Unstable
  }

  /**
   * A direction is stable when no cell ahead is empty or the cell behind is off
   * the board; unstable when the cell behind is empty or the other colour; and
   * when it holds the same colour, as stable, unclear or unstable as that stone is known to be.
   */
  lemma DirVerdictCases(b: Board, stable: set<Point>, unclear: set<Point>, x: Point, d: Direction)
    ensures (forall q :: q in Ray(x, d) ==> b.Get(q).Some?) ==> DirVerdict(b, stable, unclear, x, d) == Stable
    ensures Plus(x, d.Opposite()).None? ==> DirVerdict(b, stable, unclear, x, d) == Stable
    ensures (exists q :: q in Ray(x, d) && b.Get(q).None?) && Plus(x, d.Opposite()).Some? ==>
      var o := Plus(x, d.Opposite()).value;
      var v := DirVerdict(b, stable, unclear, x, d);
      && (b.Get(o) != b.Get(x) ==> v == Unstable)
      && (b.Get(o) == b.Get(x) ==> v == (if o in stable then Stable else if o in unclear then Unclear else Unstable))
  {
    EmptyAheadOnRay(b, x, d);
  }

  /** The point-wise `isStable`: stable if all 8 directions are, unstable if any is not, unclear otherwise. */
  function PointVerdict(b: Board, stable: set<Point>, unclear: set<Point>, x: Point): Verdict {
    if b.Get(x).None? then Unstable
    else if forall d | d in AllDirections :: DirVerdict(b, stable, unclear, x, d) == Stable then Stable
    else if exists d | d in AllDirections :: DirVerdict(b, stable, unclear, x, d) == Unstable then Unstable
    else Unclear
  }

  /** An empty cell is unstable; a stone is stable iff every direction is, unstable iff some direction is. */
  lemma PointVerdictCases(b: Board, stable: set<Point>, unclear: set<Point>, x: Point)
    ensures b.Get(x).None? ==> PointVerdict(b, stable, unclear, x) == Unstable
    ensures b.Get(x).Some? ==>
      && (PointVerdict(b, stable, unclear, x) == Stable <==> forall d :: DirVerdict(b, stable, unclear, x, d) == Stable)
      && (PointVerdict(b, stable, unclear, x) == Unstable <==> exists d :: DirVerdict(b, stable, unclear, x, d) == Unstable)
  {
    AllDirectionsComplete();
  }

  /** The stones judged stable in one round. */
  function NewlyStable(b: Board, stable: set<Point>, unclear: set<Point>): set<Point> {
    set x | x in unclear && PointVerdict(b, stable, unclear, x) == Stable
  }

  /** The stones whose verdict in one round is true or false. */
  function Resolved(b: Board, stable: set<Point>, unclear: set<Point>): set<Point> {
    set x | x in unclear && PointVerdict(b, stable, unclear, x) != Unclear
  }

  /** The occupied cells, which start out unclear. */
  function Occupied(b: Board): set<Point> {
    b.cells.Keys
  }

  /**
   * The loop of `stablePoints` as written, from a given state: Some(stable) once
   * no point is unclear, None for a round that resolves nothing, after which the
   * source repeats the same round for ever.
   */
  function Sweep(b: Board, stable: set<Point>, unclear: set<Point>): (r: Option<set<Point>>)
    decreases |unclear|
  {
    if unclear == {} then Some(stable)
    else
      var resolved := Resolved(b, stable, unclear);
      if resolved == {} then None
      else Sweep(b, stable + NewlyStable(b, stable, unclear), unclear - resolved)
  }

  /** The loop as corrected: it stops once a round makes no progress and returns what it has. */
  function SweepFixed(b: Board, stable: set<Point>, unclear: set<Point>): (r: set<Point>)
    decreases |unclear|
  {
    var resolved := Resolved(b, stable, unclear);
    if unclear == {} || resolved == {} then stable
    else SweepFixed(b, stable + NewlyStable(b, stable, unclear), unclear - resolved)
  }

  /** `stablePoints(board)` corrected to stop at the first round without progress. */
  function StablePointsFixed(b: Board): set<Point> {
    SweepFixed(b, {}, Occupied(b))
  }

  /** `stablePoints(board)`, imperative as in the source; None where the source never returns. */
  method StablePoints(b: Board) returns (r: Option<set<Point>>)
    ensures r == Sweep(b, {}, Occupied(b))
  {
    var stablePoints: set<Point> := {};
    var unclearPoints := Occupied(b);
    while unclearPoints != {}
      invariant Sweep(b, stablePoints, unclearPoints) == Sweep(b, {}, Occupied(b))
      decreases |unclearPoints|
    {
      var results := map x | x in unclearPoints :: PointVerdict(b, stablePoints, unclearPoints, x);
      var stableNow := set x | x in results && results[x] == Stable;
      var decided := set x | x in results && results[x] != Unclear;
      assert stableNow == NewlyStable(b, stablePoints, unclearPoints);
      assert decided == Resolved(b, stablePoints, unclearPoints);
      if decided == {} {
        return None;
      }
      stablePoints := stablePoints + stableNow;
      unclearPoints := unclearPoints - decided;
    }
    return Some(stablePoints);
  }

  /**
   * The corrected sweep keeps what it already knows, adds only points that were
   * unclear, and agrees with the loop as written whenever that one returns.
   */
  lemma {:induction false} SweepFixedBounds(b: Board, stable: set<Point>, unclear: set<Point>)
    ensures stable <= SweepFixed(b, stable, unclear) <= stable + unclear
    ensures Sweep(b, stable, unclear).Some? ==> Sweep(b, stable, unclear).value == SweepFixed(b, stable, unclear)
    decreases |unclear|
  {
    var resolved := Resolved(b, stable, unclear);
    if unclear != {} && resolved != {} {
      SweepFixedBounds(b, stable + NewlyStable(b, stable, unclear), unclear - resolved);
    }
  }

  /** Every stone the corrected classifier calls stable is on the board. */
  lemma StablePointsOccupied(b: Board)
    ensures forall x :: x in StablePointsFixed(b) ==> b.Get(x).Some?
  {
    SweepFixedBounds(b, {}, Occupied(b));
  }

  /**
   * A round keeps the stable and unclear sets disjoint, never removes a stable
   * point, and moves a point out of `unclear` exactly when its verdict is true or false.
   */
  lemma RoundStep(b: Board, stable: set<Point>, unclear: set<Point>)
    requires stable * unclear == {}
    ensures var s', u' := stable + NewlyStable(b, stable, unclear), unclear - Resolved(b, stable, unclear);
      && s' * u' == {}
      && stable <= s'
      && forall x :: x in unclear ==> (x !in u' <==> PointVerdict(b, stable, unclear, x) != Unclear)
  {
  }

  /** On a full board every direction of every stone is stable, so every stone is. */
  lemma FullBoardAllStable(b: Board)
    requires forall p :: b.Get(p).Some?
    ensures StablePointsFixed(b) == Occupied(b)
    ensures Sweep(b, {}, Occupied(b)) == Some(Occupied(b))
  {
    var u := Occupied(b);
    forall x | x in u ensures PointVerdict(b, {}, u, x) == Stable {
      forall d ensures DirVerdict(b, {}, u, x, d) == Stable {
        DirVerdictCases(b, {}, u, x, d);
      }
      PointVerdictCases(b, {}, u, x);
    }
    assert NewlyStable(b, {}, u) == u;
    assert Resolved(b, {}, u) == u;
    assert u != {} by { assert b.Get(0).Some?; }
    assert {} + u == u;
    assert u - u == {};
    assert SweepFixed(b, u, {}) == u;
    assert Sweep(b, u, {}) == Some(u);
  }

  // ---- The loop as written does not terminate ----

  /** The empty cells of the cycle board, c1, d3 and a4 by ordinal. */
  const Holes: set<Point> := {2, 19, 24}

  lemma HolesNamed()
    ensures Holes == {Parse("c1").value, Parse("d3").value, Parse("a4").value}
  {
    ParsePos(2);
    ParsePos(19);
    ParsePos(24);
  }

  /** An all-black board whose only empty cells are the holes. */
  function CycleBoard(): (b: Board)
    ensures forall p :: b.Get(p) == if p in Holes then None else Some(Black)
  {
    Board(map p: Point | 0 <= p < Height * Width && p !in Holes :: Black)
  }

  /** Cells on a ray lie k steps along it for some k of at least 1. */
  lemma {:induction false} RayGeometry(p: Point, d: Direction, q: Point)
    requires q in Ray(p, d)
    ensures exists k :: 1 <= k && I(q) == I(p) + k * d.Di() && J(q) == J(p) + k * d.Dj()
    decreases StepsToEdge(p, d)
  {
    var n := Plus(p, d).value;
    if q != n {
      RayGeometry(n, d, q);
      var k :| 1 <= k && I(q) == I(n) + k * d.Di() && J(q) == J(n) + k * d.Dj();
      assert I(q) == I(p) + (k + 1) * d.Di() && J(q) == J(p) + (k + 1) * d.Dj();
    } else {
      assert I(q) == I(p) + 1 * d.Di() && J(q) == J(p) + 1 * d.Dj();
    }
  }

  /** No two of the holes share a row, a column or a diagonal. */
  lemma HolesNotAligned(h: Point, q: Point, k: int, di: int, dj: int)
    requires h in Holes && q in Holes && 1 <= k
    requires -1 <= di <= 1 && -1 <= dj <= 1 && (di != 0 || dj != 0)
    ensures !(I(q) == I(h) + k * di && J(q) == J(h) + k * dj)
  {
    assert I(2) == 0 && J(2) == 2 && I(19) == 2 && J(19) == 3 && I(24) == 3 && J(24) == 0;
    if di == 0 {
      assert k * di == 0;
    } else if di == 1 {
      assert k * di == k;
    } else {
      assert k * di == -k;
    }
  }

  /** On the cycle board a direction verdict is never false: the cell behind a stone that sees a hole is a black stone. */
  lemma CycleBoardNoConflict(x: Point, d: Direction)
    requires CycleBoard().Get(x).Some? && EmptyAhead(CycleBoard(), x, d) && Plus(x, d.Opposite()).Some?
    ensures CycleBoard().Get(Plus(x, d.Opposite()).value) == Some(Black)
    ensures CycleBoard().Get(x) == Some(Black)
  {
    var b := CycleBoard();
    var o := Plus(x, d.Opposite()).value;
    EmptyAheadOnRay(b, x, d);
    var h :| h in Ray(x, d) && b.Get(h).None?;
    if o in Holes {
      PlusOppositeInverse(x, d.Opposite());
      OppositeInvolution(d);
      RayTail(o, d);
      assert h in Ray(o, d);
      RayGeometry(o, d, h);
      var k :| 1 <= k && I(h) == I(o) + k * d.Di() && J(h) == J(o) + k * d.Dj();
      OffsetsAreUnitVectors(d.Di(), d.Dj());
      HolesNotAligned(o, h, k, d.Di(), d.Dj());
      assert false;
    }
  }

  /** c3, b3 and c2 each wait on the next: c3 looks right past d3 and back at b3, and so on round the triangle. */
  const Cycle: set<Point> := {At(2, 2), At(2, 1), At(1, 2)}

  lemma CycleWaits(x: Point) returns (d: Direction)
    requires x in Cycle
    ensures EmptyAhead(CycleBoard(), x, d) && Plus(x, d.Opposite()).Some? && Plus(x, d.Opposite()).value in Cycle
  {
    var b := CycleBoard();
    if x == At(2, 2) {
      d := Right;
      assert Plus(x, d) == Some(At(2, 3));
      assert Plus(x, d.Opposite()) == Some(At(2, 1));
    } else if x == At(2, 1) {
      d := LowerLeft;
      assert Plus(x, d) == Some(At(3, 0));
      assert Plus(x, d.Opposite()) == Some(At(1, 2));
    } else {
      d := Upper;
      assert Plus(x, d) == Some(At(0, 2));
      assert Plus(x, d.Opposite()) == Some(At(2, 2));
    }
  }

  /** On the cycle board, while every stone is either stable or unclear, no direction verdict is false. */
  lemma CycleDirNeverUnstable(stable: set<Point>, unclear: set<Point>, x: Point, d: Direction)
    requires stable + unclear == Occupied(CycleBoard()) && x in unclear
    ensures DirVerdict(CycleBoard(), stable, unclear, x, d) != Unstable
  {
    var b := CycleBoard();
    if EmptyAhead(b, x, d) && Plus(x, d.Opposite()).Some? {
      CycleBoardNoConflict(x, d);
      assert Plus(x, d.Opposite()).value in Occupied(b);
    }
  }

  /** Nor is any point verdict; and each cycle stone, waiting on an unclear neighbour, stays unclear. */
  lemma CyclePointVerdict(stable: set<Point>, unclear: set<Point>, x: Point)
    requires stable + unclear == Occupied(CycleBoard()) && stable * unclear == {} && Cycle <= unclear
    requires x in unclear
    ensures PointVerdict(CycleBoard(), stable, unclear, x) != Unstable
    ensures x in Cycle ==> PointVerdict(CycleBoard(), stable, unclear, x) == Unclear
  {
    var b := CycleBoard();
    forall d | d in AllDirections ensures DirVerdict(b, stable, unclear, x, d) != Unstable {
      CycleDirNeverUnstable(stable, unclear, x, d);
    }
    if x in Cycle {
      var d := CycleWaits(x);
      AllDirectionsComplete();
      assert Plus(x, d.Opposite()).value !in stable;
      assert DirVerdict(b, stable, unclear, x, d) == Unclear;
    }
  }

  /**
   * One round on the cycle board: no stone is judged unstable, so every stone
   * resolved is judged stable, and no cycle stone is resolved.
   */
  lemma CycleRound(stable: set<Point>, unclear: set<Point>)
    requires stable + unclear == Occupied(CycleBoard()) && stable * unclear == {} && Cycle <= unclear
    ensures Resolved(CycleBoard(), stable, unclear) == NewlyStable(CycleBoard(), stable, unclear)
    ensures Cycle * Resolved(CycleBoard(), stable, unclear) == {}
  {
    forall x | x in unclear
      ensures PointVerdict(CycleBoard(), stable, unclear, x) != Unstable
      ensures x in Cycle ==> PointVerdict(CycleBoard(), stable, unclear, x) == Unclear
    {
      CyclePointVerdict(stable, unclear, x);
    }
  }

  /** Moving a non-empty resolved part of the unclear set, keeping out the cycle, to the stable set keeps the partition. */
  lemma NextRoundSets(occ: set<Point>, stable: set<Point>, unclear: set<Point>, resolved: set<Point>)
    requires stable + unclear == occ && stable * unclear == {} && Cycle <= unclear
    requires resolved <= unclear && resolved != {} && Cycle * resolved == {}
    ensures (stable + resolved) + (unclear - resolved) == occ && (stable + resolved) * (unclear - resolved) == {}
    ensures Cycle <= unclear - resolved && |unclear - resolved| < |unclear|
  {
    assert (unclear - resolved) + resolved == unclear && (unclear - resolved) * resolved == {};
    assert |unclear| == |unclear - resolved| + |resolved|;
  }

  /**
   * On the cycle board no verdict is ever false, and the three cycle stones stay
   * unclear in every round, so the loop as written never resolves them.
   */
  lemma {:induction false} CycleSweepStuck(stable: set<Point>, unclear: set<Point>)
    requires stable + unclear == Occupied(CycleBoard()) && stable * unclear == {}
    requires Cycle <= unclear
    ensures Sweep(CycleBoard(), stable, unclear) == None
    decreases |unclear|
  {
    var b := CycleBoard();
    CycleRound(stable, unclear);
    var resolved := Resolved(b, stable, unclear);
    assert unclear != {} by { assert At(2, 2) in unclear; }
    if resolved != {} {
      var s', u' := stable + resolved, unclear - resolved;
      NextRoundSets(Occupied(b), stable, unclear, resolved);
      CycleSweepStuck(s', u');
    }
  }

  /** The finding: `stablePoints` as written does not return on the cycle board. */
  lemma StablePointsDiverges()
    ensures Sweep(CycleBoard(), {}, Occupied(CycleBoard())) == None
  {
    var b := CycleBoard();
    forall x | x in Cycle ensures b.Get(x).Some? {
      assert x !in Holes;
    }
    CycleSweepStuck({}, Occupied(b));
  }

  /** The corrected classifier stops on the same board, leaving the cycle stones out of the stable set. */
  lemma StablePointsFixedStops()
    ensures Cycle * StablePointsFixed(CycleBoard()) == {}
  {
    var b := CycleBoard();
    forall x | x in Cycle ensures b.Get(x).Some? {
      assert x !in Holes;
    }
    CycleFixedKeepsOut({}, Occupied(b));
  }

  lemma {:induction false} CycleFixedKeepsOut(stable: set<Point>, unclear: set<Point>)
    requires stable + unclear == Occupied(CycleBoard()) && stable * unclear == {}
    requires Cycle <= unclear
    ensures Cycle * SweepFixed(CycleBoard(), stable, unclear) == {}
    decreases |unclear|
  {
    var b := CycleBoard();
    CycleRound(stable, unclear);
    var resolved := Resolved(b, stable, unclear);
    if unclear != {} && resolved != {} {
      NextRoundSets(Occupied(b), stable, unclear, resolved);
      CycleFixedKeepsOut(stable + resolved, unclear - resolved);
    }
  }
}
