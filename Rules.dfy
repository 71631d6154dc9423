// Rules.kt: which stones a placement flips, where a colour may play, when a
// move may be applied, when the game is over and who won.
module Rules {
  import opened Wrappers
  import opened Colors
  import opened Directions
  import opened Points
  import opened Moves
  import opened Boards

  /** The cells from p's neighbour in direction d up to the edge. */
  function Ray(p: Point, d: Direction): (ray: seq<Point>)
    decreases StepsToEdge(p, d)
  {
    match Plus(p, d)
    case None => []
    case Some(q) => [q] + Ray(q, d)
  }

  /**
   * The walk of the private `reversibles(color, point, direction)`, from cell q on:
   * Some(run) when the opponent run from q ends in one of c's stones, None when an
   * empty cell or the edge comes first.
   */
  function Walk(b: Board, c: Color, q: Option<Point>, d: Direction): Option<set<Point>>
    decreases if q.Some? then 1 + StepsToEdge(q.value, d) else 0
  {
    match q
    case None => None
    case Some(x) =>
      match b.Get(x)
      case None => None
      case Some(y) =>
        if y == c then Some({})
        else
          match Walk(b, c, Plus(x, d), d)
          case None => None
          case Some(run) => Some({x} + run)
  }

  /** The stones a stone of colour c at p would flip in direction d. */
  function DirFlips(b: Board, c: Color, p: Point, d: Direction): set<Point> {
    Walk(b, c, Plus(p, d), d).GetOr({})
  }

  /**
   * The ray closes at index k: the first k cells hold the opponent's stones and
   * the cell at k holds one of c's own.
   */
  ghost predicate ClosesAt(b: Board, c: Color, ray: seq<Point>, k: int) {
    && 0 <= k < |ray|
    && (forall i :: 0 <= i < k ==> b.Get(ray[i]) == Some(c.Reversed()))
    && b.Get(ray[k]) == Some(c)
  }

  lemma RayTail(p: Point, d: Direction)
    requires Plus(p, d).Some?
    ensures Ray(p, d) == [Plus(p, d).value] + Ray(Plus(p, d).value, d)
  {
  }

  /** The set of the elements of a sequence of points. */
  function Elements(s: seq<Point>): (e: set<Point>)
    ensures forall x :: x in e <==> x in s
  {
    set x | x in s
  }

  lemma {:induction false} WalkCloses(b: Board, c: Color, p: Point, d: Direction, k: int)
    requires ClosesAt(b, c, Ray(p, d), k)
    ensures Walk(b, c, Plus(p, d), d) == Some(Elements(Ray(p, d)[..k]))
    decreases k
  {
    var ray := Ray(p, d);
    var q := Plus(p, d).value;
    RayTail(p, d);
    if k > 0 {
      var rest := Ray(q, d);
      assert ClosesAt(b, c, rest, k - 1) by {
        forall i | 0 <= i < k - 1 ensures b.Get(rest[i]) == Some(c.Reversed()) {
          assert rest[i] == ray[i + 1];
        }
        assert rest[k - 1] == ray[k];
      }
      WalkCloses(b, c, q, d, k - 1);
      assert ray[..k] == [q] + rest[..k - 1];
      assert Elements(ray[..k]) == {q} + Elements(rest[..k - 1]);
    } else {
      assert Elements(ray[..0]) == {};
    }
  }

  lemma {:induction false} WalkOpen(b: Board, c: Color, p: Point, d: Direction)
    requires forall k :: !ClosesAt(b, c, Ray(p, d), k)
    ensures Walk(b, c, Plus(p, d), d) == None
    decreases StepsToEdge(p, d)
  {
    if Plus(p, d).Some? {
      var q := Plus(p, d).value;
      var ray := Ray(p, d);
      RayTail(p, d);
      assert !ClosesAt(b, c, ray, 0);
      if b.Get(q) == Some(c.Reversed()) {
        var rest := Ray(q, d);
        forall k ensures !ClosesAt(b, c, rest, k) {
          if ClosesAt(b, c, rest, k) {
            assert ClosesAt(b, c, ray, k + 1) by {
              forall i | 0 <= i < k + 1 ensures b.Get(ray[i]) == Some(c.Reversed()) {
                if i > 0 { assert ray[i] == rest[i - 1]; }
              }
            }
            assert false;
          }
        }
        WalkOpen(b, c, q, d);
      }
    }
  }

  /**
   * The directional scan: a direction flips the run of opponent stones next to p
   * exactly when the run ends in one of c's stones; an empty cell or the edge
   * first flips nothing, and so does an own stone right next to p (k = 0).
   */
  lemma DirFlipsSpec(b: Board, c: Color, p: Point, d: Direction)
    ensures forall k :: ClosesAt(b, c, Ray(p, d), k) ==>
      DirFlips(b, c, p, d) == Elements(Ray(p, d)[..k])
    ensures (forall k :: !ClosesAt(b, c, Ray(p, d), k)) ==> DirFlips(b, c, p, d) == {}
  {
    forall k | ClosesAt(b, c, Ray(p, d), k)
      ensures DirFlips(b, c, p, d) == Elements(Ray(p, d)[..k])
    {
      WalkCloses(b, c, p, d, k);
    }
    if forall k :: !ClosesAt(b, c, Ray(p, d), k) {
      WalkOpen(b, c, p, d);
    }
  }

  lemma {:induction false} WalkFlipsOpponents(b: Board, c: Color, q: Option<Point>, d: Direction)
    ensures Walk(b, c, q, d).Some? ==> forall x :: x in Walk(b, c, q, d).value ==> b.Get(x) == Some(c.Reversed())
    decreases if q.Some? then 1 + StepsToEdge(q.value, d) else 0
  {
    if q.Some? && b.Get(q.value).Some? && b.Get(q.value) != Some(c) {
      WalkFlipsOpponents(b, c, Plus(q.value, d), d);
    }
  }

  /** `reversibles(color, point)`: empty on an occupied cell, else the union over the 8 directions. */
  function Reversibles(b: Board, c: Color, p: Point): (r: set<Point>)
    ensures b.Get(p).Some? ==> r == {}
    ensures forall x :: x in r ==> b.Get(x) == Some(c.Reversed())
  {
    if b.Get(p).Some? then {}
    else
      var r := set d, x | d in AllDirections && x in DirFlips(b, c, p, d) :: x;
      assert forall x :: x in r ==> b.Get(x) == Some(c.Reversed()) by {
        forall d | d in AllDirections { WalkFlipsOpponents(b, c, Plus(p, d), d); }
      }
      r
  }

  /** `canPut(color, point)` (also `canPutAt`): p is empty and some direction flips a stone. */
  predicate CanPutAt(b: Board, c: Color, p: Point) {
    b.Get(p).None? && exists d :: d in AllDirections && DirFlips(b, c, p, d) != {}
  }

  /** A colour may put at p exactly when p is empty and the placement flips something. */
  lemma CanPutAtIffFlips(b: Board, c: Color, p: Point)
    ensures CanPutAt(b, c, p) <==> b.Get(p).None? && Reversibles(b, c, p) != {}
  {
    if CanPutAt(b, c, p) {
      var d :| d in AllDirections && DirFlips(b, c, p, d) != {};
      var x :| x in DirFlips(b, c, p, d);
      assert x in Reversibles(b, c, p);
    }
  }

  /** `puttables(color)`, from ordinal k on: the legal points in ordinal order. */
  function PuttablesFrom(b: Board, c: Color, k: nat): seq<Point>
    requires k <= Height * Width
    decreases Height * Width - k
  {
    if k == Height * Width then []
    else
      var rest := PuttablesFrom(b, c, k + 1);
      if CanPutAt(b, c, k) then [k as Point] + rest else rest
  }

  /** From ordinal k on, the list holds exactly the legal points at or past k, strictly increasing. */
  lemma {:induction false} PuttablesFromSpec(b: Board, c: Color, k: nat)
    requires k <= Height * Width
    ensures forall p :: p in PuttablesFrom(b, c, k) <==> k <= p && CanPutAt(b, c, p)
    ensures forall i, j :: 0 <= i < j < |PuttablesFrom(b, c, k)| ==> PuttablesFrom(b, c, k)[i] < PuttablesFrom(b, c, k)[j]
    decreases Height * Width - k
  {
    if k < Height * Width {
      PuttablesFromSpec(b, c, k + 1);
      var rest := PuttablesFrom(b, c, k + 1);
      assert forall j :: 0 <= j < |rest| ==> rest[j] in rest;
    }
  }

  /** `board.puttables(color)`, listed in ordinal order `Point.values` gives them. */
  function Puttables(b: Board, c: Color): seq<Point>
  {
    PuttablesFrom(b, c, 0)
  }

  /** The legal points, each once, in increasing ordinal order. */
  lemma PuttablesSpec(b: Board, c: Color)
    ensures forall p :: p in Puttables(b, c) <==> CanPutAt(b, c, p)
    ensures forall i, j :: 0 <= i < j < |Puttables(b, c)| ==> Puttables(b, c)[i] < Puttables(b, c)[j]
  {
    PuttablesFromSpec(b, c, 0);
  }

  /** `canPut(color)`: some point is legal for c. */
  predicate CanPut(b: Board, c: Color) {
    exists p :: CanPutAt(b, c, p)
  }

  /** c can put exactly when its list of legal points is not empty. */
  lemma CanPutIffSomePoint(b: Board, c: Color)
    ensures CanPut(b, c) <==> Puttables(b, c) != []
  {
    PuttablesSpec(b, c);
    var ps := Puttables(b, c);
    if exists p :: CanPutAt(b, c, p) {
      var p :| CanPutAt(b, c, p);
      assert p in ps;
    }
    if ps != [] {
      assert ps[0] in ps;
    }
  }

  /** `isGameOngoing`: some colour can put. */
  predicate IsGameOngoing(b: Board) {
    CanPut(b, Black) || CanPut(b, White)
  }

  /** `canApply`: the game goes on, and a pass is legal when the mover cannot put, a placement when it can put there. */
  predicate CanApply(b: Board, m: Move) {
    IsGameOngoing(b) && if m.IsPass() then !CanPut(b, m.color) else CanPutAt(b, m.color, m.point.value)
  }

  /** Once the game is over no move, placement or pass, is legal. */
  lemma GameOverRejectsEverything(b: Board, m: Move)
    requires !IsGameOngoing(b)
    ensures !CanApply(b, m)
  {
  }

  /**
   * A pass is legal exactly when the game goes on and the mover cannot put; a
   * placement exactly when the point is legal for the mover. The colour of the
   * last move is not consulted.
   */
  lemma CanApplyCases(b: Board, c: Color, p: Point)
    ensures CanApply(b, Move(c, None)) <==> IsGameOngoing(b) && forall q :: !CanPutAt(b, c, q)
    ensures CanApply(b, Move(c, Some(p))) <==> CanPutAt(b, c, p)
  {
    CanPutIffSomePoint(b, c);
  }

  /** The colour with strictly more stones, None on a tie. */
  function Leader(b: Board): (w: Option<Color>)
    ensures w == Some(Black) <==> b.Count(White) < b.Count(Black)
    ensures w == Some(White) <==> b.Count(Black) < b.Count(White)
    ensures w == None <==> b.Count(Black) == b.Count(White)
  {
    var black := b.Count(Black);
    var white := b.Count(White);
    if white < black then Some(Black)
    else if black < white then Some(White)
    else None
  }

  /** `winner`: fails with IllegalState while the game goes on. */
  function Winner(b: Board): (r: Result<Option<Color>>)
    ensures r.Failure? <==> IsGameOngoing(b)
    ensures r.Failure? ==> r.error == IllegalState
    ensures r.Success? ==> r.value == Leader(b)
  {
    if IsGameOngoing(b) then Failure(IllegalState) else Success(Leader(b))
  }

  /**
   * The source's loop for one direction: walk with `var p` while it is on the board,
   * collecting the opponent's stones; stop at an own stone (keep them) or at an empty
   * cell (drop them); reaching the edge drops them too.
   */
  method ScanDirection(b: Board, c: Color, point: Point, d: Direction) returns (points: set<Point>)
    ensures points == DirFlips(b, c, point, d)
  {
    points := {};
    var p := Plus(point, d);
    assert {} + Walk(b, c, p, d).GetOr({}) == Walk(b, c, p, d).GetOr({});
    while p.Some?
      invariant Walk(b, c, Plus(point, d), d) ==
        if Walk(b, c, p, d).None? then None else Some(points + Walk(b, c, p, d).value)
      decreases if p.Some? then 1 + StepsToEdge(p.value, d) else 0
    {
      var x := p.value;
      var y := b.Get(x);
      if y.None? {
        return {};
      } else if y.value == c {
        assert points + {} == points;
        return;
      }
      assert points + ({x} + Walk(b, c, Plus(x, d), d).GetOr({})) == (points + {x}) + Walk(b, c, Plus(x, d), d).GetOr({});
      points := points + {x};
      p := Plus(x, d);
    }
    return {};
  }
}
