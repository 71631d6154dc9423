// Board.kt, the part that needs the rules: `plus` builds the next board from a
// copy, `MutableBoardImpl.apply` updates its own map in place.
module BoardMoves {
  import opened Wrappers
  import opened Colors
  import opened Points
  import opened Moves
  import opened Boards
  import opened Rules

  /** The board after c plays at p: p and every reversible stone take colour c. */
  function Place(b: Board, c: Color, p: Point): (r: Board)
    ensures forall x :: x == p || x in Reversibles(b, c, p) ==> r.Get(x) == Some(c)
    ensures forall x :: x != p && x !in Reversibles(b, c, p) ==> r.Get(x) == b.Get(x)
  {
    Board(b.cells + map x | x in Reversibles(b, c, p) + {p} :: c)
  }

  /**
   * `plus(move)`: InvalidMove unless `canApply(move)`; a pass gives an equal
   * board, a placement the board `Place` describes.
   */
  function PlusMove(b: Board, m: Move): (r: Result<Board>)
    ensures r.Failure? <==> !CanApply(b, m)
    ensures r.Failure? ==> r.error == InvalidMove
    ensures r.Success? && m.IsPass() ==> r.value == b
    ensures r.Success? && !m.IsPass() ==> r.value == Place(b, m.color, m.point.value)
  {
    if !CanApply(b, m) then Failure(InvalidMove)
    else if m.IsPass() then Success(b)
    else Success(Place(b, m.color, m.point.value))
  }

  /** Boards are equal exactly when they agree on every cell (`equals`). */
  lemma BoardEquality(a: Board, b: Board)
    ensures a == b <==> forall p :: a.Get(p) == b.Get(p)
  {
    if forall p :: a.Get(p) == b.Get(p) {
      assert a.cells.Keys == b.cells.Keys by {
        forall p | p in a.cells ensures p in b.cells { assert a.Get(p).Some?; }
        forall p | p in b.cells ensures p in a.cells { assert b.Get(p).Some?; }
      }
      forall p | p in a.cells ensures a.cells[p] == b.cells[p] { assert a.Get(p) == b.Get(p); }
    }
  }

  /** After c plays at p, c's stones are its old ones, the flipped ones and p. */
  lemma PlaceMoverStones(b: Board, c: Color, p: Point)
    ensures Place(b, c, p).StonesOf(c) == b.StonesOf(c) + Reversibles(b, c, p) + {p}
  {
    var r := Place(b, c, p);
    forall x ensures x in r.StonesOf(c) <==> x in b.StonesOf(c) + Reversibles(b, c, p) + {p} {
      assert x in r.StonesOf(c) <==> r.Get(x) == Some(c);
      assert x in b.StonesOf(c) <==> b.Get(x) == Some(c);
    }
  }

  /** After c plays at p, the opponent keeps exactly its stones that were not flipped. */
  lemma PlaceOpponentStones(b: Board, c: Color, p: Point)
    requires b.Get(p).None?
    ensures Place(b, c, p).StonesOf(c.Reversed()) == b.StonesOf(c.Reversed()) - Reversibles(b, c, p)
  {
    var r := Place(b, c, p);
    var o := c.Reversed();
    forall x ensures x in r.StonesOf(o) <==> x in b.StonesOf(o) - Reversibles(b, c, p) {
      assert x in r.StonesOf(o) <==> r.Get(x) == Some(o);
      assert x in b.StonesOf(o) <==> b.Get(x) == Some(o);
    }
  }

  /**
   * A placement on an empty cell puts one stone of the mover's and turns the
   * flipped ones: the mover gains 1 + |flips|, the opponent loses |flips|, one
   * fewer cell is empty.
   */
  lemma PlaceCounts(b: Board, c: Color, p: Point)
    requires b.Get(p).None?
    ensures Place(b, c, p).Count(c) == b.Count(c) + 1 + |Reversibles(b, c, p)|
    ensures Place(b, c, p).Count(c.Reversed()) == b.Count(c.Reversed()) - |Reversibles(b, c, p)|
    ensures Place(b, c, p).Empties() == b.Empties() - 1
  {
    PlaceMoverCount(b, c, p);
    PlaceOpponentCount(b, c, p);
    PlaceEmpties(b, c, p);
  }

  /** The placed cell was the only one to fill. */
  lemma PlaceEmpties(b: Board, c: Color, p: Point)
    requires b.Get(p).None?
    ensures Place(b, c, p).Empties() == b.Empties() - 1
  {
    var r := Place(b, c, p);
    assert r.cells.Keys == b.cells.Keys + {p} by {
      forall x | x in Reversibles(b, c, p) ensures x in b.cells {
        assert b.Get(x).Some?;
      }
    }
    assert p !in b.cells.Keys;
    assert |r.cells.Keys| == |b.cells.Keys| + 1;
    EmptiesAndStones(b);
    EmptiesAndStones(r);
  }

  /** The mover gains the placed stone and the flipped ones. */
  lemma PlaceMoverCount(b: Board, c: Color, p: Point)
    requires b.Get(p).None?
    ensures Place(b, c, p).Count(c) == b.Count(c) + 1 + |Reversibles(b, c, p)|
  {
    var flips := Reversibles(b, c, p);
    var mine := b.StonesOf(c);
    PlaceMoverStones(b, c, p);
    assert mine * flips == {} by {
      forall x | x in flips ensures x !in mine { assert b.Get(x) == Some(c.Reversed()); }
    }
    assert p !in mine + flips by {
      assert b.Get(p).None?;
    }
    assert |mine + flips + {p}| == |mine| + |flips| + 1;
  }

  /** The opponent loses the flipped stones. */
  lemma PlaceOpponentCount(b: Board, c: Color, p: Point)
    requires b.Get(p).None?
    ensures Place(b, c, p).Count(c.Reversed()) == b.Count(c.Reversed()) - |Reversibles(b, c, p)|
  {
    var flips := Reversibles(b, c, p);
    var theirs := b.StonesOf(c.Reversed());
    PlaceOpponentStones(b, c, p);
    assert flips <= theirs by {
      forall x | x in flips ensures x in theirs { assert b.Get(x) == Some(c.Reversed()); }
    }
    assert |theirs - flips| == |theirs| - |flips|;
  }

  /** `plus` keeps its receiver: the result of a legal placement differs from it at p. */
  lemma PlacementChangesBoard(b: Board, m: Move)
    requires CanApply(b, m) && !m.IsPass()
    ensures PlusMove(b, m).value != b
    ensures PlusMove(b, m).value.Get(m.point.value) == Some(m.color)
  {
    assert b.Get(m.point.value).None?;
  }

  /**
   * `MutableBoardImpl`: a board whose map is updated in place. `toBoard` takes a
   * read-only copy; `mutableBoardOf(original)` is the constructor.
   */
  class MutableBoard {
    var cells: map<Point, Color>

    constructor (original: Board)
      ensures ToBoard() == original
    {
      cells := original.cells;
    }

    function ToBoard(): (b: Board)
      reads this
      ensures b.cells == cells
    {
      Board(cells)
    }

    /** `reversibles.forEach { map[it] = move.color }`: paint every point of `points` with c. */
    method Paint(points: set<Point>, c: Color)
      modifies this
      ensures cells == old(cells) + map x | x in points :: c
    {
      var todo := points;
      while todo != {}
        invariant todo <= points
        invariant cells == old(cells) + map x | x in points - todo :: c
        decreases |todo|
      {
        var x :| x in todo;
        cells := cells[x := c];
        todo := todo - {x};
      }
    }

    /**
     * `apply(move)`: a move `canApply` rejects yields InvalidMove and leaves
     * the board as it was; otherwise the board becomes what `plus` returns.
     */
    method Apply(m: Move) returns (err: Option<Error>)
      modifies this
      ensures err.Some? <==> !CanApply(old(ToBoard()), m)
      ensures err.Some? ==> err.value == InvalidMove && cells == old(cells)
      ensures err.None? ==> ToBoard() == PlusMove(old(ToBoard()), m).value
    {
      if !CanApply(ToBoard(), m) {
        return Some(InvalidMove);
      }
      if !m.IsPass() {
        var p := m.point.value;
        Paint(Reversibles(ToBoard(), m.color, p), m.color);
        cells := cells[p := m.color];
      }
      return None;
    }
  }
}
