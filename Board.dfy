// Board.kt, the read-only part: a board is a map from points to colours; a
// point that is not a key is empty.  Equality of boards is equality of maps.
module Boards {
  import opened Wrappers
  import opened Colors
  import opened Points

  datatype Board = Board(cells: map<Point, Color>) {

    /** `board[p]`: the colour at p, None when the cell is empty. */
    function Get(p: Point): Option<Color> {
      if p in cells then Some(cells[p]) else None
    }

    /** The points holding colour c. */
    function StonesOf(c: Color): set<Point> {
      set p | p in cells && cells[p] == c
    }

    /** `count(color)`: the number of stones of colour c. */
    function Count(c: Color): nat {
      |StonesOf(c)|
    }

    /** The empty cells. */
    function EmptyPoints(): set<Point> {
      set p | p in PointsBelow(Height * Width) && p !in cells
    }

    /** The number of empty cells (`filter { board[it] === null }.count()`). */
    function Empties(): nat {
      |EmptyPoints()|
    }
  }

  /** The points whose ordinal is below n; PointsBelow(64) is every point. */
  function PointsBelow(n: nat): (s: set<Point>)
    requires n <= Height * Width
    ensures |s| == n
    ensures forall p: Point :: p in s <==> p < n
  {
    if n == 0 then {} else PointsBelow(n - 1) + {(n - 1) as Point}
  }

  /** Empty cells and stones together fill the 64 cells. */
  lemma EmptiesAndStones(b: Board)
    ensures b.Empties() + |b.cells| == Height * Width
    ensures b.Count(Black) + b.Count(White) == |b.cells|
  {
    var all := PointsBelow(Height * Width);
    assert b.cells.Keys + b.EmptyPoints() == all;
    assert b.cells.Keys * b.EmptyPoints() == {};
    assert b.cells.Keys == b.StonesOf(Black) + b.StonesOf(White);
    assert b.StonesOf(Black) * b.StonesOf(White) == {};
  }

  /** `initMap`: d4 and e5 white, e4 and d5 black. */
  const InitMap: map<Point, Color> := map[
    At((Height - 1) / 2, (Width - 1) / 2) := White,
    At(Height / 2, Width / 2) := White,
    At((Height - 1) / 2, Width / 2) := Black,
    At(Height / 2, (Width - 1) / 2) := Black
  ]

  /** `boardOf()` and `mutableBoardOf()`: the starting position. */
  function Initial(): Board {
    Board(InitMap)
  }

  /** The starting position as the tests describe it. */
  lemma InitialBoard()
    ensures Initial().Get(Parse("d4").value) == Some(White)
    ensures Initial().Get(Parse("e5").value) == Some(White)
    ensures Initial().Get(Parse("d5").value) == Some(Black)
    ensures Initial().Get(Parse("e4").value) == Some(Black)
    ensures Initial().cells.Keys == {Parse("d4").value, Parse("e5").value, Parse("d5").value, Parse("e4").value}
    ensures Initial().Count(Black) == 2 && Initial().Count(White) == 2
    ensures Initial().Empties() == 60
  {
    var b := Initial();
    assert b.StonesOf(Black) == {At(3, 4), At(4, 3)};
    assert b.StonesOf(White) == {At(3, 3), At(4, 4)};
    EmptiesAndStones(b);
  }
}
