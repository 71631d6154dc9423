// Point.kt: a cell of the 8×8 board, identified by its row-major ordinal.
module Points {
  import opened Wrappers
  import opened Directions

  const Height: int := 8
  const Width: int := 8

  /** A cell; the value is the ordinal `i * Width + j`. */
  type Point = o: int | 0 <= o < Height * Width

  /** Whether (i, j) lies on the grid (`isValidIdx`). */
  predicate IsValidIdx(i: int, j: int) {
    0 <= i < Height && 0 <= j < Width
  }

  /** `idxToOrdinal`. */
  function IdxToOrdinal(i: int, j: int): int {
    i * Width + j
  }

  /** Row coordinate `i`. */
  function I(p: Point): (i: int)
    ensures 0 <= i < Height
  {
    p / Width
  }

  /** Column coordinate `j`. */
  function J(p: Point): (j: int)
    ensures 0 <= j < Width
  {
    p % Width
  }

  /** `Point[i, j]`; the source rejects (i, j) off the grid with `require`. */
  function At(i: int, j: int): (p: Point)
    requires IsValidIdx(i, j)
    ensures I(p) == i && J(p) == j
  {
    IdxToOrdinal(i, j)
  }

  /** A point is determined by its coordinates. */
  lemma CoordinatesDetermine(p: Point, q: Point)
    requires I(p) == I(q) && J(p) == J(q)
    ensures p == q
  {
  }

  /** `Point.values`: every point in ordinal order. */
  function Values(): (vs: seq<Point>)
    ensures |vs| == Height * Width
    ensures forall k :: 0 <= k < |vs| ==> vs[k] == k
  {
    seq(Height * Width, (k: int) requires 0 <= k < Height * Width => k as Point)
  }

  /** The name "a1".."h8": the column letter from 'a', then the row number from 1. */
  function Pos(p: Point): string {
    [('a' as int + J(p)) as char, ('1' as int + I(p)) as char]
  }

  /** `Point[pos]`: the lookup in the map from names to points; None where the source throws. */
  function Parse(s: string): (r: Option<Point>)
    ensures r.Some? ==> Pos(r.value) == s
    ensures r.None? ==> forall p: Point :: Pos(p) != s
  {
    if |s| == 2 && 'a' <= s[0] < ('a' as int + Width) as char && '1' <= s[1] < ('1' as int + Height) as char
    then Some(At(s[1] as int - '1' as int, s[0] as int - 'a' as int))
    else None
  }

  /** Name and point determine each other. */
  lemma ParsePos(p: Point)
    ensures Parse(Pos(p)) == Some(p)
  {
    var r := Parse(Pos(p));
    assert r.Some?;
    CoordinatesDetermine(r.value, p);
  }

  /** The names the tests reject, and the two corner names they accept. */
  lemma ParseExamples()
    ensures Parse("") == None && Parse("A1") == None && Parse("a0") == None
    ensures Parse("`1") == None && Parse("i8") == None && Parse("h9") == None
    ensures Parse("xxxx") == None
    ensures Parse("a1") == Some(At(0, 0)) && Parse("h8") == Some(At(7, 7))
  {
  }

  /** How many steps in direction d remain before the edge; decreases along a ray. */
  function StepsToEdge(p: Point, d: Direction): nat {
    if d.Di() == 1 then Height - 1 - I(p)
    else if d.Di() == -1 then I(p)
    else if d.Dj() == 1 then Width - 1 - J(p)
    else J(p)
  }

  /** `p + d`: the neighbouring point in direction d, None off the grid. */
  function Plus(p: Point, d: Direction): (r: Option<Point>)
    ensures r.None? <==> !IsValidIdx(I(p) + d.Di(), J(p) + d.Dj())
    ensures r.Some? ==> I(r.value) == I(p) + d.Di() && J(r.value) == J(p) + d.Dj()
    ensures r.Some? ==> StepsToEdge(r.value, d) < StepsToEdge(p, d)
  {
    var ni := I(p) + d.Di();
    var nj := J(p) + d.Dj();
    if IsValidIdx(ni, nj) then Some(At(ni, nj)) else None
  }

  /** `p - d`: the point at (i - di, j - dj), None off the grid. */
  function Minus(p: Point, d: Direction): Option<Point> {
    var ni := I(p) - d.Di();
    var nj := J(p) - d.Dj();
    if IsValidIdx(ni, nj) then Some(At(ni, nj)) else None
  }

  /** `p + d.opposite == p - d` for every point and direction. */
  lemma MinusIsPlusOpposite(p: Point, d: Direction)
    ensures Minus(p, d) == Plus(p, d.Opposite())
  {
    var m, q := Minus(p, d), Plus(p, d.Opposite());
    if m.Some? && q.Some? {
      CoordinatesDetermine(m.value, q.value);
    }
  }

  /** Stepping forward and then back returns to the start. */
  lemma PlusOppositeInverse(p: Point, d: Direction)
    requires Plus(p, d).Some?
    ensures Plus(Plus(p, d).value, d.Opposite()) == Some(p)
  {
    var q := Plus(p, d).value;
    var r := Plus(q, d.Opposite());
    assert r.Some?;
    CoordinatesDetermine(r.value, p);
  }

  /** Examples from the tests: the corners and the point e5. */
  lemma PlusExamples()
    ensures Plus(At(0, 0), Upper) == None && Plus(At(0, 0), Left) == None
    ensures Plus(At(0, 0), Right) == Some(At(0, 1)) && Plus(At(0, 0), LowerRight) == Some(At(1, 1))
    ensures Plus(At(4, 4), UpperLeft) == Some(At(3, 3)) && Plus(At(4, 4), LowerLeft) == Some(At(5, 3))
    ensures Plus(At(7, 7), LowerRight) == None && Plus(At(7, 7), UpperLeft) == Some(At(6, 6))
  {
    assert At(0, 0) == 0 && At(0, 1) == 1 && At(1, 1) == 9;
    assert At(4, 4) == 36 && At(3, 3) == 27 && At(5, 3) == 43;
    assert At(7, 7) == 63 && At(6, 6) == 54;
  }

  /** `compareTo`: the sign of the ordinal comparison. */
  function CompareTo(p: Point, q: Point): int {
    if p < q then -1 else if p == q then 0 else 1
  }

  /** The ordinal order is the row-major order of the coordinates. */
  lemma CompareToIsRowMajor(p: Point, q: Point)
    ensures CompareTo(p, q) < 0 <==> (I(p) < I(q) || (I(p) == I(q) && J(p) < J(q)))
    ensures CompareTo(p, q) == 0 <==> p == q
    ensures CompareTo(p, q) == -CompareTo(q, p)
  {
    if I(p) == I(q) && J(p) == J(q) {
      CoordinatesDetermine(p, q);
    }
  }
}
