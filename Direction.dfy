// Direction.kt: the eight compass directions with their (di, dj) offsets,
// plus `opposite` and unary minus, which the tests use.
module Directions {
  import opened Wrappers

  datatype Direction =
    | Upper | UpperRight | Right | LowerRight | Lower | LowerLeft | Left | UpperLeft
  {
    /** Row offset. */
    function Di(): int {
      match this
      case Upper => -1
      case UpperRight => -1
      case Right => 0
      case LowerRight => 1
      case Lower => 1
      case LowerLeft => 1
      case Left => 0
      case UpperLeft => -1
    }

    /** Column offset. */
    function Dj(): int {
      match this
      case Upper => 0
      case UpperRight => 1
      case Right => 1
      case LowerRight => 1
      case Lower => 0
      case LowerLeft => -1
      case Left => -1
      case UpperLeft => -1
    }

    /** The opposite direction, as a fixed table. */
    function Opposite(): (r: Direction)
      ensures r.Di() == -Di() && r.Dj() == -Dj()
    {
      match this
      case Upper => Lower
      case UpperRight => LowerLeft
      case Right => Left
      case LowerRight => UpperLeft
      case Lower => Upper
      case LowerLeft => UpperRight
      case Left => Right
      case UpperLeft => LowerRight
    }
  }

  /** `Direction.values()`, in declaration order. */
  const AllDirections: seq<Direction> :=
    [Upper, UpperRight, Right, LowerRight, Lower, LowerLeft, Left, UpperLeft]

  /** The direction with the given offsets, looked up in `ds`. */
  function FindByOffsets(ds: seq<Direction>, di: int, dj: int): (r: Option<Direction>)
    ensures r.Some? ==> r.value in ds && r.value.Di() == di && r.value.Dj() == dj
    ensures r.None? ==> forall d :: d in ds ==> d.Di() != di || d.Dj() != dj
  {
    if ds == [] then None
    else if ds[0].Di() == di && ds[0].Dj() == dj then Some(ds[0])
    else FindByOffsets(ds[1..], di, dj)
  }

  /** Unary minus: the direction whose offsets are the negated offsets. */
  function Negate(d: Direction): Option<Direction> {
    FindByOffsets(AllDirections, -d.Di(), -d.Dj())
  }

  lemma AllDirectionsComplete()
    ensures |AllDirections| == 8
    ensures forall d: Direction :: d in AllDirections
    ensures forall i, j :: 0 <= i < j < |AllDirections| ==> AllDirections[i] != AllDirections[j]
  {
    forall d: Direction ensures d in AllDirections {
      match d
      case Upper => assert AllDirections[0] == d;
      case UpperRight => assert AllDirections[1] == d;
      case Right => assert AllDirections[2] == d;
      case LowerRight => assert AllDirections[3] == d;
      case Lower => assert AllDirections[4] == d;
      case LowerLeft => assert AllDirections[5] == d;
      case Left => assert AllDirections[6] == d;
      case UpperLeft => assert AllDirections[7] == d;
    }
  }

  /** The offsets are exactly the eight non-zero vectors of {-1, 0, 1}². */
  lemma OffsetsAreUnitVectors(di: int, dj: int)
    ensures (exists d: Direction :: d.Di() == di && d.Dj() == dj)
        <==> (-1 <= di <= 1 && -1 <= dj <= 1 && (di != 0 || dj != 0))
  {
    if -1 <= di <= 1 && -1 <= dj <= 1 && (di != 0 || dj != 0) {
      var d :=
        if di == -1 then (if dj == -1 then UpperLeft else if dj == 0 then Upper else UpperRight)
        else if di == 0 then (if dj == -1 then Left else Right)
        else (if dj == -1 then LowerLeft else if dj == 0 then Lower else LowerRight);
      assert d.Di() == di && d.Dj() == dj;
    }
  }

  /** Two directions with the same offsets are the same direction. */
  lemma OffsetsInjective(d: Direction, e: Direction)
    requires d.Di() == e.Di() && d.Dj() == e.Dj()
    ensures d == e
  {
  }

  lemma OppositeInvolution(d: Direction)
    ensures d.Opposite().Opposite() == d
    ensures d.Opposite() != d
  {
  }

  /** Unary minus agrees with `opposite` on every direction. */
  lemma NegateIsOpposite(d: Direction)
    ensures Negate(d) == Some(d.Opposite())
  {
    var r := Negate(d);
    assert d.Opposite() in AllDirections;
    if r.None? {
      assert false;
    } else {
      OffsetsInjective(r.value, d.Opposite());
    }
  }
}
