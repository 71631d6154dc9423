// players/SimplestPlayer.kt: the first legal point in row-major order.
module SimplestPlayer {
  import opened Wrappers
  import opened Colors
  import opened Points
  import opened Boards
  import opened Rules

  /** `firstOrNull` over the points of ordinal k and above: the head of the legal points from k on. */
  function FirstFrom(b: Board, c: Color, k: nat): (r: Option<Point>)
    requires k <= Height * Width
    ensures r == if PuttablesFrom(b, c, k) == [] then None else Some(PuttablesFrom(b, c, k)[0])
    decreases Height * Width - k
  {
    if k == Height * Width then None
    else if CanPutAt(b, c, k as Point) then Some(k as Point)
    else FirstFrom(b, c, k + 1)
  }

  /**
   * `choosePoint`: None exactly when c has no legal point, else a legal point.
   * Being a function of the board alone, it answers the same for the same board.
   */
  function ChoosePoint(b: Board, c: Color): (r: Option<Point>)
    ensures r.None? <==> !CanPut(b, c)
    ensures r.Some? ==> CanPutAt(b, c, r.value)
  {
    PuttablesSpec(b, c);
    CanPutIffSomePoint(b, c);
    assert Puttables(b, c) != [] ==> Puttables(b, c)[0] in Puttables(b, c);
    FirstFrom(b, c, 0)
  }

  /** No legal point comes before the answer in row-major order. */
  lemma ChoosePointFirst(b: Board, c: Color)
    ensures ChoosePoint(b, c).Some? ==> forall q: Point :: q < ChoosePoint(b, c).value ==> !CanPutAt(b, c, q)
  {
    var ps := Puttables(b, c);
    PuttablesSpec(b, c);
    if ps != [] {
      forall q: Point | CanPutAt(b, c, q) ensures ps[0] <= q {
        var k :| 0 <= k < |ps| && ps[k] == q;
      }
    }
  }
}
