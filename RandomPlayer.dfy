// players/RandomPlayer.kt: any legal placement, chosen at random. The random
// index is the `rnd` parameter, so the model says which points can be picked,
// never which one is.
module RandomPlayer {
  import opened Wrappers
  import opened Colors
  import opened Points
  import opened Boards
  import opened Rules

  /** `it.random()` on a non-empty list: the element the random index selects. */
  function Pick(xs: seq<Point>, rnd: nat): (r: Point)
    requires xs != []
    ensures r in xs
  {
    xs[rnd % |xs|]
  }

  /** Every element can be the random pick. */
  lemma PickReachesAll(xs: seq<Point>, x: Point)
    requires x in xs
    ensures exists rnd: nat :: Pick(xs, rnd) == x
  {
    var k :| 0 <= k < |xs| && xs[k] == x;
    assert k % |xs| == k;
    assert Pick(xs, k) == x;
  }

  /**
   * `choosePoint`: None when no point is legal for c, else a random one of the
   * legal points; the time allowance is not read.
   */
  function ChoosePoint(b: Board, c: Color, rnd: nat): (r: Option<Point>)
    ensures r.None? <==> !CanPut(b, c)
    ensures r.Some? ==> CanPutAt(b, c, r.value) && b.Get(r.value).None?
  {
    var availables := Puttables(b, c);
    PuttablesSpec(b, c);
    CanPutIffSomePoint(b, c);
    if availables == [] then None else Some(Pick(availables, rnd))
  }

  /** Every legal point is the answer for some random index. */
  lemma ChoosePointReachesAll(b: Board, c: Color, p: Point)
    requires CanPutAt(b, c, p)
    ensures exists rnd: nat :: ChoosePoint(b, c, rnd) == Some(p)
  {
    PuttablesSpec(b, c);
    PickReachesAll(Puttables(b, c), p);
    var rnd: nat :| Pick(Puttables(b, c), rnd) == p;
    assert ChoosePoint(b, c, rnd) == Some(p);
  }
}
