// players/RuleBasedPlayer.kt: a corner if one is legal, else the placement that
// most increases the mover's stable stones, else one of three rings of cells
// that are good by experience, else any legal placement. Each `random()` is a
// `rnd` parameter: the model says which points can be picked, not which one is.
module RuleBased {
  import opened Wrappers
  import opened Colors
  import opened Points
  import opened Boards
  import opened Rules
  import opened BoardMoves
  import opened Stability
  import opened RandomPlayer

  /** `ps.filter { puttables.contains(it) }`, in the order of `ps`. */
  function Legal(ps: seq<Point>, puttables: seq<Point>): (r: seq<Point>)
    ensures forall p :: p in r <==> p in ps && p in puttables
  {
    if ps == [] then []
    else (if ps[0] in puttables then [ps[0]] else []) + Legal(ps[1..], puttables)
  }

  /** The `pickOneRandom` of rule 3, also the body of rule 1: a random legal member of `ps`, None if there is none. */
  function PickOneRandom(ps: seq<Point>, puttables: seq<Point>, rnd: nat): (r: Option<Point>)
    ensures r.None? <==> forall p :: p in ps ==> p !in puttables
    ensures r.Some? ==> r.value in ps && r.value in puttables
  {
    var legal := Legal(ps, puttables);
    if legal == [] then None
    else
      assert legal[0] in legal;
      Some(Pick(legal, rnd))
  }

  /** A one-element list holds only its first element. */
  lemma OnlyElement(xs: seq<Point>, x: Point)
    requires |xs| == 1 && x in xs
    ensures x == xs[0]
  {
  }

  /** The four corners, in the order of the source's `setOf`. */
  const Corners: seq<Point> := [At(0, 0), At(Height - 1, 0), At(0, Width - 1), At(Height - 1, Width - 1)]

  /** The cells two steps from a corner along an edge. */
  const Ring1: seq<Point> := [
    At(0, 2), At(0, Width - 3), At(2, 0), At(2, Width - 1),
    At(Height - 3, 0), At(Height - 3, Width - 1), At(Height - 1, 2), At(Height - 1, Width - 3)]

  /** The cells two steps in from a corner along the diagonal. */
  const Ring2: seq<Point> := [At(2, 2), At(2, Width - 3), At(Height - 3, 2), At(Height - 3, Width - 3)]

  /** The cells next to the centre four along the rows and columns. */
  const Ring3: seq<Point> := [
    At(2, 3), At(2, Width - 4), At(3, 2), At(3, Width - 3),
    At(Height - 4, 2), At(Height - 4, Width - 3), At(Height - 3, 3), At(Height - 3, Width - 4)]

  /** The named cells: a1, h1, a8 and h8 are the corners; the rings hold c1, f1, a3, … as listed. */
  lemma CellsNamed()
    ensures Corners == [Parse("a1").value, Parse("a8").value, Parse("h1").value, Parse("h8").value]
    ensures Ring2 == [Parse("c3").value, Parse("f3").value, Parse("c6").value, Parse("f6").value]
  {
  }

  /** No ring contains a corner, and the rings are pairwise disjoint. */
  lemma RingsAvoidCorners()
    ensures forall p :: p in Corners ==> p !in Ring1 && p !in Ring2 && p !in Ring3
    ensures forall p :: p in Ring1 ==> p !in Ring2 && p !in Ring3
    ensures forall p :: p in Ring2 ==> p !in Ring3
  {
  }

  /** `rule1PutCorner`: a random legal corner, None if no corner is legal. */
  function Rule1(puttables: seq<Point>, rnd: nat): Option<Point> {
    PickOneRandom(Corners, puttables, rnd)
  }

  /** The `countStables` of rule 2: how many stones of colour c the classifier finds stable. */
  function StableCount(b: Board, c: Color): nat {
    |set p | p in StablePointsFixed(b) && b.Get(p) == Some(c)|
  }

  /** The stable count of c after c places at p. */
  function Gain(b: Board, c: Color, p: Point): nat {
    StableCount(Place(b, c, p), c)
  }

  /** `puttables.map { it to countStables(board + Move(color, it)) }`. */
  function Scored(b: Board, c: Color, ps: seq<Point>): (r: seq<(Point, int)>)
    ensures |r| == |ps|
    ensures forall k :: 0 <= k < |ps| ==> r[k] == (ps[k], Gain(b, c, ps[k]))
  {
    if ps == [] then [] else [(ps[0], Gain(b, c, ps[0]))] + Scored(b, c, ps[1..])
  }

  /** `.filter { currStables < it.second }`. */
  function Above(pairs: seq<(Point, int)>, floor: int): (r: seq<(Point, int)>)
    ensures forall x :: x in r <==> x in pairs && floor < x.1
  {
    if pairs == [] then []
    else (if floor < pairs[0].1 then [pairs[0]] else []) + Above(pairs[1..], floor)
  }

  /** `.maxBy { it.second }`: None on an empty list, else the first pair with the largest score. */
  function MaxBy(pairs: seq<(Point, int)>): (r: Option<(Point, int)>)
    ensures r.None? <==> pairs == []
    ensures r.Some? ==> r.value in pairs && forall x :: x in pairs ==> x.1 <= r.value.1
  {
    if pairs == [] then None
    else
      match MaxBy(pairs[1..])
      case None => Some(pairs[0])
      case Some(best) => if pairs[0].1 >= best.1 then Some(pairs[0]) else Some(best)
  }

  /** `rule2ExtendStableArea`: the placement with the most stable stones afterwards, if that beats the present count. */
  function Rule2(b: Board, c: Color, puttables: seq<Point>): Option<Point> {
    match MaxBy(Above(Scored(b, c, puttables), StableCount(b, c)))
    case None => None
    case Some(best) => Some(best.0)
  }

  /**
   * Rule 2 gives up exactly when no candidate raises the stable count; otherwise
   * it names a candidate that raises it, and no candidate raises it further.
   */
  lemma Rule2Spec(b: Board, c: Color, puttables: seq<Point>)
    ensures Rule2(b, c, puttables).None? <==> forall p :: p in puttables ==> Gain(b, c, p) <= StableCount(b, c)
    ensures Rule2(b, c, puttables).Some? ==>
      var r := Rule2(b, c, puttables).value;
      && r in puttables
      && StableCount(b, c) < Gain(b, c, r)
      && forall p :: p in puttables ==> Gain(b, c, p) <= Gain(b, c, r)
  {
    var curr := StableCount(b, c);
    var scored := Scored(b, c, puttables);
    var above := Above(scored, curr);
    forall p | p in puttables
      ensures (p, Gain(b, c, p)) in scored
    {
      var k :| 0 <= k < |puttables| && puttables[k] == p;
      assert scored[k] == (p, Gain(b, c, p));
    }
    forall x | x in scored
      ensures x.0 in puttables && x.1 == Gain(b, c, x.0)
    {
      var k :| 0 <= k < |scored| && scored[k] == x;
      assert puttables[k] in puttables;
    }
    if Rule2(b, c, puttables).None? {
      forall p | p in puttables ensures Gain(b, c, p) <= curr {
        assert (p, Gain(b, c, p)) !in above;
      }
    } else {
      var best := MaxBy(above).value;
      forall p | p in puttables ensures Gain(b, c, p) <= Gain(b, c, best.0) {
        if curr < Gain(b, c, p) {
          assert (p, Gain(b, c, p)) in above;
        }
      }
    }
  }

  /** `rule3PutEffectivePoint`: a random legal cell of the first ring that has one. */
  function Rule3(puttables: seq<Point>, rnd: nat): Option<Point> {
    match PickOneRandom(Ring1, puttables, rnd)
    case Some(p) => Some(p)
    case None =>
      match PickOneRandom(Ring2, puttables, rnd)
      case Some(p) => Some(p)
      case None => PickOneRandom(Ring3, puttables, rnd)
  }

  /** Rule 3 takes ring 1 when it can, ring 2 only when ring 1 has no legal cell, ring 3 only when neither has. */
  lemma Rule3Spec(puttables: seq<Point>, rnd: nat)
    ensures Rule3(puttables, rnd).Some? ==> Rule3(puttables, rnd).value in puttables
    ensures (exists p :: p in Ring1 && p in puttables) ==> Rule3(puttables, rnd).value in Ring1
    ensures (forall p :: p in Ring1 ==> p !in puttables) && (exists p :: p in Ring2 && p in puttables) ==>
      Rule3(puttables, rnd).value in Ring2
    ensures (forall p :: p in Ring1 + Ring2 ==> p !in puttables) ==>
      (Rule3(puttables, rnd).None? <==> forall p :: p in Ring3 ==> p !in puttables) &&
      (Rule3(puttables, rnd).Some? ==> Rule3(puttables, rnd).value in Ring3)
  {
  }

  /** The rule cascade of `choosePoint` over at least two candidates. */
  function Cascade(b: Board, c: Color, puttables: seq<Point>, rnd: nat): Option<Point>
    requires |puttables| >= 2
  {
    match Rule1(puttables, rnd)
    case Some(p) => Some(p)
    case None =>
      match Rule2(b, c, puttables)
      case Some(p) => Some(p)
      case None =>
        match Rule3(puttables, rnd)
        case Some(p) => Some(p)
        case None => Some(Pick(puttables, rnd))
  }

  /**
   * The cascade always names a candidate: a corner whenever one is a candidate,
   * and with no corner the best stable-count gain whenever some candidate
   * raises that count.
   */
  lemma CascadeSpec(b: Board, c: Color, puttables: seq<Point>, rnd: nat)
    requires |puttables| >= 2
    ensures Cascade(b, c, puttables, rnd).Some? && Cascade(b, c, puttables, rnd).value in puttables
    ensures (exists p :: p in Corners && p in puttables) ==> Cascade(b, c, puttables, rnd).value in Corners
    ensures (forall p :: p in Corners ==> p !in puttables) &&
            (exists p :: p in puttables && StableCount(b, c) < Gain(b, c, p)) ==>
      var r := Cascade(b, c, puttables, rnd).value;
      && StableCount(b, c) < Gain(b, c, r)
      && forall p :: p in puttables ==> Gain(b, c, p) <= Gain(b, c, r)
  {
    Rule2Spec(b, c, puttables);
    Rule3Spec(puttables, rnd);
  }

  /**
   * With no corner among the candidates and none raising the stable count,
   * rules 1 and 2 give null, so the cascade answers rule 3's pick, and only
   * when no ring has a candidate the random fallback; ring 1 wins whenever it
   * holds a candidate.
   */
  lemma CascadeRule3(b: Board, c: Color, puttables: seq<Point>, rnd: nat)
    requires |puttables| >= 2
    requires forall p :: p in Corners ==> p !in puttables
    requires forall p :: p in puttables ==> Gain(b, c, p) <= StableCount(b, c)
    ensures Cascade(b, c, puttables, rnd) ==
      if Rule3(puttables, rnd).Some? then Rule3(puttables, rnd) else Some(Pick(puttables, rnd))
    ensures (exists p :: p in Ring1 && p in puttables) ==> Cascade(b, c, puttables, rnd).value in Ring1
  {
    Rule2Spec(b, c, puttables);
    Rule3Spec(puttables, rnd);
    assert Rule1(puttables, rnd).None?;
  }

  /** `choosePoint`: no point without a legal placement, the only one when there is one, else the rule cascade. */
  function ChoosePoint(b: Board, c: Color, rnd: nat): Option<Point> {
    var puttables := Puttables(b, c);
    if |puttables| == 0 then None
    else if |puttables| == 1 then Some(puttables[0])
    else Cascade(b, c, puttables, rnd)
  }

  /** The player answers None exactly when c cannot put, otherwise a legal placement, the only one if it is unique. */
  lemma ChoosePointLegal(b: Board, c: Color, rnd: nat)
    ensures ChoosePoint(b, c, rnd).None? <==> !CanPut(b, c)
    ensures ChoosePoint(b, c, rnd).Some? ==> CanPutAt(b, c, ChoosePoint(b, c, rnd).value)
    ensures |Puttables(b, c)| == 1 ==> ChoosePoint(b, c, rnd) == Some(Puttables(b, c)[0])
  {
    var puttables := Puttables(b, c);
    PuttablesSpec(b, c);
    CanPutIffSomePoint(b, c);
    if |puttables| == 1 {
      assert puttables[0] in puttables;
    } else if |puttables| > 1 {
      CascadeSpec(b, c, puttables, rnd);
    }
  }

  /** Whenever a corner is among the legal points, the player takes a corner. */
  lemma ChoosePointCorner(b: Board, c: Color, rnd: nat)
    requires exists p :: p in Corners && p in Puttables(b, c)
    ensures ChoosePoint(b, c, rnd).Some? && ChoosePoint(b, c, rnd).value in Corners
  {
    var puttables := Puttables(b, c);
    var p :| p in Corners && p in puttables;
    if |puttables| == 1 {
      OnlyElement(puttables, p);
    } else {
      CascadeSpec(b, c, puttables, rnd);
    }
  }

  /** With a single candidate the player takes it, and every candidate is that one. */
  lemma SingleCandidate(b: Board, c: Color, rnd: nat)
    requires |Puttables(b, c)| == 1
    ensures ChoosePoint(b, c, rnd) == Some(Puttables(b, c)[0])
    ensures forall p :: p in Puttables(b, c) ==> p == Puttables(b, c)[0]
  {
    forall p | p in Puttables(b, c) ensures p == Puttables(b, c)[0] {
      OnlyElement(Puttables(b, c), p);
    }
  }

  /**
   * With no corner among the legal points, whenever some legal placement raises
   * c's stable count, the player's placement raises it and no legal placement
   * raises it further.
   */
  lemma ChoosePointGain(b: Board, c: Color, rnd: nat)
    requires forall p :: p in Corners ==> p !in Puttables(b, c)
    requires exists p :: p in Puttables(b, c) && StableCount(b, c) < Gain(b, c, p)
    ensures ChoosePoint(b, c, rnd).Some?
    ensures StableCount(b, c) < Gain(b, c, ChoosePoint(b, c, rnd).value)
    ensures forall p :: p in Puttables(b, c) ==> Gain(b, c, p) <= Gain(b, c, ChoosePoint(b, c, rnd).value)
  {
    if |Puttables(b, c)| == 1 {
      SingleCandidate(b, c, rnd);
    } else {
      CascadeSpec(b, c, Puttables(b, c), rnd);
    }
  }

  /**
   * With no corner among the legal points and no placement raising c's stable
   * count, the player takes rule 3's ring pick, a ring-1 cell whenever one is
   * legal, and a random legal point only when no ring has one.
   */
  lemma ChoosePointRing(b: Board, c: Color, rnd: nat)
    requires |Puttables(b, c)| >= 2
    requires forall p :: p in Corners ==> p !in Puttables(b, c)
    requires forall p :: p in Puttables(b, c) ==> Gain(b, c, p) <= StableCount(b, c)
    ensures ChoosePoint(b, c, rnd) ==
      if Rule3(Puttables(b, c), rnd).Some? then Rule3(Puttables(b, c), rnd) else Some(Pick(Puttables(b, c), rnd))
    ensures (exists p :: p in Ring1 && CanPutAt(b, c, p)) ==> ChoosePoint(b, c, rnd).value in Ring1
  {
    PuttablesSpec(b, c);
    CascadeRule3(b, c, Puttables(b, c), rnd);
  }
}
