// players/WidthFirstPlayer.kt: the player grows a game tree breadth first while
// time remains. Every node is scored by the evaluator when it is created; the
// `bestChild` and `score` properties are observable, so adopting a better child
// copies its score into the parent, which may in turn be adopted by the
// grandparent, and so on up to the root.
//
// The `Node` objects are kept in an arena, a sequence inside a `SearchTree`
// object, and refer to each other by index; nodes are only ever appended, so a
// parent always sits before its children.
module WidthFirst {
  import opened Wrappers
  import opened Colors
  import opened Points
  import opened Moves
  import opened Boards
  import opened Rules
  import opened BoardMoves
  import opened Deadlines
  import Evaluators

  /**
   * One `Node`: `chosen` is `previouslyChosen`, `mover` is `currColor`, and
   * `parent` and `best` (the `bestChild` property) are arena indices.
   */
  datatype Node = Node(parent: Option<nat>, chosen: Option<Point>, board: Board, mover: Color, best: Option<nat>, score: int)

  /** The moves `search` creates children for: each legal placement, else a pass if the opponent can put, else none. */
  function ChildMoves(b: Board, c: Color): seq<Option<Point>> {
    var ps := Puttables(b, c);
    if ps != [] then seq(|ps|, k requires 0 <= k < |ps| => Some(ps[k]))
    else if CanPut(b, c.Reversed()) then [None]
    else []
  }

  /** The board of the child reached by m: `currBoard + Move(currColor, it)`, or the same board for the pass child. */
  function ChildBoard(b: Board, c: Color, m: Option<Point>): Board {
    if m.None? then b else Place(b, c, m.value)
  }

  /**
   * There is a child exactly while the game goes on; the placement children are
   * the legal points, and the pass child exists only when the mover cannot put.
   */
  lemma ChildMovesSpec(b: Board, c: Color)
    ensures ChildMoves(b, c) == [] <==> !IsGameOngoing(b)
    ensures forall p: Point :: Some(p) in ChildMoves(b, c) <==> CanPutAt(b, c, p)
    ensures CanPut(b, c) ==> None !in ChildMoves(b, c)
    ensures !CanPut(b, c) ==> forall m :: m in ChildMoves(b, c) ==> m.None?
  {
    var ps := Puttables(b, c);
    var ms := ChildMoves(b, c);
    PuttablesSpec(b, c);
    CanPutIffSomePoint(b, c);
    CanPutIffSomePoint(b, c.Reversed());
    if ps != [] {
      forall p: Point ensures Some(p) in ms <==> p in ps {
        if p in ps {
          var k :| 0 <= k < |ps| && ps[k] == p;
          assert ms[k] == Some(p);
        }
      }
    }
  }

  /** Each child's move is legal, and the child's board is what `plus` returns for it. */
  lemma ChildMovesBoards(b: Board, c: Color)
    ensures forall m :: m in ChildMoves(b, c) ==>
      (m.Some? ==> b.Get(m.value).None?) &&
      PlusMove(b, Move(c, m)) == Success(ChildBoard(b, c, m))
  {
    ChildMovesSpec(b, c);
    forall m | m in ChildMoves(b, c)
      ensures m.Some? ==> b.Get(m.value).None?
      ensures PlusMove(b, Move(c, m)) == Success(ChildBoard(b, c, m))
    {
      if m.Some? {
        assert CanPutAt(b, c, m.value);
      }
    }
  }

  /**
   * `updateParentBest`'s rule: a parent whose mover is the player takes only a
   * strictly higher score, any other parent only a strictly lower one.
   */
  predicate Prefers(parent: Node, child: Node, color: Color) {
    if parent.mover == color then parent.score < child.score else child.score < parent.score
  }

  /** Node 0 is the root; every other node's parent comes before it. */
  ghost predicate Arena(ns: seq<Node>) {
    && |ns| > 0
    && ns[0].parent.None?
    && forall i :: 0 < i < |ns| ==> ns[i].parent.Some? && ns[i].parent.value < i
  }

  /** Every best child is a child of its node. */
  ghost predicate BestLinks(ns: seq<Node>) {
    forall i :: 0 <= i < |ns| ==> LinkedAt(ns, i)
  }

  /** Node i's share of `BestLinks`. */
  ghost predicate LinkedAt(ns: seq<Node>, i: int) {
    0 <= i < |ns| && (ns[i].best.Some? ==> ns[i].best.value < |ns| && ns[ns[i].best.value].parent == Some(i))
  }

  /** Setting k as pa's best child, with any score, keeps every best child a child of its node. */
  lemma LinksAfterAdopt(ns: seq<Node>, k: nat, pa: nat, score: int)
    requires BestLinks(ns) && pa < k < |ns| && ns[k].parent == Some(pa)
    ensures BestLinks(ns[pa := ns[pa].(best := Some(k), score := score)])
  {
    var next := ns[pa := ns[pa].(best := Some(k), score := score)];
    forall i | 0 <= i < |next| ensures LinkedAt(next, i) {
      assert LinkedAt(ns, i);
    }
  }

  /** Node b may stand where node a stood: only the best child and the score differ, and a best child stays set. */
  predicate SameSlot(a: Node, b: Node) {
    && a.parent == b.parent && a.chosen == b.chosen && a.board == b.board && a.mover == b.mover
    && (a.best.Some? ==> b.best.Some?)
  }

  /** Every node of a stands, in the same place, in b. */
  ghost predicate Kept(a: seq<Node>, b: seq<Node>) {
    |a| <= |b| && forall i :: 0 <= i < |a| ==> SameSlot(a[i], b[i])
  }

  /** Keeping is transitive. */
  lemma KeptTrans(a: seq<Node>, b: seq<Node>, c: seq<Node>)
    requires Kept(a, b) && Kept(b, c)
    ensures Kept(a, c)
  {
    forall i | 0 <= i < |a| ensures SameSlot(a[i], c[i]) {
      assert SameSlot(a[i], b[i]) && SameSlot(b[i], c[i]);
    }
  }

  /** Updating one node's best child or score keeps the others and the arena's shape. */
  lemma KeptUpdate(ns: seq<Node>, pa: nat, n: Node)
    requires pa < |ns| && SameSlot(ns[pa], n)
    ensures Kept(ns, ns[pa := n])
    ensures Arena(ns) ==> Arena(ns[pa := n])
  {
  }

  /** Node j is node i or lies below it. */
  ghost predicate Descends(ns: seq<Node>, j: int, i: int)
    decreases j
  {
    0 <= j < |ns| && (j == i || (ns[j].parent.Some? && ns[j].parent.value < j && Descends(ns, ns[j].parent.value, i)))
  }

  /** src[i] names, for every node i, a node of i's subtree whose board the evaluator scores as i's score. */
  ghost predicate ScoredFrom(ns: seq<Node>, evaluator: (Board, Color) -> int, color: Color, src: seq<int>) {
    |src| == |ns| && forall i :: 0 <= i < |ns| ==> ScoredAt(ns, evaluator, color, src, i)
  }

  /** Node i's share of `ScoredFrom`: src[i] lies below i and its board's evaluation is i's score. */
  ghost predicate ScoredAt(ns: seq<Node>, evaluator: (Board, Color) -> int, color: Color, src: seq<int>, i: int) {
    0 <= i < |src| && i < |ns| && Descends(ns, src[i], i) && ns[i].score == evaluator(ns[src[i]].board, color)
  }

  /** Every node's score is the evaluation, for the player, of some board in its own subtree. */
  ghost predicate ScoresFromSubtree(ns: seq<Node>, evaluator: (Board, Color) -> int, color: Color) {
    exists src :: ScoredFrom(ns, evaluator, color, src)
  }

  /** Node pa after adopting its child k as best child, score and all. */
  function Adopt(ns: seq<Node>, k: nat, pa: nat): (r: seq<Node>)
    requires pa < k < |ns|
    ensures |r| == |ns| && r[pa].best == Some(k) && r[pa].score == ns[k].score
  {
    ns[pa := ns[pa].(best := Some(k), score := ns[k].score)]
  }

  /**
   * The cascade of the two observers, starting from node k: k's parent adopts k
   * when `force` (the `init` block's case of a parent without a best child) or
   * when it prefers k; a parent that adopts a child with a different score
   * takes that score and offers itself to its own parent.
   */
  function Climb(ns: seq<Node>, color: Color, k: nat, force: bool): (r: seq<Node>)
    requires Arena(ns) && k < |ns|
    ensures |r| == |ns|
    decreases k
  {
    if ns[k].parent.None? then ns
    else
      var pa := ns[k].parent.value;
      if !force && !Prefers(ns[pa], ns[k], color) then ns
      else if ns[pa].score == ns[k].score then ns[pa := ns[pa].(best := Some(k))]
      else Climb(Adopt(ns, k, pa), color, pa, false)
  }

  /** The cascade changes only best children and scores, only of nodes before k, and never clears a best child. */
  lemma {:induction false} ClimbShape(ns: seq<Node>, color: Color, k: nat, force: bool)
    requires Arena(ns) && k < |ns|
    ensures var r := Climb(ns, color, k, force);
      && Kept(ns, r) && Arena(r)
      && (forall i :: k <= i < |ns| ==> r[i] == ns[i])
    decreases k
  {
    if ns[k].parent.Some? {
      var pa := ns[k].parent.value;
      if force || Prefers(ns[pa], ns[k], color) {
        if ns[pa].score == ns[k].score {
          KeptUpdate(ns, pa, ns[pa].(best := Some(k)));
        } else {
          var next := Adopt(ns, k, pa);
          KeptUpdate(ns, pa, next[pa]);
          ClimbShape(next, color, pa, false);
          KeptTrans(ns, next, Climb(next, color, pa, false));
        }
      }
    }
  }

  /** The cascade keeps every best child a child of its node. */
  lemma {:induction false} ClimbLinks(ns: seq<Node>, color: Color, k: nat, force: bool)
    requires Arena(ns) && k < |ns| && BestLinks(ns)
    ensures BestLinks(Climb(ns, color, k, force))
    decreases k
  {
    if ns[k].parent.Some? {
      var pa := ns[k].parent.value;
      if force || Prefers(ns[pa], ns[k], color) {
        if ns[pa].score == ns[k].score {
          LinksAfterAdopt(ns, k, pa, ns[pa].score);
          assert ns[pa].(best := Some(k), score := ns[pa].score) == ns[pa].(best := Some(k));
        } else {
          var next := Adopt(ns, k, pa);
          LinksAfterAdopt(ns, k, pa, ns[k].score);
          KeptUpdate(ns, pa, next[pa]);
          ClimbLinks(next, color, pa, false);
        }
      }
    }
  }

  /**
   * One step of the cascade: when the parent adopts k, k becomes its best child
   * and its score becomes k's; when it does not (a tie, or a worse score),
   * nothing changes.
   */
  lemma ClimbStep(ns: seq<Node>, color: Color, k: nat, force: bool)
    requires Arena(ns) && 0 < k < |ns|
    ensures var pa, r := ns[k].parent.value, Climb(ns, color, k, force);
      && (force || Prefers(ns[pa], ns[k], color) ==> r[pa].best == Some(k) && r[pa].score == ns[k].score)
      && (!force && !Prefers(ns[pa], ns[k], color) ==> r == ns)
  {
    var pa := ns[k].parent.value;
    if (force || Prefers(ns[pa], ns[k], color)) && ns[pa].score != ns[k].score {
      ClimbShape(Adopt(ns, k, pa), color, pa, false);
    }
  }

  /** Descent depends only on the parents. */
  lemma {:induction false} DescendsKept(a: seq<Node>, b: seq<Node>, j: int, i: int)
    requires Kept(a, b) && j < |a|
    ensures Descends(a, j, i) <==> Descends(b, j, i)
    decreases j
  {
    if 0 <= j && j != i && a[j].parent.Some? && a[j].parent.value < j {
      assert SameSlot(a[j], b[j]);
      DescendsKept(a, b, a[j].parent.value, i);
    }
  }

  /** What lies below a child lies below its parent. */
  lemma {:induction false} DescendsUp(ns: seq<Node>, j: int, k: nat, pa: nat)
    requires k < |ns| && Descends(ns, j, k) && ns[k].parent == Some(pa) && pa < k
    ensures Descends(ns, j, pa)
    decreases j
  {
    if j != k {
      DescendsUp(ns, ns[j].parent.value, k, pa);
    }
  }

  /** Scores still come from subtrees when node pa takes the score of its child k. */
  lemma ScoresAfterAdopt(ns: seq<Node>, evaluator: (Board, Color) -> int, color: Color,
                         k: nat, pa: nat, src: seq<int>) returns (src': seq<int>)
    requires k < |ns| && ns[k].parent == Some(pa) && pa < k
    requires ScoredFrom(ns, evaluator, color, src)
    ensures ScoredFrom(Adopt(ns, k, pa), evaluator, color, src')
  {
    var next := Adopt(ns, k, pa);
    KeptUpdate(ns, pa, next[pa]);
    src' := src[pa := src[k]];
    forall i | 0 <= i < |next|
      ensures ScoredAt(next, evaluator, color, src', i)
    {
      AdoptedSlot(ns, next, evaluator, color, k, pa, src, i);
    }
  }

  /** One node's share of `ScoresAfterAdopt`. */
  lemma AdoptedSlot(ns: seq<Node>, next: seq<Node>, evaluator: (Board, Color) -> int, color: Color,
                    k: nat, pa: nat, src: seq<int>, i: nat)
    requires k < |ns| && ns[k].parent == Some(pa) && pa < k && i < |ns|
    requires Kept(ns, next) && |next| == |ns|
    requires next[i].score == if i == pa then ns[k].score else ns[i].score
    requires ScoredFrom(ns, evaluator, color, src)
    ensures ScoredAt(next, evaluator, color, src[pa := src[k]], i)
  {
    var s := if i == pa then src[k] else src[i];
    assert ScoredAt(ns, evaluator, color, src, k) && ScoredAt(ns, evaluator, color, src, i);
    if i == pa {
      DescendsUp(ns, src[k], k, pa);
    }
    DescendsKept(ns, next, s, i);
    assert SameSlot(ns[s], next[s]);
  }

  /** The cascade keeps every score the evaluation of a board in the node's own subtree. */
  lemma {:induction false} ClimbKeepsScores(ns: seq<Node>, evaluator: (Board, Color) -> int, color: Color,
                                            k: nat, force: bool, src: seq<int>) returns (src': seq<int>)
    requires Arena(ns) && k < |ns|
    requires ScoredFrom(ns, evaluator, color, src)
    ensures ScoredFrom(Climb(ns, color, k, force), evaluator, color, src')
    decreases k
  {
    if ns[k].parent.None? || (!force && !Prefers(ns[ns[k].parent.value], ns[k], color)) {
      assert Climb(ns, color, k, force) == ns;
      src' := src;
    } else {
      var pa := ns[k].parent.value;
      var mid := ScoresAfterAdopt(ns, evaluator, color, k, pa, src);
      if ns[pa].score == ns[k].score {
        assert Climb(ns, color, k, force) == Adopt(ns, k, pa) by {
          assert ns[pa].(best := Some(k)) == Adopt(ns, k, pa)[pa];
        }
        src' := mid;
      } else {
        KeptUpdate(ns, pa, Adopt(ns, k, pa)[pa]);
        src' := ClimbKeepsScores(Adopt(ns, k, pa), evaluator, color, pa, false, mid);
      }
    }
  }

  /** Node k's new child for move m, scored by the evaluator for the player, without a best child of its own. */
  function NewChild(ns: seq<Node>, evaluator: (Board, Color) -> int, color: Color, k: nat, m: Option<Point>): (r: Node)
    requires k < |ns|
    ensures r.parent == Some(k) && r.chosen == m && r.best.None?
    ensures r.score == evaluator(r.board, color)
  {
    var b := ChildBoard(ns[k].board, ns[k].mover, m);
    Node(Some(k), m, b, ns[k].mover.Reversed(), None, evaluator(b, color))
  }

  /** `Node(this, m, …)` and its `init` block: append the child, then run the cascade from it. */
  function AddNode(ns: seq<Node>, evaluator: (Board, Color) -> int, color: Color, k: nat, m: Option<Point>): (r: seq<Node>)
    requires Arena(ns) && k < |ns|
    ensures |r| == |ns| + 1 && Arena(r)
  {
    var grown := ns + [NewChild(ns, evaluator, color, k, m)];
    ClimbShape(grown, color, |ns|, ns[k].best.None?);
    Climb(grown, color, |ns|, ns[k].best.None?)
  }

  /**
   * Adding a child appends one node, the child of k for m, keeps every other
   * node in its slot, and makes the child k's best child when k had none.
   */
  lemma AddNodeShape(ns: seq<Node>, evaluator: (Board, Color) -> int, color: Color, k: nat, m: Option<Point>)
    requires Arena(ns) && k < |ns|
    ensures var r := AddNode(ns, evaluator, color, k, m);
      && Kept(ns, r)
      && r[|ns|].parent == Some(k) && r[|ns|].chosen == m && r[|ns|].mover == ns[k].mover.Reversed()
      && r[|ns|].board == ChildBoard(ns[k].board, ns[k].mover, m)
      && (ns[k].best.None? ==> r[k].best == Some(|ns|))
  {
    var grown := ns + [NewChild(ns, evaluator, color, k, m)];
    assert Kept(ns, grown);
    ClimbShape(grown, color, |ns|, ns[k].best.None?);
    KeptTrans(ns, grown, Climb(grown, color, |ns|, ns[k].best.None?));
    ClimbStep(grown, color, |ns|, ns[k].best.None?);
  }

  /** Adding a child keeps every best child a child of its node. */
  lemma AddNodeLinks(ns: seq<Node>, evaluator: (Board, Color) -> int, color: Color, k: nat, m: Option<Point>)
    requires Arena(ns) && k < |ns| && BestLinks(ns)
    ensures BestLinks(AddNode(ns, evaluator, color, k, m))
  {
    var grown := ns + [NewChild(ns, evaluator, color, k, m)];
    forall i | 0 <= i < |grown| ensures LinkedAt(grown, i) {
      if i < |ns| {
        assert LinkedAt(ns, i);
      }
    }
    ClimbLinks(grown, color, |ns|, ns[k].best.None?);
  }

  /** Adding a child keeps every score the evaluation of a board in the node's own subtree. */
  lemma AddNodeScores(ns: seq<Node>, evaluator: (Board, Color) -> int, color: Color, k: nat, m: Option<Point>,
                      src: seq<int>) returns (src': seq<int>)
    requires Arena(ns) && k < |ns| && ScoredFrom(ns, evaluator, color, src)
    ensures ScoredFrom(AddNode(ns, evaluator, color, k, m), evaluator, color, src')
  {
    var grown := ns + [NewChild(ns, evaluator, color, k, m)];
    assert Kept(ns, grown);
    var mid := src + [|ns|];
    forall i | 0 <= i < |grown|
      ensures ScoredAt(grown, evaluator, color, mid, i)
    {
      if i == |ns| {
        assert Descends(grown, i, i);
      } else {
        assert ScoredAt(ns, evaluator, color, src, i);
        DescendsKept(ns, grown, src[i], i);
      }
    }
    src' := ClimbKeepsScores(grown, evaluator, color, |ns|, ns[k].best.None?, mid);
  }

  /** `search`'s `map { Node(this, it, …) }`: one child per move, in order, each with its `init` cascade. */
  function Spawn(ns: seq<Node>, evaluator: (Board, Color) -> int, color: Color, k: nat, moves: seq<Option<Point>>): (r: seq<Node>)
    requires Arena(ns) && k < |ns|
    ensures |r| == |ns| + |moves| && Arena(r)
    decreases |moves|
  {
    if moves == [] then ns
    else Spawn(AddNode(ns, evaluator, color, k, moves[0]), evaluator, color, k, moves[1..])
  }

  /**
   * Expanding k appends exactly one child of k per move, in the order of the
   * moves, keeps every older node in its slot, and leaves k with a best child as
   * soon as it has a child.
   */
  lemma {:induction false} SpawnShape(ns: seq<Node>, evaluator: (Board, Color) -> int, color: Color, k: nat, moves: seq<Option<Point>>)
    requires Arena(ns) && k < |ns|
    ensures var r := Spawn(ns, evaluator, color, k, moves);
      && Kept(ns, r)
      && (forall j :: |ns| <= j < |r| ==> r[j].parent == Some(k) && r[j].chosen == moves[j - |ns|])
      && (moves != [] ==> r[k].best.Some?)
    decreases |moves|
  {
    if moves != [] {
      var next := AddNode(ns, evaluator, color, k, moves[0]);
      AddNodeShape(ns, evaluator, color, k, moves[0]);
      SpawnShape(next, evaluator, color, k, moves[1..]);
      var r := Spawn(next, evaluator, color, k, moves[1..]);
      KeptTrans(ns, next, r);
      assert SameSlot(ns[k], next[k]) && SameSlot(next[k], r[k]);
      forall j | |ns| <= j < |r|
        ensures r[j].parent == Some(k) && r[j].chosen == moves[j - |ns|]
      {
        if j == |ns| {
          assert SameSlot(next[j], r[j]);
        } else {
          assert moves[1..][j - |next|] == moves[j - |ns|];
        }
      }
    }
  }

  /** Each new child holds the reversed mover and the board its move leads to. */
  lemma {:induction false} SpawnBoards(ns: seq<Node>, evaluator: (Board, Color) -> int, color: Color, k: nat, moves: seq<Option<Point>>)
    requires Arena(ns) && k < |ns|
    ensures var r := Spawn(ns, evaluator, color, k, moves);
      forall j :: |ns| <= j < |r| ==>
        && r[j].mover == ns[k].mover.Reversed()
        && r[j].board == ChildBoard(ns[k].board, ns[k].mover, moves[j - |ns|])
    decreases |moves|
  {
    if moves != [] {
      var next := AddNode(ns, evaluator, color, k, moves[0]);
      AddNodeShape(ns, evaluator, color, k, moves[0]);
      SpawnBoards(next, evaluator, color, k, moves[1..]);
      SpawnShape(next, evaluator, color, k, moves[1..]);
      var r := Spawn(next, evaluator, color, k, moves[1..]);
      assert SameSlot(ns[k], next[k]);
      forall j | |ns| <= j < |r|
        ensures r[j].mover == ns[k].mover.Reversed()
        ensures r[j].board == ChildBoard(ns[k].board, ns[k].mover, moves[j - |ns|])
      {
        if j == |ns| {
          assert SameSlot(next[j], r[j]);
        } else {
          assert moves[1..][j - |next|] == moves[j - |ns|];
        }
      }
    }
  }

  /** Expanding keeps every best child a child of its node. */
  lemma {:induction false} SpawnLinks(ns: seq<Node>, evaluator: (Board, Color) -> int, color: Color, k: nat, moves: seq<Option<Point>>)
    requires Arena(ns) && k < |ns| && BestLinks(ns)
    ensures BestLinks(Spawn(ns, evaluator, color, k, moves))
    decreases |moves|
  {
    if moves != [] {
      AddNodeLinks(ns, evaluator, color, k, moves[0]);
      SpawnLinks(AddNode(ns, evaluator, color, k, moves[0]), evaluator, color, k, moves[1..]);
    }
  }

  /** Expanding keeps every score the evaluation of a board in the node's own subtree. */
  lemma {:induction false} SpawnScores(ns: seq<Node>, evaluator: (Board, Color) -> int, color: Color, k: nat,
                                       moves: seq<Option<Point>>, src: seq<int>) returns (src': seq<int>)
    requires Arena(ns) && k < |ns| && ScoredFrom(ns, evaluator, color, src)
    ensures ScoredFrom(Spawn(ns, evaluator, color, k, moves), evaluator, color, src')
    decreases |moves|
  {
    src' := src;
    if moves != [] {
      var mid := AddNodeScores(ns, evaluator, color, k, moves[0], src);
      src' := SpawnScores(AddNode(ns, evaluator, color, k, moves[0]), evaluator, color, k, moves[1..], mid);
    }
  }

  /** The indices lo, lo + 1, …, hi - 1. */
  function Range(lo: nat, hi: nat): (r: seq<nat>)
    requires lo <= hi
    ensures |r| == hi - lo && forall k :: 0 <= k < |r| ==> r[k] == lo + k
  {
    seq(hi - lo, k requires 0 <= k < hi - lo => lo + k)
  }

  /** Taking the front of a range and appending the next range keep it one range. */
  lemma RangeShift(lo: nat, mid: nat, hi: nat)
    requires lo < mid <= hi
    ensures Range(lo, mid)[1..] + Range(mid, hi) == Range(lo + 1, hi)
  {
  }

  /** `search()` on node k: one child of k per move of k, appended at the back. */
  function ExpandAt(ns: seq<Node>, evaluator: (Board, Color) -> int, color: Color, k: nat): (r: seq<Node>)
    requires Arena(ns) && k < |ns|
    ensures Arena(r) && |ns| <= |r|
  {
    Spawn(ns, evaluator, color, k, ChildMoves(ns[k].board, ns[k].mover))
  }

  /** Expanding node k keeps every node in its slot and appends children of k only. */
  lemma ExpandAtShape(ns: seq<Node>, evaluator: (Board, Color) -> int, color: Color, k: nat)
    requires Arena(ns) && k < |ns|
    ensures var r := ExpandAt(ns, evaluator, color, k);
      Kept(ns, r) && forall j :: |ns| <= j < |r| ==> r[j].parent == Some(k)
  {
    SpawnShape(ns, evaluator, color, k, ChildMoves(ns[k].board, ns[k].mover));
  }

  /** One pass of the width-first loop as a total function of the arena and the index of the node to expand. */
  ghost function Pass(evaluator: (Board, Color) -> int, color: Color): (seq<Node>, nat) -> seq<Node> {
    (ns: seq<Node>, k: nat) => if Arena(ns) && k < |ns| then ExpandAt(ns, evaluator, color, k) else ns
  }

  /**
   * The first-in first-out queue as a function of the arena: the queued nodes
   * are those from ordinal `head` on, in order. Each of up to n passes expands
   * the node at the head of the queue, which appends its children at the back.
   */
  ghost function Expanded(ns: seq<Node>, pass: (seq<Node>, nat) -> seq<Node>, head: nat, n: nat): seq<Node>
    decreases n
  {
    if n == 0 || head >= |ns| then ns else Expanded(pass(ns, head), pass, head + 1, n - 1)
  }

  /** A pass appends only children of the node it expands, and keeps the arena and every older node. */
  ghost predicate AppendsChildren(pass: (seq<Node>, nat) -> seq<Node>) {
    forall ns: seq<Node>, k: nat :: Arena(ns) && k < |ns| ==>
      && Arena(pass(ns, k))
      && Kept(ns, pass(ns, k))
      && forall j :: |ns| <= j < |pass(ns, k)| ==> pass(ns, k)[j].parent == Some(k)
  }

  /** `search()` is such a pass. */
  lemma PassAppendsChildren(evaluator: (Board, Color) -> int, color: Color)
    ensures AppendsChildren(Pass(evaluator, color))
  {
    var pass := Pass(evaluator, color);
    forall ns: seq<Node>, k: nat | Arena(ns) && k < |ns|
      ensures Arena(pass(ns, k)) && Kept(ns, pass(ns, k))
      ensures forall j :: |ns| <= j < |pass(ns, k)| ==> pass(ns, k)[j].parent == Some(k)
    {
      ExpandAtShape(ns, evaluator, color, k);
    }
  }

  /** One pass of the queue as the do-while takes it: expand the head node, then go on from the next. */
  lemma ExpandedPass(before: seq<Node>, after: seq<Node>, pass: (seq<Node>, nat) -> seq<Node>,
                     k: nat, head: nat, n: nat, next: nat, left: nat)
    requires k == head < |before| && n > 0 && next == head + 1 && left == n - 1
    requires after == pass(before, k)
    ensures Expanded(before, pass, head, n) == Expanded(after, pass, next, left)
  {
  }

  /**
   * For a pass that appends children, the passes keep every node in its slot
   * and append children in queue order: the parents of the appended nodes are
   * the expanded nodes head .. head+n-1, in non-decreasing order.
   */
  lemma {:induction false} ExpandedFifo(ns: seq<Node>, pass: (seq<Node>, nat) -> seq<Node>, head: nat, n: nat)
    requires AppendsChildren(pass) && Arena(ns) && head <= |ns|
    ensures var r := Expanded(ns, pass, head, n);
      && Arena(r)
      && Kept(ns, r)
      && (forall j :: |ns| <= j < |r| ==> r[j].parent.Some? && head <= r[j].parent.value < head + n)
      && (forall i, j :: |ns| <= i < j < |r| ==> r[i].parent.value <= r[j].parent.value)
    decreases n
  {
    if n == 0 || head >= |ns| {
      assert Expanded(ns, pass, head, n) == ns;
      forall i | 0 <= i < |ns| ensures SameSlot(ns[i], ns[i]) { }
    } else {
      assert Arena(pass(ns, head));
      ExpandedFifo(pass(ns, head), pass, head + 1, n - 1);
      FifoJoin(ns, pass(ns, head), Expanded(ns, pass, head, n), head, n);
    }
  }

  /**
   * The join step of `ExpandedFifo`: the children of the head, appended first,
   * followed by nodes whose parents come later in the queue.
   */
  lemma FifoJoin(ns: seq<Node>, next: seq<Node>, r: seq<Node>, head: nat, n: nat)
    requires n > 0 && Kept(ns, next) && Kept(next, r)
    requires forall j :: |ns| <= j < |next| ==> next[j].parent == Some(head)
    requires forall j :: |next| <= j < |r| ==> r[j].parent.Some? && head + 1 <= r[j].parent.value < head + n
    requires forall i, j :: |next| <= i < j < |r| ==> r[i].parent.value <= r[j].parent.value
    ensures Kept(ns, r)
    ensures forall j :: |ns| <= j < |r| ==> r[j].parent.Some? && head <= r[j].parent.value < head + n
    ensures forall i, j :: |ns| <= i < j < |r| ==> r[i].parent.value <= r[j].parent.value
  {
    KeptTrans(ns, next, r);
    forall j | |ns| <= j < |next| ensures r[j].parent == Some(head) {
      assert SameSlot(next[j], r[j]);
    }
  }

  /** The tree of one `choosePoint` call. */
  class SearchTree {
    const color: Color
    const evaluator: (Board, Color) -> int
    var nodes: seq<Node>

    ghost predicate Valid()
      reads this
    {
      Arena(nodes) && BestLinks(nodes) && ScoresFromSubtree(nodes, evaluator, color)
    }

    /** `Node(null, null, board, color)`: the root alone, scored by the evaluator. */
    constructor (board: Board, color: Color, evaluator: (Board, Color) -> int)
      ensures this.color == color && this.evaluator == evaluator
      ensures nodes == [Node(None, None, board, color, None, evaluator(board, color))]
      ensures Valid()
    {
      this.color := color;
      this.evaluator := evaluator;
      nodes := [Node(None, None, board, color, None, evaluator(board, color))];
      new;
      assert Descends(nodes, 0, 0);
      assert ScoredAt(nodes, evaluator, color, [0], 0);
      assert ScoredFrom(nodes, evaluator, color, [0]);
    }

    /** The observers' cascade from node k, one parent at a time. */
    method Propagate(k: nat, force: bool)
      requires Arena(nodes) && k < |nodes|
      modifies this
      ensures nodes == Climb(old(nodes), color, k, force)
    {
      var child: nat := k;
      var first := force;
      while nodes[child].parent.Some?
        invariant Arena(nodes) && child < |nodes|
        invariant Climb(old(nodes), color, k, force) == Climb(nodes, color, child, first)
        decreases child
      {
        var pa := nodes[child].parent.value;
        if !first && !Prefers(nodes[pa], nodes[child], color) {
          break;
        }
        if nodes[pa].score == nodes[child].score {
          nodes := nodes[pa := nodes[pa].(best := Some(child))];
          break;
        }
        nodes := nodes[pa := nodes[pa].(best := Some(child), score := nodes[child].score)];
        child, first := pa, false;
      }
    }

    /** `Node(k, m, …)`: a new child of node k, then its `init` block. */
    method AddChild(k: nat, m: Option<Point>)
      requires Arena(nodes) && k < |nodes|
      modifies this
      ensures nodes == AddNode(old(nodes), evaluator, color, k, m)
    {
      var b := ChildBoard(nodes[k].board, nodes[k].mover, m);
      var force := nodes[k].best.None?;
      nodes := nodes + [Node(Some(k), m, b, nodes[k].mover.Reversed(), None, evaluator(b, color))];
      Propagate(|nodes| - 1, force);
    }

    /** `search()`: create node k's children and return their indices. */
    method Expand(k: nat) returns (children: seq<nat>)
      requires Valid() && k < |nodes|
      modifies this
      ensures nodes == Spawn(old(nodes), evaluator, color, k, ChildMoves(old(nodes[k].board), old(nodes[k].mover)))
      ensures children == Range(|old(nodes)|, |nodes|)
      ensures Valid()
    {
      var moves := ChildMoves(nodes[k].board, nodes[k].mover);
      children := AddChildren(k, moves);
    }

    /** The `map { Node(this, it, …) }` of `search()`: one child of node k per move, in order. */
    method AddChildren(k: nat, moves: seq<Option<Point>>) returns (children: seq<nat>)
      requires Valid() && k < |nodes|
      modifies this
      ensures nodes == Spawn(old(nodes), evaluator, color, k, moves)
      ensures children == Range(|old(nodes)|, |nodes|)
      ensures Valid()
    {
      ghost var start := nodes;
      ghost var src :| ScoredFrom(nodes, evaluator, color, src);
      var first := |nodes|;
      var i := 0;
      while i < |moves|
        invariant 0 <= i <= |moves|
        invariant Arena(nodes) && k < |nodes|
        invariant Spawn(start, evaluator, color, k, moves) == Spawn(nodes, evaluator, color, k, moves[i..])
        invariant |nodes| == |start| + i && first == |start|
        invariant BestLinks(nodes) && ScoredFrom(nodes, evaluator, color, src)
      {
        SpawnStep(nodes, k, moves, i);
        AddNodeLinks(nodes, evaluator, color, k, moves[i]);
        src := AddNodeScores(nodes, evaluator, color, k, moves[i], src);
        AddChild(k, moves[i]);
        i := i + 1;
      }
      children := Range(first, |nodes|);
    }

    /** Spawning the remaining moves is adding the next one, then spawning the rest. */
    lemma SpawnStep(ns: seq<Node>, k: nat, moves: seq<Option<Point>>, i: nat)
      requires Arena(ns) && k < |ns| && i < |moves|
      ensures Spawn(ns, evaluator, color, k, moves[i..]) ==
        Spawn(AddNode(ns, evaluator, color, k, moves[i]), evaluator, color, k, moves[i + 1..])
    {
      assert moves[i..][1..] == moves[i + 1..];
    }

  }

  /** Every child of the root in ns was reached by one of the moves. */
  ghost predicate RootKids(ns: seq<Node>, moves: seq<Option<Point>>) {
    forall j :: 0 < j < |ns| && ns[j].parent == Some(0) ==> ns[j].chosen in moves
  }

  /** Expanding the root gives it one child per move, in order, and a best child as soon as it has one. */
  lemma RootExpanded(board: Board, color: Color, evaluator: (Board, Color) -> int, moves: seq<Option<Point>>, ns: seq<Node>)
    requires ns == Spawn([Node(None, None, board, color, None, evaluator(board, color))], evaluator, color, 0, moves)
    ensures RootKids(ns, moves)
    ensures moves != [] ==> ns[0].best.Some?
    ensures ns[0].board == board && ns[0].mover == color
    ensures forall j :: 1 <= j < |ns| ==> ns[j].parent == Some(0) && ns[j].chosen == moves[j - 1]
  {
    var root := [Node(None, None, board, color, None, evaluator(board, color))];
    SpawnShape(root, evaluator, color, 0, moves);
    assert SameSlot(root[0], ns[0]);
    forall j | 0 < j < |ns| && ns[j].parent == Some(0) ensures ns[j].chosen in moves {
      assert ns[j].chosen == moves[j - 1];
    }
  }

  /** Expanding a node other than the root adds no child of the root and keeps the root's best child set. */
  lemma ExpandedBelowRoot(before: seq<Node>, after: seq<Node>, evaluator: (Board, Color) -> int, color: Color,
                          k: nat, rootMoves: seq<Option<Point>>)
    requires Arena(before) && 1 <= k < |before|
    requires after == Spawn(before, evaluator, color, k, ChildMoves(before[k].board, before[k].mover))
    requires RootKids(before, rootMoves)
    ensures RootKids(after, rootMoves)
    ensures before[0].best.Some? ==> after[0].best.Some?
    ensures after[0].board == before[0].board && after[0].mover == before[0].mover
  {
    SpawnShape(before, evaluator, color, k, ChildMoves(before[k].board, before[k].mover));
    forall j | 0 < j < |after| && after[j].parent == Some(0) ensures after[j].chosen in rootMoves {
      assert j < |before| && SameSlot(before[j], after[j]);
    }
    assert SameSlot(before[0], after[0]);
  }

  /** j is the first index of a largest score: no score beats it, and every earlier one is lower. */
  predicate IsFirstMax(s: seq<int>, j: int) {
    && 0 <= j < |s|
    && (forall i :: 0 <= i < |s| ==> s[i] <= s[j])
    && (forall i :: 0 <= i < j ==> s[i] < s[j])
  }

  /** The scores of nodes 1, 2, … of ns, in order. */
  function ChildScores(ns: seq<Node>): seq<int>
    requires |ns| >= 1
  {
    seq(|ns| - 1, i requires 0 <= i < |ns| - 1 => ns[i + 1].score)
  }

  /** The evaluations, for the player, of the boards that moves lead to from board, in the order of the moves. */
  function LeafScores(board: Board, color: Color, evaluator: (Board, Color) -> int, moves: seq<Option<Point>>): seq<int> {
    seq(|moves|, i requires 0 <= i < |moves| => evaluator(ChildBoard(board, color, moves[i]), color))
  }

  /** The evaluations of the boards the root's moves lead to. */
  function OnePlyScores(board: Board, color: Color, evaluator: (Board, Color) -> int): seq<int> {
    LeafScores(board, color, evaluator, ChildMoves(board, color))
  }

  /**
   * A root whose other nodes are all its children: its best child is the first
   * child of highest score, and it carries that score.
   */
  ghost predicate RootOverLeaves(ns: seq<Node>) {
    && |ns| >= 1
    && (|ns| == 1 ==> ns[0].best.None?)
    && (|ns| > 1 ==>
          && ns[0].best.Some? && 1 <= ns[0].best.value < |ns|
          && IsFirstMax(ChildScores(ns), ns[0].best.value - 1)
          && ns[0].score == ns[ns[0].best.value].score)
  }

  /**
   * The arena after a new child of the root whose mover is the player: the root
   * adopts it when it is the first child or scores strictly higher than the best
   * so far (the `parent.score < score` case of `updateParentBest`).
   */
  function LeafAdded(ns: seq<Node>, leaf: Node): seq<Node>
    requires |ns| >= 1
  {
    var grown := ns + [leaf];
    if ns[0].best.None? || ns[0].score < leaf.score
    then grown[0 := grown[0].(best := Some(|ns|), score := leaf.score)]
    else grown
  }

  /** Under such a root, the `init` cascade of a new child stops at the root. */
  lemma AddLeafCascade(ns: seq<Node>, evaluator: (Board, Color) -> int, color: Color, m: Option<Point>)
    requires Arena(ns) && ns[0].mover == color
    ensures AddNode(ns, evaluator, color, 0, m) == LeafAdded(ns, NewChild(ns, evaluator, color, 0, m))
  {
    var n := |ns|;
    var grown := ns + [NewChild(ns, evaluator, color, 0, m)];
    var force := ns[0].best.None?;
    var up := grown[0 := grown[0].(best := Some(n), score := grown[n].score)];
    if force || Prefers(grown[0], grown[n], color) {
      if grown[0].score != grown[n].score {
        KeptUpdate(grown, 0, up[0]);
        assert Adopt(grown, n, 0) == up;
        assert Climb(grown, color, n, force) == Climb(up, color, 0, false);
        assert Climb(up, color, 0, false) == up;
      }
    }
  }

  /** Appending a node appends its score; the root's own fields do not enter the child scores. */
  lemma ChildScoresAppend(ns: seq<Node>, x: Node, root: Node)
    requires |ns| >= 1
    ensures ChildScores((ns + [x])[0 := root]) == ChildScores(ns) + [x.score]
  {
    var s, t := ChildScores((ns + [x])[0 := root]), ChildScores(ns) + [x.score];
    assert |s| == |t|;
    forall i | 0 <= i < |s| ensures s[i] == t[i] {
      if i < |ns| - 1 {
        assert s[i] == ns[i + 1].score;
      }
    }
  }

  /** A new last score becomes the first maximum exactly when it beats the old one. */
  lemma FirstMaxAppend(t: seq<int>, j: int, x: int)
    requires IsFirstMax(t, j)
    ensures t[j] < x ==> IsFirstMax(t + [x], |t|)
    ensures x <= t[j] ==> IsFirstMax(t + [x], j)
  {
  }

  /** Such an adoption keeps the root's best child the first child of highest score. */
  lemma LeafAddedOverLeaves(ns: seq<Node>, leaf: Node)
    requires RootOverLeaves(ns)
    ensures var r := LeafAdded(ns, leaf);
      && RootOverLeaves(r)
      && r[0].board == ns[0].board && r[0].mover == ns[0].mover
      && r[|ns|] == leaf
      && forall i :: 1 <= i < |ns| ==> r[i] == ns[i]
  {
    var n := |ns|;
    var adopt := ns[0].best.None? || ns[0].score < leaf.score;
    var root := if adopt then ns[0].(best := Some(n), score := leaf.score) else ns[0];
    var r := LeafAdded(ns, leaf);
    assert r == (ns + [leaf])[0 := root];
    ChildScoresAppend(ns, leaf, root);
    if n == 1 {
      assert adopt && ChildScores(r) == [leaf.score];
      assert IsFirstMax(ChildScores(r), 0);
    } else {
      var b := ns[0].best.value;
      FirstMaxAppend(ChildScores(ns), b - 1, leaf.score);
      if adopt {
        assert ChildScores(ns)[b - 1] == ns[b].score;
        assert IsFirstMax(ChildScores(r), n - 1);
      } else {
        assert r[b] == ns[b];
        assert IsFirstMax(ChildScores(r), b - 1);
      }
    }
  }

  /**
   * A new child of a root whose mover is the player: the root adopts it when it
   * is the first child or scores strictly higher than the best so far (the
   * `parent.score < score` case of `updateParentBest`), and no other node changes.
   */
  lemma AddLeaf(ns: seq<Node>, evaluator: (Board, Color) -> int, color: Color, m: Option<Point>)
    requires Arena(ns) && ns[0].mover == color && RootOverLeaves(ns)
    ensures var r := AddNode(ns, evaluator, color, 0, m);
      && RootOverLeaves(r)
      && r[0].board == ns[0].board && r[0].mover == color
      && r[|ns|].score == evaluator(r[|ns|].board, color)
      && forall i :: 1 <= i < |ns| ==> r[i] == ns[i]
  {
    AddLeafCascade(ns, evaluator, color, m);
    LeafAddedOverLeaves(ns, NewChild(ns, evaluator, color, 0, m));
  }

  /** Expanding such a root keeps its best child the first child of highest score, and each new child keeps the score of its own board. */
  lemma {:induction false} SpawnLeaves(ns: seq<Node>, evaluator: (Board, Color) -> int, color: Color, moves: seq<Option<Point>>)
    requires Arena(ns) && ns[0].mover == color && RootOverLeaves(ns)
    ensures var r := Spawn(ns, evaluator, color, 0, moves);
      && RootOverLeaves(r)
      && (forall i :: 1 <= i < |ns| ==> r[i] == ns[i])
      && forall j :: |ns| <= j < |r| ==> r[j].score == evaluator(r[j].board, color)
    decreases |moves|
  {
    if moves != [] {
      var next := AddNode(ns, evaluator, color, 0, moves[0]);
      AddLeaf(ns, evaluator, color, moves[0]);
      SpawnLeaves(next, evaluator, color, moves[1..]);
      var r := Spawn(next, evaluator, color, 0, moves[1..]);
      forall j | |ns| <= j < |r| ensures r[j].score == evaluator(r[j].board, color) {
        if j == |ns| {
          assert r[j] == next[j];
        }
      }
    }
  }

  /** Expanding a lone root by moves gives it, as child scores, the evaluations of the boards the moves lead to. */
  lemma LoneRootSpawn(board: Board, color: Color, evaluator: (Board, Color) -> int, moves: seq<Option<Point>>)
    ensures var ns := Spawn([Node(None, None, board, color, None, evaluator(board, color))], evaluator, color, 0, moves);
      && RootOverLeaves(ns)
      && ChildScores(ns) == LeafScores(board, color, evaluator, moves)
  {
    var root := [Node(None, None, board, color, None, evaluator(board, color))];
    SpawnLeaves(root, evaluator, color, moves);
    SpawnBoards(root, evaluator, color, 0, moves);
    LeafScoresMatch(root, Spawn(root, evaluator, color, 0, moves), evaluator, color, moves);
  }

  /** Leaves scored by their own boards, which the moves lead to from the root's, carry the moves' leaf scores. */
  lemma LeafScoresMatch(root: seq<Node>, ns: seq<Node>, evaluator: (Board, Color) -> int, color: Color, moves: seq<Option<Point>>)
    requires |root| == 1 && root[0].mover == color && |ns| == |root| + |moves|
    requires forall j :: |root| <= j < |ns| ==> ns[j].score == evaluator(ns[j].board, color)
    requires forall j :: |root| <= j < |ns| ==> ns[j].board == ChildBoard(root[0].board, root[0].mover, moves[j - |root|])
    ensures ChildScores(ns) == LeafScores(root[0].board, color, evaluator, moves)
  {
    var s, t := ChildScores(ns), LeafScores(root[0].board, color, evaluator, moves);
    forall i | 0 <= i < |moves| ensures s[i] == t[i] {
      assert ns[1 + i].board == ChildBoard(root[0].board, color, moves[i]);
    }
  }

  /**
   * With no expansion beyond the root's, every child is a leaf scored by its own
   * board, and the root's best child is the first of the highest evaluation.
   */
  lemma RootOnePly(board: Board, color: Color, evaluator: (Board, Color) -> int, ns: seq<Node>) returns (j: nat)
    requires ns == Spawn([Node(None, None, board, color, None, evaluator(board, color))], evaluator, color, 0, ChildMoves(board, color))
    requires ChildMoves(board, color) != []
    ensures ns[0].best == Some(j + 1) && j + 1 < |ns|
    ensures ns[j + 1].chosen == ChildMoves(board, color)[j]
    ensures IsFirstMax(OnePlyScores(board, color, evaluator), j)
  {
    var moves := ChildMoves(board, color);
    LoneRootSpawn(board, color, evaluator, moves);
    RootExpanded(board, color, evaluator, moves, ns);
    j := ns[0].best.value - 1;
  }

  /** The root's best child, when it has one, is a child of the root reached by one of its moves. */
  lemma RootAnswer(ns: seq<Node>, rootMoves: seq<Option<Point>>)
    requires Arena(ns) && BestLinks(ns) && RootKids(ns, rootMoves)
    requires rootMoves != [] ==> ns[0].best.Some?
    ensures ns[0].best.None? <==> rootMoves == []
    ensures ns[0].best.Some? ==>
      var j := ns[0].best.value;
      j < |ns| && ns[j].parent == Some(0) && ns[j].chosen in rootMoves
  {
    if ns[0].best.Some? {
      assert LinkedAt(ns, 0);
    }
  }

  /**
   * The rest of the do-while of `choosePoint`: take the node at the head of the
   * queue, expand it and queue its children, for at most `rounds` nodes or
   * until the queue runs dry. Only nodes below the root remain to be expanded.
   */
  method ExpandRounds(tree: SearchTree, queue0: seq<nat>, ghost head0: nat, rounds: nat, ghost rootMoves: seq<Option<Point>>)
    requires tree.Valid() && RootKids(tree.nodes, rootMoves)
    requires rootMoves != [] ==> tree.nodes[0].best.Some?
    requires 1 <= head0 <= |tree.nodes| && queue0 == Range(head0, |tree.nodes|)
    modifies tree
    ensures tree.Valid() && RootKids(tree.nodes, rootMoves)
    ensures rootMoves != [] ==> tree.nodes[0].best.Some?
    ensures tree.nodes[0].board == old(tree.nodes[0].board) && tree.nodes[0].mover == old(tree.nodes[0].mover)
    ensures rounds == 0 ==> tree.nodes == old(tree.nodes)
    ensures tree.nodes == Expanded(old(tree.nodes), Pass(tree.evaluator, tree.color), head0, rounds)
  {
    var queue := queue0;
    ghost var head := head0;
    ghost var target := Expanded(tree.nodes, Pass(tree.evaluator, tree.color), head0, rounds);
    ghost var left := rounds;
    var done := 0;
    while queue != [] && done < rounds
      invariant tree.Valid() && RootKids(tree.nodes, rootMoves)
      invariant rootMoves != [] ==> tree.nodes[0].best.Some?
      invariant tree.nodes[0].board == old(tree.nodes[0].board) && tree.nodes[0].mover == old(tree.nodes[0].mover)
      invariant done <= rounds && left == rounds - done
      invariant 1 <= head <= |tree.nodes| && queue == Range(head, |tree.nodes|)
      invariant target == Expanded(tree.nodes, Pass(tree.evaluator, tree.color), head, left)
      decreases rounds - done
    {
      ghost var before, h, l := tree.nodes, head, left;
      var curr;
      queue, curr := ExpandHead(tree, queue, head, rootMoves);
      head, left := head + 1, left - 1;
      ExpandedPass(before, tree.nodes, Pass(tree.evaluator, tree.color), curr, h, l, head, left);
      done := done + 1;
    }
  }

  /** One pass of the do-while: take the head of the queue, expand it, queue its children. */
  method ExpandHead(tree: SearchTree, queue0: seq<nat>, ghost head0: nat, ghost rootMoves: seq<Option<Point>>)
    returns (queue: seq<nat>, curr: nat)
    requires tree.Valid() && RootKids(tree.nodes, rootMoves)
    requires rootMoves != [] ==> tree.nodes[0].best.Some?
    requires 1 <= head0 <= |tree.nodes| && queue0 == Range(head0, |tree.nodes|) && queue0 != []
    modifies tree
    ensures tree.Valid() && RootKids(tree.nodes, rootMoves)
    ensures rootMoves != [] ==> tree.nodes[0].best.Some?
    ensures tree.nodes[0].board == old(tree.nodes[0].board) && tree.nodes[0].mover == old(tree.nodes[0].mover)
    ensures curr == head0 < |old(tree.nodes)| && head0 + 1 <= |tree.nodes| && queue == Range(head0 + 1, |tree.nodes|)
    ensures tree.nodes == Pass(tree.evaluator, tree.color)(old(tree.nodes), curr)
  {
    curr := queue0[0];
    var children := tree.Expand(curr);
    ExpandedBelowRoot(old(tree.nodes), tree.nodes, tree.evaluator, tree.color, curr, rootMoves);
    RangeShift(head0, |old(tree.nodes)|, |tree.nodes|);
    queue := queue0[1..] + children;
  }

  /**
   * The search of `choosePoint`: expand nodes first in, first out until the
   * queue runs dry or the time budget (here `rounds` further expansions after
   * the root's) is spent, then answer the move that leads to the root's best
   * child, or None when the root has no child. `nodes` is the final tree.
   */
  method Search(board: Board, color: Color, evaluator: (Board, Color) -> int, rounds: nat)
    returns (answer: Option<Option<Point>>, ghost nodes: seq<Node>)
    ensures answer.None? <==> ChildMoves(board, color) == []
    ensures answer.Some? ==> answer.value in ChildMoves(board, color)
    ensures Arena(nodes) && BestLinks(nodes) && ScoresFromSubtree(nodes, evaluator, color)
    ensures nodes[0].board == board && nodes[0].mover == color
    ensures answer.None? <==> nodes[0].best.None?
    ensures answer.Some? ==>
      var j := nodes[0].best.value;
      j < |nodes| && nodes[j].parent == Some(0) && answer.value == nodes[j].chosen
    ensures nodes == Expanded([Node(None, None, board, color, None, evaluator(board, color))], Pass(evaluator, color), 0, rounds + 1)
    ensures rounds == 0 && answer.Some? ==>
      exists j :: IsFirstMax(OnePlyScores(board, color, evaluator), j) && answer.value == ChildMoves(board, color)[j]
  {
    var tree := new SearchTree(board, color, evaluator);
    // The first pass of the do-while takes the root, the only node queued.
    var children := tree.Expand(0);
    ghost var rootMoves := ChildMoves(board, color);
    ghost var expanded := tree.nodes;
    ExpandedPass([Node(None, None, board, color, None, evaluator(board, color))], expanded, Pass(evaluator, color), 0, 0, rounds + 1, 1, rounds);
    RootExpanded(board, color, evaluator, rootMoves, tree.nodes);
    ExpandRounds(tree, children, 1, rounds, rootMoves);
    nodes := tree.nodes;
    RootAnswer(nodes, rootMoves);
    match tree.nodes[0].best
    case None =>
      answer := None;
    case Some(j) =>
      answer := Some(tree.nodes[j].chosen);
      if rounds == 0 {
        assert tree.nodes == expanded;
        var first := RootOnePly(board, color, evaluator, expanded);
        assert answer.value == rootMoves[first];
      }
  }

  /**
   * `choosePoint`: `deadline` first divides the game time by the player's
   * remaining turns, which fails on a full board; then the move to the root's
   * best child, where the source fails on `bestChild!!` when the game is over.
   */
  method ChoosePoint(board: Board, color: Color, evaluator: (Board, Color) -> int, rounds: nat)
    returns (r: Result<Option<Point>>)
    ensures r.Failure? <==> !IsGameOngoing(board)
    ensures r.Failure? ==> r.error == if board.Empties() == 0 then DivisionByZero else NoBestChild
    ensures r.Success? ==> (r.value.None? <==> !CanPut(board, color))
    ensures r.Success? && r.value.Some? ==> CanPutAt(board, color, r.value.value)
    ensures r.Success? && rounds == 0 ==>
      exists j :: IsFirstMax(OnePlyScores(board, color, evaluator), j) && r.value == ChildMoves(board, color)[j]
  {
    ChildMovesSpec(board, color);
    if RemainingTurns(board.Empties()) == 0 {
      Evaluators.NoPuttablesWhenFull(board, Black);
      Evaluators.NoPuttablesWhenFull(board, White);
      CanPutIffSomePoint(board, Black);
      CanPutIffSomePoint(board, White);
      return Failure(DivisionByZero);
    }
    var answer: Option<Option<Point>>;
    ghost var nodes: seq<Node>;
    answer, nodes := Search(board, color, evaluator, rounds);
    if answer.None? {
      r := Failure(NoBestChild);
    } else {
      r := Success(answer.value);
    }
  }
}
