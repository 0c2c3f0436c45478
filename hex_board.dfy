/** Hex boards, cell contents, and chains of same-colour cells: the
    reachability the search of `connected` decides, with the invariant of
    that search and the lemmas that carry it. */
module HexBoard {
  import opened Axial

  /** Cell contents. */
  const EMPTY: int := 0
  const X: int := 1
  const O: int := 2

  /** A board: a square matrix of cell values, n = |b|. */
  type Board = seq<seq<int>>

  predicate IsSquare(b: Board) {
    forall i :: 0 <= i < |b| ==> |b[i]| == |b|
  }

  /** Cell `c` lies on the board and holds `v`. */
  predicate Holds(b: Board, c: Cell, v: int)
    requires IsSquare(b)
  {
    InBoard(|b|, c.0, c.1) && b[c.0][c.1] == v
  }

  /** Row-major order on cells. */
  predicate Before(a: Cell, c: Cell) {
    a.0 < c.0 || (a.0 == c.0 && a.1 < c.1)
  }

  predicate Distinct<T(==)>(s: seq<T>) {
    forall k, l :: 0 <= k < l < |s| ==> s[k] != s[l]
  }

  // ---------------------------------------------------------------------
  // connected: reachability through same-colour cells

  /** A non-empty chain of `player` cells, each adjacent to the one before. */
  ghost predicate IsPath(b: Board, player: int, path: seq<Cell>)
    requires IsSquare(b)
  {
    |path| > 0 &&
    (forall k :: 0 <= k < |path| ==> Holds(b, path[k], player)) &&
    (forall k :: 0 < k < |path| ==> Adjacent(|b|, path[k - 1], path[k]))
  }

  /** `path` is a chain of `player` cells from one of `sources` to `c`. */
  ghost predicate PathTo(b: Board, player: int, sources: seq<Cell>, path: seq<Cell>, c: Cell)
    requires IsSquare(b)
  {
    IsPath(b, player, path) && path[0] in sources && path[|path| - 1] == c
  }

  /** `c` is reached from one of `sources` by a path of `player` cells. */
  ghost predicate Reachable(b: Board, player: int, sources: seq<Cell>, c: Cell)
    requires IsSquare(b)
  {
    exists path :: PathTo(b, player, sources, path, c)
  }

  /** Some cell satisfying `goal` is reachable. */
  ghost predicate ConnectsTo(b: Board, player: int, sources: seq<Cell>, goal: (int, int) -> bool)
    requires IsSquare(b)
  {
    exists c :: Reachable(b, player, sources, c) && goal(c.0, c.1)
  }

  lemma ReachableSource(b: Board, player: int, sources: seq<Cell>, s: Cell)
    requires IsSquare(b) && s in sources && Holds(b, s, player)
    ensures Reachable(b, player, sources, s)
  {
    assert PathTo(b, player, sources, [s], s);
  }

  lemma ReachableStep(b: Board, player: int, sources: seq<Cell>, c: Cell, d: int)
    requires IsSquare(b) && 0 <= d < 6
    requires Reachable(b, player, sources, c) && Holds(b, Step(c, d), player)
    ensures Reachable(b, player, sources, Step(c, d))
  {
    var path :| PathTo(b, player, sources, path, c);
    var longer := path + [Step(c, d)];
    assert Adjacent(|b|, longer[|path| - 1], longer[|path|]);
    assert IsPath(b, player, longer);
    assert PathTo(b, player, sources, longer, Step(c, d));
  }

  /** A set holding every `player` source and closed under steps onto
      `player` cells holds the end of every path from a source. */
  lemma {:induction false} ClosedHoldsPath(b: Board, player: int, sources: seq<Cell>, s: set<Cell>, path: seq<Cell>)
    requires IsSquare(b) && IsPath(b, player, path) && path[0] in sources
    requires forall x :: x in sources && Holds(b, x, player) ==> x in s
    requires forall x, d :: x in s && 0 <= d < 6 && Holds(b, Step(x, d), player) ==> Step(x, d) in s
    ensures path[|path| - 1] in s
    decreases |path|
  {
    if |path| > 1 {
      var prefix := path[..|path| - 1];
      assert IsPath(b, player, prefix);
      ClosedHoldsPath(b, player, sources, s, prefix);
      assert Adjacent(|b|, path[|path| - 2], path[|path| - 1]);
    }
  }

  /** Every cell of `seen` is reachable. */
  ghost predicate AllReachable(b: Board, player: int, sources: seq<Cell>, seen: set<Cell>)
    requires IsSquare(b)
  {
    forall x :: x in seen ==> Reachable(b, player, sources, x)
  }

  /** Every `player` neighbour of a cell of `done` is in `seen`. */
  ghost predicate Expanded(b: Board, player: int, done: set<Cell>, seen: set<Cell>)
    requires IsSquare(b)
  {
    forall c, d :: c in done && 0 <= d < 6 && Holds(b, Step(c, d), player) ==> Step(c, d) in seen
  }

  lemma ExpandedGrow(b: Board, player: int, done: set<Cell>, seen: set<Cell>, more: set<Cell>)
    requires IsSquare(b) && Expanded(b, player, done, seen) && seen <= more
    ensures Expanded(b, player, done, more)
  {
  }

  lemma ExpandedAdd(b: Board, player: int, done: set<Cell>, seen: set<Cell>, c: Cell)
    requires IsSquare(b) && Expanded(b, player, done, seen)
    requires forall e :: 0 <= e < 6 && Holds(b, Step(c, e), player) ==> Step(c, e) in seen
    ensures Expanded(b, player, done + {c}, seen)
  {
  }

  lemma SubsetCard<T>(a: set<T>, b: set<T>)
    requires a <= b
    ensures |a| <= |b|
  {
    assert b == a + (b - a);
  }

  lemma AllReachableExpand(b: Board, player: int, sources: seq<Cell>, seen0: set<Cell>, seen: set<Cell>, c: Cell)
    requires IsSquare(b) && AllReachable(b, player, sources, seen0) && c in seen0
    requires forall x :: x in seen && x !in seen0 ==> Holds(b, x, player) && Adjacent(|b|, c, x)
    ensures AllReachable(b, player, sources, seen)
  {
    forall x | x in seen ensures Reachable(b, player, sources, x) {
      if x !in seen0 {
        var d :| 0 <= d < 6 && Step(c, d) == x;
        ReachableStep(b, player, sources, c, d);
      }
    }
  }

  /** What the search has established: `seen` holds only reachable cells
      of the board, and no expanded (`done`) cell is a goal. */
  ghost predicate SearchSound(b: Board, player: int, sources: seq<Cell>, goal: (int, int) -> bool,
                              seen: set<Cell>, done: set<Cell>)
    requires IsSquare(b)
  {
    && seen <= Grid(|b|) && done <= seen
    && AllReachable(b, player, sources, seen)
    && (forall c :: c in done ==> !goal(c.0, c.1))
  }

  /** What the search still owes: every owned source is seen, and each seen
      cell is either expanded or still queued. */
  ghost predicate SearchFrontier(b: Board, player: int, sources: seq<Cell>,
                                 seen: set<Cell>, q: seq<Cell>, done: set<Cell>)
    requires IsSquare(b)
  {
    && (forall c :: c in q ==> c in seen)
    && (forall c :: c in seen ==> c in done || c in q)
    && (forall x :: x in sources && Holds(b, x, player) ==> x in seen)
    && Expanded(b, player, done, seen)
  }

  /** The invariant of the search loop of `connected`. */
  ghost predicate SearchInv(b: Board, player: int, sources: seq<Cell>, goal: (int, int) -> bool,
                            seen: set<Cell>, q: seq<Cell>, done: set<Cell>)
    requires IsSquare(b)
  {
    SearchSound(b, player, sources, goal, seen, done) && SearchFrontier(b, player, sources, seen, q, done)
  }

  /** After an expansion the queue is the old rest followed by exactly the
      newly seen cells. */
  lemma QueueAfterExpand(rest: seq<Cell>, q: seq<Cell>, seen0: set<Cell>, seen: set<Cell>)
    requires |q| >= |rest| && q[..|rest|] == rest
    requires forall x :: x in q[|rest|..] <==> x in seen && x !in seen0
    ensures forall x :: x in q <==> x in rest || (x in seen && x !in seen0)
    ensures seen == seen0 ==> q == rest
  {
    var added := q[|rest|..];
    assert q == rest + added;
    if |added| > 0 {
      assert added[0] in seen && added[0] !in seen0;
    }
  }

  /** What the search has established still holds after `c` has been
      dequeued and expanded. */
  lemma SoundAfterExpand(b: Board, player: int, sources: seq<Cell>, goal: (int, int) -> bool,
                       seen0: set<Cell>, q0: seq<Cell>, done: set<Cell>,
                       c: Cell, rest: seq<Cell>, seen: set<Cell>, q: seq<Cell>)
    requires IsSquare(b) && SearchInv(b, player, sources, goal, seen0, q0, done)
    requires |q0| > 0 && c == q0[0] && rest == q0[1..] && !goal(c.0, c.1)
    requires seen0 <= seen
    requires forall x :: x in q <==> x in rest || (x in seen && x !in seen0)
    requires forall x :: x in seen && x !in seen0 ==> Holds(b, x, player) && Adjacent(|b|, c, x)
    requires forall e :: 0 <= e < 6 && Holds(b, Step(c, e), player) ==> Step(c, e) in seen
    ensures SearchSound(b, player, sources, goal, seen, done + {c})
  {
    assert c in seen0;
    forall x | x in seen ensures x in Grid(|b|) {
      if x !in seen0 {
        assert Holds(b, x, player);
        assert x == (x.0, x.1);
      }
    }
    AllReachableExpand(b, player, sources, seen0, seen, c);
  }

  /** What the search still owes is still covered after `c` has been
      dequeued and expanded. */
  lemma FrontierAfterExpand(b: Board, player: int, sources: seq<Cell>, goal: (int, int) -> bool,
                       seen0: set<Cell>, q0: seq<Cell>, done: set<Cell>,
                       c: Cell, rest: seq<Cell>, seen: set<Cell>, q: seq<Cell>)
    requires IsSquare(b) && SearchInv(b, player, sources, goal, seen0, q0, done)
    requires |q0| > 0 && c == q0[0] && rest == q0[1..] && !goal(c.0, c.1)
    requires seen0 <= seen
    requires forall x :: x in q <==> x in rest || (x in seen && x !in seen0)
    requires forall x :: x in seen && x !in seen0 ==> Holds(b, x, player) && Adjacent(|b|, c, x)
    requires forall e :: 0 <= e < 6 && Holds(b, Step(c, e), player) ==> Step(c, e) in seen
    ensures SearchFrontier(b, player, sources, seen, q, done + {c})
  {
    assert q0 == [c] + rest;
    assert c in seen0;
    forall x | x in seen ensures x in done + {c} || x in q {
      if x in seen0 && x !in done && x != c {
        assert x in q0;
        assert x in rest;
      }
    }
    ExpandedGrow(b, player, done, seen0, seen);
    ExpandedAdd(b, player, done, seen, c);
  }

  /** The search invariant after `c` has been dequeued and expanded. */
  lemma InvAfterExpand(b: Board, player: int, sources: seq<Cell>, goal: (int, int) -> bool,
                       seen0: set<Cell>, q0: seq<Cell>, done: set<Cell>,
                       c: Cell, rest: seq<Cell>, seen: set<Cell>, q: seq<Cell>)
    requires IsSquare(b) && SearchInv(b, player, sources, goal, seen0, q0, done)
    requires |q0| > 0 && c == q0[0] && rest == q0[1..] && !goal(c.0, c.1)
    requires seen0 <= seen
    requires forall x :: x in q <==> x in rest || (x in seen && x !in seen0)
    requires forall x :: x in seen && x !in seen0 ==> Holds(b, x, player) && Adjacent(|b|, c, x)
    requires forall e :: 0 <= e < 6 && Holds(b, Step(c, e), player) ==> Step(c, e) in seen
    ensures SearchInv(b, player, sources, goal, seen, q, done + {c})
  {
    SoundAfterExpand(b, player, sources, goal, seen0, q0, done, c, rest, seen, q);
    FrontierAfterExpand(b, player, sources, goal, seen0, q0, done, c, rest, seen, q);
  }

  /** One round of the search loop keeps its invariant and makes progress. */
  lemma ExpandPreserves(b: Board, player: int, sources: seq<Cell>, goal: (int, int) -> bool,
                        seen0: set<Cell>, q0: seq<Cell>, done: set<Cell>,
                        c: Cell, rest: seq<Cell>, seen: set<Cell>, q: seq<Cell>)
    requires IsSquare(b) && SearchInv(b, player, sources, goal, seen0, q0, done)
    requires |q0| > 0 && c == q0[0] && rest == q0[1..] && !goal(c.0, c.1)
    requires seen0 <= seen
    requires |q| >= |rest| && q[..|rest|] == rest
    requires forall x :: x in q[|rest|..] <==> x in seen && x !in seen0
    requires forall x :: x in seen && x !in seen0 ==> Holds(b, x, player) && Adjacent(|b|, c, x)
    requires forall e :: 0 <= e < 6 && Holds(b, Step(c, e), player) ==> Step(c, e) in seen
    ensures SearchInv(b, player, sources, goal, seen, q, done + {c})
    ensures Grid(|b|) - seen < Grid(|b|) - seen0 || (seen == seen0 && |q| < |q0|)
  {
    QueueAfterExpand(rest, q, seen0, seen);
    InvAfterExpand(b, player, sources, goal, seen0, q0, done, c, rest, seen, q);
    if seen != seen0 {
      var x :| x in seen && x !in seen0;
      FrontierShrinks(Grid(|b|), seen0, seen, x);
    }
  }

  /** Marking one more cell of the board seen leaves fewer unseen cells. */
  lemma FrontierShrinks<T>(all: set<T>, seen0: set<T>, seen: set<T>, x: T)
    requires seen0 <= seen && x in seen && x !in seen0 && x in all
    ensures all - seen < all - seen0
  {
    assert x in all - seen0 && x !in all - seen;
  }

  /** When the queue runs dry, no goal cell is reachable. */
  lemma SearchComplete(b: Board, player: int, sources: seq<Cell>, goal: (int, int) -> bool,
                       seen: set<Cell>, done: set<Cell>)
    requires IsSquare(b) && SearchInv(b, player, sources, goal, seen, [], done)
    ensures !ConnectsTo(b, player, sources, goal)
    ensures |seen| <= |b| * |b|
  {
    SubsetCard(seen, Grid(|b|));
    GridCard(|b|);
    forall c | Reachable(b, player, sources, c) ensures !goal(c.0, c.1) {
      var path :| PathTo(b, player, sources, path, c);
      ClosedHoldsPath(b, player, sources, seen, path);
    }
  }

  /** The seeded queue satisfies the search invariant. */
  lemma SeedInv(b: Board, player: int, sources: seq<Cell>, goal: (int, int) -> bool, seen: set<Cell>, q: seq<Cell>)
    requires IsSquare(b)
    requires forall c :: c in q <==> c in seen
    requires forall c :: c in seen <==> c in sources && Holds(b, c, player)
    ensures SearchInv(b, player, sources, goal, seen, q, {})
  {
    forall c | c in seen ensures Reachable(b, player, sources, c) {
      ReachableSource(b, player, sources, c);
    }
  }

  /** A goal cell at the head of the queue is reachable, and at most
      n * n cells have been seen. */
  lemma FoundGoal(b: Board, player: int, sources: seq<Cell>, goal: (int, int) -> bool,
                  seen: set<Cell>, q: seq<Cell>, done: set<Cell>)
    requires IsSquare(b) && SearchInv(b, player, sources, goal, seen, q, done)
    requires |q| > 0 && goal(q[0].0, q[0].1)
    ensures ConnectsTo(b, player, sources, goal)
    ensures |seen| <= |b| * |b|
  {
    assert Reachable(b, player, sources, q[0]);
    SubsetCard(seen, Grid(|b|));
    GridCard(|b|);
  }

}
