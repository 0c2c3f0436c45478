/** The Hex rules engine: legal moves, move application, the connectivity
    search behind win detection, and random playouts. */
module HexRules {
  import opened Axial
  import opened HexBoard

  // ---------------------------------------------------------------------
  // legal_moves, apply_move, opposite

  /** The empty cells of row `i` from column `j` on, left to right. */
  function RowMoves(b: Board, i: int, j: nat): (r: seq<Cell>)
    requires IsSquare(b) && 0 <= i < |b| && j <= |b|
    ensures forall k :: 0 <= k < |r| ==> r[k].0 == i && j <= r[k].1 && Holds(b, r[k], EMPTY)
    decreases |b| - j
  {
    if j == |b| then []
    else (if b[i][j] == EMPTY then [(i, j)] else []) + RowMoves(b, i, j + 1)
  }

  /** RowMoves misses no empty cell of row `i` from column `j` on. */
  lemma {:induction false} RowMovesComplete(b: Board, i: int, j: nat)
    requires IsSquare(b) && 0 <= i < |b| && j <= |b|
    ensures forall c: Cell :: c.0 == i && j <= c.1 && Holds(b, c, EMPTY) ==> c in RowMoves(b, i, j)
    decreases |b| - j
  {
    if j < |b| {
      var head, rest := if b[i][j] == EMPTY then [(i, j)] else [], RowMoves(b, i, j + 1);
      assert RowMoves(b, i, j) == head + rest;
      RowMovesComplete(b, i, j + 1);
      forall c: Cell | c.0 == i && j <= c.1 && Holds(b, c, EMPTY) ensures c in head + rest {
        if c.1 == j {
          assert c == (i, j) && c in head;
        } else {
          assert c in rest;
        }
      }
    }
  }

  /** RowMoves lists its cells left to right. */
  lemma {:induction false} RowMovesSorted(b: Board, i: int, j: nat)
    requires IsSquare(b) && 0 <= i < |b| && j <= |b|
    ensures forall k, l :: 0 <= k < l < |RowMoves(b, i, j)| ==> RowMoves(b, i, j)[k].1 < RowMoves(b, i, j)[l].1
    decreases |b| - j
  {
    if j < |b| {
      RowMovesSorted(b, i, j + 1);
      var head: seq<Cell> := if b[i][j] == EMPTY then [(i, j)] else [];
      var rest := RowMoves(b, i, j + 1);
      var r := head + rest;
      assert RowMoves(b, i, j) == r;
      forall k, l | 0 <= k < l < |r| ensures r[k].1 < r[l].1 {
        assert r[l] == rest[l - |head|];
        if k >= |head| {
          assert r[k] == rest[k - |head|];
        } else {
          assert r[k] == (i, j);
        }
      }
    }
  }

  /** The empty cells of rows `i` to n - 1, in row-major order. */
  function MovesFrom(b: Board, i: nat): (r: seq<Cell>)
    requires IsSquare(b) && i <= |b|
    ensures forall k :: 0 <= k < |r| ==> i <= r[k].0 && Holds(b, r[k], EMPTY)
    decreases |b| - i
  {
    if i == |b| then [] else RowMoves(b, i, 0) + MovesFrom(b, i + 1)
  }

  /** MovesFrom misses no empty cell of its rows and lists them in
      row-major order. */
  lemma {:induction false} MovesFromComplete(b: Board, i: nat)
    requires IsSquare(b) && i <= |b|
    ensures forall c: Cell :: i <= c.0 && Holds(b, c, EMPTY) ==> c in MovesFrom(b, i)
    ensures forall k, l :: 0 <= k < l < |MovesFrom(b, i)| ==> Before(MovesFrom(b, i)[k], MovesFrom(b, i)[l])
    decreases |b| - i
  {
    if i < |b| {
      RowMovesComplete(b, i, 0);
      RowMovesSorted(b, i, 0);
      MovesFromComplete(b, i + 1);
      var row, rest := RowMoves(b, i, 0), MovesFrom(b, i + 1);
      var r := row + rest;
      assert MovesFrom(b, i) == r;
      forall c: Cell | i <= c.0 && Holds(b, c, EMPTY) ensures c in r {
        if c.0 == i {
          assert c in row;
        } else {
          assert c in rest;
        }
      }
      forall k, l | 0 <= k < l < |r| ensures Before(r[k], r[l]) {
        if l < |row| {
          assert r[k] == row[k] && r[l] == row[l];
          assert row[k].0 == i == row[l].0 && row[k].1 < row[l].1;
        } else if k < |row| {
          assert r[k] == row[k] && r[l] == rest[l - |row|];
          assert row[k].0 == i < rest[l - |row|].0;
        } else {
          assert r[k] == rest[k - |row|] && r[l] == rest[l - |row|];
        }
      }
    }
  }

  /** `legal_moves`: exactly the empty cells. */
  function LegalMoves(b: Board): (r: seq<Cell>)
    requires IsSquare(b)
    ensures forall c :: c in r <==> Holds(b, c, EMPTY)
  {
    MovesFromComplete(b, 0);
    MovesFrom(b, 0)
  }

  /** The legal moves come in row-major order, each once. */
  lemma LegalMovesSorted(b: Board)
    requires IsSquare(b)
    ensures forall k, l :: 0 <= k < l < |LegalMoves(b)| ==> Before(LegalMoves(b)[k], LegalMoves(b)[l])
    ensures Distinct(LegalMoves(b))
  {
    MovesFromComplete(b, 0);
  }

  /** `apply_move`: a new board that differs from `b` at most in cell `m`,
      which now holds `player`; an occupied cell is overwritten. */
  function ApplyMove(b: Board, m: Cell, player: int): (r: Board)
    requires IsSquare(b) && InBoard(|b|, m.0, m.1)
    ensures IsSquare(r) && |r| == |b|
    ensures r[m.0][m.1] == player
    ensures forall i, j :: InBoard(|b|, i, j) && (i, j) != m ==> r[i][j] == b[i][j]
  {
    b[m.0 := b[m.0][m.1 := player]]
  }

  /** `opposite`: O becomes X; every other value, EMPTY included, becomes O. */
  function Opposite(p: int): (q: int)
    ensures q == X || q == O
    ensures q == X <==> p == O
  {
    if p == O then X else O
  }

  lemma OppositeInvolution(p: int)
    requires p == X || p == O
    ensures Opposite(p) != p && Opposite(Opposite(p)) == p
  {
  }

  /** The cells of a strictly row-major sequence are as many as its entries. */
  lemma {:induction false} SortedCard(s: seq<Cell>)
    requires forall k, l :: 0 <= k < l < |s| ==> Before(s[k], s[l])
    ensures |set c | c in s| == |s|
  {
    if s != [] {
      assert (set c | c in s) == {s[0]} + (set c | c in s[1..]);
      assert s[0] !in s[1..] by {
        forall k | 0 <= k < |s[1..]| ensures s[1..][k] != s[0] {
          assert Before(s[0], s[k + 1]);
        }
      }
      SortedCard(s[1..]);
    }
  }

  /** The cells of the legal moves after a stone is played on a legal move. */
  lemma MovesAfterStone(b: Board, m: Cell, p: int)
    requires IsSquare(b) && m in LegalMoves(b) && p != EMPTY
    ensures (set c | c in LegalMoves(ApplyMove(b, m, p))) == (set c | c in LegalMoves(b)) - {m}
  {
    var b2 := ApplyMove(b, m, p);
    forall c ensures c in LegalMoves(b2) <==> c in LegalMoves(b) && c != m {
      assert Holds(b2, c, EMPTY) <==> Holds(b, c, EMPTY) && c != m;
    }
  }

  /** Writing EMPTY on an empty cell leaves the board as it was. */
  lemma EmptyMoveKeepsBoard(b: Board, m: Cell)
    requires IsSquare(b) && InBoard(|b|, m.0, m.1) && b[m.0][m.1] == EMPTY
    ensures ApplyMove(b, m, EMPTY) == b
  {
    assert b[m.0][m.1 := EMPTY] == b[m.0];
  }

  /** Playing a legal move with a stone removes exactly that move from the
      legal moves; playing EMPTY on an empty cell leaves the board as it was. */
  lemma MoveDecreases(b: Board, m: Cell, p: int)
    requires IsSquare(b) && m in LegalMoves(b)
    ensures p != EMPTY ==> |LegalMoves(ApplyMove(b, m, p))| == |LegalMoves(b)| - 1
    ensures p == EMPTY ==> ApplyMove(b, m, p) == b
  {
    if p != EMPTY {
      var before := set c | c in LegalMoves(b);
      MovesAfterStone(b, m, p);
      LegalMovesSorted(b);
      LegalMovesSorted(ApplyMove(b, m, p));
      SortedCard(LegalMoves(b));
      SortedCard(LegalMoves(ApplyMove(b, m, p)));
      assert |before - {m}| == |before| - 1;
    } else {
      EmptyMoveKeepsBoard(b, m);
    }
  }

  /** The first loop of `connected`: every `player` cell among `sources` is
      queued and marked seen, duplicates included. */
  method Seed(b: Board, player: int, sources: seq<Cell>) returns (seen: set<Cell>, q: seq<Cell>)
    requires IsSquare(b)
    requires forall k :: 0 <= k < |sources| ==> InBoard(|b|, sources[k].0, sources[k].1)
    ensures forall c :: c in q <==> c in seen
    ensures forall c :: c in seen <==> c in sources && Holds(b, c, player)
    ensures Distinct(sources) ==> |q| == |seen|
  {
    seen, q := {}, [];
    for k := 0 to |sources|
      invariant forall c :: c in q <==> c in seen
      invariant forall c :: c in seen <==> c in sources[..k] && Holds(b, c, player)
      invariant Distinct(sources) ==> |q| == |seen|
    {
      var s := sources[k];
      if b[s.0][s.1] == player {
        if Distinct(sources) {
          assert s !in sources[..k];
        }
        q := q + [s];
        seen := seen + {s};
      }
    }
    assert sources[..|sources|] == sources;
  }

  /** The inner loop of `connected`: each `player` neighbour of `c` not yet
      seen is marked seen and queued, in direction order. */
  method Expand(b: Board, player: int, c: Cell, seen0: set<Cell>, q0: seq<Cell>)
    returns (seen: set<Cell>, q: seq<Cell>)
    requires IsSquare(b)
    ensures seen0 <= seen
    ensures |q| >= |q0| && q[..|q0|] == q0
    ensures forall x :: x in q[|q0|..] <==> x in seen && x !in seen0
    ensures |q| + |seen0| == |q0| + |seen|
    ensures forall x :: x in seen && x !in seen0 ==> Holds(b, x, player) && Adjacent(|b|, c, x)
    ensures forall e :: 0 <= e < 6 && Holds(b, Step(c, e), player) ==> Step(c, e) in seen
  {
    var n := |b|;
    seen, q := seen0, q0;
    for d := 0 to 6
      invariant seen0 <= seen
      invariant |q| >= |q0| && q[..|q0|] == q0
      invariant forall x :: x in q[|q0|..] <==> x in seen && x !in seen0
      invariant |q| + |seen0| == |q0| + |seen|
      invariant forall x :: x in seen && x !in seen0 ==> Holds(b, x, player) && Adjacent(n, c, x)
      invariant forall e :: 0 <= e < d && Holds(b, Step(c, e), player) ==> Step(c, e) in seen
    {
      var next := Step(c, d);
      if 0 <= next.0 < n && 0 <= next.1 < n && b[next.0][next.1] == player && next !in seen {
        assert (q + [next])[|q0|..] == q[|q0|..] + [next];
        seen := seen + {next};
        q := q + [next];
      }
      forall e | 0 <= e < d + 1 && Holds(b, Step(c, e), player) ensures Step(c, e) in seen {
        if e == d {
          assert Step(c, e) == next;
        }
      }
    }
  }

  /** `connected`: breadth-first search from the `player` cells among
      `sources`. The answer is whether a `goal` cell is reachable; with
      distinct sources the loop runs at most n * n times (`steps`). */
  method Connected(b: Board, player: int, sources: seq<Cell>, goal: (int, int) -> bool)
    returns (found: bool, ghost steps: nat)
    requires IsSquare(b)
    requires forall k :: 0 <= k < |sources| ==> InBoard(|b|, sources[k].0, sources[k].1)
    ensures found <==> ConnectsTo(b, player, sources, goal)
    ensures Distinct(sources) ==> steps <= |b| * |b|
  {
    var seen, q := Seed(b, player, sources);
    SeedInv(b, player, sources, goal, seen, q);
    found, steps := Search(b, player, sources, goal, seen, q);
  }

  /** The search loop of `connected`: dequeue cells until a goal cell turns
      up or the queue runs dry. Every round dequeues one cell, and with
      distinct sources each seen cell is queued exactly once. */
  method Search(b: Board, player: int, sources: seq<Cell>, goal: (int, int) -> bool, seen0: set<Cell>, q0: seq<Cell>)
    returns (found: bool, ghost steps: nat)
    requires IsSquare(b) && SearchInv(b, player, sources, goal, seen0, q0, {})
    requires Distinct(sources) ==> |q0| == |seen0|
    ensures found <==> ConnectsTo(b, player, sources, goal)
    ensures Distinct(sources) ==> steps <= |b| * |b|
  {
    var n := |b|;
    var seen, q := seen0, q0;
    ghost var done: set<Cell> := {};
    steps := 0;
    while |q| > 0
      invariant SearchInv(b, player, sources, goal, seen, q, done)
      invariant Distinct(sources) ==> steps + |q| == |seen|
      decreases Grid(n) - seen, |q|
    {
      found, seen, q, done := SearchRound(b, player, sources, goal, seen, q, done);
      steps := steps + 1;
      if found {
        return true, steps;
      }
    }
    SearchComplete(b, player, sources, goal, seen, done);
    return false, steps;
  }

  /** One round of the search loop of `connected`: dequeue a cell; stop if
      it is a goal, otherwise queue its unseen `player` neighbours. */
  method SearchRound(b: Board, player: int, sources: seq<Cell>, goal: (int, int) -> bool,
                     seen0: set<Cell>, q0: seq<Cell>, ghost done0: set<Cell>)
    returns (found: bool, seen: set<Cell>, q: seq<Cell>, ghost done: set<Cell>)
    requires IsSquare(b) && SearchInv(b, player, sources, goal, seen0, q0, done0) && |q0| > 0
    ensures found ==> ConnectsTo(b, player, sources, goal) && seen == seen0 && |seen| <= |b| * |b|
    ensures !found ==> SearchInv(b, player, sources, goal, seen, q, done)
    ensures !found ==> |q| + |seen0| + 1 == |q0| + |seen|
    ensures !found ==> Grid(|b|) - seen < Grid(|b|) - seen0 || (seen == seen0 && |q| < |q0|)
  {
    var c := q0[0];
    if goal(c.0, c.1) {
      FoundGoal(b, player, sources, goal, seen0, q0, done0);
      return true, seen0, q0, done0;
    }
    seen, q := Expand(b, player, c, seen0, q0[1..]);
    ExpandPreserves(b, player, sources, goal, seen0, q0, done0, c, q0[1..], seen, q);
    done := done0 + {c};
    found := false;
  }

  // ---------------------------------------------------------------------
  // winner

  function TopRow(n: nat): (r: seq<Cell>)
    ensures |r| == n && forall j :: 0 <= j < n ==> r[j] == (0, j)
  {
    seq(n, j => (0, j))
  }

  function LeftColumn(n: nat): (r: seq<Cell>)
    ensures |r| == n && forall i :: 0 <= i < n ==> r[i] == (i, 0)
  {
    seq(n, i => (i, 0))
  }

  /** X has a chain of X cells from row 0 to row n - 1. */
  ghost predicate XConnects(b: Board)
    requires IsSquare(b)
  {
    exists c :: Reachable(b, X, TopRow(|b|), c) && c.0 == |b| - 1
  }

  /** O has a chain of O cells from column 0 to column n - 1. */
  ghost predicate OConnects(b: Board)
    requires IsSquare(b)
  {
    exists c :: Reachable(b, O, LeftColumn(|b|), c) && c.1 == |b| - 1
  }

  /** The outcome `winner` reports: X is checked first, so it wins even if
      O is also connected; 0 means neither is connected. */
  ghost function WinnerOf(b: Board): int
    requires IsSquare(b)
  {
    if XConnects(b) then X else if OConnects(b) then O else 0
  }

  /** `winner`: two searches, X from row 0 towards row n - 1, then O from
      column 0 towards column n - 1. */
  method Winner(b: Board) returns (w: int)
    requires IsSquare(b)
    ensures w == WinnerOf(b)
  {
    var n := |b|;
    var bottom := (i: int, j: int) => i == n - 1;
    var xWins, _ := Connected(b, X, TopRow(n), bottom);
    if xWins {
      return X;
    }
    var right := (i: int, j: int) => j == n - 1;
    var oWins, _ := Connected(b, O, LeftColumn(n), right);
    if oWins {
      return O;
    }
    return 0;
  }

  /** On a 1-by-1 board the single cell is both source and goal for both
      players: a stone of either colour wins, anything else gives 0. */
  lemma WinnerSingleCell(v: int)
    ensures IsSquare([[v]])
    ensures WinnerOf([[v]]) == if v == X || v == O then v else 0
  {
    var b: Board := [[v]];
    if v == X {
      assert PathTo(b, X, TopRow(1), [(0, 0)], (0, 0));
    } else {
      assert !XConnects(b);
      if v == O {
        assert PathTo(b, O, LeftColumn(1), [(0, 0)], (0, 0));
      }
    }
  }

  /** A column of X stones (0,0), (1,0), (2,0) on an otherwise empty 3-by-3
      board wins for X; the board holds no O chain at all. */
  lemma WinnerLeftColumnOfX()
    ensures IsSquare([[X, EMPTY, EMPTY], [X, EMPTY, EMPTY], [X, EMPTY, EMPTY]])
    ensures WinnerOf([[X, EMPTY, EMPTY], [X, EMPTY, EMPTY], [X, EMPTY, EMPTY]]) == X
    ensures !OConnects([[X, EMPTY, EMPTY], [X, EMPTY, EMPTY], [X, EMPTY, EMPTY]])
  {
    var b: Board := [[X, EMPTY, EMPTY], [X, EMPTY, EMPTY], [X, EMPTY, EMPTY]];
    var path := [(0, 0), (1, 0), (2, 0)];
    assert Step((0, 0), 3) == (1, 0) && Step((1, 0), 3) == (2, 0);
    assert IsPath(b, X, path);
    assert PathTo(b, X, TopRow(3), path, (2, 0));
  }

  // ---------------------------------------------------------------------
  // Stones are only ever added

  /** Every stone of `b` is still in place in `b2`. */
  ghost predicate Extends(b: Board, b2: Board)
    requires IsSquare(b) && IsSquare(b2)
  {
    |b2| == |b| && forall i, j :: InBoard(|b|, i, j) && b[i][j] != EMPTY ==> b2[i][j] == b[i][j]
  }

  lemma ApplyMoveExtends(b: Board, m: Cell, p: int)
    requires IsSquare(b) && m in LegalMoves(b)
    ensures Extends(b, ApplyMove(b, m, p))
  {
  }

  lemma {:induction false} PathSurvives(b: Board, b2: Board, player: int, path: seq<Cell>)
    requires IsSquare(b) && IsSquare(b2) && Extends(b, b2) && player != EMPTY
    requires IsPath(b, player, path)
    ensures IsPath(b2, player, path)
  {
    forall k | 0 <= k < |path| ensures Holds(b2, path[k], player) {
      assert Holds(b, path[k], player);
    }
  }

  /** Connections survive the addition of stones. */
  lemma ConnectsMonotone(b: Board, b2: Board)
    requires IsSquare(b) && IsSquare(b2) && Extends(b, b2)
    ensures XConnects(b) ==> XConnects(b2)
    ensures OConnects(b) ==> OConnects(b2)
  {
    if XConnects(b) {
      var c :| Reachable(b, X, TopRow(|b|), c) && c.0 == |b| - 1;
      var path :| PathTo(b, X, TopRow(|b|), path, c);
      PathSurvives(b, b2, X, path);
      assert PathTo(b2, X, TopRow(|b2|), path, c);
    }
    if OConnects(b) {
      var c :| Reachable(b, O, LeftColumn(|b|), c) && c.1 == |b| - 1;
      var path :| PathTo(b, O, LeftColumn(|b|), path, c);
      PathSurvives(b, b2, O, path);
      assert PathTo(b2, O, LeftColumn(|b2|), path, c);
    }
  }

  /** Once decided, a game stays decided as stones are added; an X win is
      final, an O win can only be overtaken by an X chain. */
  lemma WinnerMonotone(b: Board, b2: Board)
    requires IsSquare(b) && IsSquare(b2) && Extends(b, b2)
    ensures WinnerOf(b) == X ==> WinnerOf(b2) == X
    ensures WinnerOf(b) == O ==> WinnerOf(b2) != 0
  {
    ConnectsMonotone(b, b2);
  }

  /** A chain of `player` cells after a move by another side was already
      there before the move: the moved-on cell does not hold `player`. */
  lemma {:induction false} PathPredates(b: Board, m: Cell, q: int, player: int, path: seq<Cell>)
    requires IsSquare(b) && InBoard(|b|, m.0, m.1) && q != player
    requires IsPath(ApplyMove(b, m, q), player, path)
    ensures IsPath(b, player, path)
  {
    var b2 := ApplyMove(b, m, q);
    forall k | 0 <= k < |path| ensures Holds(b, path[k], player) {
      assert Holds(b2, path[k], player);
      assert path[k] != m;
    }
  }

  /** Only the side that moves can complete a chain. */
  lemma OnlyMoverConnects(b: Board, m: Cell, q: int)
    requires IsSquare(b) && InBoard(|b|, m.0, m.1)
    ensures q != X && XConnects(ApplyMove(b, m, q)) ==> XConnects(b)
    ensures q != O && OConnects(ApplyMove(b, m, q)) ==> OConnects(b)
  {
    var b2 := ApplyMove(b, m, q);
    if q != X && XConnects(b2) {
      var c :| Reachable(b2, X, TopRow(|b2|), c) && c.0 == |b2| - 1;
      var path :| PathTo(b2, X, TopRow(|b2|), path, c);
      PathPredates(b, m, q, X, path);
      assert PathTo(b, X, TopRow(|b|), path, c);
    }
    if q != O && OConnects(b2) {
      var c :| Reachable(b2, O, LeftColumn(|b2|), c) && c.1 == |b2| - 1;
      var path :| PathTo(b2, O, LeftColumn(|b2|), path, c);
      PathPredates(b, m, q, O, path);
      assert PathTo(b, O, LeftColumn(|b|), path, c);
    }
  }

  /** A move on an undecided board can only make its own side the winner. */
  lemma WinnerIsMover(b: Board, m: Cell, q: int)
    requires IsSquare(b) && InBoard(|b|, m.0, m.1) && WinnerOf(b) == 0
    ensures WinnerOf(ApplyMove(b, m, q)) == 0 || WinnerOf(ApplyMove(b, m, q)) == q
  {
    OnlyMoverConnects(b, m, q);
  }

  // ---------------------------------------------------------------------
  // Games and random_playout

  /** A position: a board and the side to move on it. */
  type SquareBoard = b: Board | IsSquare(b) witness []

  datatype Position = Position(board: SquareBoard, toMove: int)

  /** A game ends at a position that has a winner or no legal move. */
  ghost predicate IsFinal(b: Board)
    requires IsSquare(b)
  {
    WinnerOf(b) != 0 || |LegalMoves(b)| == 0
  }

  /** `b2` is `b` after `p` has played one of the legal moves of `b`. */
  ghost predicate PlayedFrom(b: Board, p: int, b2: Board)
    requires IsSquare(b)
  {
    exists m :: m in LegalMoves(b) && b2 == ApplyMove(b, m, p)
  }

  /** The index rng draws among n choices. */
  function Pick(r: nat, n: nat): (i: nat)
    requires n > 0
    ensures i < n
  {
    r % n
  }

  /** The board after `p` plays the legal move at index r mod (number of
      legal moves). */
  function NextBoard(b: Board, p: int, r: nat): (b2: Board)
    requires IsSquare(b) && |LegalMoves(b)| > 0
    ensures IsSquare(b2) && |b2| == |b|
    ensures PlayedFrom(b, p, b2)
  {
    var moves := LegalMoves(b);
    assert moves[Pick(r, |moves|)] in moves;
    ApplyMove(b, moves[Pick(r, |moves|)], p)
  }

  /** A stone removes one legal move; EMPTY leaves the board unchanged. */
  lemma NextDecreases(b: Board, p: int, r: nat)
    requires IsSquare(b) && |LegalMoves(b)| > 0
    ensures p != EMPTY ==> |LegalMoves(NextBoard(b, p, r))| == |LegalMoves(b)| - 1
    ensures p == EMPTY ==> NextBoard(b, p, r) == b
  {
    var moves := LegalMoves(b);
    MoveDecreases(b, moves[Pick(r, |moves|)], p);
  }

  /** The positions of the game a random player plays from board `b` with
      `p` to move, when the random generator's draws from index `t` on are
      rng(t), rng(t + 1), ...: the move at each step is the legal move at
      index rng(t) mod (number of legal moves), and the game stops at the
      first position that has a winner or no legal move. */
  ghost function Game(b: Board, p: int, rng: nat -> nat, t: nat): (g: seq<Position>)
    requires IsSquare(b)
    ensures |g| >= 1 && g[0] == Position(b, p)
    decreases |LegalMoves(b)|, if p == EMPTY then 1 else 0
  {
    if IsFinal(b) then [Position(b, p)]
    else
      NextDecreases(b, p, rng(t));
      [Position(b, p)] + Game(NextBoard(b, p, rng(t)), Opposite(p), rng, t + 1)
  }

  function Last<T>(s: seq<T>): T
    requires |s| > 0
  {
    s[|s| - 1]
  }

  /** One step of the game definition: a position that is not over is
      followed by the game from the board its side to move produces. */
  lemma GameUnfold(b: Board, p: int, rng: nat -> nat, t: nat)
    requires IsSquare(b) && !IsFinal(b)
    ensures |LegalMoves(b)| > 0
    ensures Game(b, p, rng, t) == [Position(b, p)] + Game(NextBoard(b, p, rng(t)), Opposite(p), rng, t + 1)
  {
  }

  /** A game that is not over ends where the game from the next board ends. */
  lemma GameLastNext(b: Board, p: int, rng: nat -> nat, t: nat)
    requires IsSquare(b) && !IsFinal(b)
    ensures |LegalMoves(b)| > 0
    ensures Last(Game(b, p, rng, t)) == Last(Game(NextBoard(b, p, rng(t)), Opposite(p), rng, t + 1))
  {
    GameUnfold(b, p, rng, t);
    LastCons(Position(b, p), Game(NextBoard(b, p, rng(t)), Opposite(p), rng, t + 1));
  }

  lemma ConsAt<T>(x: T, s: seq<T>, k: int)
    requires 0 < k <= |s|
    ensures ([x] + s)[k] == s[k - 1]
  {
  }

  lemma LastCons<T>(x: T, s: seq<T>)
    requires |s| > 0
    ensures Last([x] + s) == Last(s)
  {
  }

  /** `random_playout`: plays random legal moves, alternating sides, until
      a side has won (returns it) or no move is left (returns 0). The
      result is the winner of the final position of the game, and the loop
      draws once per move of that game, so `t` is the next unused draw. */
  method RandomPlayout(board: Board, toMove: int, rng: nat -> nat, t0: nat) returns (w: int, t: nat)
    requires IsSquare(board)
    ensures w == WinnerOf(Last(Game(board, toMove, rng, t0)).board)
    ensures t == t0 + |Game(board, toMove, rng, t0)| - 1
  {
    var b, p := board, toMove;
    t := t0;
    var over := false;
    w := 0;
    while !over
      invariant IsSquare(b)
      invariant over ==> w == WinnerOf(Last(Game(board, toMove, rng, t0)).board)
      invariant over ==> t == t0 + |Game(board, toMove, rng, t0)| - 1
      invariant !over ==> Last(Game(b, p, rng, t)) == Last(Game(board, toMove, rng, t0))
      invariant !over ==> t - t0 + |Game(b, p, rng, t)| == |Game(board, toMove, rng, t0)|
      decreases !over, |LegalMoves(b)|, if p == EMPTY then 1 else 0
    {
      over, w, b, p, t := PlayoutMove(b, p, rng, t);
    }
  }

  /** One round of the playout loop: report the winner if the game is over,
      otherwise play the drawn move. */
  method PlayoutMove(b: Board, p: int, rng: nat -> nat, t: nat)
    returns (over: bool, w: int, b': Board, p': int, t': nat)
    requires IsSquare(b)
    ensures IsSquare(b')
    ensures over ==> w == WinnerOf(Last(Game(b, p, rng, t)).board)
    ensures over ==> t' == t && |Game(b, p, rng, t)| == 1
    ensures !over ==> Last(Game(b', p', rng, t')) == Last(Game(b, p, rng, t))
    ensures !over ==> t' == t + 1 && |Game(b, p, rng, t)| == |Game(b', p', rng, t')| + 1
    ensures !over ==> (|LegalMoves(b')| < |LegalMoves(b)| || (|LegalMoves(b')| == |LegalMoves(b)| && p == EMPTY && p' != EMPTY))
  {
    w := Winner(b);
    var moves := LegalMoves(b);
    if w != 0 || |moves| == 0 {
      GameOver(b, p, rng, t);
      return true, w, b, p, t;
    }
    var m := moves[rng(t) % |moves|];
    PlayoutStep(b, p, rng, t);
    return false, w, ApplyMove(b, m, p), Opposite(p), t + 1;
  }

  /** A won or full board is the last position of its game. */
  lemma GameOver(b: Board, p: int, rng: nat -> nat, t: nat)
    requires IsSquare(b) && IsFinal(b)
    ensures Game(b, p, rng, t) == [Position(b, p)]
    ensures Last(Game(b, p, rng, t)) == Position(b, p)
  {
  }

  /** One move of the playout: the game goes on from the board the drawn
      move produces, and the measure of the loop goes down. */
  lemma PlayoutStep(b: Board, p: int, rng: nat -> nat, t: nat)
    requires IsSquare(b) && !IsFinal(b)
    ensures var moves := LegalMoves(b);
      |moves| > 0 &&
      Last(Game(b, p, rng, t)) == Last(Game(ApplyMove(b, moves[rng(t) % |moves|], p), Opposite(p), rng, t + 1)) &&
      |Game(b, p, rng, t)| == |Game(ApplyMove(b, moves[rng(t) % |moves|], p), Opposite(p), rng, t + 1)| + 1 &&
      (p != EMPTY ==> |LegalMoves(ApplyMove(b, moves[rng(t) % |moves|], p))| < |moves|) &&
      (p == EMPTY ==> ApplyMove(b, moves[rng(t) % |moves|], p) == b)
  {
    GameLastNext(b, p, rng, t);
    GameUnfold(b, p, rng, t);
    NextDecreases(b, p, rng(t));
  }

  /** Position k of a game, short of the last, is undecided and has a
      legal move. */
  lemma {:induction false} GameOpenAt(b: Board, p: int, rng: nat -> nat, t: nat, k: int)
    requires IsSquare(b) && 0 <= k < |Game(b, p, rng, t)| - 1
    ensures !IsFinal(Game(b, p, rng, t)[k].board)
    decreases |LegalMoves(b)|, if p == EMPTY then 1 else 0
  {
    if k > 0 {
      GameUnfold(b, p, rng, t);
      var b2 := NextBoard(b, p, rng(t));
      NextDecreases(b, p, rng(t));
      GameOpenAt(b2, Opposite(p), rng, t + 1, k - 1);
      ConsAt(Position(b, p), Game(b2, Opposite(p), rng, t + 1), k);
    }
  }

  /** Every position before the last is undecided and has a legal move. */
  lemma GameStops(b: Board, p: int, rng: nat -> nat, t: nat)
    requires IsSquare(b)
    ensures var g := Game(b, p, rng, t); forall k :: 0 <= k < |g| - 1 ==> !IsFinal(g[k].board)
  {
    var g := Game(b, p, rng, t);
    forall k | 0 <= k < |g| - 1 ensures !IsFinal(g[k].board) {
      GameOpenAt(b, p, rng, t, k);
    }
  }

  /** The last position of a game is won or full. */
  lemma {:induction false} GameEnds(b: Board, p: int, rng: nat -> nat, t: nat)
    requires IsSquare(b)
    ensures IsFinal(Last(Game(b, p, rng, t)).board)
    decreases |LegalMoves(b)|, if p == EMPTY then 1 else 0
  {
    if !IsFinal(b) {
      GameLastNext(b, p, rng, t);
      NextDecreases(b, p, rng(t));
      GameEnds(NextBoard(b, p, rng(t)), Opposite(p), rng, t + 1);
    }
  }

  /** Successive positions alternate the side to move, and each board is
      the previous one after its side to move played a legal move. */
  lemma {:induction false} GameAlternates(b: Board, p: int, rng: nat -> nat, t: nat)
    requires IsSquare(b)
    ensures var g := Game(b, p, rng, t);
      forall k :: 0 <= k < |g| - 1 ==>
        g[k + 1].toMove == Opposite(g[k].toMove) && PlayedFrom(g[k].board, g[k].toMove, g[k + 1].board)
    decreases |LegalMoves(b)|, if p == EMPTY then 1 else 0
  {
    var g := Game(b, p, rng, t);
    if !IsFinal(b) {
      GameUnfold(b, p, rng, t);
      var b2 := NextBoard(b, p, rng(t));
      NextDecreases(b, p, rng(t));
      var g2 := Game(b2, Opposite(p), rng, t + 1);
      GameAlternates(b2, Opposite(p), rng, t + 1);
      forall k | 0 <= k < |g| - 1
        ensures g[k + 1].toMove == Opposite(g[k].toMove) && PlayedFrom(g[k].board, g[k].toMove, g[k + 1].board)
      {
        ConsAt(Position(b, p), g2, k + 1);
        if k > 0 {
          ConsAt(Position(b, p), g2, k);
        }
      }
    }
  }

  /** A game visits at most one position per empty cell, plus the first
      (one more when the first side to move is EMPTY, whose "move" leaves
      the board unchanged); a won or full board gives a one-position game. */
  lemma {:induction false} GameLength(b: Board, p: int, rng: nat -> nat, t: nat)
    requires IsSquare(b)
    ensures |Game(b, p, rng, t)| <= |LegalMoves(b)| + (if p == EMPTY then 2 else 1)
    ensures IsFinal(b) ==> |Game(b, p, rng, t)| == 1
    decreases |LegalMoves(b)|, if p == EMPTY then 1 else 0
  {
    if !IsFinal(b) {
      NextDecreases(b, p, rng(t));
      GameLength(NextBoard(b, p, rng(t)), Opposite(p), rng, t + 1);
    }
  }
}
