/** The graph encoder: every position becomes one graph of a batch, with a
    node per cell plus four goal nodes, edges along the six hex directions
    and to the goal nodes, and symbolic properties on the cell nodes. The
    graph library itself is modelled by the calls made to it, recorded in
    order in the logs of class `Graphs`. */
module Encode {
  import opened Axial
  import opened HexBoard
  import opened Blocks

  /** Edge labels by direction index (the order of `Offsets`). */
  const EdgeTypes: seq<string> := ["NE", "E", "SE", "SW", "W", "NW"]

  /** Edge symbols: the six direction labels plus "E" again for goal edges. */
  const EdgeSyms: seq<string> := EdgeTypes + ["E"]

  /** Node property symbols. */
  const Syms: seq<string> :=
    ["X", "O", "Empty", "SideTop", "SideBottom", "SideLeft", "SideRight", "ToMoveX", "ToMoveO"]

  /** Node names: `C(k)` stands for the name "C" followed by the decimal
      digits of k; the four goal nodes have names of their own. */
  datatype NodeName = C(k: int) | XTop | XBottom | OLeft | ORight

  /** A node declaration: its name and its number of edges. */
  datatype Node = Node(name: NodeName, capacity: int)

  /** An edge declaration: source, destination and edge type. */
  datatype Edge = Edge(src: NodeName, dst: NodeName, etype: string)

  /** A node property: the node and the symbol it carries. */
  datatype Property = Property(name: NodeName, symbol: string)

  // ---------------------------------------------------------------------
  // _idx and neighbors_axial

  lemma IdxBound(i: int, j: int, n: int)
    requires InBoard(n, i, j)
    ensures 0 <= i * n + j < n * n
  {
    RowsApart(i, n, n);
    if 0 < i {
      RowsApart(0, i, n);
    }
  }

  /** `_idx`: the node index of cell (i, j), row-major. */
  function Idx(i: int, j: int, n: int): (k: int)
    ensures InBoard(n, i, j) ==> 0 <= k < n * n
  {
    if InBoard(n, i, j) then IdxBound(i, j, n); i * n + j else i * n + j
  }

  /** k * n grows by at least n with each extra row. */
  lemma {:induction false} RowsApart(a: int, b: int, n: int)
    requires 0 <= a < b && 0 <= n
    ensures a * n + n <= b * n
    decreases b - a
  {
    if a + 1 < b {
      RowsApart(a + 1, b, n);
    }
    assert (a + 1) * n == a * n + n;
  }

  /** Rows from n on start at n * n or later. */
  lemma RowsBeyond(q: int, n: nat)
    requires n <= q
    ensures n * n <= q * n
  {
    if n > 0 {
      RowsApart(n - 1, q, n);
      assert (n - 1) * n + n == n * n;
    }
  }

  /** Distinct cells get distinct indices. */
  lemma IdxInjective(n: int, i: int, j: int, i2: int, j2: int)
    requires InBoard(n, i, j) && InBoard(n, i2, j2)
    ensures Idx(i, j, n) == Idx(i2, j2, n) <==> i == i2 && j == j2
  {
    if i < i2 {
      RowsApart(i, i2, n);
    } else if i2 < i {
      RowsApart(i2, i, n);
    }
  }

  /** Every index below n * n is the index of exactly the cell it divides
      into. */
  lemma IdxOnto(n: nat, k: int)
    requires 0 <= k < n * n
    ensures InBoard(n, k / n, k % n) && Idx(k / n, k % n, n) == k
  {
    var q, r := k / n, k % n;
    assert k == q * n + r && 0 <= r < n;
    if q < 0 {
      RowsApart(q, 0, n);
    } else if q >= n {
      RowsBeyond(q, n);
    }
  }

  /** The in-board neighbours of (i, j) in directions d, d + 1, ..., 5, as
      (direction, row, column). */
  function NeighborsFrom(i: int, j: int, n: int, d: nat): (r: seq<(int, int, int)>)
    requires d <= 6
    ensures |r| <= 6 - d
    ensures forall k :: 0 <= k < |r| ==>
      d <= r[k].0 < 6 && InBoard(n, r[k].1, r[k].2) && Step((i, j), r[k].0) == (r[k].1, r[k].2)
    decreases 6 - d
  {
    if d == 6 then []
    else
      var c := Step((i, j), d);
      (if InBoard(n, c.0, c.1) then [(d, c.0, c.1)] else []) + NeighborsFrom(i, j, n, d + 1)
  }

  /** `neighbors_axial`: the in-board neighbours of (i, j), each with the
      direction that leads to it. */
  function NeighborsAxial(i: int, j: int, n: int): (r: seq<(int, int, int)>)
    ensures |r| <= 6
    ensures forall k :: 0 <= k < |r| ==>
      0 <= r[k].0 < 6 && InBoard(n, r[k].1, r[k].2) && Step((i, j), r[k].0) == (r[k].1, r[k].2)
  {
    NeighborsFrom(i, j, n, 0)
  }

  /** No in-board neighbour is missed. */
  lemma {:induction false} NeighborsFromHas(i: int, j: int, n: int, d: nat, e: int)
    requires d <= e < 6 && InBoard(n, Step((i, j), e).0, Step((i, j), e).1)
    ensures (e, Step((i, j), e).0, Step((i, j), e).1) in NeighborsFrom(i, j, n, d)
    decreases 6 - d
  {
    var rest := NeighborsFrom(i, j, n, d + 1);
    if d < e {
      NeighborsFromHas(i, j, n, d + 1, e);
      var k :| 0 <= k < |rest| && rest[k] == (e, Step((i, j), e).0, Step((i, j), e).1);
    }
  }

  /** Directions strictly increase along `r`. */
  ghost predicate Increasing(r: seq<(int, int, int)>) {
    forall k, l :: 0 <= k < l < |r| ==> r[k].0 < r[l].0
  }

  /** An entry before every direction of an increasing sequence keeps it
      increasing. */
  lemma IncreasingCons(x: (int, int, int), rest: seq<(int, int, int)>)
    requires Increasing(rest) && forall k :: 0 <= k < |rest| ==> x.0 < rest[k].0
    ensures Increasing([x] + rest)
  {
    var r := [x] + rest;
    forall k, l | 0 <= k < l < |r| ensures r[k].0 < r[l].0 {
      assert r[l] == rest[l - 1];
      if k > 0 {
        assert r[k] == rest[k - 1];
      }
    }
  }

  /** Directions come out in increasing order. */
  lemma {:induction false} NeighborsFromSorted(i: int, j: int, n: int, d: nat)
    requires d <= 6
    ensures Increasing(NeighborsFrom(i, j, n, d))
    decreases 6 - d
  {
    if d < 6 {
      NeighborsFromSorted(i, j, n, d + 1);
      var c := Step((i, j), d);
      var rest := NeighborsFrom(i, j, n, d + 1);
      if InBoard(n, c.0, c.1) {
        assert NeighborsFrom(i, j, n, d) == [(d, c.0, c.1)] + rest;
        IncreasingCons((d, c.0, c.1), rest);
      } else {
        assert NeighborsFrom(i, j, n, d) == rest;
      }
    }
  }

  /** The neighbours of a cell are exactly the in-board cells one step away,
      in increasing direction order. */
  lemma NeighborsExact(i: int, j: int, n: int)
    ensures forall d :: 0 <= d < 6 ==>
      ((d, Step((i, j), d).0, Step((i, j), d).1) in NeighborsAxial(i, j, n) <==> InBoard(n, Step((i, j), d).0, Step((i, j), d).1))
    ensures forall k, l :: 0 <= k < l < |NeighborsAxial(i, j, n)| ==>
      NeighborsAxial(i, j, n)[k].0 < NeighborsAxial(i, j, n)[l].0
  {
    forall d | 0 <= d < 6 && InBoard(n, Step((i, j), d).0, Step((i, j), d).1)
      ensures (d, Step((i, j), d).0, Step((i, j), d).1) in NeighborsAxial(i, j, n)
    {
      NeighborsFromHas(i, j, n, 0, d);
    }
    NeighborsFromSorted(i, j, n, 0);
  }

  /** A neighbour in direction d sees the cell back in direction
      (d + 3) mod 6. */
  lemma NeighborBack(n: int, a: Cell, b: Cell, d: int)
    requires InBoard(n, a.0, a.1) && 0 <= d < 6
    requires (d, b.0, b.1) in NeighborsAxial(a.0, a.1, n)
    ensures ((d + 3) % 6, a.0, a.1) in NeighborsAxial(b.0, b.1, n)
  {
    var na := NeighborsAxial(a.0, a.1, n);
    var k :| 0 <= k < |na| && na[k] == (d, b.0, b.1);
    assert Step(a, d) == b;
    StepBack(a, d);
    NeighborsFromHas(b.0, b.1, n, 0, (d + 3) % 6);
  }

  /** b is the neighbour of a in direction d exactly when a is the
      neighbour of b in the opposite direction (d + 3) mod 6. */
  lemma NeighborsSymmetric(n: int, a: Cell, b: Cell, d: int)
    requires InBoard(n, a.0, a.1) && InBoard(n, b.0, b.1) && 0 <= d < 6
    ensures (d, b.0, b.1) in NeighborsAxial(a.0, a.1, n) <==> ((d + 3) % 6, a.0, a.1) in NeighborsAxial(b.0, b.1, n)
  {
    var e := (d + 3) % 6;
    assert (e + 3) % 6 == d;
    if (d, b.0, b.1) in NeighborsAxial(a.0, a.1, n) {
      NeighborBack(n, a, b, d);
    }
    if (e, a.0, a.1) in NeighborsAxial(b.0, b.1, n) {
      NeighborBack(n, b, a, e);
    }
  }

  // ---------------------------------------------------------------------
  // The nodes init_topology declares for one graph

  /** The cell nodes C0 .. C(m - 1), each with room for six edges. */
  function CellNodes(m: nat): seq<Node> {
    Concat(k => [Node(C(k), 6)], m)
  }

  /** The four goal nodes, each with room for n * n edges. */
  function GoalNodes(n: nat): seq<Node> {
    [Node(XTop, n * n), Node(XBottom, n * n), Node(OLeft, n * n), Node(ORight, n * n)]
  }

  function GraphNodes(n: nat): seq<Node> {
    CellNodes(n * n) + GoalNodes(n)
  }

  /** A graph has n * n + 4 nodes, declared once each: cell k is C(k) with
      capacity 6, and the last four are the goal nodes with capacity n * n. */
  lemma GraphNodesLayout(n: nat)
    ensures |GraphNodes(n)| == n * n + 4
    ensures forall k :: 0 <= k < n * n ==> GraphNodes(n)[k] == Node(C(k), 6)
    ensures forall k :: n * n <= k < n * n + 4 ==>
      !GraphNodes(n)[k].name.C? && GraphNodes(n)[k].capacity == n * n
    ensures forall k, l :: 0 <= k < l < n * n + 4 ==> GraphNodes(n)[k].name != GraphNodes(n)[l].name
  {
    var f := k => [Node(C(k), 6)];
    assert CellNodes(n * n) == Concat(f, n * n);
    ConcatLength(f, n * n, 1);
    forall k | 0 <= k < n * n ensures CellNodes(n * n)[k] == Node(C(k), 6) {
      ConcatAt(f, n * n, 1, k, 0);
    }
  }

  // ---------------------------------------------------------------------
  // The edges init_topology declares for one graph

  /** The edge from cell (i, j) to its neighbour in direction d, tagged
      with that direction's edge type. */
  function DirEdge(n: int, i: int, j: int, d: int): Edge
    requires 0 <= d < 6
  {
    var c := Step((i, j), d);
    Edge(C(Idx(i, j, n)), C(Idx(c.0, c.1, n)), EdgeTypes[d])
  }

  /** Reference description of the adjacency edges: one per board cell and
      direction whose step stays on the board. */
  ghost predicate AdjacencyEdge(n: int, e: Edge) {
    exists i, j, d :: InBoard(n, i, j) && 0 <= d < 6 &&
      InBoard(n, Step((i, j), d).0, Step((i, j), d).1) && e == DirEdge(n, i, j, d)
  }

  /** The edges out of cell (i, j), in the order its neighbours come. */
  function CellEdges(n: int, i: int, j: int): (r: seq<Edge>)
    ensures |r| <= 6
  {
    var ns := NeighborsAxial(i, j, n);
    seq(|ns|, k requires 0 <= k < |ns| => Edge(C(Idx(i, j, n)), C(Idx(ns[k].1, ns[k].2, n)), EdgeTypes[ns[k].0]))
  }

  /** The edges of cells (i, 0) .. (i, m - 1). */
  function RowEdges(n: nat, i: int, m: nat): seq<Edge> {
    Concat(j => CellEdges(n, i, j), m)
  }

  /** The edges of rows 0 .. m - 1. */
  function AdjacencyEdges(n: nat, m: nat): seq<Edge> {
    Concat(i => RowEdges(n, i, n), m)
  }

  /** The two X goal edges of column j: XTop to (0, j), then (n - 1, j)
      to XBottom. */
  function GoalPairX(n: int, j: int): seq<Edge> {
    [Edge(XTop, C(Idx(0, j, n)), "E"), Edge(C(Idx(n - 1, j, n)), XBottom, "E")]
  }

  /** The two O goal edges of row i: OLeft to (i, 0), then (i, n - 1) to
      ORight. */
  function GoalPairO(n: int, i: int): seq<Edge> {
    [Edge(OLeft, C(Idx(i, 0, n)), "E"), Edge(C(Idx(i, n - 1, n)), ORight, "E")]
  }

  /** The X goal edges of columns 0 .. m - 1. */
  function GoalEdgesX(n: nat, m: nat): seq<Edge> {
    Concat(j => GoalPairX(n, j), m)
  }

  /** The O goal edges of rows 0 .. m - 1. */
  function GoalEdgesO(n: nat, m: nat): seq<Edge> {
    Concat(i => GoalPairO(n, i), m)
  }

  function GraphEdges(n: nat): seq<Edge> {
    AdjacencyEdges(n, n) + GoalEdgesX(n, n) + GoalEdgesO(n, n)
  }

  /** Entry k of a cell's edges joins the cell to its k-th neighbour. */
  lemma CellEdgeEntry(n: int, i: int, j: int, k: int)
    requires 0 <= k < |NeighborsAxial(i, j, n)|
    ensures var nb := NeighborsAxial(i, j, n)[k];
      |CellEdges(n, i, j)| == |NeighborsAxial(i, j, n)| &&
      CellEdges(n, i, j)[k] == Edge(C(Idx(i, j, n)), C(Idx(nb.1, nb.2, n)), EdgeTypes[nb.0])
  {
  }

  /** Entry k of a cell's edges is the edge in the direction of its k-th
      neighbour. */
  lemma CellEdgeAt(n: int, i: int, j: int, k: int)
    requires 0 <= k < |CellEdges(n, i, j)|
    ensures var d := NeighborsAxial(i, j, n)[k].0;
      0 <= d < 6 && InBoard(n, Step((i, j), d).0, Step((i, j), d).1) &&
      CellEdges(n, i, j)[k] == DirEdge(n, i, j, d)
  {
  }

  /** The edge towards an on-board neighbour is among the cell's edges. */
  lemma CellEdgeOfDir(n: int, i: int, j: int, d: int)
    requires 0 <= d < 6 && InBoard(n, Step((i, j), d).0, Step((i, j), d).1)
    ensures DirEdge(n, i, j, d) in CellEdges(n, i, j)
  {
    var ns, es := NeighborsAxial(i, j, n), CellEdges(n, i, j);
    NeighborsFromHas(i, j, n, 0, d);
    var k :| 0 <= k < |ns| && ns[k] == (d, Step((i, j), d).0, Step((i, j), d).1);
    assert es[k] == DirEdge(n, i, j, d);
  }

  /** The edges out of a cell are exactly those to its on-board
      neighbours, each tagged with the direction it goes in. */
  lemma CellEdgesMember(n: int, i: int, j: int, e: Edge)
    ensures e in CellEdges(n, i, j) <==>
      exists d :: 0 <= d < 6 && InBoard(n, Step((i, j), d).0, Step((i, j), d).1) && e == DirEdge(n, i, j, d)
  {
    var es := CellEdges(n, i, j);
    if e in es {
      var k :| 0 <= k < |es| && es[k] == e;
      CellEdgeAt(n, i, j, k);
    }
    if exists d :: 0 <= d < 6 && InBoard(n, Step((i, j), d).0, Step((i, j), d).1) && e == DirEdge(n, i, j, d) {
      var d :| 0 <= d < 6 && InBoard(n, Step((i, j), d).0, Step((i, j), d).1) && e == DirEdge(n, i, j, d);
      CellEdgeOfDir(n, i, j, d);
    }
  }

  /** An edge of row i comes from one of the row's cells, and every edge
      of each of its cells is in it. */
  lemma RowEdgesMember(n: nat, i: int, e: Edge)
    ensures e in RowEdges(n, i, n) <==> exists j :: 0 <= j < n && e in CellEdges(n, i, j)
  {
    var cells := j => CellEdges(n, i, j);
    assert RowEdges(n, i, n) == Concat(cells, n);
    ConcatMember(cells, n, e);
    if e in RowEdges(n, i, n) {
      var j :| 0 <= j < n && e in cells(j);
      assert e in CellEdges(n, i, j);
    }
    if exists j :: 0 <= j < n && e in CellEdges(n, i, j) {
      var j :| 0 <= j < n && e in CellEdges(n, i, j);
      assert e in cells(j);
    }
  }

  /** Every adjacency edge joins an on-board cell to its neighbour. */
  lemma AdjacencyEdgesSound(n: nat, e: Edge)
    requires e in AdjacencyEdges(n, n)
    ensures AdjacencyEdge(n, e)
  {
    var rows := i => RowEdges(n, i, n);
    assert AdjacencyEdges(n, n) == Concat(rows, n);
    ConcatMember(rows, n, e);
    var i :| 0 <= i < n && e in RowEdges(n, i, n);
    RowEdgesMember(n, i, e);
    var j :| 0 <= j < n && e in CellEdges(n, i, j);
    CellEdgesMember(n, i, j, e);
    var d :| 0 <= d < 6 && InBoard(n, Step((i, j), d).0, Step((i, j), d).1) && e == DirEdge(n, i, j, d);
    assert InBoard(n, i, j);
  }

  /** Every on-board neighbour pair gets its adjacency edge. */
  lemma AdjacencyEdgesComplete(n: nat, e: Edge)
    requires AdjacencyEdge(n, e)
    ensures e in AdjacencyEdges(n, n)
  {
    var i, j, d :| InBoard(n, i, j) && 0 <= d < 6 &&
      InBoard(n, Step((i, j), d).0, Step((i, j), d).1) && e == DirEdge(n, i, j, d);
    CellEdgesMember(n, i, j, e);
    RowEdgesMember(n, i, e);
    var rows := i => RowEdges(n, i, n);
    assert AdjacencyEdges(n, n) == Concat(rows, n);
    ConcatMember(rows, n, e);
    assert rows(i) == RowEdges(n, i, n);
  }

  /** The adjacency edges of all n rows are exactly the reference set. */
  lemma AdjacencyEdgesExact(n: nat, e: Edge)
    ensures e in AdjacencyEdges(n, n) <==> AdjacencyEdge(n, e)
  {
    if e in AdjacencyEdges(n, n) {
      AdjacencyEdgesSound(n, e);
    }
    if AdjacencyEdge(n, e) {
      AdjacencyEdgesComplete(n, e);
    }
  }

  /** Reference description of the goal edges: tagged "E", the east label,
      and joining XTop to the top row, the bottom row to XBottom, OLeft to
      the left column and the right column to ORight. */
  ghost predicate GoalEdge(n: int, e: Edge) {
    e.etype == EdgeTypes[1] &&
    exists i, j :: InBoard(n, i, j) &&
      ((e.src == XTop && e.dst == C(Idx(i, j, n)) && i == 0) ||
       (e.src == C(Idx(i, j, n)) && e.dst == XBottom && i == n - 1) ||
       (e.src == OLeft && e.dst == C(Idx(i, j, n)) && j == 0) ||
       (e.src == C(Idx(i, j, n)) && e.dst == ORight && j == n - 1))
  }

  lemma GoalEdgesXMember(n: nat, e: Edge)
    ensures e in GoalEdgesX(n, n) <==> exists j :: 0 <= j < n && e in GoalPairX(n, j)
  {
    var f := j => GoalPairX(n, j);
    assert GoalEdgesX(n, n) == Concat(f, n);
    ConcatMember(f, n, e);
    if e in GoalEdgesX(n, n) {
      var j :| 0 <= j < n && e in f(j);
      assert e in GoalPairX(n, j);
    }
    if exists j :: 0 <= j < n && e in GoalPairX(n, j) {
      var j :| 0 <= j < n && e in GoalPairX(n, j);
      assert e in f(j);
    }
  }

  lemma GoalEdgesOMember(n: nat, e: Edge)
    ensures e in GoalEdgesO(n, n) <==> exists i :: 0 <= i < n && e in GoalPairO(n, i)
  {
    var f := i => GoalPairO(n, i);
    assert GoalEdgesO(n, n) == Concat(f, n);
    ConcatMember(f, n, e);
    if e in GoalEdgesO(n, n) {
      var i :| 0 <= i < n && e in f(i);
      assert e in GoalPairO(n, i);
    }
    if exists i :: 0 <= i < n && e in GoalPairO(n, i) {
      var i :| 0 <= i < n && e in GoalPairO(n, i);
      assert e in f(i);
    }
  }

  /** The goal edges of both players are exactly the reference set. */
  lemma GoalEdgesExact(n: nat, e: Edge)
    ensures e in GoalEdgesX(n, n) + GoalEdgesO(n, n) <==> GoalEdge(n, e)
  {
    GoalEdgesXMember(n, e);
    GoalEdgesOMember(n, e);
    if e in GoalEdgesX(n, n) {
      var j :| 0 <= j < n && e in GoalPairX(n, j);
      if e.src == XTop {
        assert InBoard(n, 0, j);
      } else {
        assert InBoard(n, n - 1, j);
      }
    } else if e in GoalEdgesO(n, n) {
      var i :| 0 <= i < n && e in GoalPairO(n, i);
      if e.src == OLeft {
        assert InBoard(n, i, 0);
      } else {
        assert InBoard(n, i, n - 1);
      }
    }
    if GoalEdge(n, e) {
      var i, j :| InBoard(n, i, j) &&
        ((e.src == XTop && e.dst == C(Idx(i, j, n)) && i == 0) ||
         (e.src == C(Idx(i, j, n)) && e.dst == XBottom && i == n - 1) ||
         (e.src == OLeft && e.dst == C(Idx(i, j, n)) && j == 0) ||
         (e.src == C(Idx(i, j, n)) && e.dst == ORight && j == n - 1));
      if e.src == XTop || e.dst == XBottom {
        assert e in GoalPairX(n, j);
      } else {
        assert e in GoalPairO(n, i);
      }
    }
  }

  /** The edges of a graph are exactly the adjacency edges and the goal
      edges of the reference description. */
  lemma GraphEdgesExact(n: nat, e: Edge)
    ensures e in GraphEdges(n) <==> AdjacencyEdge(n, e) || GoalEdge(n, e)
  {
    var adjacency, goals := AdjacencyEdges(n, n), GoalEdgesX(n, n) + GoalEdgesO(n, n);
    assert GraphEdges(n) == adjacency + goals;
    assert e in GraphEdges(n) <==> e in adjacency || e in goals;
    AdjacencyEdgesExact(n, e);
    GoalEdgesExact(n, e);
  }

  /** Adjacency edges join two cells. */
  lemma AdjacencyEnds(n: nat, e: Edge)
    requires e in AdjacencyEdges(n, n)
    ensures e.src.C? && e.dst.C?
  {
    AdjacencyEdgesSound(n, e);
  }

  /** X goal edges are labelled "E" and run from XTop into the top row or
      from the bottom row into XBottom. */
  lemma GoalEndsX(n: nat, e: Edge)
    requires e in GoalEdgesX(n, n)
    ensures e.etype == "E"
    ensures e.src == XTop ==> exists j :: 0 <= j < n && e.dst == C(Idx(0, j, n))
    ensures e.src != XTop ==> e.dst == XBottom && exists r, j :: r == n - 1 && 0 <= j < n && e.src == C(Idx(r, j, n))
  {
    GoalEdgesXMember(n, e);
    var j :| 0 <= j < n && e in GoalPairX(n, j);
  }

  /** O goal edges are labelled "E" and run from OLeft into the left column
      or from the right column into ORight. */
  lemma GoalEndsO(n: nat, e: Edge)
    requires e in GoalEdgesO(n, n)
    ensures e.etype == "E"
    ensures e.src == OLeft ==> exists i :: 0 <= i < n && e.dst == C(Idx(i, 0, n))
    ensures e.src != OLeft ==> e.dst == ORight && exists i, c :: c == n - 1 && 0 <= i < n && e.src == C(Idx(i, c, n))
  {
    GoalEdgesOMember(n, e);
    var i :| 0 <= i < n && e in GoalPairO(n, i);
  }

  /** An edge of a graph is an adjacency edge or a goal edge of one of the
      players. */
  lemma GraphEdgeParts(n: nat, e: Edge)
    ensures e in GraphEdges(n) <==> e in AdjacencyEdges(n, n) || e in GoalEdgesX(n, n) || e in GoalEdgesO(n, n)
  {
  }

  /** A graph edge at XTop or XBottom is an X goal edge. */
  lemma GoalOnlyX(n: nat, e: Edge)
    requires e in GraphEdges(n) && (e.src == XTop || e.dst == XBottom)
    ensures e in GoalEdgesX(n, n)
  {
    GraphEdgeParts(n, e);
    if e in AdjacencyEdges(n, n) {
      AdjacencyEnds(n, e);
    } else if e in GoalEdgesO(n, n) {
      GoalEndsO(n, e);
    }
  }

  /** A graph edge at OLeft or ORight is an O goal edge. */
  lemma GoalOnlyO(n: nat, e: Edge)
    requires e in GraphEdges(n) && (e.src == OLeft || e.dst == ORight)
    ensures e in GoalEdgesO(n, n)
  {
    GraphEdgeParts(n, e);
    if e in AdjacencyEdges(n, n) {
      AdjacencyEnds(n, e);
    } else if e in GoalEdgesX(n, n) {
      GoalEndsX(n, e);
    }
  }

  lemma GoalEdgeTopSound(n: nat, i: int, j: int, t: string)
    requires InBoard(n, i, j) && Edge(XTop, C(Idx(i, j, n)), t) in GraphEdges(n)
    ensures i == 0 && t == "E"
  {
    var e := Edge(XTop, C(Idx(i, j, n)), t);
    GoalOnlyX(n, e);
    GoalEndsX(n, e);
    var j2 :| 0 <= j2 < n && e.dst == C(Idx(0, j2, n));
    IdxInjective(n, i, j, 0, j2);
  }

  lemma GoalEdgeTopPresent(n: nat, i: int, j: int)
    requires InBoard(n, i, j) && i == 0
    ensures Edge(XTop, C(Idx(i, j, n)), "E") in GraphEdges(n)
  {
    var e := Edge(XTop, C(Idx(i, j, n)), "E");
    GoalEdgesXMember(n, e);
    assert e in GoalPairX(n, j);
  }

  /** XTop is linked to a cell exactly when the cell lies in the top row,
      and only by an edge labelled "E". */
  lemma GoalEdgeTop(n: nat, i: int, j: int, t: string)
    requires InBoard(n, i, j)
    ensures Edge(XTop, C(Idx(i, j, n)), t) in GraphEdges(n) <==> i == 0 && t == "E"
  {
    if Edge(XTop, C(Idx(i, j, n)), t) in GraphEdges(n) {
      GoalEdgeTopSound(n, i, j, t);
    }
    if i == 0 && t == "E" {
      GoalEdgeTopPresent(n, i, j);
    }
  }

  lemma GoalEdgeBottomSound(n: nat, i: int, j: int, t: string)
    requires InBoard(n, i, j) && Edge(C(Idx(i, j, n)), XBottom, t) in GraphEdges(n)
    ensures i == n - 1 && t == "E"
  {
    var e := Edge(C(Idx(i, j, n)), XBottom, t);
    GoalOnlyX(n, e);
    GoalEndsX(n, e);
    var r, j2 :| r == n - 1 && 0 <= j2 < n && e.src == C(Idx(r, j2, n));
    IdxInjective(n, i, j, r, j2);
  }

  lemma GoalEdgeBottomPresent(n: nat, i: int, j: int)
    requires InBoard(n, i, j) && i == n - 1
    ensures Edge(C(Idx(i, j, n)), XBottom, "E") in GraphEdges(n)
  {
    var e := Edge(C(Idx(i, j, n)), XBottom, "E");
    GoalEdgesXMember(n, e);
    assert e in GoalPairX(n, j);
  }

  /** A cell is linked to XBottom exactly when it lies in the bottom row,
      and only by an edge labelled "E". */
  lemma GoalEdgeBottom(n: nat, i: int, j: int, t: string)
    requires InBoard(n, i, j)
    ensures Edge(C(Idx(i, j, n)), XBottom, t) in GraphEdges(n) <==> i == n - 1 && t == "E"
  {
    if Edge(C(Idx(i, j, n)), XBottom, t) in GraphEdges(n) {
      GoalEdgeBottomSound(n, i, j, t);
    }
    if i == n - 1 && t == "E" {
      GoalEdgeBottomPresent(n, i, j);
    }
  }

  lemma GoalEdgeLeftSound(n: nat, i: int, j: int, t: string)
    requires InBoard(n, i, j) && Edge(OLeft, C(Idx(i, j, n)), t) in GraphEdges(n)
    ensures j == 0 && t == "E"
  {
    var e := Edge(OLeft, C(Idx(i, j, n)), t);
    GoalOnlyO(n, e);
    GoalEndsO(n, e);
    var i2 :| 0 <= i2 < n && e.dst == C(Idx(i2, 0, n));
    IdxInjective(n, i, j, i2, 0);
  }

  lemma GoalEdgeLeftPresent(n: nat, i: int, j: int)
    requires InBoard(n, i, j) && j == 0
    ensures Edge(OLeft, C(Idx(i, j, n)), "E") in GraphEdges(n)
  {
    var e := Edge(OLeft, C(Idx(i, j, n)), "E");
    GoalEdgesOMember(n, e);
    assert e in GoalPairO(n, i);
  }

  /** OLeft is linked to a cell exactly when the cell lies in the left
      column, and only by an edge labelled "E". */
  lemma GoalEdgeLeft(n: nat, i: int, j: int, t: string)
    requires InBoard(n, i, j)
    ensures Edge(OLeft, C(Idx(i, j, n)), t) in GraphEdges(n) <==> j == 0 && t == "E"
  {
    if Edge(OLeft, C(Idx(i, j, n)), t) in GraphEdges(n) {
      GoalEdgeLeftSound(n, i, j, t);
    }
    if j == 0 && t == "E" {
      GoalEdgeLeftPresent(n, i, j);
    }
  }

  lemma GoalEdgeRightSound(n: nat, i: int, j: int, t: string)
    requires InBoard(n, i, j) && Edge(C(Idx(i, j, n)), ORight, t) in GraphEdges(n)
    ensures j == n - 1 && t == "E"
  {
    var e := Edge(C(Idx(i, j, n)), ORight, t);
    GoalOnlyO(n, e);
    GoalEndsO(n, e);
    var i2, c :| c == n - 1 && 0 <= i2 < n && e.src == C(Idx(i2, c, n));
    IdxInjective(n, i, j, i2, c);
  }

  lemma GoalEdgeRightPresent(n: nat, i: int, j: int)
    requires InBoard(n, i, j) && j == n - 1
    ensures Edge(C(Idx(i, j, n)), ORight, "E") in GraphEdges(n)
  {
    var e := Edge(C(Idx(i, j, n)), ORight, "E");
    GoalEdgesOMember(n, e);
    assert e in GoalPairO(n, i);
  }

  /** A cell is linked to ORight exactly when it lies in the right column,
      and only by an edge labelled "E". */
  lemma GoalEdgeRight(n: nat, i: int, j: int, t: string)
    requires InBoard(n, i, j)
    ensures Edge(C(Idx(i, j, n)), ORight, t) in GraphEdges(n) <==> j == n - 1 && t == "E"
  {
    if Edge(C(Idx(i, j, n)), ORight, t) in GraphEdges(n) {
      GoalEdgeRightSound(n, i, j, t);
    }
    if j == n - 1 && t == "E" {
      GoalEdgeRightPresent(n, i, j);
    }
  }

  /** The cell-to-cell edges leaving a cell are exactly those to its
      on-board neighbours, tagged with their directions; there are at most
      six of them, the capacity each cell node is declared with. */
  lemma CellOutEdges(n: nat, i: int, j: int, e: Edge)
    requires InBoard(n, i, j) && e.src == C(Idx(i, j, n)) && e.dst.C?
    ensures e in GraphEdges(n) <==> e in CellEdges(n, i, j)
    ensures |CellEdges(n, i, j)| <= 6
  {
    GraphEdgeParts(n, e);
    AdjacencyEdgesExact(n, e);
    CellEdgesMember(n, i, j, e);
    if e in GoalEdgesX(n, n) {
      GoalEndsX(n, e);
    }
    if e in GoalEdgesO(n, n) {
      GoalEndsO(n, e);
    }
    if AdjacencyEdge(n, e) {
      var i2, j2, d :| InBoard(n, i2, j2) && 0 <= d < 6 &&
        InBoard(n, Step((i2, j2), d).0, Step((i2, j2), d).1) && e == DirEdge(n, i2, j2, d);
      IdxInjective(n, i, j, i2, j2);
    }
  }

  // ---------------------------------------------------------------------
  // Out-degrees against the capacities the nodes are declared with

  /** The number of edges of `es` leaving node `src`. */
  function OutDegree(es: seq<Edge>, src: NodeName): nat {
    if es == [] then 0 else (if es[0].src == src then 1 else 0) + OutDegree(es[1..], src)
  }

  lemma {:induction false} OutDegreeAppend(a: seq<Edge>, b: seq<Edge>, src: NodeName)
    ensures OutDegree(a + b, src) == OutDegree(a, src) + OutDegree(b, src)
  {
    if a == [] {
      assert a + b == b;
    } else {
      assert (a + b)[1..] == a[1..] + b;
      OutDegreeAppend(a[1..], b, src);
    }
  }

  lemma OutDegreePair(a: Edge, b: Edge, src: NodeName)
    ensures OutDegree([a, b], src) == (if a.src == src then 1 else 0) + (if b.src == src then 1 else 0)
  {
    assert [a, b][1..] == [b];
    assert [b][1..] == [];
    assert OutDegree([b], src) == (if b.src == src then 1 else 0) + OutDegree([], src);
  }

  /** A sequence none of whose edges leave `src` gives it no out-degree. */
  lemma {:induction false} OutDegreeNone(es: seq<Edge>, src: NodeName)
    requires forall k :: 0 <= k < |es| ==> es[k].src != src
    ensures OutDegree(es, src) == 0
  {
    if es != [] {
      OutDegreeNone(es[1..], src);
    }
  }

  /** Edges that all leave `s0` count in full for `s0` and not at all for
      any other node. */
  lemma {:induction false} OutDegreeUniform(es: seq<Edge>, s0: NodeName, src: NodeName)
    requires forall k :: 0 <= k < |es| ==> es[k].src == s0
    ensures OutDegree(es, src) == if src == s0 then |es| else 0
  {
    if es != [] {
      OutDegreeUniform(es[1..], s0, src);
    }
  }

  /** Blocks of which only block k0 holds edges leaving `src`. */
  lemma {:induction false} OutDegreeConcatOne(f: int -> seq<Edge>, m: nat, k0: int, src: NodeName)
    requires 0 <= k0
    requires forall k :: 0 <= k < m && k != k0 ==> OutDegree(f(k), src) == 0
    ensures OutDegree(Concat(f, m), src) == if k0 < m then OutDegree(f(k0), src) else 0
  {
    if m > 0 {
      OutDegreeConcatOne(f, m - 1, k0, src);
      OutDegreeAppend(Concat(f, m - 1), f(m - 1), src);
    }
  }

  /** Blocks each holding c edges leaving `src`. */
  lemma {:induction false} OutDegreeConcatEach(f: int -> seq<Edge>, m: nat, c: nat, src: NodeName)
    requires forall k :: 0 <= k < m ==> OutDegree(f(k), src) == c
    ensures OutDegree(Concat(f, m), src) == m * c
  {
    if m > 0 {
      OutDegreeConcatEach(f, m - 1, c, src);
      OutDegreeAppend(Concat(f, m - 1), f(m - 1), src);
      assert (m - 1) * c + c == m * c;
    }
  }

  /** The number of directions d, d + 1, ..., 5 whose step from (i, j)
      stays on the board. */
  ghost function OnBoardFrom(i: int, j: int, n: int, d: nat): nat
    requires d <= 6
    decreases 6 - d
  {
    if d == 6 then 0
    else (if InBoard(n, Step((i, j), d).0, Step((i, j), d).1) then 1 else 0) + OnBoardFrom(i, j, n, d + 1)
  }

  lemma {:induction false} NeighborsFromCount(i: int, j: int, n: int, d: nat)
    requires d <= 6
    ensures |NeighborsFrom(i, j, n, d)| == OnBoardFrom(i, j, n, d)
    decreases 6 - d
  {
    if d < 6 {
      NeighborsFromCount(i, j, n, d + 1);
    }
  }

  /** A cell on the last row loses its SE and SW neighbours, a cell on the
      last column its E and SE neighbours, so the goal edges such a cell
      also sends never take it past six. */
  lemma BorderNeighbors(n: nat, i: int, j: int)
    requires InBoard(n, i, j)
    ensures i == n - 1 ==> !InBoard(n, i + 1, j) && !InBoard(n, i + 1, j + 1)
    ensures j == n - 1 ==> !InBoard(n, i, j + 1) && !InBoard(n, i + 1, j + 1)
    ensures |NeighborsAxial(i, j, n)| + (if i == n - 1 then 1 else 0) + (if j == n - 1 then 1 else 0) <= 6
  {
    NeighborsFromCount(i, j, n, 0);
    assert OnBoardFrom(i, j, n, 6) == 0;
    var b1 := if InBoard(n, i, j + 1) then 1 else 0;
    var b2 := if InBoard(n, i + 1, j + 1) then 1 else 0;
    var b3 := if InBoard(n, i + 1, j) then 1 else 0;
    assert OnBoardFrom(i, j, n, 3) <= b3 + 3;
    assert OnBoardFrom(i, j, n, 2) <= b2 + b3 + 3;
    assert OnBoardFrom(i, j, n, 0) <= 1 + b1 + b2 + b3 + 3;
  }

  /** Cell (r, c)'s own edges leave cell (i, j) only when it is that cell. */
  lemma CellEdgesOutDegree(n: nat, r: int, c: int, i: int, j: int)
    requires InBoard(n, i, j) && InBoard(n, r, c)
    ensures OutDegree(CellEdges(n, r, c), C(Idx(i, j, n))) == if r == i && c == j then |CellEdges(n, i, j)| else 0
  {
    OutDegreeUniform(CellEdges(n, r, c), C(Idx(r, c, n)), C(Idx(i, j, n)));
    IdxInjective(n, r, c, i, j);
  }

  /** Only row `r = i` of the adjacency block has edges leaving cell (i, j). */
  lemma RowOutDegree(n: nat, i: int, j: int, r: int)
    requires InBoard(n, i, j) && 0 <= r < n
    ensures OutDegree(RowEdges(n, r, n), C(Idx(i, j, n))) == if r == i then |CellEdges(n, i, j)| else 0
  {
    var f := c => CellEdges(n, r, c);
    forall c | 0 <= c < n
      ensures OutDegree(f(c), C(Idx(i, j, n))) == if r == i && c == j then |CellEdges(n, i, j)| else 0
    {
      CellEdgesOutDegree(n, r, c, i, j);
    }
    OutDegreeConcatOne(f, n, j, C(Idx(i, j, n)));
  }

  lemma AdjacencyOutDegree(n: nat, i: int, j: int)
    requires InBoard(n, i, j)
    ensures OutDegree(AdjacencyEdges(n, n), C(Idx(i, j, n))) == |CellEdges(n, i, j)|
  {
    var f := r => RowEdges(n, r, n);
    forall r | 0 <= r < n
      ensures OutDegree(f(r), C(Idx(i, j, n))) == if r == i then |CellEdges(n, i, j)| else 0
    {
      RowOutDegree(n, i, j, r);
    }
    OutDegreeConcatOne(f, n, i, C(Idx(i, j, n)));
  }

  lemma GoalXCellOutDegree(n: nat, i: int, j: int)
    requires InBoard(n, i, j)
    ensures OutDegree(GoalEdgesX(n, n), C(Idx(i, j, n))) == if i == n - 1 then 1 else 0
  {
    var src := C(Idx(i, j, n));
    var f := c => GoalPairX(n, c);
    forall c | 0 <= c < n
      ensures OutDegree(f(c), src) == if i == n - 1 && c == j then 1 else 0
    {
      OutDegreePair(Edge(XTop, C(Idx(0, c, n)), "E"), Edge(C(Idx(n - 1, c, n)), XBottom, "E"), src);
      IdxInjective(n, n - 1, c, i, j);
    }
    OutDegreeConcatOne(f, n, j, src);
  }

  lemma GoalOCellOutDegree(n: nat, i: int, j: int)
    requires InBoard(n, i, j)
    ensures OutDegree(GoalEdgesO(n, n), C(Idx(i, j, n))) == if j == n - 1 then 1 else 0
  {
    var src := C(Idx(i, j, n));
    var f := r => GoalPairO(n, r);
    forall r | 0 <= r < n
      ensures OutDegree(f(r), src) == if j == n - 1 && r == i then 1 else 0
    {
      OutDegreePair(Edge(OLeft, C(Idx(r, 0, n)), "E"), Edge(C(Idx(r, n - 1, n)), ORight, "E"), src);
      IdxInjective(n, r, n - 1, i, j);
    }
    OutDegreeConcatOne(f, n, i, src);
  }

  /** Every edge cell (i, j) sends in the graph: its adjacency edges, one
      into XBottom on the last row and one into ORight on the last column;
      together never more than the six its node is declared with. */
  lemma CellOutDegree(n: nat, i: int, j: int)
    requires InBoard(n, i, j)
    ensures OutDegree(GraphEdges(n), C(Idx(i, j, n))) ==
      |CellEdges(n, i, j)| + (if i == n - 1 then 1 else 0) + (if j == n - 1 then 1 else 0)
    ensures OutDegree(GraphEdges(n), C(Idx(i, j, n))) <= 6
  {
    var src := C(Idx(i, j, n));
    OutDegreeAppend(AdjacencyEdges(n, n) + GoalEdgesX(n, n), GoalEdgesO(n, n), src);
    OutDegreeAppend(AdjacencyEdges(n, n), GoalEdgesX(n, n), src);
    AdjacencyOutDegree(n, i, j);
    GoalXCellOutDegree(n, i, j);
    GoalOCellOutDegree(n, i, j);
    BorderNeighbors(n, i, j);
  }

  /** Adjacency edges all leave cells. */
  lemma AdjacencyGoalOutDegree(n: nat, src: NodeName)
    requires !src.C?
    ensures OutDegree(AdjacencyEdges(n, n), src) == 0
  {
    var a := AdjacencyEdges(n, n);
    forall k | 0 <= k < |a|
      ensures a[k].src != src
    {
      AdjacencyEnds(n, a[k]);
    }
    OutDegreeNone(a, src);
  }

  /** Of the goal nodes, only XTop sends X goal edges: one per column. */
  lemma GoalXGoalOutDegree(n: nat, src: NodeName)
    requires !src.C?
    ensures OutDegree(GoalEdgesX(n, n), src) == if src == XTop then n else 0
  {
    var c0 := if src == XTop then 1 else 0;
    var f := c => GoalPairX(n, c);
    forall c | 0 <= c < n
      ensures OutDegree(f(c), src) == c0
    {
      OutDegreePair(Edge(XTop, C(Idx(0, c, n)), "E"), Edge(C(Idx(n - 1, c, n)), XBottom, "E"), src);
    }
    OutDegreeConcatEach(f, n, c0, src);
  }

  /** Of the goal nodes, only OLeft sends O goal edges: one per row. */
  lemma GoalOGoalOutDegree(n: nat, src: NodeName)
    requires !src.C?
    ensures OutDegree(GoalEdgesO(n, n), src) == if src == OLeft then n else 0
  {
    var c0 := if src == OLeft then 1 else 0;
    var f := r => GoalPairO(n, r);
    forall r | 0 <= r < n
      ensures OutDegree(f(r), src) == c0
    {
      OutDegreePair(Edge(OLeft, C(Idx(r, 0, n)), "E"), Edge(C(Idx(r, n - 1, n)), ORight, "E"), src);
    }
    OutDegreeConcatEach(f, n, c0, src);
  }

  /** Every edge a goal node sends in the graph. */
  lemma GoalNodeOutDegree(n: nat, src: NodeName)
    requires !src.C?
    ensures OutDegree(GraphEdges(n), src) == (if src == XTop then n else 0) + (if src == OLeft then n else 0)
  {
    OutDegreeAppend(AdjacencyEdges(n, n) + GoalEdgesX(n, n), GoalEdgesO(n, n), src);
    OutDegreeAppend(AdjacencyEdges(n, n), GoalEdgesX(n, n), src);
    AdjacencyGoalOutDegree(n, src);
    GoalXGoalOutDegree(n, src);
    GoalOGoalOutDegree(n, src);
  }

  /** The goal nodes: XTop and OLeft send one edge per board line, n of the
      n * n they are declared with; XBottom and ORight send none. */
  lemma GoalOutDegree(n: nat)
    ensures OutDegree(GraphEdges(n), XTop) == n && OutDegree(GraphEdges(n), OLeft) == n
    ensures OutDegree(GraphEdges(n), XBottom) == 0 && OutDegree(GraphEdges(n), ORight) == 0
    ensures n <= n * n
  {
    GoalNodeOutDegree(n, XTop);
    GoalNodeOutDegree(n, OLeft);
    GoalNodeOutDegree(n, XBottom);
    GoalNodeOutDegree(n, ORight);
  }

  // ---------------------------------------------------------------------
  // The properties set_properties gives one graph

  /** The value on cell (i, j); EMPTY off the board. */
  function At(b: Board, i: int, j: int): int {
    if 0 <= i < |b| && 0 <= j < |b[i]| then b[i][j] else EMPTY
  }

  /** The content symbol of a cell value: anything but X or O reads as
      empty. */
  function ContentSymbol(v: int): string {
    if v == X then "X" else if v == O then "O" else "Empty"
  }

  /** The to-move symbol: anything but X counts as O to move. */
  function MarkSymbol(toMove: int): string {
    if toMove == X then "ToMoveX" else "ToMoveO"
  }

  /** The content symbol of cell (i, j) holding v, then one side symbol
      for each border it lies on: top, bottom, left, right. */
  function CellProperties(n: int, i: int, j: int, v: int): seq<Property> {
    var name := C(Idx(i, j, n));
    [Property(name, ContentSymbol(v))]
    + (if i == 0 then [Property(name, "SideTop")] else [])
    + (if i == n - 1 then [Property(name, "SideBottom")] else [])
    + (if j == 0 then [Property(name, "SideLeft")] else [])
    + (if j == n - 1 then [Property(name, "SideRight")] else [])
  }

  /** The properties of cells (i, 0) .. (i, m - 1). */
  function RowProperties(b: Board, i: int, m: nat): seq<Property> {
    Concat(j => CellProperties(|b|, i, j, At(b, i, j)), m)
  }

  /** The properties of rows 0 .. m - 1. */
  function GridProperties(b: Board, m: nat): seq<Property> {
    Concat(i => RowProperties(b, i, |b|), m)
  }

  /** The to-move mark on cells C0 .. C(m - 1). */
  function MarkProperties(mark: string, m: nat): seq<Property> {
    Concat(k => [Property(C(k), mark)], m)
  }

  function BoardProperties(b: Board, toMove: int): seq<Property> {
    GridProperties(b, |b|) + MarkProperties(MarkSymbol(toMove), |b| * |b|)
  }

  /** Reference description of the symbols of cell (i, j): its content, a
      side symbol per border it lies on, and the to-move mark. */
  ghost predicate CellSymbol(b: Board, toMove: int, i: int, j: int, s: string) {
    var n := |b|;
    s == ContentSymbol(At(b, i, j)) ||
    (s == "SideTop" && i == 0) || (s == "SideBottom" && i == n - 1) ||
    (s == "SideLeft" && j == 0) || (s == "SideRight" && j == n - 1) ||
    s == MarkSymbol(toMove)
  }

  lemma GridPropertiesMember(b: Board, p: Property)
    ensures p in GridProperties(b, |b|) <==>
      exists i, j :: InBoard(|b|, i, j) && p in CellProperties(|b|, i, j, At(b, i, j))
  {
    var n := |b|;
    var rows := i => RowProperties(b, i, n);
    assert GridProperties(b, n) == Concat(rows, n);
    ConcatMember(rows, n, p);
    if p in GridProperties(b, n) {
      var i :| 0 <= i < n && p in rows(i);
      var cells := j => CellProperties(n, i, j, At(b, i, j));
      assert RowProperties(b, i, n) == Concat(cells, n);
      ConcatMember(cells, n, p);
      var j :| 0 <= j < n && p in cells(j);
      assert InBoard(n, i, j) && p in CellProperties(n, i, j, At(b, i, j));
    }
    if exists i, j :: InBoard(n, i, j) && p in CellProperties(n, i, j, At(b, i, j)) {
      var i, j :| InBoard(n, i, j) && p in CellProperties(n, i, j, At(b, i, j));
      var cells := j => CellProperties(n, i, j, At(b, i, j));
      assert RowProperties(b, i, n) == Concat(cells, n);
      ConcatMember(cells, n, p);
      assert p in cells(j);
      assert p in rows(i);
    }
  }

  lemma MarkPropertiesMember(n: nat, mark: string, p: Property)
    ensures p in MarkProperties(mark, n * n) <==> p.name.C? && 0 <= p.name.k < n * n && p.symbol == mark
  {
    var f := k => [Property(C(k), mark)];
    assert MarkProperties(mark, n * n) == Concat(f, n * n);
    ConcatMember(f, n * n, p);
    if p.name.C? && 0 <= p.name.k < n * n && p.symbol == mark {
      assert p in f(p.name.k);
    }
  }

  /** All properties of a cell name that cell. */
  lemma CellPropertiesNamed(n: int, i: int, j: int, v: int, p: Property)
    requires p in CellProperties(n, i, j, v)
    ensures p.name == C(Idx(i, j, n))
  {
  }

  /** Every property names a cell node: the goal nodes get none. */
  lemma PropertiesOnCells(b: Board, toMove: int, p: Property)
    requires p in BoardProperties(b, toMove)
    ensures p.name.C? && 0 <= p.name.k < |b| * |b|
  {
    if p in GridProperties(b, |b|) {
      GridPropertiesMember(b, p);
      var i, j :| InBoard(|b|, i, j) && p in CellProperties(|b|, i, j, At(b, i, j));
      CellPropertiesNamed(|b|, i, j, At(b, i, j), p);
    } else {
      MarkPropertiesMember(|b|, MarkSymbol(toMove), p);
    }
  }

  /** The symbols a cell carries are exactly its content, its sides and the
      to-move mark. */
  lemma PropertiesOfCell(b: Board, toMove: int, i: int, j: int, s: string)
    requires InBoard(|b|, i, j)
    ensures Property(C(Idx(i, j, |b|)), s) in BoardProperties(b, toMove) <==> CellSymbol(b, toMove, i, j, s)
  {
    var n := |b|;
    var p := Property(C(Idx(i, j, n)), s);
    GridPropertiesMember(b, p);
    MarkPropertiesMember(n, MarkSymbol(toMove), p);
    if exists i2, j2 :: InBoard(n, i2, j2) && p in CellProperties(n, i2, j2, At(b, i2, j2)) {
      var i2, j2 :| InBoard(n, i2, j2) && p in CellProperties(n, i2, j2, At(b, i2, j2));
      IdxInjective(n, i, j, i2, j2);
    }
    if CellSymbol(b, toMove, i, j, s) && s != MarkSymbol(toMove) {
      assert p in CellProperties(n, i, j, At(b, i, j));
    }
  }

  /** Each cell carries exactly one content symbol: "X" for X, "O" for O
      and "Empty" for any other value. */
  lemma OneContentSymbol(b: Board, toMove: int, i: int, j: int, s: string)
    requires IsSquare(b) && InBoard(|b|, i, j) && s in ["X", "O", "Empty"]
    ensures Property(C(Idx(i, j, |b|)), s) in BoardProperties(b, toMove) <==> s == ContentSymbol(b[i][j])
  {
    PropertiesOfCell(b, toMove, i, j, s);
    assert |s| <= 5 && |MarkSymbol(toMove)| == 7;
    assert At(b, i, j) == b[i][j];
  }

  /** On a 1-by-1 board the only cell lies on all four borders, so it
      carries all four side symbols besides its content and the mark. */
  lemma SingleCellSymbols(b: Board, toMove: int, s: string)
    requires IsSquare(b) && |b| == 1
    ensures Property(C(0), s) in BoardProperties(b, toMove) <==>
      s in {ContentSymbol(b[0][0]), "SideTop", "SideBottom", "SideLeft", "SideRight", MarkSymbol(toMove)}
  {
    PropertiesOfCell(b, toMove, 0, 0, s);
  }

  // ---------------------------------------------------------------------
  // The graph batch and the encoder's calls on it

  /** A batch of graphs, seen through the calls the encoder makes on it:
      each call appends one entry, tagged with its graph index, to the log
      of its kind. */
  class Graphs {
    const batchSize: nat
    var nodeCounts: seq<(int, int)>
    var nodes: seq<(int, Node)>
    var edges: seq<(int, Edge)>
    var properties: seq<(int, Property)>
    var signature: seq<int>

    constructor (batchSize: nat)
      ensures this.batchSize == batchSize
      ensures nodeCounts == [] && nodes == [] && edges == [] && properties == [] && signature == []
    {
      this.batchSize := batchSize;
      nodeCounts, nodes, edges, properties, signature := [], [], [], [], [];
    }

    method SetNumberOfGraphNodes(gi: int, count: int)
      modifies this
      ensures nodeCounts == old(nodeCounts) + [(gi, count)]
      ensures nodes == old(nodes) && edges == old(edges) && properties == old(properties)
      ensures signature == old(signature)
    {
      nodeCounts := nodeCounts + [(gi, count)];
    }

    method AddGraphNode(gi: int, name: NodeName, capacity: int)
      modifies this
      ensures nodes == old(nodes) + [(gi, Node(name, capacity))]
      ensures nodeCounts == old(nodeCounts) && edges == old(edges) && properties == old(properties)
      ensures signature == old(signature)
    {
      nodes := nodes + [(gi, Node(name, capacity))];
    }

    method AddGraphNodeEdge(gi: int, src: NodeName, dst: NodeName, etype: string)
      modifies this
      ensures edges == old(edges) + [(gi, Edge(src, dst, etype))]
      ensures nodeCounts == old(nodeCounts) && nodes == old(nodes) && properties == old(properties)
      ensures signature == old(signature)
    {
      edges := edges + [(gi, Edge(src, dst, etype))];
    }

    method AddGraphNodeProperty(gi: int, name: NodeName, symbol: string)
      modifies this
      ensures properties == old(properties) + [(gi, Property(name, symbol))]
      ensures nodeCounts == old(nodeCounts) && nodes == old(nodes) && edges == old(edges)
      ensures signature == old(signature)
    {
      properties := properties + [(gi, Property(name, symbol))];
    }
  }

  /** `_stamp_signature`: records the symbol count, the edge symbol count,
      the board size and the batch size. */
  method StampSignature(graphs: Graphs, n: int, bsz: int)
    modifies graphs
    ensures graphs.signature == [|Syms|, |EdgeSyms|, n, bsz] == [9, 7, n, bsz]
    ensures graphs.nodeCounts == old(graphs.nodeCounts) && graphs.nodes == old(graphs.nodes)
    ensures graphs.edges == old(graphs.edges) && graphs.properties == old(graphs.properties)
  {
    graphs.signature := [|Syms|, |EdgeSyms|, n, bsz];
  }

  /** Declares the nodes of graph gi. */
  method AddNodes(graphs: Graphs, gi: int, n: nat)
    modifies graphs
    ensures graphs.nodes == old(graphs.nodes) + Tagged(gi, GraphNodes(n))
    ensures graphs.nodeCounts == old(graphs.nodeCounts) && graphs.edges == old(graphs.edges)
    ensures graphs.properties == old(graphs.properties) && graphs.signature == old(graphs.signature)
  {
    for k := 0 to n * n
      invariant graphs.nodes == old(graphs.nodes) + Tagged(gi, CellNodes(k))
      invariant graphs.nodeCounts == old(graphs.nodeCounts) && graphs.edges == old(graphs.edges)
      invariant graphs.properties == old(graphs.properties) && graphs.signature == old(graphs.signature)
    {
      graphs.AddGraphNode(gi, C(k), 6);
      TaggedSnoc(old(graphs.nodes), gi, CellNodes(k), Node(C(k), 6));
    }
    graphs.AddGraphNode(gi, XTop, n * n);
    graphs.AddGraphNode(gi, XBottom, n * n);
    graphs.AddGraphNode(gi, OLeft, n * n);
    graphs.AddGraphNode(gi, ORight, n * n);
    assert Tagged(gi, GoalNodes(n)) == [(gi, Node(XTop, n * n)), (gi, Node(XBottom, n * n)), (gi, Node(OLeft, n * n)), (gi, Node(ORight, n * n))];
    TaggedExtend(old(graphs.nodes), gi, CellNodes(n * n), GoalNodes(n));
  }

  /** Declares the edge from cell (i, j), node `a`, to its t-th neighbour
      in graph gi, after the first t edges of the cell were logged after
      `log`. */
  method AddNeighborEdge(graphs: Graphs, gi: int, n: nat, i: int, j: int, a: int, t: int, ghost log: seq<(int, Edge)>)
    requires a == Idx(i, j, n) && 0 <= t < |NeighborsAxial(i, j, n)|
    requires graphs.edges == log + Tagged(gi, CellEdges(n, i, j)[..t])
    modifies graphs
    ensures t < |CellEdges(n, i, j)| && graphs.edges == old(graphs.edges) + [(gi, CellEdges(n, i, j)[t])]
    ensures graphs.edges == log + Tagged(gi, CellEdges(n, i, j)[..t + 1])
    ensures graphs.nodeCounts == old(graphs.nodeCounts) && graphs.nodes == old(graphs.nodes)
    ensures graphs.properties == old(graphs.properties) && graphs.signature == old(graphs.signature)
  {
    var (d, ni, nj) := NeighborsAxial(i, j, n)[t];
    var b := Idx(ni, nj, n);
    CellEdgeEntry(n, i, j, t);
    graphs.AddGraphNodeEdge(gi, C(a), C(b), EdgeTypes[d]);
    TaggedPrefixSnoc(log, gi, CellEdges(n, i, j), t);
  }

  /** Declares the edges from cell (i, j) to its neighbours in graph gi. */
  method AddCellEdges(graphs: Graphs, gi: int, n: nat, i: int, j: int)
    modifies graphs
    ensures graphs.edges == old(graphs.edges) + Tagged(gi, CellEdges(n, i, j))
    ensures graphs.nodeCounts == old(graphs.nodeCounts) && graphs.nodes == old(graphs.nodes)
    ensures graphs.properties == old(graphs.properties) && graphs.signature == old(graphs.signature)
  {
    var a := Idx(i, j, n);
    var ns := NeighborsAxial(i, j, n);
    ghost var es := CellEdges(n, i, j);
    assert |es| == |ns|;
    for t := 0 to |ns|
      invariant t <= |es|
      invariant graphs.edges == old(graphs.edges) + Tagged(gi, es[..t])
      invariant graphs.nodeCounts == old(graphs.nodeCounts) && graphs.nodes == old(graphs.nodes)
      invariant graphs.properties == old(graphs.properties) && graphs.signature == old(graphs.signature)
    {
      AddNeighborEdge(graphs, gi, n, i, j, a, t, old(graphs.edges));
    }
    assert es[..|es|] == es;
  }

  /** Declares the edges of row i in graph gi. */
  method AddRowEdges(graphs: Graphs, gi: int, n: nat, i: int)
    modifies graphs
    ensures graphs.edges == old(graphs.edges) + Tagged(gi, RowEdges(n, i, n))
    ensures graphs.nodeCounts == old(graphs.nodeCounts) && graphs.nodes == old(graphs.nodes)
    ensures graphs.properties == old(graphs.properties) && graphs.signature == old(graphs.signature)
  {
    for j := 0 to n
      invariant graphs.edges == old(graphs.edges) + Tagged(gi, RowEdges(n, i, j))
      invariant graphs.nodeCounts == old(graphs.nodeCounts) && graphs.nodes == old(graphs.nodes)
      invariant graphs.properties == old(graphs.properties) && graphs.signature == old(graphs.signature)
    {
      AddCellEdges(graphs, gi, n, i, j);
      TaggedExtend(old(graphs.edges), gi, RowEdges(n, i, j), CellEdges(n, i, j));
    }
  }

  /** Declares the edges of every cell in graph gi. */
  method AddAdjacencyEdges(graphs: Graphs, gi: int, n: nat)
    modifies graphs
    ensures graphs.edges == old(graphs.edges) + Tagged(gi, AdjacencyEdges(n, n))
    ensures graphs.nodeCounts == old(graphs.nodeCounts) && graphs.nodes == old(graphs.nodes)
    ensures graphs.properties == old(graphs.properties) && graphs.signature == old(graphs.signature)
  {
    for i := 0 to n
      invariant graphs.edges == old(graphs.edges) + Tagged(gi, AdjacencyEdges(n, i))
      invariant graphs.nodeCounts == old(graphs.nodeCounts) && graphs.nodes == old(graphs.nodes)
      invariant graphs.properties == old(graphs.properties) && graphs.signature == old(graphs.signature)
    {
      AddRowEdges(graphs, gi, n, i);
      TaggedExtend(old(graphs.edges), gi, AdjacencyEdges(n, i), RowEdges(n, i, n));
    }
  }

  /** Declares the goal edges of graph gi: the X pairs column by column,
      then the O pairs row by row. */
  method AddGoalEdges(graphs: Graphs, gi: int, n: nat)
    modifies graphs
    ensures graphs.edges == old(graphs.edges) + Tagged(gi, GoalEdgesX(n, n) + GoalEdgesO(n, n))
    ensures graphs.nodeCounts == old(graphs.nodeCounts) && graphs.nodes == old(graphs.nodes)
    ensures graphs.properties == old(graphs.properties) && graphs.signature == old(graphs.signature)
  {
    for j := 0 to n
      invariant graphs.edges == old(graphs.edges) + Tagged(gi, GoalEdgesX(n, j))
      invariant graphs.nodeCounts == old(graphs.nodeCounts) && graphs.nodes == old(graphs.nodes)
      invariant graphs.properties == old(graphs.properties) && graphs.signature == old(graphs.signature)
    {
      graphs.AddGraphNodeEdge(gi, XTop, C(Idx(0, j, n)), "E");
      graphs.AddGraphNodeEdge(gi, C(Idx(n - 1, j, n)), XBottom, "E");
      assert Tagged(gi, GoalPairX(n, j)) == [(gi, GoalPairX(n, j)[0]), (gi, GoalPairX(n, j)[1])];
      TaggedExtend(old(graphs.edges), gi, GoalEdgesX(n, j), GoalPairX(n, j));
    }
    ghost var mid := graphs.edges;
    for i := 0 to n
      invariant graphs.edges == mid + Tagged(gi, GoalEdgesO(n, i))
      invariant graphs.nodeCounts == old(graphs.nodeCounts) && graphs.nodes == old(graphs.nodes)
      invariant graphs.properties == old(graphs.properties) && graphs.signature == old(graphs.signature)
    {
      graphs.AddGraphNodeEdge(gi, OLeft, C(Idx(i, 0, n)), "E");
      graphs.AddGraphNodeEdge(gi, C(Idx(i, n - 1, n)), ORight, "E");
      assert Tagged(gi, GoalPairO(n, i)) == [(gi, GoalPairO(n, i)[0]), (gi, GoalPairO(n, i)[1])];
      TaggedExtend(mid, gi, GoalEdgesO(n, i), GoalPairO(n, i));
    }
    TaggedExtend(old(graphs.edges), gi, GoalEdgesX(n, n), GoalEdgesO(n, n));
  }

  /** Declares all edges of graph gi. */
  method AddEdges(graphs: Graphs, gi: int, n: nat)
    modifies graphs
    ensures graphs.edges == old(graphs.edges) + Tagged(gi, GraphEdges(n))
    ensures graphs.nodeCounts == old(graphs.nodeCounts) && graphs.nodes == old(graphs.nodes)
    ensures graphs.properties == old(graphs.properties) && graphs.signature == old(graphs.signature)
  {
    AddAdjacencyEdges(graphs, gi, n);
    AddGoalEdges(graphs, gi, n);
    TaggedExtend(old(graphs.edges), gi, AdjacencyEdges(n, n), GoalEdgesX(n, n) + GoalEdgesO(n, n));
    assert GraphEdges(n) == AdjacencyEdges(n, n) + (GoalEdgesX(n, n) + GoalEdgesO(n, n));
  }

  /** The first loop of `init_topology`: every graph of the batch is
      declared with n * n + 4 nodes. */
  method SetNodeCounts(graphs: Graphs, n: nat)
    modifies graphs
    ensures graphs.nodeCounts == old(graphs.nodeCounts) + Batch(graphs.batchSize, [n * n + 4])
    ensures graphs.nodes == old(graphs.nodes) && graphs.edges == old(graphs.edges)
    ensures graphs.properties == old(graphs.properties) && graphs.signature == old(graphs.signature)
  {
    var nodeCount := n * n + 4;
    for gi := 0 to graphs.batchSize
      invariant graphs.nodeCounts == old(graphs.nodeCounts) + Batch(gi, [nodeCount])
      invariant graphs.nodes == old(graphs.nodes) && graphs.edges == old(graphs.edges)
      invariant graphs.properties == old(graphs.properties) && graphs.signature == old(graphs.signature)
    {
      graphs.SetNumberOfGraphNodes(gi, nodeCount);
      assert Tagged(gi, [nodeCount]) == [(gi, nodeCount)];
      BatchExtend(old(graphs.nodeCounts), gi, [nodeCount]);
    }
  }

  /** The second loop of `init_topology`: every graph of the batch gets
      the same nodes. */
  method AddAllNodes(graphs: Graphs, n: nat)
    modifies graphs
    ensures graphs.nodes == old(graphs.nodes) + Batch(graphs.batchSize, GraphNodes(n))
    ensures graphs.nodeCounts == old(graphs.nodeCounts) && graphs.edges == old(graphs.edges)
    ensures graphs.properties == old(graphs.properties) && graphs.signature == old(graphs.signature)
  {
    for gi := 0 to graphs.batchSize
      invariant graphs.nodes == old(graphs.nodes) + Batch(gi, GraphNodes(n))
      invariant graphs.nodeCounts == old(graphs.nodeCounts) && graphs.edges == old(graphs.edges)
      invariant graphs.properties == old(graphs.properties) && graphs.signature == old(graphs.signature)
    {
      AddNodes(graphs, gi, n);
      BatchExtend(old(graphs.nodes), gi, GraphNodes(n));
    }
  }

  /** The third loop of `init_topology`: every graph of the batch gets
      the same edges. */
  method AddAllEdges(graphs: Graphs, n: nat)
    modifies graphs
    ensures graphs.edges == old(graphs.edges) + Batch(graphs.batchSize, GraphEdges(n))
    ensures graphs.nodeCounts == old(graphs.nodeCounts) && graphs.nodes == old(graphs.nodes)
    ensures graphs.properties == old(graphs.properties) && graphs.signature == old(graphs.signature)
  {
    for gi := 0 to graphs.batchSize
      invariant graphs.edges == old(graphs.edges) + Batch(gi, GraphEdges(n))
      invariant graphs.nodeCounts == old(graphs.nodeCounts) && graphs.nodes == old(graphs.nodes)
      invariant graphs.properties == old(graphs.properties) && graphs.signature == old(graphs.signature)
    {
      AddEdges(graphs, gi, n);
      BatchExtend(old(graphs.edges), gi, GraphEdges(n));
    }
  }

  /** `init_topology`: every graph of the batch gets its node count, then
      every graph its nodes, then every graph its edges, and finally the
      signature is stamped. */
  method InitTopology(graphs: Graphs, n: nat)
    modifies graphs
    ensures graphs.nodeCounts == old(graphs.nodeCounts) + Batch(graphs.batchSize, [n * n + 4])
    ensures graphs.nodes == old(graphs.nodes) + Batch(graphs.batchSize, GraphNodes(n))
    ensures graphs.edges == old(graphs.edges) + Batch(graphs.batchSize, GraphEdges(n))
    ensures graphs.properties == old(graphs.properties)
    ensures graphs.signature == [9, 7, n, graphs.batchSize]
  {
    SetNodeCounts(graphs, n);
    AddAllNodes(graphs, n);
    AddAllEdges(graphs, n);
    StampSignature(graphs, n, graphs.batchSize);
  }

  /** Gives cell (i, j), which holds v, its content symbol and its side
      symbols in graph gi. */
  method AddCellProperties(graphs: Graphs, gi: int, n: int, i: int, j: int, v: int)
    modifies graphs
    ensures graphs.properties == old(graphs.properties) + Tagged(gi, CellProperties(n, i, j, v))
    ensures graphs.nodeCounts == old(graphs.nodeCounts) && graphs.nodes == old(graphs.nodes)
    ensures graphs.edges == old(graphs.edges) && graphs.signature == old(graphs.signature)
  {
    var k := Idx(i, j, n);
    var content := ContentSymbol(v);
    graphs.AddGraphNodeProperty(gi, C(k), content);
    ghost var ps := [Property(C(k), content)];
    assert Tagged(gi, ps) == [(gi, Property(C(k), content))];
    ps := AddSideProperty(graphs, gi, C(k), i == 0, "SideTop", ps);
    ps := AddSideProperty(graphs, gi, C(k), i == n - 1, "SideBottom", ps);
    ps := AddSideProperty(graphs, gi, C(k), j == 0, "SideLeft", ps);
    ps := AddSideProperty(graphs, gi, C(k), j == n - 1, "SideRight", ps);
  }

  /** Gives node `name` the side symbol `side` when the cell lies on that
      side; `ps` follows the properties logged for the cell so far. */
  method AddSideProperty(graphs: Graphs, gi: int, name: NodeName, onSide: bool, side: string,
                         ghost ps: seq<Property>) returns (ghost ps': seq<Property>)
    modifies graphs
    ensures ps' == ps + if onSide then [Property(name, side)] else []
    ensures forall log :: old(graphs.properties) == log + Tagged(gi, ps) ==> graphs.properties == log + Tagged(gi, ps')
    ensures graphs.nodeCounts == old(graphs.nodeCounts) && graphs.nodes == old(graphs.nodes)
    ensures graphs.edges == old(graphs.edges) && graphs.signature == old(graphs.signature)
  {
    if onSide {
      graphs.AddGraphNodeProperty(gi, name, side);
    }
    ps' := ps + if onSide then [Property(name, side)] else [];
    forall log | old(graphs.properties) == log + Tagged(gi, ps) ensures graphs.properties == log + Tagged(gi, ps') {
      if onSide {
        TaggedSnoc(log, gi, ps, Property(name, side));
      } else {
        assert ps' == ps;
      }
    }
  }

  /** Gives the cells of row i their content and side symbols in graph gi. */
  method AddRowProperties(graphs: Graphs, gi: int, b: Board, i: int)
    requires IsSquare(b) && 0 <= i < |b|
    modifies graphs
    ensures graphs.properties == old(graphs.properties) + Tagged(gi, RowProperties(b, i, |b|))
    ensures graphs.nodeCounts == old(graphs.nodeCounts) && graphs.nodes == old(graphs.nodes)
    ensures graphs.edges == old(graphs.edges) && graphs.signature == old(graphs.signature)
  {
    var n := |b|;
    for j := 0 to n
      invariant graphs.properties == old(graphs.properties) + Tagged(gi, RowProperties(b, i, j))
      invariant graphs.nodeCounts == old(graphs.nodeCounts) && graphs.nodes == old(graphs.nodes)
      invariant graphs.edges == old(graphs.edges) && graphs.signature == old(graphs.signature)
    {
      var v := b[i][j];
      AddCellProperties(graphs, gi, n, i, j, v);
      assert v == At(b, i, j);
      TaggedExtend(old(graphs.properties), gi, RowProperties(b, i, j), CellProperties(n, i, j, v));
    }
  }

  /** `set_properties`: gives every cell of graph gi its content and side
      symbols, row by row, then gives every cell the to-move mark. */
  method SetProperties(graphs: Graphs, gi: int, b: Board, toMove: int)
    requires IsSquare(b)
    modifies graphs
    ensures graphs.properties == old(graphs.properties) + Tagged(gi, BoardProperties(b, toMove))
    ensures graphs.nodeCounts == old(graphs.nodeCounts) && graphs.nodes == old(graphs.nodes)
    ensures graphs.edges == old(graphs.edges) && graphs.signature == old(graphs.signature)
  {
    var n := |b|;
    for i := 0 to n
      invariant graphs.properties == old(graphs.properties) + Tagged(gi, GridProperties(b, i))
      invariant graphs.nodeCounts == old(graphs.nodeCounts) && graphs.nodes == old(graphs.nodes)
      invariant graphs.edges == old(graphs.edges) && graphs.signature == old(graphs.signature)
    {
      AddRowProperties(graphs, gi, b, i);
      TaggedExtend(old(graphs.properties), gi, GridProperties(b, i), RowProperties(b, i, n));
    }
    var mark := MarkSymbol(toMove);
    ghost var grid := graphs.properties;
    for k := 0 to n * n
      invariant graphs.properties == grid + Tagged(gi, MarkProperties(mark, k))
      invariant graphs.nodeCounts == old(graphs.nodeCounts) && graphs.nodes == old(graphs.nodes)
      invariant graphs.edges == old(graphs.edges) && graphs.signature == old(graphs.signature)
    {
      graphs.AddGraphNodeProperty(gi, C(k), mark);
      TaggedSnoc(grid, gi, MarkProperties(mark, k), Property(C(k), mark));
    }
    TaggedExtend(old(graphs.properties), gi, GridProperties(b, n), MarkProperties(mark, n * n));
  }
}
