# hex_gtm in Dafny

A model of the core of `hex_gtm`, a generator of training data for a graph
Tsetlin machine that learns to play Hex on an n-by-n rhombus. The model covers
three pieces and their properties:

- **The Hex rules** (`hex_gtm/hex_rules.py`):
  - the legal moves of a board, placing a stone, and swapping the player;
  - the multi-source breadth-first search `connected` over the six hex
    directions, with its `seen` set and queue;
  - `winner`, where X joins row 0 to row n - 1 and O joins column 0 to
    column n - 1;
  - the random playout loop.
- **The graph encoder** (`hex_gtm/encode.py`):
  - the cell index and the axial neighbours;
  - `init_topology`, which declares n * n + 4 nodes and the direction-tagged
    and goal edges for every graph of a batch;
  - `set_properties`, which stamps content, side and to-move symbols on the
    cell nodes;
  - `_stamp_signature`.
- **The self-play recorder** (`hex_gtm/selfplay.py`):
  - `collect_positions`, which records every position of one random game and
    backfills a label;
  - `make_dataset`, which concatenates one game per round.

Modules:

| module | file | models |
|---|---|---|
| `Axial` | `axial.dfy` | the six offsets, shared by `connected` and `neighbors_axial`, and the cells of the grid |
| `HexBoard` | `hex_board.dfy` | boards, same-colour paths, reachability, and the invariant of the breadth-first search |
| `HexRules` | `hex_rules.dfy` | `legal_moves`, `apply_move`, `opposite`, `connected`, `winner` and `random_playout` |
| `Blocks` | `blocks.dfy` | logs built block by block and tagged with a graph index |
| `Encode` | `encode.dfy` | `_idx`, `neighbors_axial`, `init_topology`, `set_properties` and `_stamp_signature` |
| `SelfPlay` | `selfplay.dfy` | `collect_positions` and `make_dataset` |

How the source's constructs are represented:

- **Boards.** A board is a `seq<seq<int>>` holding EMPTY = 0, X = 1 and O = 2.
  Operations that index it require it to be square.
- **Search.** The search is a method with a `set` for `seen` and a `seq` for
  the deque. Its specification is reachability through cells of the player's
  colour (`HexBoard.ConnectsTo`).
- **Randomness.** NumPy's random state is a caller-supplied stream
  `rng: nat -> nat`:
  - the t-th call to `np.random.randint(len(moves))` picks
    `moves[rng(t) % len(moves)]`;
  - `np.random.rand() < 0.5` in `make_dataset` is the parity of its draw;
  - a game is the ghost function `HexRules.Game`, the positions visited from a
    board with draws rng(t), rng(t + 1), ...;
  - the loops of `random_playout`, `collect_positions` and `make_dataset` are
    methods proved against that function. `random_playout` returns the winner
    of the game's last position after one draw per move. `collect_positions`
    returns the game's positions, labelled. `make_dataset` returns the games
    drawn one after another.
- **Graphs.** The `Graphs` object is the class `Encode.Graphs`.
  - Each library call appends one entry to a log: node counts, nodes, edges
    or properties. Every entry is tagged with its graph index.
  - The nested loops of `init_topology` and `set_properties` are methods, one
    per loop level. Each is proved to append a block described by a function.
  - Node names `C{k}`, `XTop`, `XBottom`, `OLeft` and `ORight` are the
    datatype `Encode.NodeName`.

## Model

| member | source | states |
|---|---|---|
| `Axial.OppositeDirections` | hex_gtm/encode.py:28 | the offset of direction (d + 3) mod 6 is the negation of the offset of direction d |
| `Axial.StepBack` | hex_gtm/hex_rules.py:37 | a step in direction d followed by a step in direction (d + 3) mod 6 returns to the starting cell |
| `Axial.GridCard` | hex_gtm/hex_rules.py:43 | an n-by-n board has exactly n * n in-range cells, which bounds the `seen` set |
| `HexBoard.ReachableSource` | hex_gtm/hex_rules.py:32-35 | a source cell holding the player's stone is reachable |
| `HexBoard.ReachableStep` | hex_gtm/hex_rules.py:41-44 | a player-owned neighbour of a reachable cell is reachable |
| `HexBoard.ClosedHoldsPath` | hex_gtm/hex_rules.py:38-45 | a set that holds the owned sources and is closed under owned neighbours holds the end of every same-colour path from a source, so an exhausted search missed nothing |
| `HexBoard.AllReachableExpand` | hex_gtm/hex_rules.py:43-44 | cells added while expanding a reachable cell are owned and adjacent to it, so they are reachable too |
| `HexBoard.ExpandPreserves` | hex_gtm/hex_rules.py:39-44 | popping a non-goal cell and enqueuing its unseen owned neighbours keeps the search invariant (seen = reachable cells found so far, queue = seen but unexpanded, expanded cells closed), and either the unseen cells shrink or the queue shrinks |
| `HexBoard.InvAfterExpand` | hex_gtm/hex_rules.py:39-44 | the search invariant holds after one expansion, given the queue and the seen set as membership facts |
| `HexBoard.SoundAfterExpand` | hex_gtm/hex_rules.py:43-44 | after an expansion every seen cell is still reachable and no expanded cell is a goal cell |
| `HexBoard.FrontierAfterExpand` | hex_gtm/hex_rules.py:41-44 | after an expansion the queue holds exactly the seen cells not yet expanded, and every expanded cell has all its owned neighbours seen |
| `HexBoard.SeedInv` | hex_gtm/hex_rules.py:32-35 | the seeded queue and seen set satisfy the search invariant with nothing expanded |
| `HexBoard.FoundGoal` | hex_gtm/hex_rules.py:40 | a goal cell at the head of the queue means the player connects sources to the goal |
| `HexBoard.SearchComplete` | hex_gtm/hex_rules.py:45 | an empty queue under the invariant means no goal cell is reachable, and at most n * n cells were seen |
| `HexRules.LegalMoves` | hex_gtm/hex_rules.py:7-8 | a cell is a legal move exactly when it is on the board and EMPTY |
| `HexRules.LegalMovesSorted` | hex_gtm/hex_rules.py:7-8 | the legal moves come in row-major order, each once |
| `HexRules.ApplyMove` | hex_gtm/hex_rules.py:10-14 | the new board has the same size, holds `player` at the move and equals the old board everywhere else; an occupied cell is overwritten |
| `HexRules.Opposite` | hex_gtm/hex_rules.py:16 | the result is X or O, and it is X exactly when the argument is O; EMPTY maps to O |
| `HexRules.OppositeInvolution` | hex_gtm/hex_rules.py:16 | on X and O, `opposite` swaps the player and is its own inverse |
| `HexRules.MovesAfterStone` | hex_gtm/hex_rules.py:7-14 | placing a stone on a legal move removes exactly that cell from the legal moves |
| `HexRules.EmptyMoveKeepsBoard` | hex_gtm/hex_rules.py:10-14 | writing EMPTY onto an empty cell leaves the board unchanged |
| `HexRules.MoveDecreases` | hex_gtm/hex_rules.py:7-14 | a stone on a legal move leaves one legal move fewer; an EMPTY "stone" leaves the board as it was |
| `HexRules.Seed` | hex_gtm/hex_rules.py:32-35 | the seeded `seen` set is exactly the sources holding the player's stone, the queue holds the same cells, and with distinct sources each is queued once |
| `HexRules.Expand` | hex_gtm/hex_rules.py:41-44 | the scan of six offsets appends to the queue exactly the newly seen cells, which are owned neighbours of the cell, and afterwards every owned neighbour is seen |
| `HexRules.SearchRound` | hex_gtm/hex_rules.py:38-44 | one round either finds a goal cell, and then the player connects, or keeps the invariant while the unseen cells or the queue shrink |
| `HexRules.Search` | hex_gtm/hex_rules.py:38-45 | the loop returns true exactly when a goal cell is reachable, after at most n * n rounds when the sources are distinct |
| `HexRules.Connected` | hex_gtm/hex_rules.py:28-45 | `connected` returns true exactly when some cell satisfying the goal test is reachable from an owned source through owned cells, after at most n * n rounds for distinct sources |
| `HexRules.TopRow` | hex_gtm/hex_rules.py:21 | X's sources are the cells (0, j) of row 0, in order |
| `HexRules.LeftColumn` | hex_gtm/hex_rules.py:24 | O's sources are the cells (i, 0) of column 0, in order |
| `HexRules.Winner` | hex_gtm/hex_rules.py:18-26 | X when X joins row 0 to row n - 1 (even if O also connects), else O when O joins column 0 to column n - 1, else 0 |
| `HexRules.WinnerSingleCell` | hex_gtm/hex_rules.py:18-26 | on a 1-by-1 board a single stone wins for its colour and the empty cell gives 0 |
| `HexRules.WinnerLeftColumnOfX` | hex_gtm/hex_rules.py:18-26 | a column of X stones wins for X, and O does not connect |
| `HexRules.ApplyMoveExtends` | hex_gtm/hex_rules.py:10-14 | a move on an empty cell only adds a stone: no stone is removed or changed |
| `HexRules.PathSurvives` | hex_gtm/hex_rules.py:38-44 | a same-colour path stays a path when stones are only added |
| `HexRules.ConnectsMonotone` | hex_gtm/hex_rules.py:18-26 | once a player connects its sides, adding stones keeps it connected |
| `HexRules.WinnerMonotone` | hex_gtm/hex_rules.py:18-26 | adding stones keeps an X win an X win and keeps some winner after an O win |
| `HexRules.PathPredates` | hex_gtm/hex_rules.py:10-14 | a path of one colour after a move of another colour was already a path before it |
| `HexRules.OnlyMoverConnects` | hex_gtm/hex_rules.py:10-26 | a move by anyone but X cannot create an X connection, and likewise for O |
| `HexRules.WinnerIsMover` | hex_gtm/hex_rules.py:51-56 | a move on an undecided board leaves it undecided or won by the player who moved |
| `HexRules.Pick` | hex_gtm/hex_rules.py:55 | the drawn index is within the list of moves |
| `HexRules.NextBoard` | hex_gtm/hex_rules.py:53-56 | the next board is the same size and results from the player's stone on one legal move |
| `HexRules.NextDecreases` | hex_gtm/hex_rules.py:53-56 | a stone leaves one legal move fewer; an EMPTY player leaves the board unchanged |
| `HexRules.Game` | hex_gtm/hex_rules.py:47-57 | a game is never empty and starts at the given board and player |
| `HexRules.GameUnfold` | hex_gtm/hex_rules.py:50-57 | on an undecided, non-full board the game is this position followed by the game from the drawn move with the other player to move |
| `HexRules.GameLastNext` | hex_gtm/hex_rules.py:50-57 | one round of the loop does not change where the game ends |
| `HexRules.RandomPlayout` | hex_gtm/hex_rules.py:47-57 | the playout returns the winner of the final position of the game, so 0 exactly when the board fills with no winner, and draws exactly once per move of that game (`t` is t0 plus the game's length less one) |
| `HexRules.PlayoutMove` | hex_gtm/hex_rules.py:51-57 | one round either returns the winner of the game's last position, on a one-position game, or spends one draw to move to the next position of the same game, one position shorter and with fewer legal moves |
| `HexRules.GameOver` | hex_gtm/hex_rules.py:51-54 | on a won or full board the game is that one position |
| `HexRules.PlayoutStep` | hex_gtm/hex_rules.py:53-57 | on an open board the drawn move keeps the game's end and, with a stone to move, removes a legal move |
| `HexRules.GameOpenAt` | hex_gtm/hex_rules.py:51-54 | every position of a game but the last is undecided and has a legal move |
| `HexRules.GameStops` | hex_gtm/hex_rules.py:51-54 | the loop never runs past a won or full board |
| `HexRules.GameEnds` | hex_gtm/hex_rules.py:50-57 | the last position of a game is won or full |
| `HexRules.GameAlternates` | hex_gtm/hex_rules.py:55-57 | successive positions swap the player and differ by the previous player's stone on one legal move |
| `HexRules.GameLength` | hex_gtm/hex_rules.py:50-57 | a game visits at most (empty cells + 1) positions, one more when started with EMPTY to move, and exactly one from a won or full board |
| `Encode.Idx` | hex_gtm/encode.py:34 | a cell on the board gets an index in [0, n * n) |
| `Encode.IdxInjective` | hex_gtm/encode.py:34 | two cells on the board get the same index exactly when they are the same cell |
| `Encode.IdxOnto` | hex_gtm/encode.py:34 | every index in [0, n * n) is the index of the cell (k / n, k % n) |
| `Encode.NeighborsFrom` | hex_gtm/encode.py:29-32 | the generator from direction d yields at most 6 - d entries, each an in-range neighbour with its direction index |
| `Encode.NeighborsAxial` | hex_gtm/encode.py:26-32 | at most six results, each a direction index in 0..5 with the in-range neighbour in that direction |
| `Encode.NeighborsFromHas` | hex_gtm/encode.py:29-32 | every in-range neighbour in a direction from d on is yielded |
| `Encode.NeighborsFromSorted` | hex_gtm/encode.py:29 | directions are yielded in increasing order |
| `Encode.NeighborsExact` | hex_gtm/encode.py:26-32 | direction d with its neighbour is yielded exactly when that neighbour is on the board, and directions increase |
| `Encode.NeighborBack` | hex_gtm/encode.py:28 | if b is a's neighbour in direction d, a is b's neighbour in direction (d + 3) mod 6 |
| `Encode.NeighborsSymmetric` | hex_gtm/encode.py:28 | b is a's neighbour in direction d if and only if a is b's neighbour in direction (d + 3) mod 6 |
| `Encode.GraphNodesLayout` | hex_gtm/encode.py:49-61 | each graph declares n * n + 4 nodes with distinct names: C(k) with capacity 6 for every k < n * n, then four goal nodes with capacity n * n |
| `Encode.CellEdges` | hex_gtm/encode.py:68-71 | a cell has at most six outgoing adjacency edges, its declared capacity |
| `Encode.CellEdgeEntry` | hex_gtm/encode.py:68-71 | the k-th edge of a cell joins it to its k-th neighbour, tagged with that direction's label |
| `Encode.CellEdgeAt` | hex_gtm/encode.py:69-71 | every edge of a cell is the edge of some direction whose neighbour is on the board |
| `Encode.CellEdgeOfDir` | hex_gtm/encode.py:69-71 | every direction with an in-range neighbour contributes its edge |
| `Encode.CellEdgesMember` | hex_gtm/encode.py:69-71 | an edge leaves the cell exactly when it is the edge of a direction whose neighbour is on the board |
| `Encode.RowEdgesMember` | hex_gtm/encode.py:67-71 | the edges of a row are the edges of its cells |
| `Encode.AdjacencyEdgesSound` | hex_gtm/encode.py:65-71 | every adjacency edge joins an on-board cell to its on-board neighbour with that direction's label |
| `Encode.AdjacencyEdgesComplete` | hex_gtm/encode.py:65-71 | every such pair of neighbours gets its edge |
| `Encode.AdjacencyEdgesExact` | hex_gtm/encode.py:65-71 | the adjacency edges are exactly the direction-tagged edges between on-board neighbours |
| `Encode.GoalEdgesXMember` | hex_gtm/encode.py:72-74 | the X goal edges are the two edges of each column |
| `Encode.GoalEdgesOMember` | hex_gtm/encode.py:75-77 | the O goal edges are the two edges of each row |
| `Encode.GoalEdgesExact` | hex_gtm/encode.py:72-77 | the goal edges are exactly XTop to row 0, row n - 1 to XBottom, OLeft to column 0 and column n - 1 to ORight, all tagged "E" |
| `Encode.GraphEdgesExact` | hex_gtm/encode.py:65-77 | a graph's edges are exactly its adjacency edges and its goal edges |
| `Encode.GraphEdgeParts` | hex_gtm/encode.py:65-77 | every graph edge is an adjacency edge, an X goal edge or an O goal edge, and each of those is a graph edge |
| `Encode.AdjacencyEnds` | hex_gtm/encode.py:71 | adjacency edges join two cell nodes |
| `Encode.GoalEndsX` | hex_gtm/encode.py:72-74 | an X goal edge is tagged "E" and is either XTop to a row-0 cell or a row-(n - 1) cell to XBottom |
| `Encode.GoalEndsO` | hex_gtm/encode.py:75-77 | an O goal edge is tagged "E" and is either OLeft to a column-0 cell or a column-(n - 1) cell to ORight |
| `Encode.GoalOnlyX` | hex_gtm/encode.py:72-74 | only the X goal loop creates edges from XTop or into XBottom |
| `Encode.GoalOnlyO` | hex_gtm/encode.py:75-77 | only the O goal loop creates edges from OLeft or into ORight |
| `Encode.GoalEdgeTopSound` | hex_gtm/encode.py:73 | an edge from XTop to a cell goes to row 0 and is tagged "E" |
| `Encode.GoalEdgeTopPresent` | hex_gtm/encode.py:73 | every row-0 cell has an "E" edge from XTop |
| `Encode.GoalEdgeTop` | hex_gtm/encode.py:73 | XTop has an edge of type t to cell (i, j) if and only if i == 0 and t is "E" |
| `Encode.GoalEdgeBottomSound` | hex_gtm/encode.py:74 | an edge from a cell to XBottom leaves row n - 1 and is tagged "E" |
| `Encode.GoalEdgeBottomPresent` | hex_gtm/encode.py:74 | every row-(n - 1) cell has an "E" edge to XBottom |
| `Encode.GoalEdgeBottom` | hex_gtm/encode.py:74 | cell (i, j) has an edge of type t to XBottom if and only if i == n - 1 and t is "E" |
| `Encode.GoalEdgeLeftSound` | hex_gtm/encode.py:76 | an edge from OLeft to a cell goes to column 0 and is tagged "E" |
| `Encode.GoalEdgeLeftPresent` | hex_gtm/encode.py:76 | every column-0 cell has an "E" edge from OLeft |
| `Encode.GoalEdgeLeft` | hex_gtm/encode.py:76 | OLeft has an edge of type t to cell (i, j) if and only if j == 0 and t is "E" |
| `Encode.GoalEdgeRightSound` | hex_gtm/encode.py:77 | an edge from a cell to ORight leaves column n - 1 and is tagged "E" |
| `Encode.GoalEdgeRightPresent` | hex_gtm/encode.py:77 | every column-(n - 1) cell has an "E" edge to ORight |
| `Encode.GoalEdgeRight` | hex_gtm/encode.py:77 | cell (i, j) has an edge of type t to ORight if and only if j == n - 1 and t is "E" |
| `Encode.CellOutEdges` | hex_gtm/encode.py:65-72 | the cell-to-cell edges leaving a cell are exactly its own adjacency edges, at most six of them |
| `Encode.CellOutDegree` | hex_gtm/encode.py:57-77 | all edges leaving cell (i, j), goal edges included, number its adjacency edges plus one on the last row (into XBottom) plus one on the last column (into ORight), never more than the 6 its node is declared with |
| `Encode.GoalNodeOutDegree` | hex_gtm/encode.py:73-77 | every edge a goal node sends: n from XTop, n from OLeft, none from XBottom or ORight |
| `Encode.GoalOutDegree` | hex_gtm/encode.py:58-77 | XTop and OLeft each send n edges, within the n * n they are declared with; XBottom and ORight send none |
| `Encode.BorderNeighbors` | hex_gtm/encode.py:65-72 | a last-row cell lacks its SE and SW neighbours and a last-column cell its E and SE neighbours, so its neighbours and goal edges together are at most six |
| `Encode.GridPropertiesMember` | hex_gtm/encode.py:89-98 | the cell loop's properties are those of some on-board cell |
| `Encode.MarkPropertiesMember` | hex_gtm/encode.py:99-101 | the mark loop gives exactly the cells C0 .. C(n * n - 1) the mark |
| `Encode.CellPropertiesNamed` | hex_gtm/encode.py:91-98 | every property stamped for cell (i, j) is on node C(i * n + j) |
| `Encode.PropertiesOnCells` | hex_gtm/encode.py:89-101 | every property is on a cell node; goal nodes get none |
| `Encode.PropertiesOfCell` | hex_gtm/encode.py:89-101 | a cell carries symbol s exactly when s is its content symbol, a side symbol of a border it lies on, or the to-move mark |
| `Encode.OneContentSymbol` | hex_gtm/encode.py:92-94 | of "X", "O" and "Empty", a cell carries exactly the one for its value: "X" for 1, "O" for 2, "Empty" for anything else |
| `Encode.SingleCellSymbols` | hex_gtm/encode.py:95-101 | the single cell of a 1-by-1 board carries its content, all four side symbols and the mark, and nothing else |
| `Encode.Graphs.constructor` | hex_gtm/encode.py:37-43 | a new batch of `batchSize` graphs with empty logs |
| `Encode.Graphs.SetNumberOfGraphNodes` | hex_gtm/encode.py:51 | appends one node count for graph gi and changes nothing else |
| `Encode.Graphs.AddGraphNode` | hex_gtm/encode.py:57-61 | appends one node declaration for graph gi and changes nothing else |
| `Encode.Graphs.AddGraphNodeEdge` | hex_gtm/encode.py:71-77 | appends one edge for graph gi and changes nothing else |
| `Encode.Graphs.AddGraphNodeProperty` | hex_gtm/encode.py:93-101 | appends one property for graph gi and changes nothing else |
| `Encode.StampSignature` | hex_gtm/encode.py:20-23 | the signature becomes [9, 7, n, bsz], the numbers of symbols and edge symbols, the board size and the batch size |
| `Encode.AddNodes` | hex_gtm/encode.py:56-61 | the node loop for graph gi appends that graph's node layout |
| `Encode.AddNeighborEdge` | hex_gtm/encode.py:69-71 | one round of the neighbour loop appends the cell's next edge, so the logged prefix of the cell's edges grows by one |
| `Encode.AddCellEdges` | hex_gtm/encode.py:68-71 | the neighbour loop of a cell appends exactly that cell's edges, in direction order |
| `Encode.AddRowEdges` | hex_gtm/encode.py:67-71 | the column loop appends the edges of the row's cells in order |
| `Encode.AddAdjacencyEdges` | hex_gtm/encode.py:66-71 | the row loop appends all adjacency edges in row-major order |
| `Encode.AddGoalEdges` | hex_gtm/encode.py:72-77 | the two goal loops append the X goal edges, then the O goal edges |
| `Encode.AddEdges` | hex_gtm/encode.py:65-77 | one graph's edge loops append exactly that graph's edges |
| `Encode.SetNodeCounts` | hex_gtm/encode.py:49-51 | every graph of the batch is given n * n + 4 nodes, in graph order |
| `Encode.AddAllNodes` | hex_gtm/encode.py:55-61 | every graph of the batch gets the same node sequence, in graph order |
| `Encode.AddAllEdges` | hex_gtm/encode.py:65-77 | every graph of the batch gets the same edge sequence, in graph order |
| `Encode.InitTopology` | hex_gtm/encode.py:46-79 | the node counts, nodes and edges appended are the same block for every graph of the batch, properties are untouched, and the signature is [9, 7, n, bsz] |
| `Blocks.BatchAt` | hex_gtm/encode.py:55-77 | entry k of graph gi's block in a batch log is entry k of the common sequence, so every graph index gets an identical sequence |
| `Encode.AddCellProperties` | hex_gtm/encode.py:91-98 | one cell's round appends its content symbol and its side symbols |
| `Encode.AddSideProperty` | hex_gtm/encode.py:95-98 | a side symbol is appended exactly when the cell lies on that border |
| `Encode.AddRowProperties` | hex_gtm/encode.py:90-98 | the column loop appends the properties of the row's cells in order |
| `Encode.SetProperties` | hex_gtm/encode.py:83-101 | the properties appended for graph gi are the board's cell properties followed by the mark on every cell; nodes, edges, counts and signature are untouched |
| `SelfPlay.CollectStep` | hex_gtm/selfplay.py:10-18 | one round stops exactly on a won or full board, else moves to the next position of the same game with fewer legal moves |
| `SelfPlay.PlayGame` | hex_gtm/selfplay.py:9-18 | the loop visits exactly the positions of the game and uses one draw per move |
| `SelfPlay.CollectPositions` | hex_gtm/selfplay.py:5-23 | the records returned are the positions of the game, one per position, each with the label the code backfills, after one draw per move |
| `SelfPlay.RecordsFollowGame` | hex_gtm/selfplay.py:9-18 | there is at least one record; the first is the initial board with `to_move`; each next record swaps the side to move and adds that side's stone on one empty cell |
| `SelfPlay.RecordsStopAtEnd` | hex_gtm/selfplay.py:11-13 | the last record is won or full, and every earlier record is undecided with a legal move |
| `SelfPlay.RecordsCount` | hex_gtm/selfplay.py:9-13 | at most (empty cells + 1) records with a stone to move, and exactly one from a won or full board |
| `SelfPlay.RecordsShareLabel` | hex_gtm/selfplay.py:20-23 | every record carries 1 exactly when the final winner is the starting `to_move`, and 0 otherwise |
| `SelfPlay.StartLabelMislabels` | hex_gtm/selfplay.py:20-22 | from the empty 1-by-1 board with X to move, both records are labelled 1, including the one with O, the loser, to move |
| `SelfPlay.CollectPositionsBySide` | hex_gtm/selfplay.py:5-23 | the corrected recorder returns the game's positions, each labelled 1 exactly when its own side to move wins |
| `SelfPlay.SideRecordsSamePositions` | hex_gtm/selfplay.py:10 | the corrected records hold the same boards and sides to move as those of `collect_positions` |
| `SelfPlay.SideLabelsAt` | hex_gtm/selfplay.py:20-23 | in a won game, two successive corrected labels add up to 1 |
| `SelfPlay.SideLabelsAlternate` | hex_gtm/selfplay.py:20-23 | in a won game the corrected labels alternate between 1 and 0 |
| `SelfPlay.SideLabelsNoWinner` | hex_gtm/selfplay.py:20-23 | in a game that ends on a full board with no winner, every corrected label is 0 |
| `SelfPlay.SideAgreesAtStart` | hex_gtm/selfplay.py:20-23 | the first corrected record equals the first record of `collect_positions` |
| `SelfPlay.WinnerAfterStep` | hex_gtm/selfplay.py:11-18 | each position of a game is undecided or won by the player who just moved |
| `SelfPlay.MoverWins` | hex_gtm/selfplay.py:15-18 | a move on an open board leaves it undecided or won by the mover |
| `SelfPlay.LastMoverWins` | hex_gtm/selfplay.py:11-20 | a game of two or more positions ends undecided or won by the side to move at its second-last record |
| `SelfPlay.SideLastRecordLoses` | hex_gtm/selfplay.py:20-23 | in a game of two or more positions the last corrected record is labelled 0: its side to move never wins |
| `SelfPlay.EmptyBoard` | hex_gtm/selfplay.py:29 | an n-by-n board of EMPTY cells |
| `SelfPlay.EmptyBoardMoves` | hex_gtm/selfplay.py:29 | the empty n-by-n board has n * n legal moves |
| `SelfPlay.FirstPlayer` | hex_gtm/selfplay.py:31 | the first player drawn is X or O |
| `SelfPlay.GamesUnfold` | hex_gtm/selfplay.py:28-32 | the dataset is the game drawn first, then the dataset from the draw after it |
| `SelfPlay.DatasetRound` | hex_gtm/selfplay.py:29-32 | one round draws the first player, records one game from the empty board with the labels `collect_positions` gives, and returns the next unused draw |
| `SelfPlay.MakeDataset` | hex_gtm/selfplay.py:25-33 | the data is the concatenation of exactly `games` games, one per round, in order |
| `SelfPlay.DatasetGameStart` | hex_gtm/selfplay.py:29-32 | a dataset game's first record is the empty board with the drawn player to move |
| `SelfPlay.DatasetGameSize` | hex_gtm/selfplay.py:29-32 | a dataset game has between 1 and n * n + 1 records |
| `SelfPlay.GameOfDataset` | hex_gtm/selfplay.py:28-32 | every game of a dataset starts on the empty board with X or O to move |
| `SelfPlay.DatasetSize` | hex_gtm/selfplay.py:25-33 | a dataset of `games` games has between `games` and games * (n * n + 1) records |

## Left out

- NumPy's random number generator is replaced by the caller's stream `rng`. This covers `np.random.seed`, `np.random.randint` and `np.random.rand`. The exact sequence of choices, and the uniformity of the choice, are not modelled.
- SelfPlay.MakeDataset: the defaults `n=7` and `games=2000` are not modelled; callers pass both explicitly.
- `np.random.rand() < 0.5` is modelled as the parity of one draw (`SelfPlay.FirstPlayer`); floating point is not modelled.
- `make_empty_batch` is modelled only as far as the batch size it passes (`Encode.Graphs.constructor`). The `Graphs` library internals are not modelled:
  - the symbol list, hypervector sizes and bits;
  - `prepare_node_configuration` and `prepare_edge_configuration`;
  - the library's own storage.
  Only the calls made to the library are recorded, in order.
- Encode.InitTopology: the batch size is the `batchSize` field of `Graphs`. The `getattr` fallback to `_bsz` and then to 1 is not modelled.
- Node names are the datatype `NodeName`. The text of an f-string such as `"C12"` is not modelled, so `C(k)` and `XTop` are distinct by construction.
- Board copies (`board.copy()`, `b.copy()`) need no model: boards are immutable values, so the caller's board can never be changed.
- The int8 and int64 dtypes of the arrays are not modelled; cell values and the signature are unbounded integers.
- `board.shape[0]` is `|b|`. Operations that index a board require it to be square, as every caller in the repository passes n-by-n boards.
- HexRules.Connected: the bound of n * n loop rounds is stated only for distinct sources. With a repeated source the code queues that cell twice, so the bound does not hold. The sources `winner` passes are distinct.
- SelfPlay.RecordsCount: the bound of (empty cells + 1) records is stated for a stone to move. With EMPTY to move, the first move leaves the board unchanged and the game has one record more, as `HexRules.GameLength` states.
- `hex_gtm/model.py` is not part of this model. It wraps an external classifier with floating-point scores.
- `play_cli.py` is not part of this model; it is console input and output.
- `train_hex.py` is not part of this model; it shuffles, splits, trains and saves.

## Findings

| source | as written | input that shows it | evidently intended | confidence | as-written member | corrected member |
|---|---|---|---|---|---|---|
| hex_gtm/selfplay.py:20-22 | every record is labelled 1 when the final winner equals the side to move at the START of the game, whoever is to move at that record | the empty 1-by-1 board with X to move: X fills the cell and wins, and both records, including the one with O (the loser) to move, are labelled 1 | each record labelled 1 exactly when its own side to move goes on to win, which is what the classifier's class 1 "win for side-to-move" means (hex_gtm/model.py:44) | high; not executed | `SelfPlay.StartLabelMislabels` | `SelfPlay.CollectPositionsBySide` |
