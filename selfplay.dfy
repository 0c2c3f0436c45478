/** The self-play recorder: random games are played from a position and
    every position visited is recorded with the side to move and a label
    backfilled from the game's outcome. */
module SelfPlay {
  import opened Axial
  import opened HexBoard
  import opened HexRules
  import opened Blocks

  /** A training record: a board, the side to move on it, and a label. */
  datatype Record = Record(board: SquareBoard, toMove: int, result: int)

  /** The records of positions `g`, all carrying `result`. */
  ghost function Labelled(g: seq<Position>, result: int): (r: seq<Record>)
    ensures |r| == |g|
    ensures forall k :: 0 <= k < |g| ==> r[k] == Record(g[k].board, g[k].toMove, result)
  {
    seq(|g|, k requires 0 <= k < |g| => Record(g[k].board, g[k].toMove, result))
  }

  /** The label `collect_positions` backfills: 1 when the winner of the
      final board is the side that was to move at the start, else 0. */
  ghost function StartLabel(g: seq<Position>, toMove: int): int
    requires |g| > 0
  {
    if WinnerOf(Last(g).board) == toMove then 1 else 0
  }

  /** The records `collect_positions` returns for the game played from
      `board` with `toMove` to move and random draws rng(t), rng(t + 1), ... */
  ghost function GameRecords(board: Board, toMove: int, rng: nat -> nat, t: nat): seq<Record>
    requires IsSquare(board)
  {
    var g := Game(board, toMove, rng, t);
    Labelled(g, StartLabel(g, toMove))
  }

  /** One round of the recording loop: stop at a won or full board,
      otherwise play the drawn move. */
  method CollectStep(b: Board, p: int, rng: nat -> nat, t: nat) returns (over: bool, b': Board, p': int)
    requires IsSquare(b)
    ensures IsSquare(b')
    ensures over <==> IsFinal(b)
    ensures over ==> Game(b, p, rng, t) == [Position(b, p)]
    ensures !over ==> Game(b, p, rng, t) == [Position(b, p)] + Game(b', p', rng, t + 1)
    ensures !over ==> (|LegalMoves(b')| < |LegalMoves(b)| || (|LegalMoves(b')| == |LegalMoves(b)| && p == EMPTY && p' != EMPTY))
  {
    var w := Winner(b);
    if w != 0 || |LegalMoves(b)| == 0 {
      return true, b, p;
    }
    var moves := LegalMoves(b);
    var mv := moves[rng(t) % |moves|];
    GameUnfold(b, p, rng, t);
    NextDecreases(b, p, rng(t));
    return false, ApplyMove(b, mv, p), Opposite(p);
  }

  /** The loop of `collect_positions`: the positions of one random game
      from `board`, each recorded before its move is played; `t` is the
      index of the next unused random draw. */
  method PlayGame(board: Board, toMove: int, rng: nat -> nat, t0: nat) returns (positions: seq<Position>, t: nat)
    requires IsSquare(board)
    ensures positions == Game(board, toMove, rng, t0)
    ensures t == t0 + |positions| - 1
  {
    positions := [];
    var b, p := board, toMove;
    t := t0;
    while true
      invariant IsSquare(b)
      invariant positions + Game(b, p, rng, t) == Game(board, toMove, rng, t0)
      invariant t == t0 + |positions|
      decreases |LegalMoves(b)|, if p == EMPTY then 1 else 0
    {
      var over, b', p' := CollectStep(b, p, rng, t);
      if over {
        positions := positions + [Position(b, p)];
        return;
      }
      AppendAssoc(positions, [Position(b, p)], Game(b', p', rng, t + 1));
      positions := positions + [Position(b, p)];
      b, p, t := b', p', t + 1;
    }
  }

  /** `collect_positions`: the records of one random game from `board`,
      every one labelled with whether the side to move at the START won. */
  method CollectPositions(board: Board, toMove: int, rng: nat -> nat, t0: nat) returns (records: seq<Record>, t: nat)
    requires IsSquare(board)
    ensures records == GameRecords(board, toMove, rng, t0)
    ensures |records| == |Game(board, toMove, rng, t0)|
    ensures t == t0 + |records| - 1
  {
    var positions;
    positions, t := PlayGame(board, toMove, rng, t0);
    var w := Winner(Last(positions).board);
    var res := 0;
    if w == toMove {
      res := 1;
    }
    records := seq(|positions|, k requires 0 <= k < |positions| => Record(positions[k].board, positions[k].toMove, res));
  }

  // ---------------------------------------------------------------------
  // What the records of one game satisfy

  /** The first record is the starting position; each later record has the
      other side to move and a board on which the previous side to move has
      filled one empty cell. */
  lemma RecordsFollowGame(board: Board, toMove: int, rng: nat -> nat, t: nat)
    requires IsSquare(board)
    ensures var r := GameRecords(board, toMove, rng, t);
      |r| >= 1 && r[0].board == board && r[0].toMove == toMove &&
      forall k :: 0 <= k < |r| - 1 ==>
        r[k + 1].toMove == Opposite(r[k].toMove) && PlayedFrom(r[k].board, r[k].toMove, r[k + 1].board)
  {
    var r := GameRecords(board, toMove, rng, t);
    RecordAt(board, toMove, rng, t, 0);
    forall k | 0 <= k < |r| - 1
      ensures r[k + 1].toMove == Opposite(r[k].toMove) && PlayedFrom(r[k].board, r[k].toMove, r[k + 1].board)
    {
      RecordAt(board, toMove, rng, t, k);
      RecordAt(board, toMove, rng, t, k + 1);
      StepAt(board, toMove, rng, t, k);
    }
  }

  /** Record k of a game is position k with the game's label. */
  lemma RecordAt(board: Board, toMove: int, rng: nat -> nat, t: nat, k: int)
    requires IsSquare(board) && 0 <= k < |Game(board, toMove, rng, t)|
    ensures var g := Game(board, toMove, rng, t);
      |GameRecords(board, toMove, rng, t)| == |g| &&
      GameRecords(board, toMove, rng, t)[k] == Record(g[k].board, g[k].toMove, StartLabel(g, toMove))
  {
  }

  /** Position k + 1 of a game follows position k by one move. */
  lemma StepAt(board: Board, toMove: int, rng: nat -> nat, t: nat, k: int)
    requires IsSquare(board) && 0 <= k < |Game(board, toMove, rng, t)| - 1
    ensures var g := Game(board, toMove, rng, t);
      g[k + 1].toMove == Opposite(g[k].toMove) && PlayedFrom(g[k].board, g[k].toMove, g[k + 1].board)
  {
    GameAlternates(board, toMove, rng, t);
  }

  /** The side to move changes at every step of a game. */
  lemma TurnAt(board: Board, toMove: int, rng: nat -> nat, t: nat, k: int)
    requires IsSquare(board) && 0 <= k < |Game(board, toMove, rng, t)| - 1
    ensures Game(board, toMove, rng, t)[k + 1].toMove == Opposite(Game(board, toMove, rng, t)[k].toMove)
  {
    StepAt(board, toMove, rng, t, k);
  }

  /** Position k of a game before the last is not final. */
  lemma OpenAt(board: Board, toMove: int, rng: nat -> nat, t: nat, k: int)
    requires IsSquare(board) && 0 <= k < |Game(board, toMove, rng, t)| - 1
    ensures !IsFinal(Game(board, toMove, rng, t)[k].board)
  {
    GameOpenAt(board, toMove, rng, t, k);
  }

  /** Recording stops at the first board that has a winner or no empty
      cell: every earlier board has neither. */
  lemma RecordsStopAtEnd(board: Board, toMove: int, rng: nat -> nat, t: nat)
    requires IsSquare(board)
    ensures var r := GameRecords(board, toMove, rng, t);
      |r| >= 1 && IsFinal(Last(r).board) &&
      forall k :: 0 <= k < |r| - 1 ==> WinnerOf(r[k].board) == 0 && |LegalMoves(r[k].board)| > 0
  {
    var r := GameRecords(board, toMove, rng, t);
    RecordAt(board, toMove, rng, t, 0);
    RecordAt(board, toMove, rng, t, |r| - 1);
    GameEnds(board, toMove, rng, t);
    forall k | 0 <= k < |r| - 1 ensures WinnerOf(r[k].board) == 0 && |LegalMoves(r[k].board)| > 0 {
      RecordAt(board, toMove, rng, t, k);
      OpenAt(board, toMove, rng, t, k);
    }
  }

  /** At most one record more than the empty cells of the starting board
      when a stone is to move, and exactly one when the game is already
      over. */
  lemma RecordsCount(board: Board, toMove: int, rng: nat -> nat, t: nat)
    requires IsSquare(board)
    ensures toMove != EMPTY ==> |GameRecords(board, toMove, rng, t)| <= |LegalMoves(board)| + 1
    ensures IsFinal(board) ==> |GameRecords(board, toMove, rng, t)| == 1
  {
    GameLength(board, toMove, rng, t);
  }

  /** Every record of a game carries the same label: 1 exactly when the
      winner of the final board is the side to move at the start. */
  lemma RecordsShareLabel(board: Board, toMove: int, rng: nat -> nat, t: nat)
    requires IsSquare(board)
    ensures var r := GameRecords(board, toMove, rng, t);
      |r| >= 1 && forall k :: 0 <= k < |r| ==> (r[k].result == 1 <==> WinnerOf(Last(r).board) == toMove) && (r[k].result == 0 <==> WinnerOf(Last(r).board) != toMove)
  {
    var r := GameRecords(board, toMove, rng, t);
    RecordAt(board, toMove, rng, t, |r| - 1);
    forall k | 0 <= k < |r| ensures (r[k].result == 1 <==> WinnerOf(Last(r).board) == toMove) && (r[k].result == 0 <==> WinnerOf(Last(r).board) != toMove) {
      RecordAt(board, toMove, rng, t, k);
    }
  }

  /** The label does not follow the side to move of its record: from the
      one-cell board with X to move, X fills the cell and wins, and the
      second record, with O to move, is labelled 1 although O has lost. */
  lemma StartLabelMislabels(rng: nat -> nat, t: nat)
    ensures IsSquare([[EMPTY]]) && IsSquare([[X]]) && WinnerOf([[X]]) == X
    ensures GameRecords([[EMPTY]], X, rng, t) == [Record([[EMPTY]], X, 1), Record([[X]], O, 1)]
  {
    var b0: Board := [[EMPTY]];
    WinnerSingleCell(EMPTY);
    WinnerSingleCell(X);
    assert Holds(b0, (0, 0), EMPTY);
    assert !IsFinal(b0);
    GameUnfold(b0, X, rng, t);
    var moves := LegalMoves(b0);
    var m := moves[Pick(rng(t), |moves|)];
    assert m in moves;
    var b1 := ApplyMove(b0, m, X);
    assert b1 == NextBoard(b0, X, rng(t));
    assert b1[0] == [X];
    assert b1 == [[X]];
    assert Game(b1, O, rng, t + 1) == [Position(b1, O)];
  }

  // ---------------------------------------------------------------------
  // Labels relative to each record's own side to move

  /** The records of one game, each labelled with whether ITS side to move
      is the winner of the final board. */
  ghost function SideRecords(board: Board, toMove: int, rng: nat -> nat, t: nat): (r: seq<Record>)
    requires IsSquare(board)
  {
    var g := Game(board, toMove, rng, t);
    var w := WinnerOf(Last(g).board);
    seq(|g|, k requires 0 <= k < |g| => Record(g[k].board, g[k].toMove, if w == g[k].toMove then 1 else 0))
  }

  /** `collect_positions` with each record labelled for its own side to
      move. */
  method CollectPositionsBySide(board: Board, toMove: int, rng: nat -> nat, t0: nat) returns (records: seq<Record>, t: nat)
    requires IsSquare(board)
    ensures records == SideRecords(board, toMove, rng, t0)
    ensures t == t0 + |records| - 1
  {
    var positions;
    positions, t := PlayGame(board, toMove, rng, t0);
    var w := Winner(Last(positions).board);
    records := seq(|positions|, k requires 0 <= k < |positions| => Record(positions[k].board, positions[k].toMove, if w == positions[k].toMove then 1 else 0));
  }

  /** Per-side record k of a game is position k labelled for its side. */
  lemma SideRecordAt(board: Board, toMove: int, rng: nat -> nat, t: nat, k: int)
    requires IsSquare(board) && 0 <= k < |Game(board, toMove, rng, t)|
    ensures var g := Game(board, toMove, rng, t);
      |SideRecords(board, toMove, rng, t)| == |g| &&
      SideRecords(board, toMove, rng, t)[k] ==
        Record(g[k].board, g[k].toMove, if WinnerOf(Last(g).board) == g[k].toMove then 1 else 0)
  {
  }

  /** With a stone to move at the start, every position of the game has a
      stone to move. */
  lemma StoneToMoveAt(board: Board, toMove: int, rng: nat -> nat, t: nat, k: int)
    requires IsSquare(board) && (toMove == X || toMove == O) && 0 <= k < |Game(board, toMove, rng, t)|
    ensures Game(board, toMove, rng, t)[k].toMove == X || Game(board, toMove, rng, t)[k].toMove == O
  {
    if k > 0 {
      TurnAt(board, toMove, rng, t, k - 1);
    }
  }

  /** The per-side records visit the same positions as the records of
      `collect_positions`; only the labels differ. */
  lemma SideRecordsSamePositions(board: Board, toMove: int, rng: nat -> nat, t: nat)
    requires IsSquare(board)
    ensures var r, s := SideRecords(board, toMove, rng, t), GameRecords(board, toMove, rng, t);
      |r| == |s| && forall k :: 0 <= k < |r| ==> r[k].board == s[k].board && r[k].toMove == s[k].toMove
  {
    var r, s := SideRecords(board, toMove, rng, t), GameRecords(board, toMove, rng, t);
    RecordAt(board, toMove, rng, t, 0);
    SideRecordAt(board, toMove, rng, t, 0);
    forall k | 0 <= k < |r| ensures r[k].board == s[k].board && r[k].toMove == s[k].toMove {
      SideRecordAt(board, toMove, rng, t, k);
      RecordAt(board, toMove, rng, t, k);
    }
  }

  /** With a stone to move at the start, per-side labels of a won game
      alternate between successive records. */
  lemma SideLabelsAlternate(board: Board, toMove: int, rng: nat -> nat, t: nat)
    requires IsSquare(board) && (toMove == X || toMove == O)
    requires WinnerOf(Last(Game(board, toMove, rng, t)).board) != 0
    ensures var r := SideRecords(board, toMove, rng, t);
      forall k :: 0 <= k < |r| - 1 ==> r[k].result + r[k + 1].result == 1
  {
    var r := SideRecords(board, toMove, rng, t);
    SideRecordAt(board, toMove, rng, t, 0);
    forall k | 0 <= k < |r| - 1 ensures r[k].result + r[k + 1].result == 1 {
      SideLabelsAt(board, toMove, rng, t, k);
    }
  }

  /** With a stone to move at the start, every per-side label of a game
      without a winner is 0. */
  lemma SideLabelsNoWinner(board: Board, toMove: int, rng: nat -> nat, t: nat)
    requires IsSquare(board) && (toMove == X || toMove == O)
    requires WinnerOf(Last(Game(board, toMove, rng, t)).board) == 0
    ensures var r := SideRecords(board, toMove, rng, t);
      forall k :: 0 <= k < |r| ==> r[k].result == 0
  {
    var r := SideRecords(board, toMove, rng, t);
    SideRecordAt(board, toMove, rng, t, 0);
    forall k | 0 <= k < |r| ensures r[k].result == 0 {
      SideRecordAt(board, toMove, rng, t, k);
      StoneToMoveAt(board, toMove, rng, t, k);
    }
  }

  /** Successive per-side labels of a won game add up to 1. */
  lemma SideLabelsAt(board: Board, toMove: int, rng: nat -> nat, t: nat, k: int)
    requires IsSquare(board) && (toMove == X || toMove == O)
    requires 0 <= k < |Game(board, toMove, rng, t)| - 1
    requires WinnerOf(Last(Game(board, toMove, rng, t)).board) != 0
    ensures SideRecords(board, toMove, rng, t)[k].result + SideRecords(board, toMove, rng, t)[k + 1].result == 1
  {
    var g := Game(board, toMove, rng, t);
    var w := WinnerOf(Last(g).board);
    assert w == X || w == O;
    SideRecordAt(board, toMove, rng, t, k);
    SideRecordAt(board, toMove, rng, t, k + 1);
    StoneToMoveAt(board, toMove, rng, t, k);
    TurnAt(board, toMove, rng, t, k);
    var r := SideRecords(board, toMove, rng, t);
    OneOfTwoWins(w, g[k].toMove, g[k + 1].toMove, r[k].result, r[k + 1].result);
  }

  /** Between a stone and its opposite, exactly one is the winner `w`. */
  lemma OneOfTwoWins(w: int, p: int, q: int, a: int, b: int)
    requires (w == X || w == O) && (p == X || p == O) && q == Opposite(p)
    requires a == (if w == p then 1 else 0) && b == (if w == q then 1 else 0)
    ensures a + b == 1
  {
  }

  /** The first per-side record of a game won by the side to move at the
      start is labelled 1, as its start label is. */
  lemma SideAgreesAtStart(board: Board, toMove: int, rng: nat -> nat, t: nat)
    requires IsSquare(board)
    ensures SideRecords(board, toMove, rng, t)[0] == GameRecords(board, toMove, rng, t)[0]
  {
  }
  /** The winner of a game of more than one position, if any, is the side
      that made the last move. */
  lemma LastMoverWins(board: Board, toMove: int, rng: nat -> nat, t: nat)
    requires IsSquare(board) && |Game(board, toMove, rng, t)| >= 2
    ensures var g := Game(board, toMove, rng, t);
      WinnerOf(Last(g).board) == 0 || WinnerOf(Last(g).board) == g[|g| - 2].toMove
  {
    var g := Game(board, toMove, rng, t);
    WinnerAfterStep(board, toMove, rng, t, |g| - 2);
    assert Last(g) == g[|g| - 2 + 1];
  }

  /** A move of a game can only make its mover the winner. */
  lemma WinnerAfterStep(board: Board, toMove: int, rng: nat -> nat, t: nat, k: int)
    requires IsSquare(board) && 0 <= k < |Game(board, toMove, rng, t)| - 1
    ensures var g := Game(board, toMove, rng, t);
      WinnerOf(g[k + 1].board) == 0 || WinnerOf(g[k + 1].board) == g[k].toMove
  {
    var g := Game(board, toMove, rng, t);
    OpenAt(board, toMove, rng, t, k);
    StepAt(board, toMove, rng, t, k);
    MoverWins(g[k].board, g[k].toMove, g[k + 1].board);
  }

  /** A move on an undecided board can only make its mover the winner. */
  lemma MoverWins(b: Board, p: int, b2: Board)
    requires IsSquare(b) && IsSquare(b2) && !IsFinal(b) && PlayedFrom(b, p, b2)
    ensures WinnerOf(b2) == 0 || WinnerOf(b2) == p
  {
    var m :| m in LegalMoves(b) && b2 == ApplyMove(b, m, p);
    WinnerIsMover(b, m, p);
  }

  /** Labelled for its own side, the last record of a game of more than one
      position is 0: its side to move did not make the winning move. */
  lemma SideLastRecordLoses(board: Board, toMove: int, rng: nat -> nat, t: nat)
    requires IsSquare(board) && |Game(board, toMove, rng, t)| >= 2
    ensures Last(SideRecords(board, toMove, rng, t)).result == 0
  {
    var n := |Game(board, toMove, rng, t)|;
    SideRecordAt(board, toMove, rng, t, n - 1);
    TurnAt(board, toMove, rng, t, n - 2);
    LastMoverWins(board, toMove, rng, t);
  }

  // ---------------------------------------------------------------------
  // make_dataset

  /** An n-by-n board of EMPTY cells. */
  function EmptyBoard(n: nat): (b: Board)
    ensures IsSquare(b) && |b| == n
    ensures forall i, j :: InBoard(n, i, j) ==> b[i][j] == EMPTY
  {
    seq(n, i => seq(n, j => EMPTY))
  }

  /** Every cell of the empty board is a legal move. */
  lemma EmptyBoardMoves(n: nat)
    ensures |LegalMoves(EmptyBoard(n))| == n * n
  {
    var b := EmptyBoard(n);
    LegalMovesSorted(b);
    SortedCard(LegalMoves(b));
    GridCard(n);
    assert (set c | c in LegalMoves(b)) == Grid(n) by {
      forall c ensures c in LegalMoves(b) <==> c in Grid(n) {
        assert Holds(b, c, EMPTY) <==> InBoard(n, c.0, c.1);
      }
    }
  }

  /** The side to move first: X when the coin draw is even, else O. */
  function FirstPlayer(r: nat): (p: int)
    ensures p == X || p == O
  {
    if r % 2 == 0 then X else O
  }

  /** The game of a dataset drawn from rng(t) on: the first player from
      draw t, the moves from draw t + 1 on, its records labelled as
      `collect_positions` labels them. */
  ghost function DatasetGame(n: nat, rng: nat -> nat, t: nat): seq<Record> {
    GameRecords(EmptyBoard(n), FirstPlayer(rng(t)), rng, t + 1)
  }

  /** The first draw after the game drawn from rng(t) on. */
  ghost function NextDraw(n: nat, rng: nat -> nat, t: nat): nat {
    t + |Game(EmptyBoard(n), FirstPlayer(rng(t)), rng, t + 1)|
  }

  /** The games of a dataset of `count` games on n-by-n boards, drawing
      from rng(t) on: each game spends one draw on the first player, then
      one per move of its own game. */
  ghost function Games(n: nat, count: nat, rng: nat -> nat, t: nat): (gs: seq<seq<Record>>)
    ensures |gs| == count
    decreases count
  {
    if count == 0 then [] else [DatasetGame(n, rng, t)] + Games(n, count - 1, rng, NextDraw(n, rng, t))
  }

  /** The records of all games, one game after another. */
  ghost function Flatten(gs: seq<seq<Record>>): seq<Record> {
    if gs == [] then [] else gs[0] + Flatten(gs[1..])
  }

  /** The dataset from draw t is the game drawn there, then the dataset
      from the draw after that game. */
  lemma GamesUnfold(n: nat, count: nat, rng: nat -> nat, t: nat)
    requires count > 0
    ensures Games(n, count, rng, t)[0] == DatasetGame(n, rng, t)
    ensures Flatten(Games(n, count, rng, t)) == DatasetGame(n, rng, t) + Flatten(Games(n, count - 1, rng, NextDraw(n, rng, t)))
  {
    var rest := Games(n, count - 1, rng, NextDraw(n, rng, t));
    assert Games(n, count, rng, t) == [DatasetGame(n, rng, t)] + rest;
    assert ([DatasetGame(n, rng, t)] + rest)[1..] == rest;
  }

  /** One game of `make_dataset`: draw the first player, then record a
      game from the empty board; `t'` is the next unused draw. */
  method DatasetRound(n: nat, rng: nat -> nat, t: nat) returns (records: seq<Record>, t': nat)
    ensures records == DatasetGame(n, rng, t)
    ensures t' == NextDraw(n, rng, t)
  {
    var board := EmptyBoard(n);
    var toMove := FirstPlayer(rng(t));
    records, t' := CollectPositions(board, toMove, rng, t + 1);
  }

  /** `make_dataset`: `games` random games from the empty n-by-n board,
      their records concatenated; the first player of each game is drawn
      before its moves. */
  method MakeDataset(n: nat, games: nat, rng: nat -> nat, t0: nat) returns (data: seq<Record>, t: nat)
    ensures data == Flatten(Games(n, games, rng, t0))
  {
    data := [];
    t := t0;
    for i := 0 to games
      invariant data + Flatten(Games(n, games - i, rng, t)) == Flatten(Games(n, games, rng, t0))
    {
      var records, t' := DatasetRound(n, rng, t);
      GamesUnfold(n, games - i, rng, t);
      AppendAssoc(data, records, Flatten(Games(n, games - i - 1, rng, t')));
      data := data + records;
      t := t';
    }
  }

  /** A game opening on the empty n-by-n board with a stone to move. */
  ghost predicate FromEmptyBoard(g: seq<Record>, n: nat) {
    |g| >= 1 && g[0].board == EmptyBoard(n) && (g[0].toMove == X || g[0].toMove == O)
  }

  /** One game of a dataset starts on the empty board with the drawn
      player to move. */
  lemma DatasetGameStart(n: nat, rng: nat -> nat, t: nat)
    ensures var g := DatasetGame(n, rng, t);
      |g| >= 1 && g[0].board == EmptyBoard(n) && g[0].toMove == FirstPlayer(rng(t))
  {
    RecordAt(EmptyBoard(n), FirstPlayer(rng(t)), rng, t + 1, 0);
  }

  /** One game of a dataset has between 1 and n * n + 1 records. */
  lemma DatasetGameSize(n: nat, rng: nat -> nat, t: nat)
    ensures 1 <= |DatasetGame(n, rng, t)| <= n * n + 1
  {
    var p := FirstPlayer(rng(t));
    RecordAt(EmptyBoard(n), p, rng, t + 1, 0);
    GameLength(EmptyBoard(n), p, rng, t + 1);
    EmptyBoardMoves(n);
  }

  /** Game k of a dataset starts on the empty board with a stone to move. */
  lemma {:induction false} GameOfDataset(n: nat, count: nat, rng: nat -> nat, t: nat, k: nat)
    requires k < count
    ensures FromEmptyBoard(Games(n, count, rng, t)[k], n)
    decreases k, 1
  {
    if k == 0 {
      GamesHead(n, count, rng, t);
      DatasetGameStart(n, rng, t);
    } else {
      GameOfDatasetStep(n, count, rng, t, k, count - 1, k - 1);
    }
  }

  /** Game k = j + 1 of count = m + 1 games is game j of the last m. */
  lemma {:induction false} GameOfDatasetStep(n: nat, count: nat, rng: nat -> nat, t: nat, k: nat, m: nat, j: nat)
    requires count == m + 1 && k == j + 1 && j < m
    ensures FromEmptyBoard(Games(n, count, rng, t)[k], n)
    decreases j + 1, 0
  {
    var t' := NextDraw(n, rng, t);
    GamesTail(n, count, rng, t, k, m, t', j);
    GameOfDataset(n, m, rng, t', j);
  }

  /** The first game of a dataset is the game drawn first. */
  lemma GamesHead(n: nat, count: nat, rng: nat -> nat, t: nat)
    requires count > 0
    ensures Games(n, count, rng, t)[0] == DatasetGame(n, rng, t)
  {
  }

  /** Game k = j + 1 of count = m + 1 games is game j of the m games
      after the first, which start from draw t'. */
  lemma GamesTail(n: nat, count: nat, rng: nat -> nat, t: nat, k: nat, m: nat, t': nat, j: nat)
    requires count == m + 1 && k == j + 1 && j < m && t' == NextDraw(n, rng, t)
    ensures Games(n, count, rng, t)[k] == Games(n, m, rng, t')[j]
  {
    var first, rest := DatasetGame(n, rng, t), Games(n, m, rng, t');
    assert Games(n, count, rng, t) == [first] + rest;
    ConsAt(first, rest, k);
  }

  /** `make_dataset` returns between `games` and games * (n * n + 1)
      records: every game has at least its opening record and at most
      one record per cell more. */
  lemma {:induction false} DatasetSize(n: nat, games: nat, rng: nat -> nat, t: nat)
    ensures games <= |Flatten(Games(n, games, rng, t))| <= games * (n * n + 1)
    decreases games, 1
  {
    if games > 0 {
      DatasetSizeStep(n, games - 1, rng, t);
    }
  }

  /** The size bound for m + 1 games from the bound for the last m. */
  lemma {:induction false} DatasetSizeStep(n: nat, m: nat, rng: nat -> nat, t: nat)
    ensures m + 1 <= |Flatten(Games(n, m + 1, rng, t))| <= (m + 1) * (n * n + 1)
    decreases m + 1, 0
  {
    var t' := NextDraw(n, rng, t);
    DatasetSize(n, m, rng, t');
    GamesUnfold(n, m + 1, rng, t);
    DatasetGameSize(n, rng, t);
    CountStep(m + 1, n * n + 1, |DatasetGame(n, rng, t)|, |Flatten(Games(n, m, rng, t'))|);
  }

  /** A block of 1 to `cap` entries after games - 1 blocks of that size
      makes games blocks of that size. */
  lemma CountStep(games: nat, cap: nat, a: nat, b: nat)
    requires games > 0 && 1 <= a <= cap && games - 1 <= b <= (games - 1) * cap
    ensures games <= a + b <= games * cap
  {
    assert (games - 1) * cap + cap == games * cap;
  }
}
