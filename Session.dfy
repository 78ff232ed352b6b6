/**
 * The game session: the level, the board size, the board the player drags
 * and the target board it was scrambled from. The two boards and the level
 * are globals in the game; here they are fields of `Game`. The game assigns
 * boards by value, which is a fresh copy here.
 */
module Session {
  import opened Geometry
  import opened Groups
  import opened Layouts
  import opened Scores
  import opened Boards

  class Game {
    var level: int
    var boardSize: Position
    var board: Board
    var targetBoard: Board

    /** What starting a game needs: a level with table entries and a target
        board with its score buffers and no selection. */
    predicate Ready()
      reads this, targetBoard
    {
      0 <= level < |BdSize| && targetBoard.Sized() && targetBoard.index == NONE
    }

    /** The attempts of one `newGame`: 1000 scramble attempts with offsets in
        {-1, 0, 1}, then 2000 drift attempts alternating a step right and a
        step up, every index naming a group of the player's board. */
    ghost predicate Scrambled(scramble: seq<Attempt>, drift: seq<Attempt>)
      reads this, board
    {
      |scramble| == 1000 && |drift| == 2000 &&
      (forall k :: 0 <= k < |scramble| ==>
        scramble[k].index < |board.groups| && -1 <= scramble[k].dx <= 1 && -1 <= scramble[k].dy <= 1) &&
      (forall k :: 0 <= k < |drift| ==> drift[k].index < |board.groups|) &&
      (forall n :: 0 <= n < 1000 ==>
        drift[2 * n].dx == 1 && drift[2 * n].dy == 0 &&
        drift[2 * n + 1].dx == 0 && drift[2 * n + 1].dy == -1)
    }

    /** The session invariant: the board size is the level's, both boards are
        valid and distinct, nothing is selected on the target, and the
        player's board holds the target's groups, in order, with the same
        sizes and values. */
    ghost predicate Valid()
      reads this, board, targetBoard
    {
      Ready() && boardSize == BdSize[level] && board != targetBoard &&
      board.Valid(boardSize) && targetBoard.Valid(boardSize) &&
      SameShapes(targetBoard.groups, board.groups)
    }

    /** `init`: start a game on the first level. */
    constructor ()
      ensures Valid() && level == 0 && boardSize == BdSize[0]
      ensures fresh(board) && fresh(targetBoard)
      ensures 1 <= |targetBoard.groups| <= GCount[0]
      ensures forall i :: 0 <= i < |targetBoard.groups| ==> Generated(targetBoard.groups[i])
      ensures board.index == NONE
      ensures exists scramble, drift ::
                Scrambled(scramble, drift) &&
                board.groups == Replay(Replay(targetBoard.groups, scramble, boardSize), drift, boardSize)
    {
      level := 0;
      boardSize := BdSize[0];
      board := new Board();
      targetBoard := new Board();
      new;
      ghost var scramble, drift := NewGame();
    }

    /** `newGame`: take the level's board size, generate the target, copy it to
        the player's board, scramble the copy with 1000 random unit steps and
        then drift it with 1000 rounds of a step right and a step up. */
    method NewGame() returns (ghost scramble: seq<Attempt>, ghost drift: seq<Attempt>)
      requires Ready()
      modifies this, targetBoard
      ensures Valid() && level == old(level) && fresh(board) && targetBoard == old(targetBoard)
      ensures 1 <= |targetBoard.groups| <= GCount[level]
      ensures forall i :: 0 <= i < |targetBoard.groups| ==> Generated(targetBoard.groups[i])
      ensures Scrambled(scramble, drift)
      ensures board.groups == Replay(Replay(targetBoard.groups, scramble, boardSize), drift, boardSize)
      ensures board.index == NONE
    {
      boardSize := BdSize[level];
      LevelTables(level);
      var draws := targetBoard.NewGame(level, boardSize);
      board := new Board.Copy(targetBoard);
      scramble := board.ScrambleGroupPositions(boardSize);
      ghost var scrambled := board.groups;
      drift := board.MoveAllToURCorner(boardSize);
      SameShapesTrans(targetBoard.groups, scrambled, board.groups);
    }

    /** `levelChange`: switch to another level and start a game on it. */
    method LevelChange(nLevel: int) returns (ghost scramble: seq<Attempt>, ghost drift: seq<Attempt>)
      requires Valid() && 0 <= nLevel < |BdSize|
      modifies this, targetBoard
      ensures Valid() && level == nLevel && boardSize == BdSize[nLevel] && fresh(board)
      ensures targetBoard == old(targetBoard)
      ensures 1 <= |targetBoard.groups| <= GCount[nLevel]
      ensures forall i :: 0 <= i < |targetBoard.groups| ==> Generated(targetBoard.groups[i])
      ensures Scrambled(scramble, drift)
      ensures board.groups == Replay(Replay(targetBoard.groups, scramble, boardSize), drift, boardSize)
      ensures board.index == NONE
    {
      level := nLevel;
      scramble, drift := NewGame();
    }

    /** The difference between the player's and the target's score of column x. */
    function ColumnDifferential(x: int): int
      reads this, board, targetBoard
      requires 0 <= x < |board.xScore| && x < |targetBoard.xScore|
    {
      board.xScore[x] - targetBoard.xScore[x]
    }

    /** The difference between the player's and the target's score of row y. */
    function RowDifferential(y: int): int
      reads this, board, targetBoard
      requires 0 <= y < |board.yScore| && y < |targetBoard.yScore|
    {
      board.yScore[y] - targetBoard.yScore[y]
    }

    /** `showAnswer`: replace the player's board by a copy of the target and
        rescore it; afterwards no column and no row differs from the target.
        The target, the level and the board size stay as they were. */
    method ShowAnswer()
      requires Valid()
      modifies this`board
      ensures Valid() && fresh(board)
      ensures targetBoard == old(targetBoard) && unchanged(targetBoard)
      ensures level == old(level) && boardSize == old(boardSize)
      ensures board.groups == targetBoard.groups && board.index == NONE
      ensures forall x :: 0 <= x < boardSize.x ==> ColumnDifferential(x) == 0
      ensures forall y :: 0 <= y < boardSize.y ==> RowDifferential(y) == 0
    {
      board := new Board.Copy(targetBoard);
      board.UpdateScores(boardSize);
    }

    /** `touchBegan`, forwarded to the player's board: select the first group,
        in array order, that includes the cell and remember the grab offset. */
    method TouchBegan(cell: Position)
      requires Valid()
      modifies board`index, board`touchOffset
      ensures Valid()
      ensures board.index == NONE <==>
        forall i :: 0 <= i < |board.groups| ==> !board.groups[i].Includes(cell.x, cell.y)
      ensures board.index != NONE ==>
        0 <= board.index < |board.groups| && board.groups[board.index].Includes(cell.x, cell.y) &&
        (forall i :: 0 <= i < board.index ==> !board.groups[i].Includes(cell.x, cell.y)) &&
        board.touchOffset == board.groups[board.index].pos.Minus(cell)
      ensures board.index == NONE ==> board.touchOffset == old(board.touchOffset)
    {
      board.TouchBegan(cell);
    }

    /** `touchMoved`, forwarded to the player's board: the groups become the
        drag outcome of the selection made by the last `touchBegan`, the scores
        change only when the groups do, and the session invariant holds. */
    method TouchMoved(cell: Position)
      requires Valid()
      modifies board`groups, board`xScore, board`yScore
      ensures Valid()
      ensures board.groups ==
        DragOutcome(old(board.groups), old(board.index), old(board.touchOffset), cell, boardSize)
      ensures board.groups == old(board.groups) ==>
        board.xScore == old(board.xScore) && board.yScore == old(board.yScore)
    {
      board.TouchMoved(cell, boardSize);
      SameShapesTrans(targetBoard.groups, old(board.groups), board.groups);
    }

    /** Within the board, a column differential is the gap between the two
        boards' column weights: the sums of value * height over the groups
        spanning that column. */
    lemma ColumnDifferentialIsWeightGap(x: int)
      requires Valid() && 0 <= x < boardSize.x
      ensures ColumnDifferential(x) == ColumnWeight(board.groups, x) - ColumnWeight(targetBoard.groups, x)
    {
      ColumnScoreIsWeight(board.groups, x, boardSize);
      ColumnScoreIsWeight(targetBoard.groups, x, boardSize);
    }

    /** Within the board, a row differential is the gap between the two
        boards' row weights: the sums of value * width over the groups
        spanning that row. */
    lemma RowDifferentialIsWeightGap(y: int)
      requires Valid() && 0 <= y < boardSize.y
      ensures RowDifferential(y) == RowWeight(board.groups, y) - RowWeight(targetBoard.groups, y)
    {
      RowScoreIsWeight(board.groups, y, boardSize);
      RowScoreIsWeight(targetBoard.groups, y, boardSize);
    }
  }

  /** A client driving a session as the view does: start, grab, drag, change
      the level twice, then show the answer, which leaves the player's board
      equal to the target with every differential zero. */
  method PlayScenario(grab: Position, drag: Position, nLevel: int) returns (g: Game)
    requires 0 <= nLevel < |BdSize|
    ensures g.Valid() && g.level == nLevel && g.board.groups == g.targetBoard.groups
    ensures forall x :: 0 <= x < g.boardSize.x ==> g.ColumnDifferential(x) == 0
    ensures forall y :: 0 <= y < g.boardSize.y ==> g.RowDifferential(y) == 0
  {
    g := new Game();
    g.TouchBegan(grab);
    g.TouchMoved(drag);
    ghost var scramble, drift := g.LevelChange(nLevel);
    scramble, drift := g.LevelChange(nLevel);
    g.ShowAnswer();
  }
}
