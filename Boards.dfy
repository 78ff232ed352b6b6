/**
 * The board: its ordered groups, the per-column and per-row score buffers
 * and the drag state. The board size and the level, globals in the game, are
 * parameters here. Every random draw is an arbitrary value in range, so each
 * contract holds for every outcome of the random source.
 */
module Boards {
  import opened Geometry
  import opened Groups
  import opened Layouts
  import opened Scores

  /** `randomIndex(max)`: `arc4random() % max`, a non-negative draw below |max|
      (the remainder takes the sign of the non-negative dividend). */
  method RandomIndex(max: int) returns (r: int)
    requires max != 0
    ensures 0 <= r < (if max < 0 then -max else max)
  {
    r :| 0 <= r < (if max < 0 then -max else max);
  }

  class Board {
    var groups: seq<Group>
    var xScore: seq<int>
    var yScore: seq<int>
    var index: int
    var touchOffset: Position

    /** A fresh board: no groups, zeroed score buffers, nothing selected. */
    constructor ()
      ensures groups == [] && index == NONE && touchOffset == Position(0, 0)
      ensures Sized()
      ensures forall x :: 0 <= x < |xScore| ==> xScore[x] == 0
      ensures forall y :: 0 <= y < |yScore| ==> yScore[y] == 0
    {
      groups := [];
      xScore := seq(ScoreSlots, _ => 0);
      yScore := seq(ScoreSlots, _ => 0);
      index := NONE;
      touchOffset := Position(0, 0);
    }

    /** `board = targetBoard`: boards are values, so assignment copies every field. */
    constructor Copy(from: Board)
      ensures groups == from.groups && xScore == from.xScore && yScore == from.yScore
      ensures index == from.index && touchOffset == from.touchOffset
    {
      groups := from.groups;
      xScore := from.xScore;
      yScore := from.yScore;
      index := from.index;
      touchOffset := from.touchOffset;
    }

    /** The score buffers have their fixed length. */
    predicate Sized()
      reads this
    {
      |xScore| == ScoreSlots && |yScore| == ScoreSlots
    }

    /** Every score inside the board equals its recomputed cell-weighted sum. */
    ghost predicate ScoresMatch(boardSize: Position)
      reads this
    {
      0 <= boardSize.x <= |xScore| && 0 <= boardSize.y <= |yScore| &&
      (forall x :: 0 <= x < boardSize.x ==> xScore[x] == ColumnSum(groups, x, ScannedLength(boardSize.y))) &&
      (forall y :: 0 <= y < boardSize.y ==> yScore[y] == RowSum(groups, y, ScannedLength(boardSize.x)))
    }

    /** The board invariant: groups on the board and pairwise disjoint, the
        selection empty or a group, and the scores up to date. */
    ghost predicate Valid(boardSize: Position)
      reads this
    {
      Sized() && BoardFits(boardSize) && Arranged(groups, boardSize) &&
      (index == NONE || 0 <= index < |groups|) && ScoresMatch(boardSize)
    }

    /** `updateScores`: recompute every column score and row score inside the
        board from the groups; entries past the board are left alone. */
    method UpdateScores(boardSize: Position)
      requires 0 <= boardSize.x <= |xScore| && 0 <= boardSize.y <= |yScore|
      modifies this`xScore, this`yScore
      ensures |xScore| == |old(xScore)| && |yScore| == |old(yScore)|
      ensures ScoresMatch(boardSize)
      ensures forall x :: boardSize.x <= x < |xScore| ==> xScore[x] == old(xScore[x])
      ensures forall y :: boardSize.y <= y < |yScore| ==> yScore[y] == old(yScore[y])
    {
      UpdateColumnScores(boardSize);
      UpdateRowScores(boardSize);
    }

    /** The first pass of `updateScores`: each column x inside the board is
        zeroed and then scanned from row 0 while the cell is on the board,
        adding the value of every group that includes the cell. */
    method UpdateColumnScores(boardSize: Position)
      requires 0 <= boardSize.x <= |xScore|
      modifies this`xScore
      ensures |xScore| == |old(xScore)|
      ensures forall x :: 0 <= x < boardSize.x ==> xScore[x] == ColumnSum(groups, x, ScannedLength(boardSize.y))
      ensures forall x :: boardSize.x <= x < |xScore| ==> xScore[x] == old(xScore[x])
    {
      var x := 0;
      while x < boardSize.x
        invariant 0 <= x <= boardSize.x
        invariant |xScore| == |old(xScore)|
        invariant forall i :: 0 <= i < x ==> xScore[i] == ColumnSum(groups, i, ScannedLength(boardSize.y))
        invariant forall i :: x <= i < |xScore| ==> xScore[i] == old(xScore[i])
      {
        xScore := xScore[x := 0];
        var y := 0;
        while true
          invariant 0 <= y < ScannedLength(boardSize.y)
          invariant |xScore| == |old(xScore)|
          invariant xScore[x] == ColumnSum(groups, x, y)
          invariant forall i :: 0 <= i < x ==> xScore[i] == ColumnSum(groups, i, ScannedLength(boardSize.y))
          invariant forall i :: x < i < |xScore| ==> xScore[i] == old(xScore[i])
          decreases ScannedLength(boardSize.y) - y
        {
          var k := 0;
          while k < |groups|
            invariant 0 <= k <= |groups|
            invariant |xScore| == |old(xScore)|
            invariant xScore[x] == ColumnSum(groups, x, y) + CellValue(groups[..k], x, y)
            invariant forall i :: 0 <= i < x ==> xScore[i] == ColumnSum(groups, i, ScannedLength(boardSize.y))
            invariant forall i :: x < i < |xScore| ==> xScore[i] == old(xScore[i])
          {
            if groups[k].Includes(x, y) {
              xScore := xScore[x := xScore[x] + groups[k].value];
            }
            assert groups[..k + 1][..k] == groups[..k];
            k := k + 1;
          }
          assert groups[..|groups|] == groups;
          y := y + 1;
          if !IsOnBoardPosition(boardSize, x, y) {
            break;
          }
        }
        x := x + 1;
      }
    }

    /** The second pass of `updateScores`: the same scan for every row y
        inside the board, from column 0. */
    method UpdateRowScores(boardSize: Position)
      requires 0 <= boardSize.y <= |yScore|
      modifies this`yScore
      ensures |yScore| == |old(yScore)|
      ensures forall y :: 0 <= y < boardSize.y ==> yScore[y] == RowSum(groups, y, ScannedLength(boardSize.x))
      ensures forall y :: boardSize.y <= y < |yScore| ==> yScore[y] == old(yScore[y])
    {
      var y := 0;
      while y < boardSize.y
        invariant 0 <= y <= boardSize.y
        invariant |yScore| == |old(yScore)|
        invariant forall j :: 0 <= j < y ==> yScore[j] == RowSum(groups, j, ScannedLength(boardSize.x))
        invariant forall j :: y <= j < |yScore| ==> yScore[j] == old(yScore[j])
      {
        yScore := yScore[y := 0];
        var x := 0;
        while true
          invariant 0 <= x < ScannedLength(boardSize.x)
          invariant |yScore| == |old(yScore)|
          invariant yScore[y] == RowSum(groups, y, x)
          invariant forall j :: 0 <= j < y ==> yScore[j] == RowSum(groups, j, ScannedLength(boardSize.x))
          invariant forall j :: y < j < |yScore| ==> yScore[j] == old(yScore[j])
          decreases ScannedLength(boardSize.x) - x
        {
          var k := 0;
          while k < |groups|
            invariant 0 <= k <= |groups|
            invariant |yScore| == |old(yScore)|
            invariant yScore[y] == RowSum(groups, y, x) + CellValue(groups[..k], x, y)
            invariant forall j :: 0 <= j < y ==> yScore[j] == RowSum(groups, j, ScannedLength(boardSize.x))
            invariant forall j :: y < j < |yScore| ==> yScore[j] == old(yScore[j])
          {
            if groups[k].Includes(x, y) {
              yScore := yScore[y := yScore[y] + groups[k].value];
            }
            assert groups[..k + 1][..k] == groups[..k];
            k := k + 1;
          }
          assert groups[..|groups|] == groups;
          x := x + 1;
          if !IsOnBoardPosition(boardSize, x, y) {
            break;
          }
        }
        y := y + 1;
      }
    }

    /** The scan that precedes every committed move: does group `index`, moved
        by (dx, dy) and clamped, overlap any other group? */
    method OverlapsAnyOther(index: nat, dx: int, dy: int, boardSize: Position) returns (overlap: bool)
      requires index < |groups| && 0 <= groups[index].size.x && 0 <= groups[index].size.y
      ensures overlap <==> CollidesWithOther(groups, index, groups[index].Moved(dx, dy, boardSize))
    {
      overlap := false;
      var i := 0;
      while i < |groups|
        invariant 0 <= i <= |groups| && !overlap
        invariant forall j :: 0 <= j < i && j != index ==> !Overlaps(groups[index].Moved(dx, dy, boardSize), groups[j])
      {
        if i != index {
          var hit := groups[index].OverlapsOtherIfMoved(groups[i], dx, dy, boardSize);
          if hit {
            overlap := true;
            break;
          }
        }
        i := i + 1;
      }
    }

    /** `randomGroup`, local to `newGame`: append a group of random size and
        value, then draw positions that fit the board until one overlaps no
        other group; after the 1001st failed draw the group is removed again. */
    method RandomGroup(boardSize: Position) returns (ghost draws: nat)
      requires MaxGroupSide <= boardSize.x && MaxGroupSide <= boardSize.y
      requires Arranged(groups, boardSize)
      modifies this`groups
      ensures Arranged(groups, boardSize)
      ensures groups == old(groups) ||
        (|groups| == |old(groups)| + 1 && groups[..|old(groups)|] == old(groups) && Generated(groups[|old(groups)|]))
      ensures old(groups) == [] ==> |groups| == 1
      ensures 1 <= draws <= 1001 && (groups == old(groups) ==> draws == 1001)
    {
      var w := RandomIndex(4);
      var h := RandomIndex(4);
      var sz := Position(1 + w, 1 + h);
      var v := RandomIndex(5);
      var value := 1 + v;
      groups := groups + [Group(Position(0, 0), sz, value)];
      var index := |groups| - 1;
      var attempts := 0;
      draws := 0;

      while true
        invariant 0 <= attempts <= 1000 && draws == attempts
        invariant |groups| == index + 1 && groups[..index] == old(groups)
        invariant groups[index].size == sz && groups[index].value == value
        decreases 1000 - attempts
      {
        var px := RandomIndex(boardSize.x - groups[index].size.x + 1);
        groups := groups[index := groups[index].(pos := Position(px, groups[index].pos.y))];
        var py := RandomIndex(boardSize.y - groups[index].size.y + 1);
        groups := groups[index := groups[index].(pos := Position(groups[index].pos.x, py))];
        draws := draws + 1;

        MovedInPlace(groups[index], boardSize);
        var overlap := OverlapsAnyOther(index, 0, 0, boardSize);
        if !overlap {
          assert groups == old(groups) + [groups[index]];
          AppendKeepsArranged(old(groups), groups[index], boardSize);
          break;
        }

        attempts := attempts + 1;
        if attempts > 1000 {
          groups := groups[..index] + groups[index + 1..];
          break;
        }
      }
    }

    /** `newGame`: clear the groups, try to place `GCount[level]` random groups
        and recompute the scores. The first group always finds a place, so the
        board holds between 1 and `GCount[level]` groups. */
    method NewGame(level: int, boardSize: Position) returns (ghost draws: seq<nat>)
      requires 0 <= level < |GCount|
      requires MaxGroupSide <= boardSize.x <= |xScore| && MaxGroupSide <= boardSize.y <= |yScore|
      modifies this`groups, this`xScore, this`yScore
      ensures 1 <= |groups| <= GCount[level]
      ensures Arranged(groups, boardSize) && forall i :: 0 <= i < |groups| ==> Generated(groups[i])
      ensures |draws| == GCount[level] && forall i :: 0 <= i < |draws| ==> 1 <= draws[i] <= 1001
      ensures |xScore| == |old(xScore)| && |yScore| == |old(yScore)| && ScoresMatch(boardSize)
    {
      groups := [];
      draws := [];
      for k := 0 to GCount[level]
        invariant |groups| <= k && (k > 0 ==> 1 <= |groups|)
        invariant Arranged(groups, boardSize) && forall i :: 0 <= i < |groups| ==> Generated(groups[i])
        invariant |draws| == k && forall i :: 0 <= i < |draws| ==> 1 <= draws[i] <= 1001
        invariant |xScore| == |old(xScore)| && |yScore| == |old(yScore)|
      {
        var d := RandomGroup(boardSize);
        draws := draws + [d];
      }
      UpdateScores(boardSize);
    }

    /** `scrambleGroupPositions`: 1000 times, shift a random group by an offset
        in {-1, 0, 1} on each axis and undo the shift if the group leaves the
        board or overlaps another; then recompute the scores. */
    method ScrambleGroupPositions(boardSize: Position) returns (ghost attempts: seq<Attempt>)
      requires Sized() && BoardFits(boardSize) && Arranged(groups, boardSize) && |groups| > 0
      modifies this`groups, this`xScore, this`yScore
      ensures |attempts| == 1000
      ensures forall k :: 0 <= k < |attempts| ==>
        attempts[k].index < |groups| && -1 <= attempts[k].dx <= 1 && -1 <= attempts[k].dy <= 1
      ensures groups == Replay(old(groups), attempts, boardSize)
      ensures Arranged(groups, boardSize) && SameShapes(old(groups), groups)
      ensures Sized() && ScoresMatch(boardSize)
    {
      attempts := [];
      for n := 0 to 1000
        invariant |attempts| == n && Sized()
        invariant groups == Replay(old(groups), attempts, boardSize)
        invariant Arranged(groups, boardSize) && SameShapes(old(groups), groups)
        invariant forall k :: 0 <= k < |attempts| ==>
          attempts[k].index < |groups| && -1 <= attempts[k].dx <= 1 && -1 <= attempts[k].dy <= 1
      {
        var index := RandomIndex(|groups|);
        var oldPos := groups[index].pos;
        var rx := RandomIndex(3);
        var ry := RandomIndex(3);

        ghost var before := groups;
        ghost var a := Attempt(index, rx - 1, ry - 1);
        ReplaySnoc(old(groups), attempts, a, boardSize);
        TryStepInPlace(before, a, boardSize);
        TryStepKeepsArranged(before, a, boardSize);
        attempts := attempts + [a];

        groups := groups[index := groups[index].(pos := groups[index].pos.Offset(rx - 1, ry - 1))];
        if !IsOnBoardPosition(boardSize, groups[index].pos.x, groups[index].pos.y) ||
           !IsOnBoardPosition(boardSize, groups[index].pos.x + groups[index].size.x - 1,
                              groups[index].pos.y + groups[index].size.y - 1) {
          groups := groups[index := groups[index].(pos := oldPos)];
          assert groups == before;
          continue;
        }

        var overlap := OverlapsAnyOther(index, 0, 0, boardSize);
        if overlap {
          groups := groups[index := groups[index].(pos := oldPos)];
          assert groups == before;
        }
      }
      UpdateScores(boardSize);
    }

    /** `move(dx, dy)`, local to `moveAllToURCorner`: shift a random group by
        (dx, dy) and undo the shift if it leaves the board or overlaps another. */
    method MoveRandomGroup(dx: int, dy: int, boardSize: Position) returns (ghost a: Attempt)
      requires Arranged(groups, boardSize) && |groups| > 0
      modifies this`groups
      ensures a.index < |groups| && a.dx == dx && a.dy == dy
      ensures groups == TryStep(old(groups), a, boardSize)
      ensures Arranged(groups, boardSize) && SameShapes(old(groups), groups)
    {
      var index := RandomIndex(|groups|);
      var oldPos := groups[index].pos;
      a := Attempt(index, dx, dy);
      TryStepInPlace(groups, a, boardSize);
      TryStepKeepsArranged(groups, a, boardSize);

      groups := groups[index := groups[index].(pos := groups[index].pos.Offset(dx, dy))];
      if !IsOnBoardPosition(boardSize, groups[index].pos.x, groups[index].pos.y) ||
         !IsOnBoardPosition(boardSize, groups[index].pos.x + groups[index].size.x - 1,
                            groups[index].pos.y + groups[index].size.y - 1) {
        groups := groups[index := groups[index].(pos := oldPos)];
        assert groups == old(groups);
        return;
      }

      var overlap := OverlapsAnyOther(index, 0, 0, boardSize);
      if overlap {
        groups := groups[index := groups[index].(pos := oldPos)];
        assert groups == old(groups);
        return;
      }
    }

    /** `moveAllToURCorner`: 1000 rounds of one attempted step right, (+1, 0),
        and one attempted step up, (0, -1), each on its own random group; then
        recompute the scores. */
    method MoveAllToURCorner(boardSize: Position) returns (ghost attempts: seq<Attempt>)
      requires Sized() && BoardFits(boardSize) && Arranged(groups, boardSize) && |groups| > 0
      modifies this`groups, this`xScore, this`yScore
      ensures |attempts| == 2000
      ensures forall k :: 0 <= k < |attempts| ==> attempts[k].index < |groups|
      ensures forall n :: 0 <= n < 1000 ==>
        attempts[2 * n].dx == 1 && attempts[2 * n].dy == 0 &&
        attempts[2 * n + 1].dx == 0 && attempts[2 * n + 1].dy == -1
      ensures groups == Replay(old(groups), attempts, boardSize)
      ensures Arranged(groups, boardSize) && SameShapes(old(groups), groups)
      ensures Sized() && ScoresMatch(boardSize)
    {
      // The source draws an index here and never uses it; the draw is kept
      // because it needs a non-empty board.
      var unused := RandomIndex(|groups|);
      attempts := [];
      for n := 0 to 1000
        invariant |attempts| == 2 * n && Sized()
        invariant groups == Replay(old(groups), attempts, boardSize)
        invariant Arranged(groups, boardSize) && SameShapes(old(groups), groups)
        invariant forall k :: 0 <= k < |attempts| ==> attempts[k].index < |groups|
        invariant forall m :: 0 <= m < n ==>
          attempts[2 * m].dx == 1 && attempts[2 * m].dy == 0 &&
          attempts[2 * m + 1].dx == 0 && attempts[2 * m + 1].dy == -1
      {
        ghost var g0 := groups;
        var right := MoveRandomGroup(1, 0, boardSize);
        ReplaySnoc(old(groups), attempts, right, boardSize);
        SameShapesTrans(old(groups), g0, groups);
        attempts := attempts + [right];

        ghost var g1 := groups;
        var up := MoveRandomGroup(0, -1, boardSize);
        ReplaySnoc(old(groups), attempts, up, boardSize);
        SameShapesTrans(old(groups), g1, groups);
        attempts := attempts + [up];
      }
      UpdateScores(boardSize);
    }

    /** `touchBegan`: select the first group, in array order, that includes the
        touched cell and remember the grab offset `pos - cell`; select nothing
        when no group includes it. */
    method TouchBegan(cell: Position)
      modifies this`index, this`touchOffset
      ensures index == NONE <==> forall i :: 0 <= i < |groups| ==> !groups[i].Includes(cell.x, cell.y)
      ensures index != NONE ==>
        0 <= index < |groups| && groups[index].Includes(cell.x, cell.y) &&
        (forall i :: 0 <= i < index ==> !groups[i].Includes(cell.x, cell.y)) &&
        touchOffset == groups[index].pos.Minus(cell)
      ensures index == NONE ==> touchOffset == old(touchOffset)
      ensures forall boardSize :: old(Valid(boardSize)) ==> Valid(boardSize)
    {
      index := NONE;
      var i := 0;
      while i < |groups|
        invariant 0 <= i <= |groups|
        invariant index == NONE && touchOffset == old(touchOffset)
        invariant forall j :: 0 <= j < i ==> !groups[j].Includes(cell.x, cell.y)
      {
        if groups[i].Includes(cell.x, cell.y) {
          index := i;
          touchOffset := groups[i].pos;
          touchOffset := touchOffset.Minus(cell);
          break;
        }
        i := i + 1;
      }
      forall boardSize | old(Valid(boardSize))
        ensures Valid(boardSize)
      {
        assert ScoresMatch(boardSize);
      }
    }

    /** `touchMoved`: drag the selected group so that the grab offset is kept.
        Nothing changes when nothing is selected, when the target is the
        group's own position, or when the clamped move would overlap another
        group; otherwise only the selected group moves and the scores are
        recomputed. */
    method TouchMoved(cell: Position, boardSize: Position)
      requires Valid(boardSize)
      modifies this`groups, this`xScore, this`yScore
      ensures Valid(boardSize)
      ensures groups == DragOutcome(old(groups), index, touchOffset, cell, boardSize)
      ensures SameShapes(old(groups), groups)
      ensures groups == old(groups) ==> xScore == old(xScore) && yScore == old(yScore)
    {
      DragOutcomeKeepsArranged(groups, index, touchOffset, cell, boardSize);
      if index == NONE {
        return;
      }
      var npos := cell;
      npos := npos.Plus(touchOffset);
      var dx := npos.x - groups[index].pos.x;
      var dy := npos.y - groups[index].pos.y;
      if dx == 0 && dy == 0 {
        return;
      }
      assert DragOutcome(groups, index, touchOffset, cell, boardSize) == Dragged(groups, index, dx, dy, boardSize);

      var overlap := OverlapsAnyOther(index, dx, dy, boardSize);
      if overlap {
        return;
      }

      groups := groups[index := groups[index].Moved(dx, dy, boardSize)];
      assert groups == Dragged(old(groups), index, dx, dy, boardSize);
      UpdateScores(boardSize);
      if groups == old(groups) {
        assert forall x :: 0 <= x < |xScore| ==> xScore[x] == old(xScore[x]);
        assert forall y :: 0 <= y < |yScore| ==> yScore[y] == old(yScore[y]);
      }
    }
  }

  /** The grab half of the drag scenario (A 2x2 at (0, 0), B 2x2 at (3, 3)):
      touching (0, 0) selects A with a zero grab offset, and touching (2, 2),
      between the two, selects nothing. `DragScenario` carries out the drags
      on a scored board. */
  method GrabScenario(a: Group, b: Group) returns (first: int, offset: Position, second: int)
    requires a == Group(Position(0, 0), Position(2, 2), 3) && b == Group(Position(3, 3), Position(2, 2), 2)
    ensures first == 0 && offset == Position(0, 0)
    ensures second == NONE
  {
    var board := new Board();
    board.groups := [a, b];
    board.TouchBegan(Position(0, 0));
    assert board.groups[0].Includes(0, 0);
    first, offset := board.index, board.touchOffset;
    board.TouchBegan(Position(2, 2));
    second := board.index;
  }

  /** The drag scenario on a scored board, with A 2x2 at (x, y) and B 2x2 at
      (x + 3, y + 3): grabbing A at its corner selects it with a zero grab
      offset, dragging to (x + 1, y + 1) moves A there, and dragging on to
      (x + 2, y + 2) is rejected, so A stays at (x + 1, y + 1) and the
      scores stay those of that arrangement. */
  method DragScenario(board: Board, boardSize: Position, x: int, y: int)
    requires 0 <= x && 0 <= y && x + 5 <= boardSize.x && y + 5 <= boardSize.y
    requires board.groups ==
      [Group(Position(x, y), Position(2, 2), 3), Group(Position(x + 3, y + 3), Position(2, 2), 2)]
    requires board.Valid(boardSize)
    modifies board
    ensures board.Valid(boardSize) && board.index == 0 && board.touchOffset == Position(0, 0)
    ensures board.groups ==
      [Group(Position(x + 1, y + 1), Position(2, 2), 3), Group(Position(x + 3, y + 3), Position(2, 2), 2)]
  {
    board.TouchBegan(Position(x, y));
    assert board.groups[0].Includes(x, y);
    FirstDragCommits(boardSize, x, y);
    board.TouchMoved(Position(x + 1, y + 1), boardSize);
    SecondDragBlocked(boardSize, x, y);
    board.TouchMoved(Position(x + 2, y + 2), boardSize);
  }

  /** Generation on the first level (8x8 board, 4 pieces requested) yields
      between one and four groups. */
  method GenerationScenario() returns (count: int)
    ensures 1 <= count <= 4
  {
    var board := new Board();
    var draws := board.NewGame(0, BdSize[0]);
    count := |board.groups|;
  }
}
