/**
 * Properties of a board's sequence of groups and the reference steps that
 * the board's operations are proved against: one attempted step of the
 * scramble or the drift (`TryStep`, folded over many attempts by `Replay`)
 * and one drag move (`DragOutcome`).
 */
module Layouts {
  import opened Geometry
  import opened Groups

  /** Every group is at least one cell wide and high and lies on the board. */
  predicate Placed(gs: seq<Group>, boardSize: Position) {
    forall i :: 0 <= i < |gs| ==> 1 <= gs[i].size.x && 1 <= gs[i].size.y && gs[i].InBounds(boardSize)
  }

  /** No two distinct groups overlap. */
  predicate Disjoint(gs: seq<Group>) {
    forall i, j :: 0 <= i < |gs| && 0 <= j < |gs| && i != j ==> !Overlaps(gs[i], gs[j])
  }

  /** The board invariant on the groups: on the board and pairwise non-overlapping. */
  predicate Arranged(gs: seq<Group>, boardSize: Position) {
    Placed(gs, boardSize) && Disjoint(gs)
  }

  /** The sizes and values that generation can produce. */
  predicate Generated(g: Group) {
    1 <= g.size.x <= MaxGroupSide && 1 <= g.size.y <= MaxGroupSide && 1 <= g.value <= MaxGroupValue
  }

  /** Same number of groups, in the same order, with the same sizes and values. */
  predicate SameShapes(a: seq<Group>, b: seq<Group>) {
    |a| == |b| && forall i :: 0 <= i < |a| ==> a[i].size == b[i].size && a[i].value == b[i].value
  }

  /** Appending a group that lies on the board and overlaps none of the
      others keeps the invariant. */
  lemma AppendKeepsArranged(gs: seq<Group>, g: Group, boardSize: Position)
    requires Arranged(gs, boardSize) && 1 <= g.size.x && 1 <= g.size.y && g.InBounds(boardSize)
    requires !CollidesWithOther(gs + [g], |gs|, g)
    ensures Arranged(gs + [g], boardSize)
  {
    var r := gs + [g];
    forall i, j | 0 <= i < |r| && 0 <= j < |r| && i != j
      ensures !Overlaps(r[i], r[j])
    {
      if i == |gs| || j == |gs| {
        OverlapsIffSharesCell(r[i], r[j]);
      } else {
        assert r[i] == gs[i] && r[j] == gs[j];
      }
    }
  }

  /** Group `index` would collide with some other group if it were `g`. */
  predicate CollidesWithOther(gs: seq<Group>, index: int, g: Group) {
    exists j :: 0 <= j < |gs| && j != index && Overlaps(g, gs[j])
  }

  /** One random pick of the scramble or the drift: which group, and by how much. */
  datatype Attempt = Attempt(index: nat, dx: int, dy: int)

  /** One attempted step: offset group `a.index` by (a.dx, a.dy) and keep the
      step only if both corners stay on the board and it overlaps no other
      group; otherwise the groups are as before. */
  function TryStep(gs: seq<Group>, a: Attempt, boardSize: Position): seq<Group> {
    if a.index >= |gs| then gs
    else
      var g := gs[a.index].Shifted(a.dx, a.dy);
      if !g.CornersOnBoard(boardSize) || CollidesWithOther(gs, a.index, g) then gs
      else gs[a.index := g]
  }

  /** The groups after the given attempts, in order. */
  function Replay(gs: seq<Group>, attempts: seq<Attempt>, boardSize: Position): seq<Group> {
    if attempts == [] then gs
    else TryStep(Replay(gs, attempts[..|attempts| - 1], boardSize), attempts[|attempts| - 1], boardSize)
  }

  /** A step keeps the invariant and every size and value; it either changes
      nothing or moves exactly the chosen group by exactly the offset. */
  lemma TryStepKeepsArranged(gs: seq<Group>, a: Attempt, boardSize: Position)
    requires Arranged(gs, boardSize)
    ensures var r := TryStep(gs, a, boardSize);
      Arranged(r, boardSize) && SameShapes(gs, r) &&
      (r == gs || (a.index < |gs| && r == gs[a.index := gs[a.index].Shifted(a.dx, a.dy)]))
  {
    var r := TryStep(gs, a, boardSize);
    if r != gs {
      var g := gs[a.index].Shifted(a.dx, a.dy);
      CornersOnBoardIffInBounds(g, boardSize);
      forall i, j | 0 <= i < |r| && 0 <= j < |r| && i != j
        ensures !Overlaps(r[i], r[j])
      {
        if i == a.index || j == a.index {
          OverlapsIffSharesCell(r[i], r[j]);
        }
      }
    }
  }

  /** Any number of steps keeps the invariant and every size and value. */
  lemma {:induction false} ReplayKeepsArranged(gs: seq<Group>, attempts: seq<Attempt>, boardSize: Position)
    requires Arranged(gs, boardSize)
    ensures Arranged(Replay(gs, attempts, boardSize), boardSize)
    ensures SameShapes(gs, Replay(gs, attempts, boardSize))
  {
    if attempts != [] {
      var prefix := attempts[..|attempts| - 1];
      ReplayKeepsArranged(gs, prefix, boardSize);
      TryStepKeepsArranged(Replay(gs, prefix, boardSize), attempts[|attempts| - 1], boardSize);
    }
  }

  /** Whether group `index` collides with another group does not depend on
      what group `index` itself currently is. */
  lemma CollidesIgnoresSelf(gs: seq<Group>, index: nat, g: Group, h: Group)
    requires index < |gs|
    ensures CollidesWithOther(gs[index := h], index, g) <==> CollidesWithOther(gs, index, g)
  {
    if CollidesWithOther(gs, index, g) {
      var j :| 0 <= j < |gs| && j != index && Overlaps(g, gs[j]);
      assert gs[index := h][j] == gs[j];
    }
  }

  /** The step as the board carries it out: shift the group in place, test
      its corners, then test the shifted group, moved by (0, 0), against the
      others; keep the shift only if both tests pass. */
  lemma TryStepInPlace(gs: seq<Group>, a: Attempt, boardSize: Position)
    requires Arranged(gs, boardSize) && a.index < |gs|
    ensures var g := gs[a.index].Shifted(a.dx, a.dy);
      var shifted := gs[a.index := g];
      TryStep(gs, a, boardSize) ==
        if !g.CornersOnBoard(boardSize) || CollidesWithOther(shifted, a.index, g.Moved(0, 0, boardSize))
        then gs else shifted
  {
    var g := gs[a.index].Shifted(a.dx, a.dy);
    CollidesIgnoresSelf(gs, a.index, g, g);
    if g.CornersOnBoard(boardSize) {
      CornersOnBoardIffInBounds(g, boardSize);
      MovedInPlace(g, boardSize);
    }
  }

  /** Replaying one more attempt is one more step. */
  lemma ReplaySnoc(gs: seq<Group>, attempts: seq<Attempt>, a: Attempt, boardSize: Position)
    ensures Replay(gs, attempts + [a], boardSize) == TryStep(Replay(gs, attempts, boardSize), a, boardSize)
  {
    assert (attempts + [a])[..|attempts|] == attempts;
  }

  /** The committed part of `touchMoved`: group `index` moved (with clamping)
      by (dx, dy), unless that would overlap another group. */
  function Dragged(gs: seq<Group>, index: nat, dx: int, dy: int, boardSize: Position): seq<Group>
    requires index < |gs|
  {
    var moved := gs[index].Moved(dx, dy, boardSize);
    if CollidesWithOther(gs, index, moved) then gs else gs[index := moved]
  }

  /** `touchMoved` on the groups: nothing when no group is selected or the
      pointer, corrected by the grab offset, asks for no movement; otherwise a
      drag of the selected group by the difference. */
  function DragOutcome(gs: seq<Group>, index: int, touchOffset: Position, cell: Position,
                       boardSize: Position): seq<Group>
  {
    if index < 0 || index >= |gs| then gs
    else
      var delta := cell.Plus(touchOffset).Minus(gs[index].pos);
      if delta == Position(0, 0) then gs
      else Dragged(gs, index, delta.x, delta.y, boardSize)
  }

  /** With a group selected and a nonzero pointer delta (dx, dy), the outcome
      is a drag of that group by the delta. */
  lemma DragOutcomeOfSelected(gs: seq<Group>, index: int, touchOffset: Position, cell: Position,
                              boardSize: Position, dx: int, dy: int)
    requires 0 <= index < |gs|
    requires cell.Plus(touchOffset).Minus(gs[index].pos) == Position(dx, dy) != Position(0, 0)
    ensures DragOutcome(gs, index, touchOffset, cell, boardSize) == Dragged(gs, index, dx, dy, boardSize)
  {
  }

  /** A drag keeps the invariant and every size and value; a drag that would
      collide changes nothing, and one that does not puts the selected group at
      its clamped target and leaves every other group alone. */
  lemma DraggedKeepsArranged(gs: seq<Group>, index: nat, dx: int, dy: int, boardSize: Position)
    requires Arranged(gs, boardSize) && index < |gs|
    ensures var r := Dragged(gs, index, dx, dy, boardSize);
      Arranged(r, boardSize) && SameShapes(gs, r) &&
      (r == gs <==> CollidesWithOther(gs, index, gs[index].Moved(dx, dy, boardSize)) ||
                    gs[index].Moved(dx, dy, boardSize) == gs[index]) &&
      (forall j :: 0 <= j < |gs| && j != index ==> r[j] == gs[j])
  {
    var moved := gs[index].Moved(dx, dy, boardSize);
    var r := Dragged(gs, index, dx, dy, boardSize);
    MovedOnBoard(gs[index], dx, dy, boardSize);
    if !CollidesWithOther(gs, index, moved) {
      forall i, j | 0 <= i < |r| && 0 <= j < |r| && i != j
        ensures !Overlaps(r[i], r[j])
      {
        if i == index || j == index {
          OverlapsIffSharesCell(r[i], r[j]);
        }
      }
      if moved != gs[index] {
        assert r[index] != gs[index];
      }
    }
  }

  /** A drag outcome keeps the invariant. */
  lemma DragOutcomeKeepsArranged(gs: seq<Group>, index: int, touchOffset: Position, cell: Position,
                                 boardSize: Position)
    requires Arranged(gs, boardSize)
    ensures Arranged(DragOutcome(gs, index, touchOffset, cell, boardSize), boardSize)
    ensures SameShapes(gs, DragOutcome(gs, index, touchOffset, cell, boardSize))
  {
    if 0 <= index < |gs| {
      var delta := cell.Plus(touchOffset).Minus(gs[index].pos);
      if delta != Position(0, 0) {
        DraggedKeepsArranged(gs, index, delta.x, delta.y, boardSize);
      }
    }
  }

  /** The clamped moves of the drag scenario: a 2x2 group at (x, y) or at
      (x + 1, y + 1) moved by (1, 1) needs no clamping when the board reaches
      column x + 5 and row y + 5. */
  lemma ScenarioMoves(boardSize: Position, x: int, y: int)
    requires 0 <= x && 0 <= y && x + 5 <= boardSize.x && y + 5 <= boardSize.y
    ensures Group(Position(x, y), Position(2, 2), 3).Moved(1, 1, boardSize) ==
      Group(Position(x + 1, y + 1), Position(2, 2), 3)
    ensures Group(Position(x + 1, y + 1), Position(2, 2), 3).Moved(1, 1, boardSize) ==
      Group(Position(x + 2, y + 2), Position(2, 2), 3)
  {
  }

  /** The first drag of the scenario, on the groups alone: with A 2x2 at
      (x, y), grabbed at its own corner, and B 2x2 at (x + 3, y + 3),
      dragging A to (x + 1, y + 1) is committed. */
  lemma FirstDragCommits(boardSize: Position, x: int, y: int)
    requires 0 <= x && 0 <= y && x + 5 <= boardSize.x && y + 5 <= boardSize.y
    ensures var a := Group(Position(x, y), Position(2, 2), 3);
      var b := Group(Position(x + 3, y + 3), Position(2, 2), 2);
      DragOutcome([a, b], 0, Position(0, 0), Position(x + 1, y + 1), boardSize) ==
        [Group(Position(x + 1, y + 1), Position(2, 2), 3), b]
  {
    var a := Group(Position(x, y), Position(2, 2), 3);
    var b := Group(Position(x + 3, y + 3), Position(2, 2), 2);
    var m := Group(Position(x + 1, y + 1), Position(2, 2), 3);
    ScenarioMoves(boardSize, x, y);
    assert !CollidesWithOther([a, b], 0, m) by {
      assert !Overlaps(m, b);
    }
    assert [a, b][0 := m] == [m, b];
    DragOutcomeOfSelected([a, b], 0, Position(0, 0), Position(x + 1, y + 1), boardSize, 1, 1);
  }

  /** The second drag of the scenario: moving A on from (x + 1, y + 1) to
      (x + 2, y + 2) is rejected because A would then cover B's corner cell
      (x + 3, y + 3), so the groups stay as they are. */
  lemma SecondDragBlocked(boardSize: Position, x: int, y: int)
    requires 0 <= x && 0 <= y && x + 5 <= boardSize.x && y + 5 <= boardSize.y
    ensures var m := Group(Position(x + 1, y + 1), Position(2, 2), 3);
      var b := Group(Position(x + 3, y + 3), Position(2, 2), 2);
      DragOutcome([m, b], 0, Position(0, 0), Position(x + 2, y + 2), boardSize) == [m, b]
  {
    var m := Group(Position(x + 1, y + 1), Position(2, 2), 3);
    var b := Group(Position(x + 3, y + 3), Position(2, 2), 2);
    var blocked := Group(Position(x + 2, y + 2), Position(2, 2), 3);
    ScenarioMoves(boardSize, x, y);
    assert CollidesWithOther([m, b], 0, blocked) by {
      assert Overlaps(blocked, [m, b][1]);
    }
    DragOutcomeOfSelected([m, b], 0, Position(0, 0), Position(x + 2, y + 2), boardSize, 1, 1);
  }

  /** Same shapes is an equivalence; only its transitivity is needed here. */
  lemma SameShapesTrans(a: seq<Group>, b: seq<Group>, c: seq<Group>)
    requires SameShapes(a, b) && SameShapes(b, c)
    ensures SameShapes(a, c)
  {
  }
}
