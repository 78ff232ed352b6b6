/**
 * A group: one rectangular playing piece with a top-left position, a size
 * and a value. Groups are values; the game's in-place `move` is the function
 * `Moved`, and `overlapsOtherIfMoved`, which moves the group and puts it
 * back, works on a moved copy.
 */
module Groups {
  import opened Geometry

  datatype Group = Group(pos: Position, size: Position, value: int) {

    /** The exclusive lower-right corner `pos + size`. */
    function LowerRightCorner(): Position {
      pos.Plus(size)
    }

    /** `includes`: the cell (tx, ty) lies in the half-open rectangle [pos, pos + size). */
    predicate Includes(tx: int, ty: int) {
      var corner := LowerRightCorner();
      tx >= pos.x && tx < corner.x && ty >= pos.y && ty < corner.y
    }

    /** The whole rectangle lies on a board of the given size. */
    predicate InBounds(boardSize: Position) {
      0 <= pos.x && pos.x + size.x <= boardSize.x && 0 <= pos.y && pos.y + size.y <= boardSize.y
    }

    /** The on-board test the scramble and the drift use: the top-left and the
        bottom-right cell are both on the board. */
    predicate CornersOnBoard(boardSize: Position) {
      IsOnBoardPosition(boardSize, pos.x, pos.y) &&
      IsOnBoardPosition(boardSize, pos.x + size.x - 1, pos.y + size.y - 1)
    }

    /** The group translated by (dx, dy), without clamping. */
    function Shifted(dx: int, dy: int): Group {
      this.(pos := pos.Offset(dx, dy))
    }

    /** `move(dx, dy)`: translate, then pin each axis against the board edge it
        crossed. Only the position changes, and a translation that already
        fits is kept as it is (`MovedOnBoard`: a group no larger than the board
        always ends up on it). */
    function Moved(dx: int, dy: int, boardSize: Position): (r: Group)
      ensures r.size == size && r.value == value
      ensures Shifted(dx, dy).InBounds(boardSize) ==> r == Shifted(dx, dy)
    {
      var p := pos.Offset(dx, dy);
      var corner := p.Plus(size);
      var px := if p.x < 0 then 0 else if corner.x >= boardSize.x then boardSize.x - size.x else p.x;
      var py := if p.y < 0 then 0 else if corner.y >= boardSize.y then boardSize.y - size.y else p.y;
      this.(pos := Position(px, py))
    }

    /** `overlapsOtherIfMoved`: scans the cells of the clamped, moved group
        column by column and reports whether `other` includes one of them.
        The group itself is a value and is left as it was. */
    method OverlapsOtherIfMoved(other: Group, dx: int, dy: int, boardSize: Position) returns (overlap: bool)
      requires 0 <= size.x && 0 <= size.y
      ensures overlap <==> Overlaps(Moved(dx, dy, boardSize), other)
    {
      var moved := Moved(dx, dy, boardSize);
      overlap := false;
      var x := 0;
      while x < moved.size.x
        invariant 0 <= x <= moved.size.x
        invariant overlap <==> HitsIn(moved, other, x, moved.size.y)
      {
        var y := 0;
        while y < moved.size.y
          invariant 0 <= y <= moved.size.y
          invariant overlap <==> HitsIn(moved, other, x, moved.size.y) || HitsInColumn(moved, other, x, y)
        {
          if other.Includes(moved.pos.x + x, moved.pos.y + y) {
            overlap := true;
            HitsInColumnGrows(moved, other, x, y + 1, moved.size.y);
            break;
          }
          y := y + 1;
        }
        x := x + 1;
      }
      HitsInMeansOverlap(moved, other, moved.size.x, moved.size.y);
    }
  }

  /** The half-open intervals [p, p + n) and [q, q + m) share a point. */
  predicate Meet(p: int, n: int, q: int, m: int) {
    0 < n && 0 < m && p < q + m && q < p + n
  }

  /** Two rectangles intersect: their intervals meet on both axes. */
  predicate Overlaps(a: Group, b: Group) {
    Meet(a.pos.x, a.size.x, b.pos.x, b.size.x) && Meet(a.pos.y, a.size.y, b.pos.y, b.size.y)
  }

  /** Some cell is included in both rectangles. */
  ghost predicate SharesCell(a: Group, b: Group) {
    exists x, y :: a.Includes(x, y) && b.Includes(x, y)
  }

  /** The interval test agrees with the cell-level meaning of overlap, in both directions. */
  lemma OverlapsIffSharesCell(a: Group, b: Group)
    ensures Overlaps(a, b) <==> SharesCell(a, b)
    ensures Overlaps(a, b) <==> Overlaps(b, a)
  {
    if Overlaps(a, b) {
      var x := if a.pos.x < b.pos.x then b.pos.x else a.pos.x;
      var y := if a.pos.y < b.pos.y then b.pos.y else a.pos.y;
      assert a.Includes(x, y) && b.Includes(x, y);
    }
    if SharesCell(a, b) {
      var x, y :| a.Includes(x, y) && b.Includes(x, y);
      assert Overlaps(a, b);
    }
  }

  /** `other` includes the cell at offset (cx, cy) from `m`'s top-left cell. */
  predicate CellHit(m: Group, other: Group, cx: int, cy: int) {
    other.Includes(m.pos.x + cx, m.pos.y + cy)
  }

  /** Some cell of column `cx` of `m`, among its first `ny` rows, is included in `other`. */
  predicate HitsInColumn(m: Group, other: Group, cx: int, ny: nat) {
    ny > 0 && (HitsInColumn(m, other, cx, ny - 1) || CellHit(m, other, cx, ny - 1))
  }

  /** Some cell of `m` among its first `nx` columns and `ny` rows is included in `other`. */
  predicate HitsIn(m: Group, other: Group, nx: nat, ny: nat) {
    nx > 0 && (HitsIn(m, other, nx - 1, ny) || HitsInColumn(m, other, nx - 1, ny))
  }

  /** A hit among the first `a` rows of a column is a hit among the first `b >= a`. */
  lemma {:induction false} HitsInColumnGrows(m: Group, other: Group, cx: int, a: nat, b: nat)
    requires a <= b && HitsInColumn(m, other, cx, a)
    ensures HitsInColumn(m, other, cx, b)
  {
    if a < b {
      HitsInColumnGrows(m, other, cx, a, b - 1);
    }
  }

  /** Scanning `ny` rows of column `cx` finds a hit exactly when that column
      lies inside `other` and the rows meet `other`'s rows. */
  lemma {:induction false} HitsInColumnMeansMeet(m: Group, other: Group, cx: int, ny: nat)
    ensures HitsInColumn(m, other, cx, ny) <==>
      (other.pos.x <= m.pos.x + cx < other.pos.x + other.size.x &&
       Meet(m.pos.y, ny, other.pos.y, other.size.y))
  {
    if ny > 0 {
      HitsInColumnMeansMeet(m, other, cx, ny - 1);
    }
  }

  /** Scanning the first `nx` columns and `ny` rows finds a hit exactly when
      the scanned rectangle and `other` meet on both axes. */
  lemma {:induction false} HitsInMeansOverlap(m: Group, other: Group, nx: nat, ny: nat)
    ensures HitsIn(m, other, nx, ny) <==>
      (Meet(m.pos.x, nx, other.pos.x, other.size.x) && Meet(m.pos.y, ny, other.pos.y, other.size.y))
  {
    if nx > 0 {
      HitsInMeansOverlap(m, other, nx - 1, ny);
      HitsInColumnMeansMeet(m, other, nx - 1, ny);
    }
  }

  /** A clamped move of a group no larger than the board lands on the board. */
  lemma MovedOnBoard(g: Group, dx: int, dy: int, boardSize: Position)
    requires 0 <= g.size.x <= boardSize.x && 0 <= g.size.y <= boardSize.y
    ensures g.Moved(dx, dy, boardSize).InBounds(boardSize)
  {
  }

  /** On the board the corner test used by the scramble is the in-bounds test. */
  lemma CornersOnBoardIffInBounds(g: Group, boardSize: Position)
    requires 1 <= g.size.x && 1 <= g.size.y
    ensures g.CornersOnBoard(boardSize) <==> g.InBounds(boardSize)
  {
  }

  /** A group moved by (0, 0) on the board stays where it is. */
  lemma MovedInPlace(g: Group, boardSize: Position)
    requires g.InBounds(boardSize)
    ensures g.Moved(0, 0, boardSize) == g
  {
    assert g.Shifted(0, 0) == g;
  }
}
