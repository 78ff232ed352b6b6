/**
 * Integer grid geometry of the PiHex board: cell coordinates, the on-board
 * test and the fixed per-level tables. The board size, a global in the game,
 * is passed explicitly as `boardSize`.
 */
module Geometry {

  /** A cell coordinate; the game uses the same pair for offsets and sizes. */
  datatype Position = Position(x: int, y: int) {

    /** `offset(dx, dy)`: translate by the given amounts. */
    function Offset(dx: int, dy: int): Position {
      Position(x + dx, y + dy)
    }

    /** The `+=` operator. */
    function Plus(other: Position): Position {
      Position(x + other.x, y + other.y)
    }

    /** The `-=` operator. */
    function Minus(other: Position): Position {
      Position(x - other.x, y - other.y)
    }
  }

  /** `-=` undoes `+=`, and `offset` is `+=` of the pair (dx, dy). */
  lemma PositionArithmetic(p: Position, q: Position, dx: int, dy: int)
    ensures p.Plus(q).Minus(q) == p && p.Minus(q).Plus(q) == p
    ensures p.Offset(dx, dy) == p.Plus(Position(dx, dy))
    ensures p.Offset(dx, dy).Offset(-dx, -dy) == p
  {
  }

  /** The "no group selected" marker of the drag state. */
  const NONE: int := -1

  /** Number of playing pieces requested per level. */
  const GCount: seq<int> := [4, 6, 8, 12]

  /** Board size per level. */
  const BdSize: seq<Position> := [Position(8, 8), Position(10, 11), Position(12, 14), Position(14, 18)]

  /** Largest width or height a generated group can have (`1 + randomIndex(4)`). */
  const MaxGroupSide: int := 4

  /** Largest value a generated group can have (`1 + randomIndex(5)`). */
  const MaxGroupValue: int := 5

  /** Length of the per-column and per-row score buffers. */
  const ScoreSlots: int := 20

  /** `isOnBoardPosition`: the cell (x, y) lies on a board of the given size. */
  predicate IsOnBoardPosition(boardSize: Position, x: int, y: int) {
    x >= 0 && x < boardSize.x && y >= 0 && y < boardSize.y
  }

  /** A board size whose score buffers suffice and that can hold the largest group. */
  predicate BoardFits(boardSize: Position) {
    MaxGroupSide <= boardSize.x <= ScoreSlots && MaxGroupSide <= boardSize.y <= ScoreSlots
  }

  /** Every level has a board that fits the score buffers and the largest group,
      and asks for at least one piece. */
  lemma LevelTables(level: int)
    requires 0 <= level < |BdSize|
    ensures |GCount| == |BdSize| && 1 <= GCount[level]
    ensures BoardFits(BdSize[level])
  {
  }
}
