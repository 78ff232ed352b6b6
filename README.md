# PiHex puzzle engine in Dafny

PiHex is a sliding-block puzzle on an integer grid. A level fixes the board
size and the number of rectangular pieces ("groups"), each with a value from
1 to 5. The game first generates a target arrangement of non-overlapping
groups. It copies the target to the player's board and scrambles the copy by
random unit steps and a drift toward the upper-right corner. Each board keeps
a score per column and per row: the sum, over the cells of that line, of the
values of the groups covering the cell. Beside each line the game shows only
the difference between the player's score and the target's: an icon for
below, equal or above, and the number itself when it is not zero. The player
drags groups until every difference is zero.

This project models the engine of `PiHex/Game.swift`:

- `Geometry.dfy`: grid positions, the on-board test and the per-level tables.
- `Groups.dfy`: the group value type.
  - Clamped moves, the half-open cell test and the cell-by-cell overlap scan.
- `Layouts.dfy`: reference definitions over a sequence of groups.
  - The board invariant: every group on the board and no two overlapping.
  - One attempted scramble or drift step (`TryStep`) and a run of them (`Replay`).
  - The outcome of one drag (`DragOutcome`).
- `Scores.dfy`: the cell-weighted column and row scores.
  - The proof that a group adds `value * height` to every column it spans, and `value * width` to every row.
- `Boards.dfy`: the board.
  - A class with the group sequence, the two score buffers and the drag state.
  - Generation with bounded retries, scramble, drift, score recomputation and the two touch handlers.
- `Session.dfy`: the game session.
  - A class holding the level, the board size, the player's board and the target board.

Every random draw (`randomIndex`) is an arbitrary value in range. So every
contract holds for every outcome of the random source. Scramble and drift
return the attempts they made as ghost values, and the new groups are proved
equal to `Replay` of those attempts. The board size and the level are globals
in the game; here they are method parameters of `Board` and fields of `Game`.
The game assigns `Board` values by copy (`board = targetBoard`), which
becomes a fresh `Board` built by the `Copy` constructor.

Generation retries a placement while `attempts > 1000` is false. A group is
therefore removed only after its 1001st failed position draw, so it gets up
to 1001 tries, not 1000. The model follows the code (`Boards.Board.RandomGroup`).

`updateScores` scans each line with a do-while loop: it visits cell 0 before
testing whether the next cell is on the board. `Scores.ScannedLength`
captures this. On every board of the level table the scan covers exactly the
board.

## Model

| member | source | states |
|---|---|---|
| Geometry.PositionArithmetic | PiHex/Game.swift:26-35 | `-=` undoes `+=`, `offset(dx, dy)` is `+=` of the pair, and an offset is undone by the negated offset |
| Geometry.IsOnBoardPosition | PiHex/Game.swift:50 | definition: a cell is on the board iff both coordinates are at least 0 and below the board size; `Groups.CornersOnBoardIffInBounds` relates it to whole rectangles |
| Geometry.LevelTables | PiHex/Game.swift:17-18 | every level has a table entry in both tables, asks for at least one piece, and has a board of 4..20 cells per axis, which fits the 20-slot score buffers and the largest piece |
| Groups.Group.LowerRightCorner | PiHex/Game.swift:77 | definition: the exclusive lower-right corner `pos + size`, the bound `Includes` tests against |
| Groups.Group.Includes | PiHex/Game.swift:102-105 | definition: a cell is included iff it lies in the half-open rectangle from `pos` to the lower-right corner; `Groups.OverlapsIffSharesCell` and `Groups.HitsInColumnMeansMeet` state what the scans built on it compute |
| Groups.Group.Moved | PiHex/Game.swift:95-100 | `move` keeps size and value, and when the translated rectangle already lies on the board, the result is exactly the translation |
| Groups.MovedOnBoard | PiHex/Game.swift:95-100 | for a group no larger than the board, the clamped move always lands on the board |
| Groups.MovedInPlace | PiHex/Game.swift:95-100 | a group on the board moved by (0, 0) stays where it is |
| Groups.Group.OverlapsOtherIfMoved | PiHex/Game.swift:112-129 | the nested cell scan reports an overlap iff the clamped, moved rectangle and `other` intersect on both axes; the group itself is a value and is unchanged |
| Groups.OverlapsIffSharesCell | PiHex/Game.swift:102-105 | interval intersection on both axes holds iff some cell is `includes`-ed by both groups, and overlap is symmetric |
| Groups.HitsInMeansOverlap | PiHex/Game.swift:118-125 | scanning the first nx columns and ny rows finds a hit iff those columns and rows meet `other`'s on both axes |
| Groups.HitsInColumnMeansMeet | PiHex/Game.swift:119-124 | scanning the first ny rows of one column finds a hit iff the column lies in `other` and the rows meet |
| Groups.CornersOnBoardIffInBounds | PiHex/Game.swift:183-184 | for a group at least one cell wide and high, the two-corner `isOnBoardPosition` test holds iff the whole rectangle is on the board |
| Layouts.TryStep | PiHex/Game.swift:180-198 | definition of one scramble or drift attempt: shift the chosen group, and keep the shift only if both corners stay on the board and no other group is hit; `Layouts.TryStepInPlace` ties it to the board's in-place code and `Layouts.TryStepKeepsArranged` states what it keeps |
| Layouts.TryStepKeepsArranged | PiHex/Game.swift:177-199 | one scramble or drift attempt keeps every group on the board and pairwise disjoint, keeps count, order, sizes and values, and either changes nothing or moves exactly the chosen group by exactly the offset |
| Layouts.ReplayKeepsArranged | PiHex/Game.swift:177-235 | any run of attempts keeps the invariant and every size and value |
| Layouts.TryStepInPlace | PiHex/Game.swift:180-198 | the board's in-place step is `TryStep`: shift, revert if a corner leaves the board, test the shifted group moved by (0, 0) against the others, and revert on overlap |
| Layouts.DragOutcome | PiHex/Game.swift:327-342 | definition of one `touchMoved` on the groups: nothing without a selection or with a zero delta, otherwise the clamped drag that is dropped on a collision; `Layouts.DragOutcomeKeepsArranged` and `Boards.Board.TouchMoved` state its properties and its implementation |
| Layouts.DragOutcomeOfSelected | PiHex/Game.swift:330-342 | with a group selected and a nonzero delta (dx, dy) = `(cell + touchOffset) - pos`, the outcome is the clamped drag of that group by (dx, dy) |
| Layouts.DraggedKeepsArranged | PiHex/Game.swift:337-342 | a drag keeps the invariant and every size and value; it changes nothing iff the clamped move collides or is a no-op; otherwise only the selected group changes, to the tested clamped position |
| Layouts.DragOutcomeKeepsArranged | PiHex/Game.swift:327-342 | every `touchMoved` outcome keeps the invariant and every size and value |
| Layouts.ScenarioMoves | PiHex/Game.swift:95-100 | on a board reaching column x + 5 and row y + 5, a 2x2 group at (x, y) or at (x + 1, y + 1) moved by (1, 1) needs no clamping |
| Layouts.FirstDragCommits | PiHex/Game.swift:327-344 | with A 2x2 at (x, y) grabbed at its corner and B 2x2 at (x + 3, y + 3), dragging A to (x + 1, y + 1) commits A there and leaves B alone |
| Layouts.SecondDragBlocked | PiHex/Game.swift:327-344 | dragging A on from (x + 1, y + 1) to (x + 2, y + 2) is rejected because A would cover B's corner cell, so nothing changes |
| Scores.ColumnSumByGroups | PiHex/Game.swift:241-248 | the cell-by-cell column score equals the sum of the groups' shares: value times the number of the group's rows inside the scan |
| Scores.RowSumByGroups | PiHex/Game.swift:254-261 | the cell-by-cell row score equals the sum of the groups' shares: value times the number of the group's columns inside the scan |
| Scores.ColumnScoreIsWeight | PiHex/Game.swift:238-249 | when every group is on the board, column x's full score is the sum of value * height over the groups spanning column x |
| Scores.RowScoreIsWeight | PiHex/Game.swift:251-262 | when every group is on the board, row y's full score is the sum of value * width over the groups spanning row y |
| Boards.RandomIndex | PiHex/Game.swift:139 | `randomIndex(max)` is a non-negative draw below the magnitude of a nonzero max |
| Boards.Board.constructor | PiHex/Game.swift:134-137 | a fresh board has no groups, two zeroed 20-slot score buffers, and no selection |
| Boards.Board.Copy | PiHex/Game.swift:374 | board assignment copies every field |
| Boards.Board.UpdateScores | PiHex/Game.swift:237-263 | afterwards every column and row score inside the board equals its cell-weighted sum over the groups; buffer lengths and entries past the board are unchanged |
| Boards.Board.UpdateColumnScores | PiHex/Game.swift:238-249 | each column inside the board becomes the sum over the scanned rows of the values of the groups covering each cell |
| Boards.Board.UpdateRowScores | PiHex/Game.swift:251-262 | each row inside the board becomes the sum over the scanned columns of the values of the groups covering each cell |
| Boards.Board.OverlapsAnyOther | PiHex/Game.swift:337-340 | the loop over the other groups reports an overlap iff the selected group, moved and clamped, overlaps some other group |
| Boards.Board.RandomGroup | PiHex/Game.swift:142-170 | keeps the invariant and either leaves the groups unchanged or appends one group of size 1..4 and value 1..5; on an empty board it always places its group; it makes 1 to 1001 position draws, and exactly 1001 when it gives up |
| Boards.Board.NewGame | PiHex/Game.swift:141-175 | the board ends with 1 to `gCount[level]` groups, all of generated size and value, on the board, pairwise disjoint, scored, after one placement run of at most 1001 draws per requested piece |
| Boards.Board.ScrambleGroupPositions | PiHex/Game.swift:177-202 | the groups are the replay of 1000 attempts, each with an index in range and offsets in {-1, 0, 1}; the invariant, count, order, sizes and values are kept; the scores are recomputed |
| Boards.Board.MoveRandomGroup | PiHex/Game.swift:208-227 | one drift move is exactly one `TryStep` on a random index, and keeps the invariant and every size and value |
| Boards.Board.MoveAllToURCorner | PiHex/Game.swift:204-235 | the groups are the replay of 2000 attempts alternating (+1, 0) and (0, -1), each on an index in range; the invariant, count, order, sizes and values are kept; the scores are recomputed |
| Boards.Board.TouchBegan | PiHex/Game.swift:314-325 | selects the first group in array order that includes the cell and sets `touchOffset = pos - cell`; the selection is `NONE` iff no group includes the cell; the board invariant is kept |
| Boards.Board.TouchMoved | PiHex/Game.swift:327-347 | the groups become `DragOutcome` of the old groups; the invariant holds and the scores are recomputed; sizes and values are kept; if the groups did not change, neither did the scores |
| Boards.GrabScenario | PiHex/Game.swift:314-325 | with A 2x2 at (0, 0) and B 2x2 at (3, 3), touching (0, 0) selects A with a zero grab offset, and touching (2, 2) selects nothing |
| Boards.DragScenario | PiHex/Game.swift:314-344 | on a scored board with A 2x2 at (x, y) and B 2x2 at (x + 3, y + 3), grabbing A at its corner and dragging to (x + 1, y + 1) and then (x + 2, y + 2) leaves A at (x + 1, y + 1), selected with a zero grab offset, and the board valid and scored |
| Boards.GenerationScenario | PiHex/Game.swift:141-175 | generating the first level yields between one and four groups |
| Session.Game.constructor | PiHex/Game.swift:356-361 | a new session starts a valid game on level 0 with the first level's board size, on two freshly allocated boards; the target holds 1 to `gCount[0]` generated groups, and the player's board has no selection and holds the target's groups after some 1000 scramble attempts and 2000 drift attempts of the shape `newGame` makes |
| Session.Game.NewGame | PiHex/Game.swift:368-380 | the board size is the level's; the target holds 1 to `gCount[level]` generated groups; the player's board is a fresh board, with no selection, whose groups are the target's after 1000 scramble attempts with offsets in {-1, 0, 1} and 2000 drift attempts alternating (+1, 0) and (0, -1), all on indices in range; the target board stays the same object; both boards have the same count, order, sizes and values |
| Session.Game.LevelChange | PiHex/Game.swift:363-366 | switches the level and starts a game on the new level's board size, on the same target object, with 1 to `gCount[nLevel]` generated target groups, no selection, and the player's groups the replay of the target's over scramble and drift attempts of the shape `newGame` makes |
| Session.Game.ShowAnswer | PiHex/Game.swift:382-387 | the target, the level and the board size are kept; the player's board becomes a fresh copy of the target with the target's groups and no selection, rescored, so every column and row differential inside the board is zero |
| Session.Game.TouchBegan | PiHex/Game.swift:403 | forwards to the board, changing only its selection and grab offset: the first group in array order that includes the cell is selected with grab offset `pos - cell`, the selection is `NONE` iff no group includes the cell, and the session invariant is kept |
| Session.Game.TouchMoved | PiHex/Game.swift:404 | forwards to the board, changing only its groups and scores: the groups become the drag outcome of the selection and grab offset from before the call, the scores change only if the groups do, and the session invariant is kept |
| Session.Game.ColumnDifferential | PiHex/Game.swift:279 | definition: the player's column score minus the target's; `Session.Game.ColumnDifferentialIsWeightGap` states what it measures |
| Session.Game.RowDifferential | PiHex/Game.swift:291 | definition: the player's row score minus the target's; `Session.Game.RowDifferentialIsWeightGap` states what it measures |
| Session.PlayScenario | PiHex/Game.swift:356-404 | a client can start a session, grab, drag, change the level twice and show the answer; afterwards the session is valid on the chosen level and the player's board equals the target with every differential zero |
| Session.Game.ColumnDifferentialIsWeightGap | PiHex/Game.swift:279 | a column differential is the difference of the two boards' sums of value * height over the groups spanning the column |
| Session.Game.RowDifferentialIsWeightGap | PiHex/Game.swift:291 | a row differential is the difference of the two boards' sums of value * width over the groups spanning the row |

## Left out

- Drawing is not modelled. This covers `drawBevelledRect`, `Group.center` and `Group.draw`, `Board.draw`, `drawScores` apart from its two differential subtractions, `Game.draw`, the colour table and the score images. It is rendering with floating-point coordinates.
- Screen mapping is not modelled: `SX`, `SY`, `screenCoordinate`, `cellRect`, `calcLogicalPosition`, `Group.touched` and the stored touch point `pt`. It is floating-point pixel conversion. The touch handlers take the touched grid cell directly.
- The `setNeedsDisplay` redraw notifications are left out. They only ask the view to redraw.
- Boards.RandomIndex: the distribution of `arc4random` is not modelled; each draw is any value in range.
- `PiHex/GameView.swift` and `PiHex/ViewController.swift` are not part of this model. They forward touch events, draw text and map the level control to a level number.
- Swift's 64-bit `Int` overflow trap is not modelled; integers are unbounded. Every quantity in the core is bounded by the board size, the piece values and the piece count, far from 64 bits.
- Groups.Group.OverlapsOtherIfMoved: the source moves the group in place and restores its position afterwards. Here the group is a value and the scan works on a moved copy, so the restore is implicit.
- Boards.Board.MoveAllToURCorner: the unused index the source draws first (and its unused `oldPos`) is kept only as a draw that needs a non-empty board. The method therefore requires at least one group; so does the scramble, whose `randomIndex(group.count)` traps on an empty board.
- Session.Game.NewGame: computing the screen offsets `SX` and `SY` from the view bounds is left out with the rest of the screen mapping.
