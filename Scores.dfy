/**
 * The per-column and per-row scores. A score is weighted by cell: column x
 * adds a group's value once for every cell (x, y) of the group, so a group
 * contributes value * height to each column it spans and value * width to
 * each row it spans.
 */
module Scores {
  import opened Geometry
  import opened Groups

  /** Sum of the values of the groups that include cell (x, y), adding the
      groups in array order. */
  function CellValue(gs: seq<Group>, x: int, y: int): int {
    if gs == [] then 0
    else
      var last := gs[|gs| - 1];
      CellValue(gs[..|gs| - 1], x, y) + (if last.Includes(x, y) then last.value else 0)
  }

  /** Column x's score over rows 0 .. n - 1. */
  function ColumnSum(gs: seq<Group>, x: int, n: nat): int {
    if n == 0 then 0 else ColumnSum(gs, x, n - 1) + CellValue(gs, x, n - 1)
  }

  /** Row y's score over columns 0 .. n - 1. */
  function RowSum(gs: seq<Group>, y: int, n: nat): int {
    if n == 0 then 0 else RowSum(gs, y, n - 1) + CellValue(gs, n - 1, y)
  }

  /** How many cells a scan of an axis of length `n` visits: the scan is a
      do-while, so it visits cell 0 even on an empty axis. */
  function ScannedLength(n: int): nat {
    if n <= 1 then 1 else n
  }

  /** Number of integers in both [p, p + s) and [0, n). */
  function Covered(p: int, s: int, n: int): nat {
    var lo := if p < 0 then 0 else p;
    var hi := if p + s < n then p + s else n;
    if lo < hi then hi - lo else 0
  }

  /** What one group adds to column x's score over rows 0 .. n - 1. */
  function ColumnShare(g: Group, x: int, n: int): int {
    if g.pos.x <= x < g.pos.x + g.size.x then g.value * Covered(g.pos.y, g.size.y, n) else 0
  }

  /** What one group adds to row y's score over columns 0 .. n - 1. */
  function RowShare(g: Group, y: int, n: int): int {
    if g.pos.y <= y < g.pos.y + g.size.y then g.value * Covered(g.pos.x, g.size.x, n) else 0
  }

  /** Sum of the groups' column shares. */
  function ColumnShares(gs: seq<Group>, x: int, n: int): int {
    if gs == [] then 0 else ColumnShares(gs[..|gs| - 1], x, n) + ColumnShare(gs[|gs| - 1], x, n)
  }

  /** Sum of the groups' row shares. */
  function RowShares(gs: seq<Group>, y: int, n: int): int {
    if gs == [] then 0 else RowShares(gs[..|gs| - 1], y, n) + RowShare(gs[|gs| - 1], y, n)
  }

  /** Sum over the groups spanning column x of value * height. */
  function ColumnWeight(gs: seq<Group>, x: int): int {
    if gs == [] then 0
    else
      var g := gs[|gs| - 1];
      ColumnWeight(gs[..|gs| - 1], x) + (if g.pos.x <= x < g.pos.x + g.size.x then g.value * g.size.y else 0)
  }

  /** Sum over the groups spanning row y of value * width. */
  function RowWeight(gs: seq<Group>, y: int): int {
    if gs == [] then 0
    else
      var g := gs[|gs| - 1];
      RowWeight(gs[..|gs| - 1], y) + (if g.pos.y <= y < g.pos.y + g.size.y then g.value * g.size.x else 0)
  }

  /** Extending a group's column scan by row n adds its value iff it includes (x, n). */
  lemma ColumnShareStep(g: Group, x: int, n: nat)
    ensures ColumnShare(g, x, n + 1) == ColumnShare(g, x, n) + (if g.Includes(x, n) then g.value else 0)
  {
    var c := Covered(g.pos.y, g.size.y, n);
    var c' := Covered(g.pos.y, g.size.y, n + 1);
    assert c' == c + (if g.pos.y <= n < g.pos.y + g.size.y then 1 else 0);
    assert g.value * (c + 1) == g.value * c + g.value;
  }

  /** Extending a group's row scan by column n adds its value iff it includes (n, y). */
  lemma RowShareStep(g: Group, y: int, n: nat)
    ensures RowShare(g, y, n + 1) == RowShare(g, y, n) + (if g.Includes(n, y) then g.value else 0)
  {
    var c := Covered(g.pos.x, g.size.x, n);
    var c' := Covered(g.pos.x, g.size.x, n + 1);
    assert c' == c + (if g.pos.x <= n < g.pos.x + g.size.x then 1 else 0);
    assert g.value * (c + 1) == g.value * c + g.value;
  }

  lemma {:induction false} ColumnSharesStep(gs: seq<Group>, x: int, n: nat)
    ensures ColumnShares(gs, x, n + 1) == ColumnShares(gs, x, n) + CellValue(gs, x, n)
  {
    if gs != [] {
      ColumnSharesStep(gs[..|gs| - 1], x, n);
      ColumnShareStep(gs[|gs| - 1], x, n);
    }
  }

  lemma {:induction false} RowSharesStep(gs: seq<Group>, y: int, n: nat)
    ensures RowShares(gs, y, n + 1) == RowShares(gs, y, n) + CellValue(gs, n, y)
  {
    if gs != [] {
      RowSharesStep(gs[..|gs| - 1], y, n);
      RowShareStep(gs[|gs| - 1], y, n);
    }
  }

  lemma {:induction false} ColumnSharesEmpty(gs: seq<Group>, x: int)
    ensures ColumnShares(gs, x, 0) == 0
  {
    if gs != [] {
      ColumnSharesEmpty(gs[..|gs| - 1], x);
    }
  }

  lemma {:induction false} RowSharesEmpty(gs: seq<Group>, y: int)
    ensures RowShares(gs, y, 0) == 0
  {
    if gs != [] {
      RowSharesEmpty(gs[..|gs| - 1], y);
    }
  }

  /** The cell-by-cell column score is the sum of the groups' column shares. */
  lemma {:induction false} ColumnSumByGroups(gs: seq<Group>, x: int, n: nat)
    ensures ColumnSum(gs, x, n) == ColumnShares(gs, x, n)
  {
    if n == 0 {
      ColumnSharesEmpty(gs, x);
    } else {
      ColumnSumByGroups(gs, x, n - 1);
      ColumnSharesStep(gs, x, n - 1);
    }
  }

  /** The cell-by-cell row score is the sum of the groups' row shares. */
  lemma {:induction false} RowSumByGroups(gs: seq<Group>, y: int, n: nat)
    ensures RowSum(gs, y, n) == RowShares(gs, y, n)
  {
    if n == 0 {
      RowSharesEmpty(gs, y);
    } else {
      RowSumByGroups(gs, y, n - 1);
      RowSharesStep(gs, y, n - 1);
    }
  }

  /** On a board every group lies on, column x's full score is the sum of
      value * height over the groups that span column x. */
  lemma {:induction false} ColumnScoreIsWeight(gs: seq<Group>, x: int, boardSize: Position)
    requires 0 <= boardSize.y
    requires forall i :: 0 <= i < |gs| ==> 0 <= gs[i].size.y && gs[i].InBounds(boardSize)
    ensures ColumnSum(gs, x, boardSize.y) == ColumnWeight(gs, x)
  {
    ColumnSumByGroups(gs, x, boardSize.y);
    SharesAreWeights(gs, x, boardSize);
  }

  /** On a board every group lies on, row y's full score is the sum of
      value * width over the groups that span row y. */
  lemma {:induction false} RowScoreIsWeight(gs: seq<Group>, y: int, boardSize: Position)
    requires 0 <= boardSize.x
    requires forall i :: 0 <= i < |gs| ==> 0 <= gs[i].size.x && gs[i].InBounds(boardSize)
    ensures RowSum(gs, y, boardSize.x) == RowWeight(gs, y)
  {
    RowSumByGroups(gs, y, boardSize.x);
    RowSharesAreWeights(gs, y, boardSize);
  }

  lemma {:induction false} SharesAreWeights(gs: seq<Group>, x: int, boardSize: Position)
    requires forall i :: 0 <= i < |gs| ==> 0 <= gs[i].size.y && gs[i].InBounds(boardSize)
    ensures ColumnShares(gs, x, boardSize.y) == ColumnWeight(gs, x)
  {
    if gs != [] {
      SharesAreWeights(gs[..|gs| - 1], x, boardSize);
    }
  }

  lemma {:induction false} RowSharesAreWeights(gs: seq<Group>, y: int, boardSize: Position)
    requires forall i :: 0 <= i < |gs| ==> 0 <= gs[i].size.x && gs[i].InBounds(boardSize)
    ensures RowShares(gs, y, boardSize.x) == RowWeight(gs, y)
  {
    if gs != [] {
      RowSharesAreWeights(gs[..|gs| - 1], y, boardSize);
    }
  }
}
