/** The header emitter (Reporter/Tools/NPOIExportTool.cs, lines 643-731).

    It works level by level. At each level it writes one cell per column of
    every node, puts a node's label in the node's first cell, merges a leaf
    down to the last header row and an inner node across its columns, and sets
    the width of every column it passes. The next level is the children of the
    inner nodes, with each leaf replaced by a placeholder (row -1) of the same
    width, so that every level spans the whole table. It stops after the first
    level where no node has children. */
module HeaderEmitter {
  import opened Grid
  import opened ExportModels
  import opened Layering
  import opened Arith

  /** The column width used when a binding sets none, in characters. */
  const DefaultColumnSize := 20

  /** What stands in for a leaf on the levels below it: no label, the same
      column count and width. */
  function Placeholder(b: BindModel): BindModel {
    NewBindModel().(rowNo := -1, columsCount := b.columsCount, columnWidth := b.columnWidth)
  }

  /** What a node contributes to the next level. */
  function Below(b: BindModel): seq<BindModel> {
    if b.subDataBinding != [] then b.subDataBinding else [Placeholder(b)]
  }

  function NextLevel(f: seq<BindModel>): seq<BindModel> {
    if f == [] then [] else NextLevel(f[..|f| - 1]) + Below(f[|f| - 1])
  }

  /** Whether some node of the level has children. */
  predicate AnyChildren(f: seq<BindModel>) {
    f != [] && (AnyChildren(f[..|f| - 1]) || f[|f| - 1].subDataBinding != [])
  }

  function HeadStyleOf(b: BindModel): Style {
    b.applyCellStyle.GetOr(HeadStyle)
  }

  /** A column width in 1/256 of a character. */
  function WidthOf(b: BindModel): int {
    b.columnWidth.GetOr(DefaultColumnSize) * 256
  }

  function Cols(b: BindModel): nat {
    if b.columsCount >= 0 then b.columsCount else 0
  }

  /** The cells of one node, from column `c0`: the label in the first cell of a
      real node, empty text everywhere else. */
  function NodeCells(b: BindModel, row: int, c0: int): (r: seq<Placement>)
    ensures |r| == Cols(b)
  {
    seq(Cols(b), i =>
      Placement(row, c0 + i, if i == 0 && b.rowNo > -1 then TextOf(b.headName) else Text(""), HeadStyleOf(b)))
  }

  /** The region of one node (none, or one). `maxRowCount` counts the header
      rows from this level down. */
  function NodeRegion(b: BindModel, maxRowCount: int, row: int, c0: int): (r: seq<Region>)
    ensures |r| <= 1
    // a placeholder merges nothing; a region is never a single cell
    ensures b.rowNo <= -1 ==> r == []
    ensures forall g | g in r :: g.r1 == row && g.c1 == c0 && g.c2 == c0 + b.columsCount - 1 && (g.r2 > g.r1 || g.c2 > g.c1)
    // an inner node spans one row; a leaf reaches the last header row
    ensures forall g | g in r :: g.r2 == if b.subDataBinding != [] then row else row + Max(maxRowCount - 1, 0)
  {
    if b.rowNo > -1 && (b.subDataBinding == [] || b.columsCount > 1) then
      var down := if b.subDataBinding != [] then 0 else Max(maxRowCount - 1, 0);
      var g := Region(row, row + down, c0, c0 + b.columsCount - 1);
      if g.r2 > g.r1 || g.c2 > g.c1 then [g] else []
    else []
  }

  /** `w` with columns c0 .. c0+n-1 set to `width`. */
  function Fill(w: map<int, int>, c0: int, n: nat, width: int): map<int, int> {
    if n == 0 then w else Fill(w, c0, n - 1, width)[c0 + n - 1 := width]
  }

  function LevelCells(f: seq<BindModel>, row: int): seq<Placement> {
    if f == [] then [] else LevelCells(f[..|f| - 1], row) + NodeCells(f[|f| - 1], row, SumCols(f[..|f| - 1]))
  }

  function LevelRegions(f: seq<BindModel>, maxRowCount: int, row: int): seq<Region> {
    if f == [] then []
    else LevelRegions(f[..|f| - 1], maxRowCount, row) + NodeRegion(f[|f| - 1], maxRowCount, row, SumCols(f[..|f| - 1]))
  }

  function LevelWidths(f: seq<BindModel>, w: map<int, int>): map<int, int> {
    if f == [] then w else Fill(LevelWidths(f[..|f| - 1], w), SumCols(f[..|f| - 1]), Cols(f[|f| - 1]), WidthOf(f[|f| - 1]))
  }

  // ---------------------------------------------------------------------------
  // Levels get shallower

  lemma ForestHeightAppend(f: seq<BindModel>, g: seq<BindModel>)
    ensures ForestHeight(f + g) == Max(ForestHeight(f), ForestHeight(g))
    decreases |g|
  {
    if g == [] {
      assert f + g == f;
    } else {
      assert (f + g)[..|f + g| - 1] == f + g[..|g| - 1];
      ForestHeightAppend(f, g[..|g| - 1]);
    }
  }

  lemma {:induction false} AnyChildrenHeight(f: seq<BindModel>)
    ensures AnyChildren(f) <==> ForestHeight(f) >= 2
    decreases |f|
  {
    if f != [] {
      AnyChildrenHeight(f[..|f| - 1]);
      var last := f[|f| - 1];
      if last.subDataBinding != [] {
        var sub := last.subDataBinding;
        assert ForestHeight(sub) >= Height(sub[|sub| - 1]) >= 1;
      }
    }
  }

  /** The next level is one shallower, down to the placeholders' one level. */
  lemma {:induction false} NextLevelHeight(f: seq<BindModel>)
    requires f != []
    ensures ForestHeight(NextLevel(f)) == Max(ForestHeight(f) - 1, 1)
    decreases |f|
  {
    var pre, last := f[..|f| - 1], f[|f| - 1];
    if pre == [] {
      calc {
        ForestHeight(NextLevel(f));
        == { SnocLevel(f); assert NextLevel(pre) + Below(last) == Below(last); }
        ForestHeight(Below(last));
        == { BelowHeight(last); }
        Max(Height(last) - 1, 1);
        == { SnocLevel(f); }
        Max(ForestHeight(f) - 1, 1);
      }
    } else {
      var a, b := ForestHeight(pre), Height(last);
      calc {
        ForestHeight(NextLevel(f));
        == { SnocLevel(f); }
        ForestHeight(NextLevel(pre) + Below(last));
        == { ForestHeightAppend(NextLevel(pre), Below(last)); }
        Max(ForestHeight(NextLevel(pre)), ForestHeight(Below(last)));
        == { NextLevelHeight(pre); BelowHeight(last); }
        Max(Max(a - 1, 1), Max(b - 1, 1));
        == { ForestHeightPositive(pre); SnocLevel(f); MaxLess(a, b); }
        Max(Max(a, b) - 1, 1);
        == { SnocLevel(f); }
        Max(ForestHeight(f) - 1, 1);
      }
    }
  }

  /** The measures of a level, one node at a time. */
  lemma SnocLevel(f: seq<BindModel>)
    requires f != []
    ensures NextLevel(f) == NextLevel(f[..|f| - 1]) + Below(f[|f| - 1])
    ensures ForestHeight(f) == Max(ForestHeight(f[..|f| - 1]), Height(f[|f| - 1]))
    ensures Height(f[|f| - 1]) >= 1
  {
  }

  lemma ForestHeightPositive(f: seq<BindModel>)
    requires f != []
    ensures ForestHeight(f) >= 1
  {
    assert Height(f[|f| - 1]) >= 1;
  }

  /** The taller of two parts is one level shorter one level down, but a
      level is never below one. */
  lemma MaxLess(a: int, b: int)
    requires a >= 1 && b >= 1
    ensures Max(Max(a - 1, 1), Max(b - 1, 1)) == Max(Max(a, b) - 1, 1)
  {
  }

  /** What a node leaves for the next level is one level shallower, down to
      a placeholder's one level. */
  lemma BelowHeight(b: BindModel)
    ensures ForestHeight(Below(b)) == Max(Height(b) - 1, 1)
  {
    if b.subDataBinding == [] {
      assert Below(b)[..0] == [];
    }
  }

  lemma NextLevelShrinks(f: seq<BindModel>)
    requires AnyChildren(f)
    ensures ForestHeight(NextLevel(f)) < ForestHeight(f)
  {
    AnyChildrenHeight(f);
    NextLevelHeight(f);
  }

  // ---------------------------------------------------------------------------
  // The whole header

  function HeadCells(maxRowCount: int, f: seq<BindModel>, row: int): seq<Placement>
    decreases ForestHeight(f)
  {
    LevelCells(f, row) +
      if AnyChildren(f) then NextLevelShrinks(f); HeadCells(maxRowCount - 1, NextLevel(f), row + 1) else []
  }

  function HeadRegions(maxRowCount: int, f: seq<BindModel>, row: int): seq<Region>
    decreases ForestHeight(f)
  {
    LevelRegions(f, maxRowCount, row) +
      if AnyChildren(f) then NextLevelShrinks(f); HeadRegions(maxRowCount - 1, NextLevel(f), row + 1) else []
  }

  function HeadWidths(f: seq<BindModel>, w: map<int, int>): map<int, int>
    decreases ForestHeight(f)
  {
    var w' := LevelWidths(f, w);
    if AnyChildren(f) then NextLevelShrinks(f); HeadWidths(NextLevel(f), w') else w'
  }

  /** The rows created, each at the default height. */
  function HeadRows(f: seq<BindModel>, row: int, heights: map<int, int>): map<int, int>
    decreases ForestHeight(f)
  {
    var h := heights[row := -1];
    if AnyChildren(f) then NextLevelShrinks(f); HeadRows(NextLevel(f), row + 1, h) else h
  }

  /** `_CreateHeadRow`: one level, then the next one when some node has
      children. */
  method CreateHeadRow(sheet: Sheet, maxRowCount: int, dataBinding: seq<BindModel>, dataRowIndex: int)
    modifies sheet
    ensures sheet.cells == old(sheet.cells) + HeadCells(maxRowCount, dataBinding, dataRowIndex)
    ensures sheet.regions == old(sheet.regions) + HeadRegions(maxRowCount, dataBinding, dataRowIndex)
    ensures sheet.columnWidths == HeadWidths(dataBinding, old(sheet.columnWidths))
    ensures sheet.rowHeights == HeadRows(dataBinding, dataRowIndex, old(sheet.rowHeights))
    decreases ForestHeight(dataBinding)
  {
    sheet.CreateRow(dataRowIndex, -1);
    var hasNextRow, nextRowDataBinding := EmitLevel(sheet, maxRowCount, dataBinding, dataRowIndex);
    ghost var cells1, regions1 := sheet.cells, sheet.regions;
    HeadUnfold(maxRowCount, dataBinding, dataRowIndex);
    if hasNextRow {
      NextLevelShrinks(dataBinding);
      CreateHeadRow(sheet, maxRowCount - 1, nextRowDataBinding, dataRowIndex + 1);
      AppendAssoc(old(sheet.cells), LevelCells(dataBinding, dataRowIndex), HeadCells(maxRowCount - 1, nextRowDataBinding, dataRowIndex + 1));
      AppendAssoc(old(sheet.regions), LevelRegions(dataBinding, maxRowCount, dataRowIndex), HeadRegions(maxRowCount - 1, nextRowDataBinding, dataRowIndex + 1));
    }
  }

  /** One level of the header, then the levels below it. */
  lemma HeadUnfold(maxRowCount: int, f: seq<BindModel>, row: int)
    ensures AnyChildren(f) ==>
      && HeadCells(maxRowCount, f, row) == LevelCells(f, row) + HeadCells(maxRowCount - 1, NextLevel(f), row + 1)
      && HeadRegions(maxRowCount, f, row) == LevelRegions(f, maxRowCount, row) + HeadRegions(maxRowCount - 1, NextLevel(f), row + 1)
    ensures !AnyChildren(f) ==>
      && HeadCells(maxRowCount, f, row) == LevelCells(f, row)
      && HeadRegions(maxRowCount, f, row) == LevelRegions(f, maxRowCount, row)
  {
    if !AnyChildren(f) {
      assert LevelCells(f, row) + [] == LevelCells(f, row);
      assert LevelRegions(f, maxRowCount, row) + [] == LevelRegions(f, maxRowCount, row);
    }
  }

  /** The nodes of one level, left to right; also collects the next level. */
  method EmitLevel(sheet: Sheet, maxRowCount: int, dataBinding: seq<BindModel>, dataRowIndex: int)
    returns (hasNextRow: bool, nextRowDataBinding: seq<BindModel>)
    modifies sheet
    ensures hasNextRow == AnyChildren(dataBinding) && nextRowDataBinding == NextLevel(dataBinding)
    ensures sheet.cells == old(sheet.cells) + LevelCells(dataBinding, dataRowIndex)
    ensures sheet.regions == old(sheet.regions) + LevelRegions(dataBinding, maxRowCount, dataRowIndex)
    ensures sheet.columnWidths == LevelWidths(dataBinding, old(sheet.columnWidths))
    ensures sheet.rowHeights == old(sheet.rowHeights)
  {
    var nowColumnIndex := 0;
    hasNextRow := false;
    nextRowDataBinding := [];
    var n := 0;
    while n < |dataBinding|
      invariant 0 <= n <= |dataBinding|
      invariant sheet.cells == old(sheet.cells) + LevelCells(dataBinding[..n], dataRowIndex)
      invariant sheet.regions == old(sheet.regions) + LevelRegions(dataBinding[..n], maxRowCount, dataRowIndex)
      invariant sheet.columnWidths == LevelWidths(dataBinding[..n], old(sheet.columnWidths))
      invariant sheet.rowHeights == old(sheet.rowHeights)
      invariant nowColumnIndex == SumCols(dataBinding[..n])
      invariant hasNextRow == AnyChildren(dataBinding[..n])
      invariant nextRowDataBinding == NextLevel(dataBinding[..n])
    {
      var item := dataBinding[n];
      LevelStep(dataBinding, n, maxRowCount, dataRowIndex, old(sheet.columnWidths));
      if item.subDataBinding != [] {
        hasNextRow := true;
        nextRowDataBinding := nextRowDataBinding + item.subDataBinding;
      } else {
        nextRowDataBinding := nextRowDataBinding + [Placeholder(item)];
      }
      EmitNode(sheet, maxRowCount, item, dataRowIndex, nowColumnIndex);
      AppendAssoc(old(sheet.cells), LevelCells(dataBinding[..n], dataRowIndex), NodeCells(item, dataRowIndex, nowColumnIndex));
      AppendAssoc(old(sheet.regions), LevelRegions(dataBinding[..n], maxRowCount, dataRowIndex), NodeRegion(item, maxRowCount, dataRowIndex, nowColumnIndex));
      nowColumnIndex := nowColumnIndex + item.columsCount;
      n := n + 1;
    }
    assert dataBinding[..n] == dataBinding;
  }

  /** A level one node longer. */
  lemma LevelStep(f: seq<BindModel>, n: nat, maxRowCount: int, row: int, w: map<int, int>)
    requires n < |f|
    ensures var p, b := f[..n], f[n];
      && LevelCells(f[..n + 1], row) == LevelCells(p, row) + NodeCells(b, row, SumCols(p))
      && LevelRegions(f[..n + 1], maxRowCount, row) == LevelRegions(p, maxRowCount, row) + NodeRegion(b, maxRowCount, row, SumCols(p))
      && LevelWidths(f[..n + 1], w) == Fill(LevelWidths(p, w), SumCols(p), Cols(b), WidthOf(b))
      && SumCols(f[..n + 1]) == SumCols(p) + b.columsCount
      && AnyChildren(f[..n + 1]) == (AnyChildren(p) || b.subDataBinding != [])
      && NextLevel(f[..n + 1]) == NextLevel(p) + Below(b)
  {
    assert f[..n + 1][..n] == f[..n];
  }

  /** One node of a level: its region, then its cells, setting the width of
      each column it passes. */
  method EmitNode(sheet: Sheet, maxRowCount: int, item: BindModel, dataRowIndex: int, nowColumnIndex: int)
    modifies sheet
    ensures sheet.regions == old(sheet.regions) + NodeRegion(item, maxRowCount, dataRowIndex, nowColumnIndex)
    ensures sheet.cells == old(sheet.cells) + NodeCells(item, dataRowIndex, nowColumnIndex)
    ensures sheet.columnWidths == Fill(old(sheet.columnWidths), nowColumnIndex, Cols(item), WidthOf(item))
    ensures sheet.rowHeights == old(sheet.rowHeights)
  {
    var dataColumnCount := item.columsCount;
    if item.rowNo > -1 {
      var mergeRowCount := if item.subDataBinding != [] then 0 else Max(maxRowCount - 1, 0);
      if item.subDataBinding == [] || dataColumnCount > 1 {
        var startRow, endRow := dataRowIndex, dataRowIndex + mergeRowCount;
        var startColumn, endColumn := nowColumnIndex, nowColumnIndex + dataColumnCount - 1;
        if endRow > startRow || endColumn > startColumn {
          sheet.AddMergedRegion(Region(startRow, endRow, startColumn, endColumn));
        }
      }
    }
    ghost var cellsBefore := sheet.cells;
    var style := HeadStyleOf(item);
    var colHead := nowColumnIndex;
    var isFirst := true;
    var i := 0;
    while i < dataColumnCount
      invariant 0 <= i <= Cols(item)
      invariant colHead == nowColumnIndex + i
      invariant isFirst == (i == 0 || item.rowNo <= -1)
      invariant sheet.cells == cellsBefore + NodeCells(item, dataRowIndex, nowColumnIndex)[..i]
      invariant sheet.columnWidths == Fill(old(sheet.columnWidths), nowColumnIndex, i, WidthOf(item))
      invariant sheet.regions == old(sheet.regions) + NodeRegion(item, maxRowCount, dataRowIndex, nowColumnIndex)
      invariant sheet.rowHeights == old(sheet.rowHeights)
    {
      sheet.SetColumnWidth(colHead, WidthOf(item));
      if isFirst && item.rowNo > -1 {
        sheet.CreateCell(dataRowIndex, colHead, TextOf(item.headName), style);
        isFirst := false;
      } else {
        sheet.CreateCell(dataRowIndex, colHead, Text(""), style);
      }
      assert NodeCells(item, dataRowIndex, nowColumnIndex)[..i + 1]
          == NodeCells(item, dataRowIndex, nowColumnIndex)[..i] + [NodeCells(item, dataRowIndex, nowColumnIndex)[i]];
      colHead := colHead + 1;
      i := i + 1;
    }
    assert NodeCells(item, dataRowIndex, nowColumnIndex)[..i] == NodeCells(item, dataRowIndex, nowColumnIndex);
  }

  // ---------------------------------------------------------------------------
  // What the header looks like

  /** Every node of the level has a non-negative column count. */
  predicate NonNegCols(f: seq<BindModel>) {
    forall i :: 0 <= i < |f| ==> f[i].columsCount >= 0
  }

  lemma SumColsNonNeg(f: seq<BindModel>)
    requires NonNegCols(f)
    ensures SumCols(f) >= 0
    decreases |f|
  {
    if f != [] {
      SumColsNonNeg(f[..|f| - 1]);
    }
  }

  /** A level writes exactly one cell per column, left to right, all on its
      own row. */
  lemma {:induction false} LevelCellsLayout(f: seq<BindModel>, row: int)
    requires NonNegCols(f)
    ensures |LevelCells(f, row)| == SumCols(f)
    ensures forall k :: 0 <= k < |LevelCells(f, row)| ==> LevelCells(f, row)[k].row == row && LevelCells(f, row)[k].col == k
    decreases |f|
  {
    if f != [] {
      var pre := f[..|f| - 1];
      LevelCellsLayout(pre, row);
      SumColsNonNeg(pre);
    }
  }

  /** Within a level, node `i`'s cells are its label (in the first cell of a
      real node) and empty text, in the node's header style. */
  lemma {:induction false} LevelCellsAt(f: seq<BindModel>, row: int, i: int, j: int)
    requires NonNegCols(f) && 0 <= i < |f| && 0 <= j < f[i].columsCount
    ensures 0 <= SumCols(f[..i]) && SumCols(f[..i]) + j < |LevelCells(f, row)| && var c := LevelCells(f, row)[SumCols(f[..i]) + j];
      && c.content == (if j == 0 && f[i].rowNo > -1 then TextOf(f[i].headName) else Text(""))
      && c.style == HeadStyleOf(f[i])
    decreases |f|
  {
    var pre := f[..|f| - 1];
    LevelCellsLayout(f, row);
    LevelCellsLayout(pre, row);
    if i < |f| - 1 {
      assert pre[..i] == f[..i];
      LevelCellsAt(pre, row, i, j);
      SumColsPrefix(f, i + 1);
      SumColsNonNeg(f[i + 1..]);
    } else {
      assert pre == f[..i];
    }
  }

  lemma SumColsPrefix(f: seq<BindModel>, i: int)
    requires 0 <= i <= |f|
    ensures SumCols(f) == SumCols(f[..i]) + SumCols(f[i..])
  {
    assert f == f[..i] + f[i..];
    SumColsAppend(f[..i], f[i..]);
  }

  lemma NonNegColsOf(f: seq<BindModel>)
    requires ForestConsistent(f)
    ensures NonNegCols(f)
  {
    forall i | 0 <= i < |f|
      ensures f[i].columsCount >= 0
    {
      ForestConsistentAt(f, i);
    }
  }

  lemma ForestConsistentAppend(f: seq<BindModel>, g: seq<BindModel>)
    requires ForestConsistent(f) && ForestConsistent(g)
    ensures ForestConsistent(f + g)
    decreases |g|
  {
    if g == [] {
      assert f + g == f;
    } else {
      assert (f + g)[..|f + g| - 1] == f + g[..|g| - 1];
      ForestConsistentAppend(f, g[..|g| - 1]);
    }
  }

  /** On a consistent tree the next level spans the same columns and is
      consistent again: every level is as wide as the first. */
  lemma {:induction false} NextLevelColumns(f: seq<BindModel>)
    requires ForestConsistent(f)
    ensures ForestConsistent(NextLevel(f)) && SumCols(NextLevel(f)) == SumCols(f)
    decreases |f|
  {
    if f != [] {
      var pre, last := f[..|f| - 1], f[|f| - 1];
      NextLevelColumns(pre);
      var below := Below(last);
      assert ForestConsistent(below) && SumCols(below) == last.columsCount by {
        if last.subDataBinding == [] {
          assert below[..0] == [];
          assert ColumnsConsistent(Placeholder(last));
        }
      }
      ForestConsistentAppend(NextLevel(pre), below);
      SumColsAppend(NextLevel(pre), below);
    }
  }

  /** Cell `k` of `cells` sits on row `row + k / s`, column `k % s`. */
  ghost predicate RowMajor(cells: seq<Placement>, row: int, s: int)
    requires s > 0
  {
    forall k | 0 <= k < |cells| :: cells[k].row == row + k / s && cells[k].col == k % s
  }

  /** One full row of `s` cells on top of a row-major grid is a row-major
      grid. */
  lemma RowMajorCons(level: seq<Placement>, rest: seq<Placement>, row: int, s: int)
    requires s > 0 && |level| == s
    requires forall k | 0 <= k < s :: level[k].row == row && level[k].col == k
    requires RowMajor(rest, row + 1, s)
    ensures RowMajor(level + rest, row, s)
  {
    var all := level + rest;
    forall k | 0 <= k < |all|
      ensures all[k].row == row + k / s && all[k].col == k % s
    {
      if k < s {
        DivUnique(k, s, 0, k);
      } else {
        assert all[k] == rest[k - s];
        QuotientStep(k, s);
      }
    }
  }

  /** The header is a full grid, row-major: as many rows as the tree is deep,
      and on every row one cell per column, left to right. */
  lemma {:induction false} HeadCellsGrid(maxRowCount: int, f: seq<BindModel>, row: int)
    requires ForestConsistent(f) && SumCols(f) > 0
    ensures |HeadCells(maxRowCount, f, row)| == ForestHeight(f) * SumCols(f)
    ensures RowMajor(HeadCells(maxRowCount, f, row), row, SumCols(f))
    decreases ForestHeight(f)
  {
    var s := SumCols(f);
    NonNegColsOf(f);
    LevelCellsLayout(f, row);
    var level := LevelCells(f, row);
    assert f != [];
    AnyChildrenHeight(f);
    if AnyChildren(f) {
      var next := NextLevel(f);
      NextLevelShrinks(f);
      NextLevelHeight(f);
      NextLevelColumns(f);
      HeadCellsGrid(maxRowCount - 1, next, row + 1);
      var rest := HeadCells(maxRowCount - 1, next, row + 1);
      assert HeadCells(maxRowCount, f, row) == level + rest;
      RowMajorCons(level, rest, row, s);
      RowsTimesCols(ForestHeight(f), s);
    } else {
      assert HeadCells(maxRowCount, f, row) == level;
      assert ForestHeight(f) == 1 by {
        assert ForestHeight(f) >= Height(f[|f| - 1]) >= 1;
      }
      RowMajorCons(level, [], row, s);
      assert level + [] == level;
    }
  }

  lemma RowsTimesCols(h: int, s: int)
    ensures s + (h - 1) * s == h * s
  {
  }

  /** Every region of `regs` starts on a row in `lo .. hi - 1` and either
      stays on its row or reaches down to row `last`. */
  ghost predicate RegionsRows(regs: seq<Region>, lo: int, hi: int, last: int) {
    forall g | g in regs :: lo <= g.r1 < hi && (g.r2 == g.r1 || g.r2 == last)
  }

  lemma RegionsRowsJoin(a: seq<Region>, b: seq<Region>, lo: int, hi: int, last: int)
    requires RegionsRows(a, lo, hi, last) && RegionsRows(b, lo + 1, hi, last)
    ensures RegionsRows(a + b, lo, hi, last)
  {
    forall g | g in a + b ensures lo <= g.r1 < hi && (g.r2 == g.r1 || g.r2 == last) {
      if g !in a {
        assert g in b;
      }
    }
  }

  /** Every header region starts on a header row and either stays on it or
      reaches down to the last header row; the last header row is
      `row + maxRowCount - 1` when `maxRowCount` is the tree's depth. */
  lemma {:induction false} HeadRegionsRows(maxRowCount: int, f: seq<BindModel>, row: int)
    requires maxRowCount >= ForestHeight(f)
    ensures RegionsRows(HeadRegions(maxRowCount, f, row), row, row + ForestHeight(f), row + maxRowCount - 1)
    decreases ForestHeight(f)
  {
    var hi, last := row + ForestHeight(f), row + maxRowCount - 1;
    var level := LevelRegions(f, maxRowCount, row);
    LevelRegionsRows(f, maxRowCount, row);
    assert RegionsRows(level, row, hi, last);
    HeadUnfold(maxRowCount, f, row);
    if AnyChildren(f) {
      AnyChildrenHeight(f);
      NextLevelHeight(f);
      var sub := HeadRegions(maxRowCount - 1, NextLevel(f), row + 1);
      HeadRegionsRows(maxRowCount - 1, NextLevel(f), row + 1);
      RegionsRowsWiden(sub, row + 1, row + 1 + ForestHeight(NextLevel(f)), hi, last);
      RegionsRowsJoin(level, sub, row, hi, last);
      assert HeadRegions(maxRowCount, f, row) == level + sub;
    }
  }

  lemma RegionsRowsWiden(regs: seq<Region>, lo: int, hi: int, hi': int, last: int)
    requires RegionsRows(regs, lo, hi, last) && hi <= hi'
    ensures RegionsRows(regs, lo, hi', last)
  {
  }

  lemma {:induction false} LevelRegionsRows(f: seq<BindModel>, maxRowCount: int, row: int)
    requires maxRowCount >= ForestHeight(f)
    ensures forall g :: g in LevelRegions(f, maxRowCount, row) ==>
      g.r1 == row < row + ForestHeight(f) && (g.r2 == row || g.r2 == row + maxRowCount - 1)
    decreases |f|
  {
    if f != [] {
      var pre := f[..|f| - 1];
      assert ForestHeight(f) >= ForestHeight(pre) && ForestHeight(f) >= Height(f[|f| - 1]) >= 1;
      LevelRegionsRows(pre, maxRowCount, row);
    }
  }

  /** The header creates exactly the rows `row` .. `row + depth - 1`. */
  lemma {:induction false} HeadRowsCreated(f: seq<BindModel>, row: int, heights: map<int, int>)
    requires f != []
    ensures forall r :: r in HeadRows(f, row, heights) <==> r in heights || row <= r < row + ForestHeight(f)
    ensures forall r :: row <= r < row + ForestHeight(f) ==> HeadRows(f, row, heights)[r] == -1
    ensures forall r :: r in heights && !(row <= r < row + ForestHeight(f)) ==> HeadRows(f, row, heights)[r] == heights[r]
    decreases ForestHeight(f)
  {
    AnyChildrenHeight(f);
    assert ForestHeight(f) >= Height(f[|f| - 1]) >= 1;
    if AnyChildren(f) {
      NextLevelShrinks(f);
      NextLevelHeight(f);
      assert NextLevel(f) != [];
      HeadRowsCreated(NextLevel(f), row + 1, heights[row := -1]);
      assert HeadRows(f, row, heights) == HeadRows(NextLevel(f), row + 1, heights[row := -1]);
    } else {
      assert HeadRows(f, row, heights) == heights[row := -1];
    }
  }
}
