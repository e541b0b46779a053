/** The title and footer block renderer (Reporter/Tools/NPOIExportTool.cs,
    lines 260-325; the footer variant, lines 777-781, is the same renderer
    with the footer style).

    Each title row lays its items out left to right from column 0. An item
    covers a rectangle of `|MergeRowCount| + 1` rows and `|MergeColumnCount| + 1`
    columns: every cell of it gets an empty string, then its anchor (top left)
    gets the item's text. The row cursor moves by one per title row, however
    many rows an item spans. */
module BlockRenderer {
  import opened Grid
  import opened ExportModels
  import opened Arith

  /** The sheet as the block renderer sees it: the rows it has created in this
      call (each is created once), the sheet's row heights, cells and regions,
      and whether it has failed. */
  datatype Pen = Pen(rows: set<int>, heights: map<int, int>, cells: seq<Placement>, regions: seq<Region>, fault: bool)

  function Abs(x: int): (r: nat)
    ensures r == x || r == -x
  {
    if x < 0 then -x else x
  }

  function DefaultStyle(isFooter: bool): Style {
    if isFooter then FooterStyle else TitleStyle
  }

  /** Reading the column count of an item that sets only a row count throws. */
  predicate ItemFails(t: TitleContent) {
    t.mergeColumnCount.None? && t.mergeRowCount.Some?
  }

  /** Columns covered right of the anchor. */
  function ExtraCols(t: TitleContent): nat {
    if t.mergeColumnCount.Some? then Abs(t.mergeColumnCount.value) else 0
  }

  /** Rows covered below the anchor. */
  function ExtraRows(t: TitleContent): nat {
    if t.mergeRowCount.Some? then Abs(t.mergeRowCount.value) else 0
  }

  /** Whether the item adds a merged region: only a positive count does,
      although the rectangle uses the absolute values. */
  predicate ItemMerges(t: TitleContent) {
    t.mergeColumnCount.Some? && (t.mergeColumnCount.value > 0 || (t.mergeRowCount.Some? && t.mergeRowCount.value > 0))
  }

  /** `w` empty cells on row `row` from column `c1`. */
  function RowBlanks(row: int, c1: int, w: nat, style: Style): (r: seq<Placement>)
    ensures |r| == w
  {
    seq(w, j requires 0 <= j < w => Placement(row, c1 + j, Text(""), style))
  }

  /** Rows `r1 .. r1 + n - 1` of an item: each row is created with height `h`
      unless this call created it already, then filled with empty cells. */
  function FillRows(p: Pen, r1: int, n: nat, c1: int, w: nat, h: int, style: Style): Pen {
    if n == 0 then p
    else
      var q := FillRows(p, r1, n - 1, c1, w, h, style);
      var r := r1 + n - 1;
      var q' := if r in q.rows then q else q.(rows := q.rows + {r}, heights := q.heights[r := h]);
      q'.(cells := q'.cells + RowBlanks(r, c1, w, style))
  }

  /** One item whose anchor is at (`row`, `col`), in a title row of height `h`. */
  function PutItem(p: Pen, t: TitleContent, row: int, col: int, h: int, def: Style): Pen {
    if p.fault then p
    else if ItemFails(t) then p.(fault := true)
    else
      var style := t.applyCellStyle.GetOr(def);
      var q := p.(regions := p.regions + if ItemMerges(t) then [Region(row, row + ExtraRows(t), col, col + ExtraCols(t))] else []);
      var q' := FillRows(q, row, ExtraRows(t) + 1, col, ExtraCols(t) + 1, h, style);
      q'.(cells := q'.cells + [Placement(row, col, TextOf(t.text), style)])
  }

  /** The items of one title row, and the column after the last of them. */
  function PutItems(p: Pen, items: seq<TitleContent>, row: int, h: int, def: Style): (Pen, int) {
    if items == [] then (p, 0)
    else
      var (q, col) := PutItems(p, items[..|items| - 1], row, h, def);
      var t := items[|items| - 1];
      (PutItem(q, t, row, col, h, def), col + ExtraCols(t) + 1)
  }

  /** Title rows `start`, `start + 1`, ... */
  function PutRows(p: Pen, titles: seq<TitleModel>, start: int, def: Style): Pen {
    if titles == [] then p
    else
      var t := titles[|titles| - 1];
      PutItems(PutRows(p, titles[..|titles| - 1], start, def), t.content, start + |titles| - 1, t.rowHeightInPoint, def).0
  }

  function PenOf(sheet: Sheet, rows: set<int>, fault: bool): Pen
    reads sheet
  {
    Pen(rows, sheet.rowHeights, sheet.cells, sheet.regions, fault)
  }

  // ---------------------------------------------------------------------------
  // The renderer

  /** `_FullFillTitle` (and `_FullFillFooter` with `isFooter`): `ok` is false
      when an item throws, and then the rest is not rendered. */
  method FillTitle(sheet: Sheet, dataList: seq<TitleModel>, isFooter: bool, dataRowIndex: int)
    returns (ok: bool, rowIndex: int)
    modifies sheet
    ensures var p := PutRows(Pen({}, old(sheet.rowHeights), old(sheet.cells), old(sheet.regions), false), dataList, dataRowIndex, DefaultStyle(isFooter));
      && sheet.cells == p.cells && sheet.regions == p.regions && sheet.rowHeights == p.heights
      && ok == !p.fault
    ensures sheet.columnWidths == old(sheet.columnWidths)
    ensures ok ==> rowIndex == dataRowIndex + |dataList|
  {
    var def := DefaultStyle(isFooter);
    ghost var p0 := Pen({}, sheet.rowHeights, sheet.cells, sheet.regions, false);
    var titleRows: set<int> := {};
    var currentRow := dataRowIndex;
    rowIndex := dataRowIndex;
    ok := true;
    var i := 0;
    while i < |dataList| && ok
      invariant 0 <= i <= |dataList|
      invariant ok ==> currentRow == rowIndex == dataRowIndex + i
      invariant PutRows(p0, dataList[..i], dataRowIndex, def) == PenOf(sheet, titleRows, !ok)
      invariant sheet.columnWidths == old(sheet.columnWidths)
    {
      RowsStep(p0, dataList, i, dataRowIndex, def);
      ok, titleRows := FillRow(sheet, dataList[i], currentRow, def, titleRows);
      if ok {
        currentRow := currentRow + 1;
        rowIndex := rowIndex + 1;
      }
      i := i + 1;
    }
    if ok {
      assert dataList[..i] == dataList;
    } else {
      RowsAfterFault(p0, dataList, i, dataRowIndex, def);
    }
  }

  /** One title row: its items left to right from column 0. */
  method FillRow(sheet: Sheet, title: TitleModel, nowRow: int, def: Style, titleRows: set<int>)
    returns (ok: bool, rows: set<int>)
    modifies sheet
    ensures PutItems(Pen(titleRows, old(sheet.rowHeights), old(sheet.cells), old(sheet.regions), false), title.content, nowRow, title.rowHeightInPoint, def).0
         == PenOf(sheet, rows, !ok)
    ensures sheet.columnWidths == old(sheet.columnWidths)
  {
    ghost var p0 := PenOf(sheet, titleRows, false);
    rows := titleRows;
    var nowCol := 0;
    var j := 0;
    ok := true;
    while j < |title.content| && ok
      invariant 0 <= j <= |title.content|
      invariant PutItems(p0, title.content[..j], nowRow, title.rowHeightInPoint, def).0 == PenOf(sheet, rows, !ok)
      invariant ok ==> PutItems(p0, title.content[..j], nowRow, title.rowHeightInPoint, def).1 == nowCol
      invariant sheet.columnWidths == old(sheet.columnWidths)
    {
      ItemsStep(p0, title.content, j, nowRow, title.rowHeightInPoint, def);
      var endColumn;
      ok, rows, endColumn := FillItem(sheet, title.content[j], nowRow, nowCol, title.rowHeightInPoint, def, rows);
      if ok {
        nowCol := endColumn + 1;
      }
      j := j + 1;
    }
    if ok {
      assert title.content[..j] == title.content;
    } else {
      ItemsAfterFault(p0, title.content, j, nowRow, title.rowHeightInPoint, def);
    }
  }

  /** One item: its region, its rectangle of empty cells, then its text. */
  method FillItem(sheet: Sheet, t: TitleContent, nowRow: int, nowCol: int, h: int, def: Style, titleRows: set<int>)
    returns (ok: bool, rows: set<int>, endCol: int)
    modifies sheet
    ensures PutItem(Pen(titleRows, old(sheet.rowHeights), old(sheet.cells), old(sheet.regions), false), t, nowRow, nowCol, h, def)
         == PenOf(sheet, rows, !ok)
    ensures endCol == nowCol + ExtraCols(t)
    ensures sheet.columnWidths == old(sheet.columnWidths)
  {
    rows := titleRows;
    var startRow, endRow := nowRow, nowRow;
    var startColumn, endColumn := nowCol, nowCol;
    if t.mergeColumnCount.Some? || t.mergeRowCount.Some? {
      if t.mergeColumnCount.Some? {
        startColumn := nowCol;
        endColumn := nowCol + Abs(t.mergeColumnCount.value);
      }
      if t.mergeRowCount.Some? {
        startRow := nowRow;
        endRow := nowRow + Abs(t.mergeRowCount.value);
      }
      if t.mergeColumnCount.None? {
        // the column count is read unconditionally
        return false, rows, endColumn;
      }
      if t.mergeColumnCount.value > 0 || (t.mergeRowCount.Some? && t.mergeRowCount.value > 0) {
        sheet.AddMergedRegion(Region(startRow, endRow, startColumn, endColumn));
      }
    }
    assert startRow == nowRow && endRow == nowRow + ExtraRows(t);
    assert startColumn == nowCol && endColumn == nowCol + ExtraCols(t);
    var style := t.applyCellStyle.GetOr(def);
    ghost var p0 := Pen(titleRows, old(sheet.rowHeights), old(sheet.cells), old(sheet.regions), false);
    ghost var q := PenOf(sheet, rows, false);
    assert !ItemFails(t);
    assert q == p0.(regions := p0.regions + if ItemMerges(t) then [Region(nowRow, nowRow + ExtraRows(t), nowCol, nowCol + ExtraCols(t))] else []);
    rows := FillRect(sheet, startRow, endRow, startColumn, endColumn, h, style, rows);
    assert PenOf(sheet, rows, false) == FillRows(q, nowRow, ExtraRows(t) + 1, nowCol, ExtraCols(t) + 1, h, style);
    sheet.CreateCell(startRow, startColumn, TextOf(t.text), style);
    ok, endCol := true, endColumn;
  }

  /** Rows `r1 .. r2`, columns `c1 .. c2` of an item, row by row. */
  method FillRect(sheet: Sheet, r1: int, r2: int, c1: int, c2: int, h: int, style: Style, titleRows: set<int>)
    returns (rows: set<int>)
    requires r1 <= r2 && c1 <= c2
    modifies sheet
    ensures FillRows(Pen(titleRows, old(sheet.rowHeights), old(sheet.cells), old(sheet.regions), false), r1, r2 - r1 + 1, c1, c2 - c1 + 1, h, style)
         == PenOf(sheet, rows, false)
    ensures sheet.columnWidths == old(sheet.columnWidths)
  {
    ghost var q := PenOf(sheet, titleRows, false);
    rows := titleRows;
    var startRow, startColumn := r1, c1;
    while startRow <= r2
      invariant r1 <= startRow <= r2 + 1 && startColumn == c1
      invariant FillRows(q, r1, startRow - r1, c1, c2 - c1 + 1, h, style) == PenOf(sheet, rows, false)
      invariant sheet.columnWidths == old(sheet.columnWidths)
    {
      if startRow !in rows {
        sheet.CreateRow(startRow, h);
        rows := rows + {startRow};
      }
      FillLine(sheet, startRow, c1, c2, style);
      startRow := startRow + 1;
    }
  }

  /** Columns `c1 .. c2` of one row of an item. */
  method FillLine(sheet: Sheet, row: int, c1: int, c2: int, style: Style)
    requires c1 <= c2
    modifies sheet
    ensures sheet.cells == old(sheet.cells) + RowBlanks(row, c1, c2 - c1 + 1, style)
    ensures sheet.regions == old(sheet.regions) && sheet.rowHeights == old(sheet.rowHeights)
    ensures sheet.columnWidths == old(sheet.columnWidths)
  {
    var col := c1;
    while col <= c2
      invariant c1 <= col <= c2 + 1
      invariant sheet.cells == old(sheet.cells) + RowBlanks(row, c1, col - c1, style)
      invariant sheet.regions == old(sheet.regions) && sheet.rowHeights == old(sheet.rowHeights)
      invariant sheet.columnWidths == old(sheet.columnWidths)
    {
      sheet.CreateCell(row, col, Text(""), style);
      assert RowBlanks(row, c1, col + 1 - c1, style) == RowBlanks(row, c1, col - c1, style) + [Placement(row, col, Text(""), style)];
      col := col + 1;
    }
  }

  lemma ItemsStep(p: Pen, items: seq<TitleContent>, j: nat, row: int, h: int, def: Style)
    requires j < |items|
    ensures var (q, col) := PutItems(p, items[..j], row, h, def);
      PutItems(p, items[..j + 1], row, h, def) == (PutItem(q, items[j], row, col, h, def), col + ExtraCols(items[j]) + 1)
  {
    assert items[..j + 1][..j] == items[..j];
  }

  lemma RowsStep(p: Pen, titles: seq<TitleModel>, i: nat, start: int, def: Style)
    requires i < |titles|
    ensures PutRows(p, titles[..i + 1], start, def)
         == PutItems(PutRows(p, titles[..i], start, def), titles[i].content, start + i, titles[i].rowHeightInPoint, def).0
  {
    assert titles[..i + 1][..i] == titles[..i];
  }

  // ---------------------------------------------------------------------------
  // Failure stops the rendering

  lemma {:induction false} ItemsAfterFault(p: Pen, items: seq<TitleContent>, k: nat, row: int, h: int, def: Style)
    requires k <= |items| && PutItems(p, items[..k], row, h, def).0.fault
    ensures PutItems(p, items, row, h, def).0 == PutItems(p, items[..k], row, h, def).0
    decreases |items|
  {
    if |items| > k {
      assert items[..|items| - 1][..k] == items[..k];
      ItemsAfterFault(p, items[..|items| - 1], k, row, h, def);
    } else {
      assert items[..k] == items;
    }
  }

  lemma {:induction false} RowsAfterFault(p: Pen, titles: seq<TitleModel>, k: nat, start: int, def: Style)
    requires k <= |titles| && PutRows(p, titles[..k], start, def).fault
    ensures PutRows(p, titles, start, def) == PutRows(p, titles[..k], start, def)
    decreases |titles|
  {
    if |titles| > k {
      assert titles[..|titles| - 1][..k] == titles[..k];
      RowsAfterFault(p, titles[..|titles| - 1], k, start, def);
      var t := titles[|titles| - 1];
      ItemsFaultStays(PutRows(p, titles[..|titles| - 1], start, def), t.content, start + |titles| - 1, t.rowHeightInPoint, def);
    } else {
      assert titles[..k] == titles;
    }
  }

  lemma {:induction false} ItemsFaultStays(p: Pen, items: seq<TitleContent>, row: int, h: int, def: Style)
    requires p.fault
    ensures PutItems(p, items, row, h, def).0 == p
    decreases |items|
  {
    if items != [] {
      ItemsFaultStays(p, items[..|items| - 1], row, h, def);
    }
  }

  // ---------------------------------------------------------------------------
  // What one item does

  /** The empty cells of rows `r1 .. r1 + n - 1`, columns `c1 .. c1 + w - 1`,
      row by row. */
  function Blanks(r1: int, n: nat, c1: int, w: nat, style: Style): seq<Placement> {
    if n == 0 then [] else Blanks(r1, n - 1, c1, w, style) + RowBlanks(r1 + n - 1, c1, w, style)
  }

  /** The rows of an item: every row of its rectangle exists afterwards; a row
      created earlier in the call keeps its height, the others get `h`; only
      empty cells are added and nothing else changes. */
  lemma {:induction false} FillRowsShape(p: Pen, r1: int, n: nat, c1: int, w: nat, h: int, style: Style)
    ensures var q := FillRows(p, r1, n, c1, w, h, style);
      && q.cells == p.cells + Blanks(r1, n, c1, w, style)
      && q.regions == p.regions && q.fault == p.fault
      && (forall r :: r in q.rows <==> r in p.rows || r1 <= r < r1 + n)
      && (forall r :: r in q.heights <==> r in p.heights || (r1 <= r < r1 + n && r !in p.rows))
      && (forall r | r in q.heights :: q.heights[r] == if r1 <= r < r1 + n && r !in p.rows then h else p.heights[r])
  {
    if n > 0 {
      FillRowsShape(p, r1, n - 1, c1, w, h, style);
      RowOpened(FillRows(p, r1, n - 1, c1, w, h, style), r1 + n - 1, h);
    }
  }

  /** Opening one row of an item. */
  lemma RowOpened(q: Pen, r: int, h: int)
    ensures var q' := if r in q.rows then q else q.(rows := q.rows + {r}, heights := q.heights[r := h]);
      && (forall x :: x in q'.rows <==> x in q.rows || x == r)
      && (forall x :: x in q'.heights <==> x in q.heights || (x == r && r !in q.rows))
      && (forall x | x in q'.heights :: q'.heights[x] == if x == r && r !in q.rows then h else q.heights[x])
  {
  }

  /** The empty cells form the rectangle row-major: cell `k` is on row
      `r1 + k / w`, column `c1 + k % w`. */
  lemma {:induction false} BlanksAt(r1: int, n: nat, c1: int, w: nat, style: Style)
    requires w > 0
    ensures |Blanks(r1, n, c1, w, style)| == n * w
    ensures forall k :: 0 <= k < n * w ==> Blanks(r1, n, c1, w, style)[k] == Placement(r1 + k / w, c1 + k % w, Text(""), style)
  {
    if n > 0 {
      BlanksAt(r1, n - 1, c1, w, style);
      var b := Blanks(r1, n, c1, w, style);
      assert n * w == (n - 1) * w + w;
      forall k | 0 <= k < n * w
        ensures b[k] == Placement(r1 + k / w, c1 + k % w, Text(""), style)
      {
        if k >= (n - 1) * w {
          DivUnique(k, w, n - 1, k - (n - 1) * w);
        }
      }
    }
  }

  /** An item that does not fail adds the region of its rectangle when one of
      its counts is positive, then the empty cells of its rectangle row by row
      and its text at the anchor, and opens the rows the rectangle covers. */
  lemma ItemShape(p: Pen, t: TitleContent, row: int, col: int, h: int, def: Style)
    requires !p.fault && !ItemFails(t)
    ensures var q := PutItem(p, t, row, col, h, def);
      var style := t.applyCellStyle.GetOr(def);
      && !q.fault
      && q.regions == p.regions + (if ItemMerges(t) then [Region(row, row + ExtraRows(t), col, col + ExtraCols(t))] else [])
      && q.cells == p.cells + Blanks(row, ExtraRows(t) + 1, col, ExtraCols(t) + 1, style) + [Placement(row, col, TextOf(t.text), style)]
      && (forall r :: r in q.rows <==> r in p.rows || row <= r <= row + ExtraRows(t))
  {
    var style := t.applyCellStyle.GetOr(def);
    var q0 := p.(regions := p.regions + if ItemMerges(t) then [Region(row, row + ExtraRows(t), col, col + ExtraCols(t))] else []);
    FillRowsShape(q0, row, ExtraRows(t) + 1, col, ExtraCols(t) + 1, h, style);
  }

  /** The cells of an item that does not fail: its whole rectangle (the
      absolute spans) of empty cells, row-major, then its text at the
      anchor. */
  lemma ItemLayout(p: Pen, t: TitleContent, row: int, col: int, h: int, def: Style)
    requires !p.fault && !ItemFails(t)
    ensures var q := PutItem(p, t, row, col, h, def);
      var style := t.applyCellStyle.GetOr(def);
      var w := ExtraCols(t) + 1;
      && |q.cells| == |p.cells| + (ExtraRows(t) + 1) * w + 1
      && q.cells[..|p.cells|] == p.cells
      && (forall k :: 0 <= k < (ExtraRows(t) + 1) * w ==>
            q.cells[|p.cells| + k] == Placement(row + k / w, col + k % w, Text(""), style))
      && q.cells[|q.cells| - 1] == Placement(row, col, TextOf(t.text), style)
  {
    var style := t.applyCellStyle.GetOr(def);
    var w := ExtraCols(t) + 1;
    var n := ExtraRows(t) + 1;
    ItemShape(p, t, row, col, h, def);
    BlanksAt(row, n, col, w, style);
    var q := PutItem(p, t, row, col, h, def);
    var b := Blanks(row, n, col, w, style);
    assert q.cells == p.cells + b + [Placement(row, col, TextOf(t.text), style)];
    forall k | 0 <= k < n * w
      ensures q.cells[|p.cells| + k] == Placement(row + k / w, col + k % w, Text(""), style)
    {
      assert q.cells[|p.cells| + k] == b[k];
    }
  }

  // ---------------------------------------------------------------------------
  // Rows and blocks

  /** A row's items tile it from column 0: the next free column is the sum of
      the items' widths. */
  function Widths(items: seq<TitleContent>): nat {
    if items == [] then 0 else Widths(items[..|items| - 1]) + ExtraCols(items[|items| - 1]) + 1
  }

  /** The items that add a region. */
  function Merging(items: seq<TitleContent>): nat {
    if items == [] then 0 else Merging(items[..|items| - 1]) + if ItemMerges(items[|items| - 1]) then 1 else 0
  }

  /** A row fails exactly when one of its items sets a row count without a
      column count, and its items end at the sum of their widths. */
  lemma {:induction false} RowFails(p: Pen, items: seq<TitleContent>, row: int, h: int, def: Style)
    requires !p.fault
    ensures var (q, col) := PutItems(p, items, row, h, def);
      && (q.fault <==> exists j :: 0 <= j < |items| && ItemFails(items[j]))
      && col == Widths(items)
    decreases |items|
  {
    if items != [] {
      var pre, t := items[..|items| - 1], items[|items| - 1];
      RowFails(p, pre, row, h, def);
      var (q, col) := PutItems(p, pre, row, h, def);
      if !q.fault {
        if !ItemFails(t) {
          ItemShape(q, t, row, col, h, def);
        }
        assert (exists j :: 0 <= j < |items| && ItemFails(items[j])) <==> ItemFails(t) by {
          assert forall j :: 0 <= j < |pre| ==> items[j] == pre[j];
        }
      } else {
        ItemsFaultStays(q, [t], row, h, def);
        var j :| 0 <= j < |pre| && ItemFails(pre[j]);
        assert items[j] == pre[j];
      }
    }
  }

  /** A row that does not fail adds one region per merging item, each
      starting on the row and lying within the columns its items cover. */
  lemma {:induction false} RowLayout(p: Pen, items: seq<TitleContent>, row: int, h: int, def: Style)
    requires !p.fault
    ensures var (q, col) := PutItems(p, items, row, h, def);
      && (!q.fault ==> |q.regions| == |p.regions| + Merging(items) && q.regions[..|p.regions|] == p.regions)
      && (!q.fault ==> forall k :: |p.regions| <= k < |q.regions| ==>
            q.regions[k].r1 == row && q.regions[k].r1 <= q.regions[k].r2 && 0 <= q.regions[k].c1 <= q.regions[k].c2 < Widths(items))
    decreases |items|
  {
    if items != [] {
      var pre, t := items[..|items| - 1], items[|items| - 1];
      RowLayout(p, pre, row, h, def);
      RowFails(p, pre, row, h, def);
      var (q, col) := PutItems(p, pre, row, h, def);
      if !q.fault && !ItemFails(t) {
        ItemShape(q, t, row, col, h, def);
      }
    }
  }

  /** The whole block fails exactly when some item of some row sets a row
      count without a column count. */
  lemma {:induction false} BlockFails(p: Pen, titles: seq<TitleModel>, start: int, def: Style)
    requires !p.fault
    ensures PutRows(p, titles, start, def).fault <==>
      exists i, j :: 0 <= i < |titles| && 0 <= j < |titles[i].content| && ItemFails(titles[i].content[j])
    decreases |titles|
  {
    if titles != [] {
      var pre, t := titles[..|titles| - 1], titles[|titles| - 1];
      BlockFails(p, pre, start, def);
      var q := PutRows(p, pre, start, def);
      if !q.fault {
        RowFails(q, t.content, start + |titles| - 1, t.rowHeightInPoint, def);
        assert forall i :: 0 <= i < |pre| ==> titles[i] == pre[i];
      } else {
        ItemsFaultStays(q, t.content, start + |titles| - 1, t.rowHeightInPoint, def);
        var i, j :| 0 <= i < |pre| && 0 <= j < |pre[i].content| && ItemFails(pre[i].content[j]);
        assert titles[i] == pre[i];
      }
    }
  }
}
