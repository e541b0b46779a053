/** The table and the sheet layout of the export tool
    (Reporter/Tools/NPOIExportTool.cs, lines 229-235 and 333-600).

    A sheet gets its title rows from row 0, then the table (the header rows,
    then one row per data row), then one blank row, then the footer rows. The
    table takes as many header rows as the deepest binding, and renders a body
    only when there are data rows. */
module SheetLayout {
  import opened Grid
  import opened ExportModels
  import opened MergeMachine
  import opened Layering
  import opened HeaderEmitter
  import opened DataNames
  import opened TableRenderer
  import opened BlockRenderer

  /** What a stage leaves on the sheet: cells, regions, row heights, column
      widths, the next free row, and whether it has failed. */
  datatype Drawn = Drawn(
    cells: seq<Placement>,
    regions: seq<Region>,
    heights: map<int, int>,
    widths: map<int, int>,
    next: int,
    fault: bool)

  /** Every body column starts with no merge in progress. */
  function FreshInfos(n: nat): (r: seq<MergeInfo>)
    ensures |r| == n && forall i | 0 <= i < n :: r[i] == Init
  {
    if n == 0 then [] else FreshInfos(n - 1) + [Init]
  }

  /** Title (or footer) rows from row `d.next` on. */
  function TitlesOn(d: Drawn, titles: seq<TitleModel>, isFooter: bool): Drawn {
    var p := PutRows(Pen({}, d.heights, d.cells, d.regions, false), titles, d.next, DefaultStyle(isFooter));
    Drawn(p.cells, p.regions, p.heights, d.widths, d.next + |titles|, p.fault)
  }

  /** The table from row `d.next` on: the header rows, then the body. An empty
      binding list fails (the deepest binding is a maximum over it). */
  function TableOn(d: Drawn, binding: seq<BindModel>, data: seq<Row>, fmt: Formatter): Drawn {
    if binding == [] then d.(fault := true)
    else
      var m := MaxRows(binding);
      var cells := d.cells + HeadCells(m, binding, d.next);
      var regions := d.regions + HeadRegions(m, binding, d.next);
      var heights := HeadRows(binding, d.next, d.heights);
      var widths := HeadWidths(binding, d.widths);
      if data == [] then Drawn(cells, regions, heights, widths, d.next + m, false)
      else
        ColumnsShareLeafRuns(binding);
        var names := Columns(binding);
        var b := PutDataRows(Body(LeafRuns(binding), FreshInfos(|names|), cells, regions, heights, false), names, data, d.next + m, fmt);
        Drawn(b.cells, b.regions, b.heights, widths, d.next + m + |data|, b.fault)
  }

  /** A whole sheet: titles, table, one blank row, footers. */
  function SheetOf(title: seq<TitleModel>, binding: seq<BindModel>, data: seq<Row>, footer: seq<TitleModel>, fmt: Formatter): Drawn {
    var d1 := TitlesOn(Drawn([], [], map[], map[], 0, false), title, false);
    if d1.fault then d1
    else
      var d2 := TableOn(d1, binding, data, fmt);
      if d2.fault then d2
      else TitlesOn(d2.(next := d2.next + 1), footer, true)
  }

  /** `_FullFillTable`: the header from `dataRowIndex`, then, when there are
      data rows, the body. `runs` are the leaves' run-length lists after
      rendering; the renderer shortens them in place. */
  method FillTable(sheet: Sheet, dataBinding: seq<BindModel>, dataList: seq<Row>, dataRowIndex: int, fmt: Formatter)
    returns (ok: bool, rowIndex: int, runs: seq<seq<int>>)
    modifies sheet
    ensures var d := TableOn(Drawn(old(sheet.cells), old(sheet.regions), old(sheet.rowHeights), old(sheet.columnWidths), dataRowIndex, false), dataBinding, dataList, fmt);
      && sheet.cells == d.cells && sheet.regions == d.regions && sheet.rowHeights == d.heights
      && sheet.columnWidths == d.widths && ok == !d.fault && (ok ==> rowIndex == d.next)
    ensures ok ==> (dataBinding != [] && ColumnsFit(dataBinding) &&
      runs == MachineRows(LeafRuns(dataBinding), FreshInfos(|Columns(dataBinding)|), Columns(dataBinding), |dataList|).0)
  {
    if dataBinding == [] {
      return false, dataRowIndex, [];
    }
    ok, rowIndex, runs := FillBound(sheet, dataBinding, dataList, dataRowIndex, fmt);
  }

  /** `_FullFillTable` once the binding is known to be non-empty: the header
      rows, then the body when there are rows. */
  method FillBound(sheet: Sheet, dataBinding: seq<BindModel>, dataList: seq<Row>, dataRowIndex: int, fmt: Formatter)
    returns (ok: bool, rowIndex: int, runs: seq<seq<int>>)
    requires dataBinding != []
    modifies sheet
    ensures var d := TableOn(Drawn(old(sheet.cells), old(sheet.regions), old(sheet.rowHeights), old(sheet.columnWidths), dataRowIndex, false), dataBinding, dataList, fmt);
      && sheet.cells == d.cells && sheet.regions == d.regions && sheet.rowHeights == d.heights
      && sheet.columnWidths == d.widths && ok == !d.fault && (ok ==> rowIndex == d.next)
    ensures ok ==> (ColumnsFit(dataBinding) &&
      runs == MachineRows(LeafRuns(dataBinding), FreshInfos(|Columns(dataBinding)|), Columns(dataBinding), |dataList|).0)
  {
    ghost var d0 := Drawn(sheet.cells, sheet.regions, sheet.rowHeights, sheet.columnWidths, dataRowIndex, false);
    ghost var d := TableOn(d0, dataBinding, dataList, fmt);
    var maxRowCount := MaxRows(dataBinding);
    ok := true;
    CreateHeadRow(sheet, maxRowCount, dataBinding, dataRowIndex);
    ghost var widths := sheet.columnWidths;
    assert widths == HeadWidths(dataBinding, d0.widths);
    rowIndex := dataRowIndex + maxRowCount;
    ColumnsShareLeafRuns(dataBinding);
    if |dataList| > 0 {
      ok, rowIndex, runs := FillBody(sheet, dataBinding, dataList, rowIndex, fmt);
      assert d.cells == sheet.cells && d.regions == sheet.regions && d.heights == sheet.rowHeights && d.fault == !ok;
    } else {
      ok, runs := true, LeafRuns(dataBinding);
      assert d == Drawn(sheet.cells, sheet.regions, sheet.rowHeights, widths, rowIndex, false);
    }
  }

  /** The body part of `_FullFillTable` (lines 354-600): the columns in leaf
      order, every column starting with no merge in progress, then the rows. */
  method FillBody(sheet: Sheet, dataBinding: seq<BindModel>, dataList: seq<Row>, start: int, fmt: Formatter)
    returns (ok: bool, rowIndex: int, runs: seq<seq<int>>)
    requires ColumnsFit(dataBinding)
    modifies sheet
    ensures var b := PutDataRows(Body(LeafRuns(dataBinding), FreshInfos(|Columns(dataBinding)|), old(sheet.cells), old(sheet.regions), old(sheet.rowHeights), false),
                                 Columns(dataBinding), dataList, start, fmt);
      && sheet.cells == b.cells && sheet.regions == b.regions && sheet.rowHeights == b.heights && ok == !b.fault
    ensures ok ==> rowIndex == start + |dataList|
    ensures ok ==> runs == MachineRows(LeafRuns(dataBinding), FreshInfos(|Columns(dataBinding)|), Columns(dataBinding), |dataList|).0
    ensures sheet.columnWidths == old(sheet.columnWidths)
  {
    var names, _ := BuildDataNameOfDataBinding(dataBinding, [], 0);
    assert names == Columns(dataBinding);
    var infos: seq<MergeInfo> := [];
    var n := 0;
    while n < |names|
      invariant 0 <= n <= |names| && infos == FreshInfos(n)
    {
      infos := infos + [Init];
      n := n + 1;
    }
    ok, runs, rowIndex := RenderBody(sheet, names, dataList, start, fmt, LeafRuns(dataBinding), infos);
  }

  /** The store and merge states the body starts from fit the columns. */
  ghost predicate ColumnsFit(f: seq<BindModel>) {
    Fits(LeafRuns(f), FreshInfos(|Columns(f)|), Columns(f))
  }

  /** `Export` for one sheet (lines 229-235): titles from row 0, the table,
      one blank row, the footers. */
  method ExportSheet(info: SheetInfo, fmt: Formatter) returns (sheet: Sheet, ok: bool)
    ensures fresh(sheet)
    ensures var d := SheetOf(info.title, info.binding, info.data, info.footer, fmt);
      && sheet.cells == d.cells && sheet.regions == d.regions && sheet.rowHeights == d.heights
      && sheet.columnWidths == d.widths && ok == !d.fault
  {
    sheet := new Sheet();
    ghost var d1 := TitlesOn(Drawn([], [], map[], map[], 0, false), info.title, false);
    var dataRowIndex := 0;
    ok, dataRowIndex := FillTitle(sheet, info.title, false, dataRowIndex);
    assert sheet.cells == d1.cells && sheet.regions == d1.regions && sheet.rowHeights == d1.heights;
    assert sheet.columnWidths == d1.widths && ok == !d1.fault;
    if !ok {
      return;
    }
    assert dataRowIndex == d1.next;
    ghost var d2 := TableOn(d1, info.binding, info.data, fmt);
    var runs;
    ok, dataRowIndex, runs := FillTable(sheet, info.binding, info.data, dataRowIndex, fmt);
    assert sheet.cells == d2.cells && sheet.regions == d2.regions && sheet.rowHeights == d2.heights;
    assert sheet.columnWidths == d2.widths && ok == !d2.fault;
    if !ok {
      return;
    }
    dataRowIndex := dataRowIndex + 1;
    ok, dataRowIndex := FillTitle(sheet, info.footer, true, dataRowIndex);
  }

  // ---------------------------------------------------------------------------
  // Properties

  /** Where a sheet's parts go: when nothing fails, the header starts right
      after the titles, the body right after the deepest header row, and the
      footers one blank row after the last data row. */
  lemma SheetRows(title: seq<TitleModel>, binding: seq<BindModel>, data: seq<Row>, footer: seq<TitleModel>, fmt: Formatter)
    requires !SheetOf(title, binding, data, footer, fmt).fault
    ensures binding != []
    ensures SheetOf(title, binding, data, footer, fmt).next == |title| + MaxRows(binding) + |data| + 1 + |footer|
  {
  }

  /** A sheet with no binding fails, whatever else it holds, once its titles
      are drawn. */
  lemma NoBindingFails(title: seq<TitleModel>, data: seq<Row>, footer: seq<TitleModel>, fmt: Formatter)
    ensures SheetOf(title, [], data, footer, fmt).fault
  {
  }

  /** After rendering, the run-length list of a leaf that has a single data
      name (so only one column steps on it) is the reference plan's rendered
      list: the binding's own list has been shortened in place. */
  lemma LeafListAfterRendering(f: seq<BindModel>, rows: nat, k: nat)
    requires k < |Columns(f)| && OwnLeaf(Columns(f), k)
    ensures ColumnsFit(f)
    ensures var leaf := Columns(f)[k].leaf;
      && leaf < |ForestLeaves(f)|
      && MachineRows(LeafRuns(f), FreshInfos(|Columns(f)|), Columns(f), rows).0[leaf]
         == Rendered(ForestLeaves(f)[leaf].mergeDataRowCount, rows)
  {
    ColumnsShareLeafRuns(f);
    ColumnFollowsPlan(LeafRuns(f), FreshInfos(|Columns(f)|), Columns(f), rows, k);
  }
}
