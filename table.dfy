/** The body renderer (Reporter/Tools/NPOIExportTool.cs, lines 335-600):
    the header, then one sheet row per data row, one cell per body column.

    For each column of each row, in order:
    - the column's vertical-merge machine takes one step on the run-length
      list of the column's leaf (a list shared by all columns of that leaf,
      and the caller's own list);
    - a point merge anchored at this sheet row and the current column adds a
      one-row region and starts writing the anchor column's value, as text,
      into this and the next `MergeColumnCount` cells;
    - otherwise a cell the machine suppresses is an empty string cell, and any
      other cell is written by the typed formatter.

    The column cursor `col` moves only when a cell is written. A column's data
    is looked up under its own data name (see `DataKeys` for how the source
    reads that name back). */
module TableRenderer {
  import opened Grid
  import opened ExportModels
  import opened MergeMachine
  import opened ValueFormat
  import opened Layering
  import opened DataNames
  import opened HeaderEmitter

  /** The sheet and the renderer's state: the run-length store (one list per
      leaf), each column's merge state, the sheet's cells, regions and row
      heights, and whether the renderer has failed. */
  datatype Body = Body(
    store: seq<seq<int>>,
    infos: seq<MergeInfo>,
    cells: seq<Placement>,
    regions: seq<Region>,
    heights: map<int, int>,
    fault: bool)

  /** What one cell writes to the sheet: its cells and regions, and whether
      it has failed. The cell leaves the merge state alone. */
  datatype Page = Page(cells: seq<Placement>, regions: seq<Region>, fault: bool)

  /** The per-row cursor: the next sheet column, the cells still to be
      written by a point merge, and the value that merge writes. */
  datatype Cursor = Cursor(col: int, mergeCol: int, firstVal: Field)

  /** How a value becomes a cell. The renderer is stated for any such
      function; the export uses `Formatting`, the typed formatter with the
      platform's number parser. */
  type Formatter = (DataNameInfo, Field) -> CellOutcome

  /** `FormatValue` with the number parser fixed, as a `Formatter`; it only
      adapts the formatter to the renderer's function type. */
  function Formatting(parse: Parser): (fmt: Formatter)
    ensures forall d, f :: fmt(d, f) == FormatValue(d, f, parse)
  {
    (d, f) => FormatValue(d, f, parse)
  }

  /** A row starts at column 0 with no point merge and a null value. */
  const RowStart := Cursor(0, 0, StringField(None))

  /** Every column has a merge state and its leaf is in the store. */
  predicate Fits(store: seq<seq<int>>, infos: seq<MergeInfo>, names: seq<DataNameInfo>) {
    |infos| == |names| && forall j | 0 <= j < |names| :: names[j].leaf < |store|
  }

  /** `m` is anchored at sheet row `row`, column `col`. */
  predicate Anchors(m: MergeDataColumn, row: int, col: int) {
    m.rowIdx == row && m.columnIdx == col
  }

  /** The first point merge of a column anchored at this row and column. */
  function PointMergeAt(ms: seq<MergeDataColumn>, row: int, col: int): (r: Option<MergeDataColumn>)
    ensures r.Some? ==> r.value in ms && r.value.rowIdx == row && r.value.columnIdx == col
  {
    if ms == [] then None
    else if ms[0].rowIdx == row && ms[0].columnIdx == col then Some(ms[0])
    else PointMergeAt(ms[1..], row, col)
  }

  /** No point merge is found exactly when none is anchored here; otherwise
      the one found is the first that is (`Any`, then `FirstOrDefault`). */
  lemma {:induction false} PointMergeAtComplete(ms: seq<MergeDataColumn>, row: int, col: int)
    ensures PointMergeAt(ms, row, col).None? <==> forall i | 0 <= i < |ms| :: !Anchors(ms[i], row, col)
    ensures forall i | 0 <= i < |ms| && Anchors(ms[i], row, col) && (forall j | 0 <= j < i :: !Anchors(ms[j], row, col)) ::
      PointMergeAt(ms, row, col) == Some(ms[i])
  {
    if ms != [] && !Anchors(ms[0], row, col) {
      PointMergeAtComplete(ms[1..], row, col);
      forall i | 0 < i < |ms| && Anchors(ms[i], row, col) && (forall j | 0 <= j < i :: !Anchors(ms[j], row, col))
        ensures PointMergeAt(ms, row, col) == Some(ms[i])
      {
        assert ms[1..][i - 1] == ms[i];
        forall j | 0 <= j < i - 1 ensures !Anchors(ms[1..][j], row, col) {
          assert ms[1..][j] == ms[j + 1];
        }
      }
      if forall i | 0 <= i < |ms| :: !Anchors(ms[i], row, col) {
        forall i | 0 <= i < |ms| - 1 ensures !Anchors(ms[1..][i], row, col) {
          assert ms[1..][i] == ms[i + 1];
        }
      }
    }
  }

  /** `cells` sit in sheet row `rowIdx` at columns 0, 1, 2, ... in order. */
  predicate InRowOrder(cells: seq<Placement>, rowIdx: int)
    decreases |cells|
  {
    cells == [] || (InRowOrder(cells[..|cells| - 1], rowIdx) && cells[|cells| - 1].row == rowIdx && cells[|cells| - 1].col == |cells| - 1)
  }

  /** A cell written at the cursor keeps the row in order. */
  lemma CellKeepsRowOrder(before: seq<Placement>, after: seq<Placement>, n0: nat, rowIdx: int, col: int, col': int)
    requires 0 <= col && |before| == n0 + col && InRowOrder(before[n0..], rowIdx)
    requires col' == col || col' == col + 1
    requires |after| == |before| + (col' - col) && after[..|before|] == before
    requires col' > col ==> after[|before|].row == rowIdx && after[|before|].col == col
    ensures |after| == n0 + col' && InRowOrder(after[n0..], rowIdx) && after[..n0] == before[..n0]
  {
    if col' > col {
      assert after[n0..][..|after| - n0 - 1] == before[n0..];
      assert after[n0..][|after| - n0 - 1] == after[|before|];
    } else {
      assert after == before;
    }
  }

  /** The vertical region a step of the machine starts at (`row`, `col`). */
  function Vertical(e: Effect, row: int, col: int): seq<Region> {
    if e.span > 0 then [Region(row, row + e.span, col, col)] else []
  }

  /** The cell of one column after its merge step (which decided `write`):
      the point-merge check, then the cell itself. */
  function WriteCell(p: Page, cur: Cursor, d: DataNameInfo, write: bool, row: Row, rowIdx: int, fmt: Formatter): (Page, Cursor)
  {
    var pm := PointMergeAt(d.needMergeColumnCount, rowIdx, cur.col);
    var p1 := if pm.Some? then p.(regions := p.regions + [Region(rowIdx, rowIdx, cur.col, cur.col + pm.value.mergeColumnCount)]) else p;
    if pm.Some? && d.dataName !in row then (p1.(fault := true), cur)
    else
      var c := if pm.Some? then Cursor(cur.col, pm.value.mergeColumnCount + 1, row[d.dataName]) else cur;
      if c.mergeCol > 0 then
        // the anchor column's value, cast to a string
        match AsString(c.firstVal)
        case Some(s) =>
          (p1.(cells := p1.cells + [Placement(rowIdx, c.col, TextOf(s), StringStyle)]), Cursor(c.col + 1, c.mergeCol - 1, c.firstVal))
        case None => (p1.(fault := true), c)
      else if !write then
        (p1.(cells := p1.cells + [Placement(rowIdx, c.col, Text(""), StringStyle)]), c.(col := c.col + 1))
      else if d.dataName !in row then (p1.(fault := true), c)
      else
        match fmt(d, row[d.dataName])
        case NoCell => (p1, c)
        case Put(content, style) => (p1.(cells := p1.cells + [Placement(rowIdx, c.col, content, style)]), c.(col := c.col + 1))
        case Fault => (p1.(fault := true), c)
  }

  /** Column `k` of a data row written at sheet row `rowIdx`: the merge step
      on the list of the column's leaf, its vertical region, then the cell. */
  function PutCell(b: Body, cur: Cursor, names: seq<DataNameInfo>, k: nat, row: Row, rowIdx: int, fmt: Formatter): (r: (Body, Cursor))
    requires k < |names| && Fits(b.store, b.infos, names)
    ensures |r.0.store| == |b.store| && |r.0.infos| == |b.infos|
  {
    if b.fault then (b, cur)
    else
      var d := names[k];
      var s := Step(b.infos[k], b.store[d.leaf]);
      var (p, cur') := WriteCell(Page(b.cells, b.regions + Vertical(s.effect, rowIdx, cur.col), false), cur, d, s.effect.write, row, rowIdx, fmt);
      (Body(b.store[d.leaf := s.runs], b.infos[k := s.info], p.cells, p.regions, b.heights, p.fault), cur')
  }

  /** The first `n` columns of a data row. */
  function PutCells(b: Body, names: seq<DataNameInfo>, n: nat, row: Row, rowIdx: int, fmt: Formatter): (r: (Body, Cursor))
    requires n <= |names| && Fits(b.store, b.infos, names)
    ensures |r.0.store| == |b.store| && |r.0.infos| == |b.infos|
  {
    if n == 0 then (b, RowStart)
    else
      var (b', cur) := PutCells(b, names, n - 1, row, rowIdx, fmt);
      PutCell(b', cur, names, n - 1, row, rowIdx, fmt)
  }

  /** The data rows, from sheet row `start` on: each creates its sheet row and
      writes its columns; a failure stops the rendering. */
  function PutDataRows(b: Body, names: seq<DataNameInfo>, rows: seq<Row>, start: int, fmt: Formatter): (r: Body)
    requires Fits(b.store, b.infos, names)
  {
    DataRowsUpTo(b, names, rows, |rows|, start, fmt)
  }

  /** The first `n` data rows. */
  function DataRowsUpTo(b: Body, names: seq<DataNameInfo>, rows: seq<Row>, n: nat, start: int, fmt: Formatter): (r: Body)
    requires n <= |rows| && Fits(b.store, b.infos, names)
    ensures |r.store| == |b.store| && |r.infos| == |b.infos|
  {
    if n == 0 then b
    else
      var b' := DataRowsUpTo(b, names, rows, n - 1, start, fmt);
      if b'.fault then b' else PutRow(b', names, rows[n - 1], start + n - 1, fmt)
  }

  /** One data row at sheet row `rowIdx`: the row is created, then its columns
      are written. */
  function PutRow(b: Body, names: seq<DataNameInfo>, row: Row, rowIdx: int, fmt: Formatter): (r: Body)
    requires Fits(b.store, b.infos, names)
    ensures |r.store| == |b.store| && |r.infos| == |b.infos|
  {
    PutCells(b.(heights := b.heights[rowIdx := -1]), names, |names|, row, rowIdx, fmt).0
  }

  /** The merge machines alone over the first `n` columns of one row: each
      column steps on the list of its leaf as the columns before it left it.
      The result is the new store, the new merge states and each column's
      decision. */
  function MachineRow(store: seq<seq<int>>, infos: seq<MergeInfo>, names: seq<DataNameInfo>, n: nat): (r: (seq<seq<int>>, seq<MergeInfo>, seq<Effect>))
    requires n <= |names| && Fits(store, infos, names)
    ensures |r.0| == |store| && |r.1| == |infos| && |r.2| == n
  {
    if n == 0 then (store, infos, [])
    else
      var (st, inf, es) := MachineRow(store, infos, names, n - 1);
      var s := Step(inf[n - 1], st[names[n - 1].leaf]);
      (st[names[n - 1].leaf := s.runs], inf[n - 1 := s.info], es + [s.effect])
  }

  /** The merge machines over `r` whole rows without a failure. */
  function MachineRows(store: seq<seq<int>>, infos: seq<MergeInfo>, names: seq<DataNameInfo>, r: nat): (m: (seq<seq<int>>, seq<MergeInfo>))
    requires Fits(store, infos, names)
    ensures |m.0| == |store| && |m.1| == |infos|
  {
    if r == 0 then (store, infos)
    else
      var (st, inf) := MachineRows(store, infos, names, r - 1);
      var (st', inf', _) := MachineRow(st, inf, names, |names|);
      (st', inf')
  }

  // ---------------------------------------------------------------------------
  // The renderer

  /** One step of a column's vertical-merge machine (lines 389-414), adding
      the region it starts at (`rowIdx`, `col`). */
  method MergeStep(sheet: Sheet, info: MergeInfo, runs: seq<int>, rowIdx: int, col: int)
    returns (m: MergeInfo, runs': seq<int>, printData: bool)
    modifies sheet
    ensures Step(info, runs).info == m && Step(info, runs).runs == runs' && Step(info, runs).effect.write == printData
    ensures sheet.regions == old(sheet.regions) + Vertical(Step(info, runs).effect, rowIdx, col)
    ensures sheet.cells == old(sheet.cells) && sheet.rowHeights == old(sheet.rowHeights)
    ensures sheet.columnWidths == old(sheet.columnWidths)
  {
    m, runs', printData := info, runs, true;
    if m.pointer < |runs'| {
      if !m.state && m.counter < runs'[m.pointer] {
        m := m.(state := true);
        runs' := runs'[m.pointer := runs'[m.pointer] - 1];
        m := m.(counter := runs'[m.pointer]);
        if m.counter > 0 {
          sheet.AddMergedRegion(Region(rowIdx, rowIdx + m.counter, col, col));
        }
      } else if m.counter > 0 {
        printData := false;
      }
      if m.counter <= 0 {
        m := m.(pointer := m.pointer + 1, state := false);
      }
      m := m.(counter := m.counter - 1);
    }
  }

  /** The point-merge check and the cell of one column (lines 416-588). */
  method RenderValue(sheet: Sheet, cur: Cursor, d: DataNameInfo, printData: bool, row: Row, rowIdx: int, fmt: Formatter)
    returns (ok: bool, cur': Cursor)
    modifies sheet
    ensures WriteCell(Page(old(sheet.cells), old(sheet.regions), false), cur, d, printData, row, rowIdx, fmt)
         == (Page(sheet.cells, sheet.regions, !ok), cur')
    ensures sheet.columnWidths == old(sheet.columnWidths) && sheet.rowHeights == old(sheet.rowHeights)
    ensures cur'.col == cur.col || cur'.col == cur.col + 1
    ensures |sheet.cells| == |old(sheet.cells)| + (cur'.col - cur.col) && sheet.cells[..|old(sheet.cells)|] == old(sheet.cells)
    ensures cur'.col > cur.col ==> sheet.cells[|old(sheet.cells)|].row == rowIdx && sheet.cells[|old(sheet.cells)|].col == cur.col
  {
    var col, mergeCol, firstMergeCellVal := cur.col, cur.mergeCol, cur.firstVal;
    var pm := PointMergeAt(d.needMergeColumnCount, rowIdx, col);
    if pm.Some? {
      sheet.AddMergedRegion(Region(rowIdx, rowIdx, col, col + pm.value.mergeColumnCount));
      mergeCol := pm.value.mergeColumnCount + 1;
      if d.dataName !in row {
        return false, cur;
      }
      firstMergeCellVal := row[d.dataName];
    }
    cur' := Cursor(col, mergeCol, firstMergeCellVal);
    if mergeCol > 0 {
      var text := AsString(firstMergeCellVal);
      if text.None? {
        return false, cur';
      }
      sheet.CreateCell(rowIdx, col, TextOf(text.value), StringStyle);
      return true, Cursor(col + 1, mergeCol - 1, firstMergeCellVal);
    }
    if !printData {
      sheet.CreateCell(rowIdx, col, Text(""), StringStyle);
      return true, cur'.(col := col + 1);
    }
    if d.dataName !in row {
      return false, cur';
    }
    var out := fmt(d, row[d.dataName]);
    match out {
      case NoCell =>
        ok := true;
      case Put(content, style) =>
        sheet.CreateCell(rowIdx, col, content, style);
        ok, cur' := true, cur'.(col := col + 1);
      case Fault =>
        ok := false;
    }
  }

  /** The first `k` columns of a data row are written: `b0` is the sheet and
      renderer state the row started from, `cells`, `regions` and `heights`
      the sheet now, `store`, `infos` and `cur` the renderer's state. */
  ghost predicate CellsDone(b0: Body, names: seq<DataNameInfo>, row: Row, rowIdx: int, fmt: Formatter, k: nat, ok: bool,
                            store: seq<seq<int>>, infos: seq<MergeInfo>, cur: Cursor,
                            cells: seq<Placement>, regions: seq<Region>, heights: map<int, int>)
  {
    && k <= |names| && Fits(b0.store, b0.infos, names) && Fits(store, infos, names)
    && PutCells(b0, names, k, row, rowIdx, fmt) == (Body(store, infos, cells, regions, heights, !ok), cur)
    && (ok ==> MachineRow(b0.store, b0.infos, names, k).0 == store && MachineRow(b0.store, b0.infos, names, k).1 == infos)
    && 0 <= cur.col <= k && |cells| == |b0.cells| + cur.col && cells[..|b0.cells|] == b0.cells
    && InRowOrder(cells[|b0.cells|..], rowIdx)
  }

  /** Column `k` of a data row, after the row's first `k` columns. */
  method RenderCell(sheet: Sheet, names: seq<DataNameInfo>, k: nat, row: Row, rowIdx: int, fmt: Formatter,
                    store: seq<seq<int>>, infos: seq<MergeInfo>, cur: Cursor, ghost b0: Body)
    returns (ok: bool, store': seq<seq<int>>, infos': seq<MergeInfo>, cur': Cursor)
    requires k < |names| && CellsDone(b0, names, row, rowIdx, fmt, k, true, store, infos, cur, sheet.cells, sheet.regions, sheet.rowHeights)
    modifies sheet
    ensures CellsDone(b0, names, row, rowIdx, fmt, k + 1, ok, store', infos', cur', sheet.cells, sheet.regions, sheet.rowHeights)
    ensures sheet.columnWidths == old(sheet.columnWidths)
  {
    var d := names[k];
    var m, runs, printData := MergeStep(sheet, infos[k], store[d.leaf], rowIdx, cur.col);
    store', infos' := store[d.leaf := runs], infos[k := m];
    ghost var before := sheet.cells;
    ok, cur' := RenderValue(sheet, cur, d, printData, row, rowIdx, fmt);
    CellKeepsRowOrder(before, sheet.cells, |b0.cells|, rowIdx, cur.col, cur'.col);
  }

  /** One data row: its sheet row, then its columns (lines 370-594). Without
      a failure every column's machine has stepped once. Whatever happens, the
      cells written sit in this row at columns 0, 1, 2, ... with no gap, at
      most one per body column. */
  method RenderRow(sheet: Sheet, names: seq<DataNameInfo>, row: Row, rowIdx: int, fmt: Formatter,
                   store: seq<seq<int>>, infos: seq<MergeInfo>)
    returns (ok: bool, store': seq<seq<int>>, infos': seq<MergeInfo>)
    requires Fits(store, infos, names)
    modifies sheet
    ensures PutRow(Body(store, infos, old(sheet.cells), old(sheet.regions), old(sheet.rowHeights), false), names, row, rowIdx, fmt)
         == Body(store', infos', sheet.cells, sheet.regions, sheet.rowHeights, !ok)
    ensures ok ==> store' == MachineRow(store, infos, names, |names|).0 && infos' == MachineRow(store, infos, names, |names|).1
    ensures sheet.columnWidths == old(sheet.columnWidths)
    ensures old(|sheet.cells|) <= |sheet.cells| <= old(|sheet.cells|) + |names|
    ensures sheet.cells[..old(|sheet.cells|)] == old(sheet.cells)
    ensures InRowOrder(sheet.cells[old(|sheet.cells|)..], rowIdx)
  {
    sheet.CreateRow(rowIdx, -1);
    ghost var b0 := Body(store, infos, sheet.cells, sheet.regions, sheet.rowHeights, false);
    ok, store', infos' := RenderCells(sheet, names, row, rowIdx, fmt, store, infos, b0);
  }

  /** The cells of one row, column by column, after the row exists. */
  method RenderCells(sheet: Sheet, names: seq<DataNameInfo>, row: Row, rowIdx: int, fmt: Formatter,
                     store: seq<seq<int>>, infos: seq<MergeInfo>, ghost b0: Body)
    returns (ok: bool, store': seq<seq<int>>, infos': seq<MergeInfo>)
    requires Fits(store, infos, names)
    requires b0 == Body(store, infos, sheet.cells, sheet.regions, sheet.rowHeights, false)
    modifies sheet
    ensures PutCells(b0, names, |names|, row, rowIdx, fmt).0 == Body(store', infos', sheet.cells, sheet.regions, sheet.rowHeights, !ok)
    ensures ok ==> store' == MachineRow(store, infos, names, |names|).0 && infos' == MachineRow(store, infos, names, |names|).1
    ensures sheet.columnWidths == old(sheet.columnWidths)
    ensures |b0.cells| <= |sheet.cells| <= |b0.cells| + |names|
    ensures sheet.cells[..|b0.cells|] == b0.cells
    ensures InRowOrder(sheet.cells[|b0.cells|..], rowIdx)
  {
    store', infos' := store, infos;
    var cur := RowStart;
    var k := 0;
    ok := true;
    while k < |names| && ok
      invariant CellsDone(b0, names, row, rowIdx, fmt, k, ok, store', infos', cur, sheet.cells, sheet.regions, sheet.rowHeights)
      invariant sheet.columnWidths == old(sheet.columnWidths)
    {
      ok, store', infos', cur := RenderCell(sheet, names, k, row, rowIdx, fmt, store', infos', cur, b0);
      k := k + 1;
    }
    if !ok {
      CellsAfterFault(b0, names, k, |names|, row, rowIdx, fmt);
    }
  }

  /** The data rows from sheet row `start` on; `rowIndex` is the row after
      the last one. */
  method RenderBody(sheet: Sheet, names: seq<DataNameInfo>, dataList: seq<Row>, start: int, fmt: Formatter,
                    store: seq<seq<int>>, infos: seq<MergeInfo>)
    returns (ok: bool, store': seq<seq<int>>, rowIndex: int)
    requires Fits(store, infos, names)
    modifies sheet
    ensures var b := PutDataRows(Body(store, infos, old(sheet.cells), old(sheet.regions), old(sheet.rowHeights), false), names, dataList, start, fmt);
      && sheet.cells == b.cells && sheet.regions == b.regions && sheet.rowHeights == b.heights
      && store' == b.store && ok == !b.fault
    ensures ok ==> rowIndex == start + |dataList|
    ensures ok ==> store' == MachineRows(store, infos, names, |dataList|).0
    ensures sheet.columnWidths == old(sheet.columnWidths)
  {
    ghost var b0 := Body(store, infos, sheet.cells, sheet.regions, sheet.rowHeights, false);
    store' := store;
    var infos' := infos;
    rowIndex := start;
    ok := true;
    var i := 0;
    while i < |dataList| && ok
      invariant 0 <= i <= |dataList| && Fits(store', infos', names)
      invariant DataRowsUpTo(b0, names, dataList, i, start, fmt) == Body(store', infos', sheet.cells, sheet.regions, sheet.rowHeights, !ok)
      invariant ok ==> rowIndex == start + i && MachineRows(store, infos, names, i) == (store', infos')
      invariant sheet.columnWidths == old(sheet.columnWidths)
    {
      ok, store', infos' := RenderNext(sheet, names, dataList, i, start, fmt, store', infos', b0);
      if ok {
        rowIndex := rowIndex + 1;
      }
      i := i + 1;
    }
    if !ok {
      DataRowsAfterFault(b0, names, dataList, i, |dataList|, start, fmt);
    }
  }

  /** Data row `i`, after the rows before it: `b0` is the sheet and renderer
      state the body started from. */
  method RenderNext(sheet: Sheet, names: seq<DataNameInfo>, dataList: seq<Row>, i: nat, start: int, fmt: Formatter,
                    store: seq<seq<int>>, infos: seq<MergeInfo>, ghost b0: Body)
    returns (ok: bool, store': seq<seq<int>>, infos': seq<MergeInfo>)
    requires i < |dataList| && Fits(b0.store, b0.infos, names) && Fits(store, infos, names)
    requires DataRowsUpTo(b0, names, dataList, i, start, fmt) == Body(store, infos, sheet.cells, sheet.regions, sheet.rowHeights, false)
    requires MachineRows(b0.store, b0.infos, names, i) == (store, infos)
    modifies sheet
    ensures Fits(store', infos', names)
    ensures DataRowsUpTo(b0, names, dataList, i + 1, start, fmt) == Body(store', infos', sheet.cells, sheet.regions, sheet.rowHeights, !ok)
    ensures ok ==> MachineRows(b0.store, b0.infos, names, i + 1) == (store', infos')
    ensures sheet.columnWidths == old(sheet.columnWidths)
  {
    ghost var bp := Body(store, infos, sheet.cells, sheet.regions, sheet.rowHeights, false);
    ghost var m := MachineRow(store, infos, names, |names|);
    ok, store', infos' := RenderRow(sheet, names, dataList[i], start + i, fmt, store, infos);
    DataRowsNext(b0, names, dataList, i, start, fmt, bp, Body(store', infos', sheet.cells, sheet.regions, sheet.rowHeights, !ok));
    if ok {
      MachineRowsNext(b0.store, b0.infos, names, i, store, infos, m);
    }
  }

  lemma MachineRowsNext(store: seq<seq<int>>, infos: seq<MergeInfo>, names: seq<DataNameInfo>, i: nat,
                        st: seq<seq<int>>, inf: seq<MergeInfo>, m: (seq<seq<int>>, seq<MergeInfo>, seq<Effect>))
    requires Fits(store, infos, names) && Fits(st, inf, names)
    requires MachineRows(store, infos, names, i) == (st, inf) && MachineRow(st, inf, names, |names|) == m
    ensures MachineRows(store, infos, names, i + 1) == (m.0, m.1)
  {
  }

  lemma DataRowsNext(b: Body, names: seq<DataNameInfo>, rows: seq<Row>, i: nat, start: int, fmt: Formatter, bp: Body, bn: Body)
    requires i < |rows| && Fits(b.store, b.infos, names) && Fits(bp.store, bp.infos, names)
    requires DataRowsUpTo(b, names, rows, i, start, fmt) == bp && !bp.fault
    requires PutRow(bp, names, rows[i], start + i, fmt) == bn
    ensures DataRowsUpTo(b, names, rows, i + 1, start, fmt) == bn
  {
  }

  // ---------------------------------------------------------------------------
  // What one cell does

  /** One column writes at most one cell, at the cursor's column, and the
      cursor moves past exactly the cells written. Regions and cells are only
      appended, a failure is never undone, and the only region added is the
      one-row region of a point merge anchored here. */
  lemma WriteCellShape(p: Page, cur: Cursor, d: DataNameInfo, write: bool, row: Row, rowIdx: int, fmt: Formatter)
    ensures var (q, c) := WriteCell(p, cur, d, write, row, rowIdx, fmt);
      // at most one cell, at the cursor's column, which then moves past it
      && |p.cells| <= |q.cells| <= |p.cells| + 1 && q.cells[..|p.cells|] == p.cells
      && c.col - cur.col == |q.cells| - |p.cells|
      && (c.col > cur.col ==> q.cells[|p.cells|].row == rowIdx && q.cells[|p.cells|].col == cur.col)
      // at most one region, the one-row region of a point merge anchored here
      && |p.regions| <= |q.regions| <= |p.regions| + 1 && q.regions[..|p.regions|] == p.regions
      && (|q.regions| > |p.regions| ==> q.regions[|p.regions|].r1 == q.regions[|p.regions|].r2 == rowIdx && q.regions[|p.regions|].c1 == cur.col)
      && (p.fault ==> q.fault)
  {
  }

  /** A point merge anchored here adds the one-row region over this column and
      the next `MergeColumnCount`, and writes the anchor column's value cast to
      text (blank for a null), in the string style, whatever the merge machine
      and the formatter would do. */
  lemma PointMergeStarts(p: Page, cur: Cursor, d: DataNameInfo, write: bool, row: Row, rowIdx: int, fmt: Formatter, m: MergeDataColumn)
    requires PointMergeAt(d.needMergeColumnCount, rowIdx, cur.col) == Some(m) && m.mergeColumnCount >= 0
    requires d.dataName in row && AsString(row[d.dataName]).Some?
    ensures WriteCell(p, cur, d, write, row, rowIdx, fmt)
         == (p.(regions := p.regions + [Region(rowIdx, rowIdx, cur.col, cur.col + m.mergeColumnCount)],
                cells := p.cells + [Placement(rowIdx, cur.col, TextOf(AsString(row[d.dataName]).value), StringStyle)]),
             Cursor(cur.col + 1, m.mergeColumnCount, row[d.dataName]))
  {
  }

  /** While a point merge has cells left, the next column writes the same text
      and the count goes down, whatever the merge machine and the formatter
      would do. */
  lemma PointMergeContinues(p: Page, cur: Cursor, d: DataNameInfo, write: bool, row: Row, rowIdx: int, fmt: Formatter)
    requires cur.mergeCol > 0 && PointMergeAt(d.needMergeColumnCount, rowIdx, cur.col).None?
    requires AsString(cur.firstVal).Some?
    ensures WriteCell(p, cur, d, write, row, rowIdx, fmt)
         == (p.(cells := p.cells + [Placement(rowIdx, cur.col, TextOf(AsString(cur.firstVal).value), StringStyle)]),
             Cursor(cur.col + 1, cur.mergeCol - 1, cur.firstVal))
  {
  }

  /** A point merge fails when its anchor column is missing from the row or
      holds a non-null value that does not cast to text. */
  lemma PointMergeNeedsText(p: Page, cur: Cursor, d: DataNameInfo, write: bool, row: Row, rowIdx: int, fmt: Formatter)
    requires PointMergeAt(d.needMergeColumnCount, rowIdx, cur.col).Some?
    requires PointMergeAt(d.needMergeColumnCount, rowIdx, cur.col).value.mergeColumnCount >= 0
    requires d.dataName !in row || AsString(row[d.dataName]).None?
    ensures WriteCell(p, cur, d, write, row, rowIdx, fmt).0.fault
  {
  }

  /** Outside a point merge, a cell the merge machine suppresses is an empty
      string cell. */
  lemma SuppressedCellIsEmptyText(p: Page, cur: Cursor, d: DataNameInfo, row: Row, rowIdx: int, fmt: Formatter)
    requires cur.mergeCol <= 0 && PointMergeAt(d.needMergeColumnCount, rowIdx, cur.col).None?
    ensures WriteCell(p, cur, d, false, row, rowIdx, fmt)
         == (p.(cells := p.cells + [Placement(rowIdx, cur.col, Text(""), StringStyle)]), cur.(col := cur.col + 1))
  {
  }

  /** Outside a point merge, a cell the merge machine writes is what the typed
      formatter decides for the row's value: its cell at the cursor, which
      moves one column on; nothing, for a type it does not handle; or a
      failure. */
  lemma FormattedCell(p: Page, cur: Cursor, d: DataNameInfo, row: Row, rowIdx: int, parse: Parser)
    requires cur.mergeCol <= 0 && PointMergeAt(d.needMergeColumnCount, rowIdx, cur.col).None?
    requires d.dataName in row
    ensures WriteCell(p, cur, d, true, row, rowIdx, Formatting(parse))
         == match FormatValue(d, row[d.dataName], parse)
            case NoCell => (p, cur)
            case Put(content, style) => (p.(cells := p.cells + [Placement(rowIdx, cur.col, content, style)]), cur.(col := cur.col + 1))
            case Fault => (p.(fault := true), cur)
  {
  }

  // ---------------------------------------------------------------------------
  // The merge machine of one column, across the rows

  /** Column `k` is the only column of its leaf. */
  predicate OwnLeaf(names: seq<DataNameInfo>, k: nat)
    requires k < |names|
  {
    forall j | 0 <= j < |names| && j != k :: names[j].leaf != names[k].leaf
  }

  /** Within a row, a column alone on its leaf takes exactly one step of its
      own machine on its own list; the other columns leave both alone. */
  lemma {:induction false} MachineRowColumn(store: seq<seq<int>>, infos: seq<MergeInfo>, names: seq<DataNameInfo>, n: nat, k: nat)
    requires n <= |names| && k < |names| && Fits(store, infos, names) && OwnLeaf(names, k)
    ensures var r := MachineRow(store, infos, names, n);
      var s := Step(infos[k], store[names[k].leaf]);
      && r.1[k] == (if k < n then s.info else infos[k])
      && r.0[names[k].leaf] == (if k < n then s.runs else store[names[k].leaf])
      && (k < n ==> r.2[k] == s.effect)
  {
    if n > 0 {
      MachineRowColumn(store, infos, names, n - 1, k);
    }
  }

  /** Across rows, a fresh column alone on its leaf runs its machine by itself. */
  lemma {:induction false} MachineRowsColumn(store: seq<seq<int>>, infos: seq<MergeInfo>, names: seq<DataNameInfo>, r: nat, k: nat)
    requires k < |names| && Fits(store, infos, names) && OwnLeaf(names, k) && infos[k] == Init
    ensures MachineRows(store, infos, names, r).1[k] == Run(store[names[k].leaf], r).0
    ensures MachineRows(store, infos, names, r).0[names[k].leaf] == Run(store[names[k].leaf], r).1
  {
    if r > 0 {
      MachineRowsColumn(store, infos, names, r - 1, k);
      var m := MachineRows(store, infos, names, r - 1);
      MachineRowColumn(m.0, m.1, names, |names|, k);
    }
  }

  /** A fresh column alone on its leaf decides, at data row `r`, what the
      reference plan says for that row, and after `r` rows its leaf's list (the
      binding's own list, changed in place) is the plan's rendered list. */
  lemma ColumnFollowsPlan(store: seq<seq<int>>, infos: seq<MergeInfo>, names: seq<DataNameInfo>, r: nat, k: nat)
    requires k < |names| && Fits(store, infos, names) && OwnLeaf(names, k) && infos[k] == Init
    ensures var m := MachineRows(store, infos, names, r);
      && MachineRow(m.0, m.1, names, |names|).2[k] == PlanEffect(store[names[k].leaf], r)
      && m.0[names[k].leaf] == Rendered(store[names[k].leaf], r)
  {
    var runs := store[names[k].leaf];
    MachineRowsColumn(store, infos, names, r, k);
    var m := MachineRows(store, infos, names, r);
    MachineRowColumn(m.0, m.1, names, |names|, k);
    MachineFollowsPlan(runs, r);
    MachineFollowsPlan(runs, r + 1);
  }

  /** Two columns of one leaf share its list: the second column sees the entry
      the first has already shortened, so its merge is one row shorter, and
      the list loses two rows in one data row. */
  lemma SharedLeafShortensMerge(v: int, rest: seq<int>, d0: DataNameInfo, d1: DataNameInfo)
    requires v >= 3 && d0.leaf == 0 && d1.leaf == 0
    ensures MachineRow([[v] + rest], [Init, Init], [d0, d1], 2)
         == ([[v - 2] + rest], [MergeInfo(true, 0, v - 2), MergeInfo(true, 0, v - 3)], [Effect(true, v - 1), Effect(true, v - 2)])
  {
    var names := [d0, d1];
    var runs := [v] + rest;
    var s0 := Step(Init, runs);
    assert runs[0 := v - 1] == [v - 1] + rest;
    assert s0 == StepResult(MergeInfo(true, 0, v - 2), [v - 1] + rest, Effect(true, v - 1));
    assert MachineRow([runs], [Init, Init], names, 0) == ([runs], [Init, Init], []);
    assert [runs][0 := s0.runs] == [[v - 1] + rest];
    assert names[0].leaf == 0 && [runs][names[0].leaf] == runs;
    assert [] + [s0.effect] == [s0.effect];
    assert [Init, Init][0 := s0.info] == [MergeInfo(true, 0, v - 2), Init];
    assert MachineRow([runs], [Init, Init], names, 1) == ([[v - 1] + rest], [MergeInfo(true, 0, v - 2), Init], [s0.effect]);
    var s1 := Step(Init, [v - 1] + rest);
    assert ([v - 1] + rest)[0 := v - 2] == [v - 2] + rest;
    assert s1 == StepResult(MergeInfo(true, 0, v - 3), [v - 2] + rest, Effect(true, v - 2));
    assert [[v - 1] + rest][0 := s1.runs] == [[v - 2] + rest];
    assert [MergeInfo(true, 0, v - 2), Init][1 := s1.info] == [MergeInfo(true, 0, v - 2), MergeInfo(true, 0, v - 3)];
    assert names[1].leaf == 0 && [MergeInfo(true, 0, v - 2), Init][1] == Init && [[v - 1] + rest][0] == [v - 1] + rest;
    assert [s0.effect] + [s1.effect] == [Effect(true, v - 1), Effect(true, v - 2)];
  }

  // ---------------------------------------------------------------------------
  // Failure stops the rendering

  lemma {:induction false} CellsAfterFault(b: Body, names: seq<DataNameInfo>, k: nat, n: nat, row: Row, rowIdx: int, fmt: Formatter)
    requires k <= n <= |names| && Fits(b.store, b.infos, names)
    requires PutCells(b, names, k, row, rowIdx, fmt).0.fault
    ensures PutCells(b, names, n, row, rowIdx, fmt).0 == PutCells(b, names, k, row, rowIdx, fmt).0
    decreases n
  {
    if n > k {
      CellsAfterFault(b, names, k, n - 1, row, rowIdx, fmt);
    }
  }

  lemma {:induction false} DataRowsAfterFault(b: Body, names: seq<DataNameInfo>, rows: seq<Row>, k: nat, n: nat, start: int, fmt: Formatter)
    requires k <= n <= |rows| && Fits(b.store, b.infos, names)
    requires DataRowsUpTo(b, names, rows, k, start, fmt).fault
    ensures DataRowsUpTo(b, names, rows, n, start, fmt) == DataRowsUpTo(b, names, rows, k, start, fmt)
    decreases n
  {
    if n > k {
      DataRowsAfterFault(b, names, rows, k, n - 1, start, fmt);
      DataRowsFaultStays(b, names, rows, n, start, fmt);
    }
  }

  lemma DataRowsFaultStays(b: Body, names: seq<DataNameInfo>, rows: seq<Row>, n: nat, start: int, fmt: Formatter)
    requires 0 < n <= |rows| && Fits(b.store, b.infos, names)
    requires DataRowsUpTo(b, names, rows, n - 1, start, fmt).fault
    ensures DataRowsUpTo(b, names, rows, n, start, fmt) == DataRowsUpTo(b, names, rows, n - 1, start, fmt)
  {
  }
}
