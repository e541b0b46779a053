/** The generic report (Reporter/Models/Reporter.cs) and the binding step of
    its base class (Reporter/Models/ReportSheetCreater.cs, lines 44-59 and
    227-234).

    A report turns the properties of its row type into one column binding
    each, lays the bindings out, and builds one title row per title string
    (plus a print-date row when asked) and one footer row per footer string,
    every such row spanning the whole table. Reflection over the row type is
    replaced by the list of its properties, and the clock by the date passed
    in. */
module GenericReport {
  import opened Grid
  import opened ExportModels
  import opened Layering
  import opened DataNames
  import opened SheetCreator
  import opened DataKeys
  import opened BlockRenderer

  /** A calendar date. */
  datatype Date = Date(year: nat, month: nat, day: nat)

  /** `ReportParameterModel`; a null list or dictionary is `None`. */
  datatype ReportParameter = ReportParameter(
    sheetName: string,
    data: seq<Row>,
    titleList: Option<seq<string>>,
    showPrintDate: bool,
    footerList: Option<seq<string>>,
    showEmptyIfZero: bool,
    mergeRowCountDic: Option<map<string, Option<seq<int>>>>,
    mergeDataColumnCount: Option<map<string, Option<seq<MergeDataColumn>>>>)

  const DefaultColumnWidth := 30
  const TitleHeight := 27
  const PrintDateHeight := 21

  /** `int` (`System.Int32`); a nullable int is another type. */
  predicate IsInteger(t: PropType) {
    t == IntType
  }

  /** `decimal`, `float` or `double`. */
  predicate IsPointNumber(t: PropType) {
    t == DecimalType || t == FloatType || t == DoubleType
  }

  /** A dictionary entry, or an empty list when the key is missing or its
      value is null. */
  function Lookup<V>(dic: map<string, Option<seq<V>>>, key: string): seq<V> {
    if key in dic && dic[key].Some? then dic[key].value else []
  }

  // ---------------------------------------------------------------------------
  // Column bindings (lines 56-114)

  /** The binding of one property. */
  function ColumnBinding(p: Property, showEmptyIfZero: bool,
                         rowDic: map<string, Option<seq<int>>>, colDic: map<string, Option<seq<MergeDataColumn>>>): (b: BindModel)
    ensures b.subDataBinding == [] && b.dataName == [p.name]
  {
    var b := NewBindModel().(
      headName := Some(p.description.GetOr(p.name)),
      dataName := [p.name],
      columnWidth := Some(p.columnWidth.GetOr(DefaultColumnWidth)),
      showEmptyIfZero := showEmptyIfZero,
      mergeDataRowCount := Lookup(rowDic, p.name),
      mergeDataColumnCount := Lookup(colDic, p.name));
    var b' := if IsInteger(p.typ) || IsPointNumber(p.typ) then b.(applyCellAlignmentForColumn := Right) else b;
    if IsPointNumber(p.typ) then b'.(dataWithPoints := Some(2)) else b'
  }

  /** One binding per property, in property order. */
  function Bindings(properties: seq<Property>, showEmptyIfZero: bool,
                    rowDic: map<string, Option<seq<int>>>, colDic: map<string, Option<seq<MergeDataColumn>>>): (r: seq<BindModel>)
    ensures |r| == |properties|
  {
    seq(|properties|, i requires 0 <= i < |properties| => ColumnBinding(properties[i], showEmptyIfZero, rowDic, colDic))
  }

  // ---------------------------------------------------------------------------
  // Title and footer rows (lines 119-185)

  /** The decimal text of an integer, with a minus sign when negative. */
  function IntText(i: int): string {
    if i < 0 then "-" + Decimal(-i) else Decimal(i)
  }

  /** A number with at least two digits (`MM`, `dd`). */
  function TwoDigits(n: nat): string {
    if n < 10 then "0" + Decimal(n) else Decimal(n)
  }

  /** The print-date text: the year of the Republic of China era (the
      Gregorian year minus 1911), then the month and the day. */
  function PrintDateText(d: Date): string {
    "列印日期：" + IntText(d.year - 1911) + "年" + TwoDigits(d.month) + "月" + TwoDigits(d.day) + "日"
  }

  /** A one-item row whose item spans `total` columns. */
  function SpanRow(text: string, total: int, height: int): TitleModel {
    TitleModel([TitleContent(Some(text), None, Some(total - 1), None)], height)
  }

  function PrintDateRow(d: Date, total: int): TitleModel {
    TitleModel([TitleContent(Some(PrintDateText(d)), Some(0), Some(total - 1), Some(PrintDateStyle))], PrintDateHeight)
  }

  /** One row per title, then the print-date row when it is shown. */
  function Titles(titles: seq<string>, total: int, showPrintDate: bool, today: Date): (r: seq<TitleModel>)
    ensures |r| == |titles| + if showPrintDate then 1 else 0
  {
    seq(|titles|, i requires 0 <= i < |titles| => SpanRow(titles[i], total, TitleHeight))
      + if showPrintDate then [PrintDateRow(today, total)] else []
  }

  /** One row per footer, at the default height. */
  function Footers(footers: seq<string>, total: int): (r: seq<TitleModel>)
    ensures |r| == |footers|
  {
    seq(|footers|, i requires 0 <= i < |footers| => SpanRow(footers[i], total, -1))
  }

  // ---------------------------------------------------------------------------
  // The report

  class Report {
    /** The properties of the row type, in declaration order. */
    const properties: seq<Property>
    /** The date the print-date row shows. */
    const today: Date
    const sheet: SheetInfo
    var titleList: Option<seq<string>>
    var footerList: Option<seq<string>>
    var mergeRowCountDic: map<string, Option<seq<int>>>
    var mergeDataColumnCount: map<string, Option<seq<MergeDataColumn>>>
    var showEmptyIfZero: bool
    var showPrintDate: bool
    var totalColumnCount: int
    var totalDataRowCount: int
    var dataList: seq<Row>

    /** What `BindAllData` leaves: the counts, and the sheet's data, laid-out
        bindings, titles and footers. */
    ghost predicate Bound()
      reads this, sheet
    {
      var laid := LayerForest(Bindings(properties, showEmptyIfZero, mergeRowCountDic, mergeDataColumnCount), 1);
      && totalDataRowCount == |dataList|
      && totalColumnCount == SumCols(laid)
      && sheet.data == dataList
      && sheet.binding == laid
      && sheet.title == Titles(titleList.GetOr([]), totalColumnCount, showPrintDate, today)
      && sheet.footer == Footers(footerList.GetOr([]), totalColumnCount)
    }

    /** `Report(parameter)`: null dictionaries become empty ones, then the
        data is bound. */
    constructor (parameter: ReportParameter, properties: seq<Property>, today: Date)
      ensures fresh(sheet) && sheet.name == parameter.sheetName
      ensures this.properties == properties && this.today == today && dataList == parameter.data
      ensures titleList == parameter.titleList && footerList == parameter.footerList
      ensures showEmptyIfZero == parameter.showEmptyIfZero && showPrintDate == parameter.showPrintDate
      ensures mergeRowCountDic == parameter.mergeRowCountDic.GetOr(map[])
      ensures mergeDataColumnCount == parameter.mergeDataColumnCount.GetOr(map[])
      ensures Bound()
    {
      this.properties := properties;
      this.today := today;
      dataList := parameter.data;
      sheet := new SheetInfo(parameter.sheetName);
      titleList := parameter.titleList;
      footerList := parameter.footerList;
      showEmptyIfZero := parameter.showEmptyIfZero;
      mergeRowCountDic := parameter.mergeRowCountDic.GetOr(map[]);
      mergeDataColumnCount := parameter.mergeDataColumnCount.GetOr(map[]);
      showPrintDate := parameter.showPrintDate;
      totalColumnCount, totalDataRowCount := 0, 0;
      new;
      BindAllData();
    }

    /** `BindAllData`: count the rows, lay the bindings out from header row 1,
        total their columns, and hand data, bindings, titles and footers to the
        sheet. */
    method BindAllData()
      modifies this`totalDataRowCount, this`totalColumnCount, sheet`data, sheet`binding, sheet`title, sheet`footer
      ensures Bound()
    {
      totalDataRowCount := |dataList|;
      var bindingModel := SetupTableBinding();
      bindingModel := LayerRoots(bindingModel);
      totalColumnCount := SumCols(bindingModel);
      sheet.data := dataList;
      sheet.binding := bindingModel;
      sheet.title := SetupTitle();
      sheet.footer := SetupFooter();
    }

    /** `SetupTableBinding`: one binding per property. */
    method SetupTableBinding() returns (bindList: seq<BindModel>)
      ensures bindList == Bindings(properties, showEmptyIfZero, mergeRowCountDic, mergeDataColumnCount)
    {
      bindList := [];
      var i := 0;
      while i < |properties|
        invariant 0 <= i <= |properties| && |bindList| == i
        invariant forall l | 0 <= l < i :: bindList[l] == ColumnBinding(properties[l], showEmptyIfZero, mergeRowCountDic, mergeDataColumnCount)
      {
        var item := properties[i];
        var bind := NewBindModel().(
          headName := Some(item.description.GetOr(item.name)),
          dataName := [item.name],
          columnWidth := Some(item.columnWidth.GetOr(DefaultColumnWidth)),
          showEmptyIfZero := showEmptyIfZero,
          mergeDataRowCount := Lookup(mergeRowCountDic, item.name),
          mergeDataColumnCount := Lookup(mergeDataColumnCount, item.name));
        if IsInteger(item.typ) || IsPointNumber(item.typ) {
          bind := bind.(applyCellAlignmentForColumn := Right);
        }
        if IsPointNumber(item.typ) {
          bind := bind.(dataWithPoints := Some(2));
        }
        bindList := bindList + [bind];
        i := i + 1;
      }
    }

    /** `SetupTitle`: a row per title string, then the print-date row. */
    method SetupTitle() returns (r: seq<TitleModel>)
      ensures r == Titles(titleList.GetOr([]), totalColumnCount, showPrintDate, today)
    {
      var titles := titleList.GetOr([]);
      r := [];
      var i := 0;
      while i < |titles|
        invariant 0 <= i <= |titles| && r == Titles(titles[..i], totalColumnCount, false, today)
      {
        r := r + [SpanRow(titles[i], totalColumnCount, TitleHeight)];
        i := i + 1;
      }
      assert titles[..i] == titles;
      if showPrintDate {
        r := r + [PrintDateRow(today, totalColumnCount)];
      }
    }

    /** `SetupFooter`: a row per footer string. */
    method SetupFooter() returns (r: seq<TitleModel>)
      ensures r == Footers(footerList.GetOr([]), totalColumnCount)
    {
      var footers := footerList.GetOr([]);
      r := [];
      var i := 0;
      while i < |footers|
        invariant 0 <= i <= |footers| && r == Footers(footers[..i], totalColumnCount)
      {
        r := r + [SpanRow(footers[i], totalColumnCount, -1)];
        i := i + 1;
      }
      assert footers[..i] == footers;
    }

    /** `SetSheet`: landscape off and paper size 9 (A4) unless given. */
    method SetSheet(printLandScape: Option<bool>, printPageSize: Option<int>)
      modifies sheet`printLandScape, sheet`printPageSize
      ensures sheet.printLandScape == printLandScape.GetOr(false)
      ensures sheet.printPageSize == printPageSize.GetOr(9)
    {
      sheet.printLandScape := printLandScape.GetOr(false);
      sheet.printPageSize := printPageSize.GetOr(9);
    }
  }

  // ---------------------------------------------------------------------------
  // Properties

  /** The rules for one property's binding: its header text is the
      description or else the name, its one data name is the property name,
      the width defaults to 30, numbers are right-aligned, fractional numbers
      show two decimals, and the run lengths and point merges come from the
      dictionaries when present and not null. */
  lemma BindingRules(properties: seq<Property>, showEmptyIfZero: bool,
                     rowDic: map<string, Option<seq<int>>>, colDic: map<string, Option<seq<MergeDataColumn>>>, i: nat)
    requires i < |properties|
    ensures var p, b := properties[i], Bindings(properties, showEmptyIfZero, rowDic, colDic)[i];
      && b.headName == Some(if p.description.Some? then p.description.value else p.name)
      && b.dataName == [p.name] && b.subDataBinding == []
      && b.columnWidth == Some(if p.columnWidth.Some? then p.columnWidth.value else 30)
      && b.showEmptyIfZero == showEmptyIfZero
      && (b.applyCellAlignmentForColumn == Right <==> p.typ in {IntType, DecimalType, FloatType, DoubleType})
      && (b.applyCellAlignmentForColumn != Right ==> b.applyCellAlignmentForColumn == General)
      && (b.dataWithPoints == if p.typ in {DecimalType, FloatType, DoubleType} then Some(2) else None)
      && (p.name in rowDic && rowDic[p.name].Some? ==> b.mergeDataRowCount == rowDic[p.name].value)
      && (p.name !in rowDic || rowDic[p.name].None? ==> b.mergeDataRowCount == [])
      && (p.name in colDic && colDic[p.name].Some? ==> b.mergeDataColumnCount == colDic[p.name].value)
      && (p.name !in colDic || colDic[p.name].None? ==> b.mergeDataColumnCount == [])
  {
  }

  /** Every binding is a leaf with one data name. */
  ghost predicate Flat(f: seq<BindModel>) {
    forall i | 0 <= i < |f| :: f[i].subDataBinding == [] && |f[i].dataName| == 1
  }

  lemma {:induction false} FlatLeaves(f: seq<BindModel>)
    requires forall i | 0 <= i < |f| :: f[i].subDataBinding == []
    ensures ForestLeaves(f) == f
    decreases |f|
  {
    if f != [] {
      FlatLeaves(f[..|f| - 1]);
    }
  }

  lemma {:induction false} FlatNames(f: seq<BindModel>, base: nat)
    requires Flat(f)
    ensures |NamesOf(f, base)| == |f|
    ensures forall i | 0 <= i < |f| :: NamesOf(f, base)[i] == Info(f[i], f[i].dataName[0], base + i)
    decreases |f|
  {
    if f != [] {
      var pre := f[..|f| - 1];
      FlatNames(pre, base);
      var last := f[|f| - 1];
      assert LeafInfos(last, base + |f| - 1) == [Info(last, last.dataName[0], base + |f| - 1)];
      forall i | 0 <= i < |f| ensures NamesOf(f, base)[i] == Info(f[i], f[i].dataName[0], base + i) {
        if i < |pre| {
          assert pre[i] == f[i];
        }
      }
    }
  }

  lemma {:induction false} OnesSum(f: seq<BindModel>)
    requires forall i | 0 <= i < |f| :: f[i].columsCount == 1
    ensures SumCols(f) == |f|
    decreases |f|
  {
    if f != [] {
      OnesSum(f[..|f| - 1]);
    }
  }

  lemma {:induction false} OnesMax(f: seq<BindModel>)
    requires f != [] && forall i | 0 <= i < |f| :: f[i].maxRowCount == 1
    ensures MaxRows(f) == 1
    decreases |f|
  {
    if |f| > 1 {
      OnesMax(f[..|f| - 1]);
    }
  }

  /** Laying out leaves at row 1 only sets their four derived fields. */
  lemma LayerLeaves(f: seq<BindModel>)
    requires forall i | 0 <= i < |f| :: f[i].subDataBinding == []
    ensures forall i | 0 <= i < |f| ::
      LayerForest(f, 1)[i]
        == f[i].(rowNo := 1, columsCount := |f[i].dataName|, nextRowCount := 0, maxRowCount := 1)
  {
    forall i | 0 <= i < |f|
      ensures LayerForest(f, 1)[i] == f[i].(rowNo := 1, columsCount := |f[i].dataName|, nextRowCount := 0, maxRowCount := 1)
    {
      LayerForestAt(f, 1, i);
    }
  }

  /** The table over leaf bindings with one data name each: one column per
      binding, in order, each with its binding's run lengths and point
      merges, and a header one row deep. */
  lemma FlatTable(bs: seq<BindModel>)
    requires Flat(bs)
    ensures var laid := LayerForest(bs, 1);
      && SumCols(laid) == |bs|
      && (bs != [] ==> MaxRows(laid) == 1)
      && |Columns(laid)| == |bs| && |LeafRuns(laid)| == |bs|
      && forall i | 0 <= i < |bs| ::
           Columns(laid)[i].dataName == bs[i].dataName[0] && Columns(laid)[i].leaf == i
           && Columns(laid)[i].needMergeColumnCount == bs[i].mergeDataColumnCount
           && LeafRuns(laid)[i] == bs[i].mergeDataRowCount
  {
    var laid := LayerForest(bs, 1);
    LayerLeaves(bs);
    assert Flat(laid);
    OnesSum(laid);
    if bs != [] {
      OnesMax(laid);
    }
    FlatLeaves(laid);
    FlatNames(laid, 0);
    assert Columns(laid) == NamesOf(laid, 0);
    forall i | 0 <= i < |bs|
      ensures Columns(laid)[i].dataName == bs[i].dataName[0] && Columns(laid)[i].leaf == i
      ensures Columns(laid)[i].needMergeColumnCount == bs[i].mergeDataColumnCount
      ensures LeafRuns(laid)[i] == bs[i].mergeDataRowCount
    {
      assert Columns(laid)[i] == Info(laid[i], laid[i].dataName[0], i);
    }
  }

  /** The table of a report: as many columns as the row type has properties,
      column `i` showing property `i` with that property's binding, and a
      header one row deep. */
  lemma TableShape(properties: seq<Property>, showEmptyIfZero: bool,
                   rowDic: map<string, Option<seq<int>>>, colDic: map<string, Option<seq<MergeDataColumn>>>)
    ensures var bs := Bindings(properties, showEmptyIfZero, rowDic, colDic);
      var laid := LayerForest(bs, 1);
      && SumCols(laid) == |properties|
      && (properties != [] ==> MaxRows(laid) == 1)
      && |Columns(laid)| == |properties| && |LeafRuns(laid)| == |properties|
      && forall i | 0 <= i < |properties| ::
           Columns(laid)[i].dataName == properties[i].name && Columns(laid)[i].leaf == i
           && Columns(laid)[i].needMergeColumnCount == bs[i].mergeDataColumnCount
           && LeafRuns(laid)[i] == bs[i].mergeDataRowCount
  {
    var bs := Bindings(properties, showEmptyIfZero, rowDic, colDic);
    assert Flat(bs);
    FlatTable(bs);
    assert forall i | 0 <= i < |bs| :: bs[i].dataName[0] == properties[i].name;
  }

  /** Every title and footer row is one item, anchored in the first column,
      that covers `total` columns (the table's width, by `TableShape`); it
      adds a merged region exactly when the table has more than one
      column. */
  lemma TitlesSpanTable(titles: seq<string>, footers: seq<string>, total: int, showPrintDate: bool, today: Date)
    requires total >= 1
    ensures var rows := Titles(titles, total, showPrintDate, today) + Footers(footers, total);
      forall k | 0 <= k < |rows| ::
        && |rows[k].content| == 1
        && !ItemFails(rows[k].content[0])
        && 1 + ExtraCols(rows[k].content[0]) == total
        && (ItemMerges(rows[k].content[0]) <==> total > 1)
  {
  }

  lemma {:induction false} DecimalFront(d: nat, n: nat)
    requires d < 10
    ensures AllDigits("0" + Decimal(n)) && DecimalValue("0" + Decimal(n)) == n
    decreases n
  {
    var s := "0" + Decimal(n);
    DecimalRoundTrip(n);
    if n < 10 {
      assert s[..|s| - 1] == "0";
      assert DecimalValue("0") == 0 by { assert "0"[..0] == []; }
    } else {
      DecimalFront(0, n / 10);
      assert s[..|s| - 1] == "0" + Decimal(n / 10);
    }
  }

  /** The month and day fields are two digits that read back as the month
      and the day. */
  lemma TwoDigitsRoundTrip(n: nat)
    requires n < 100
    ensures |TwoDigits(n)| == 2 && AllDigits(TwoDigits(n)) && DecimalValue(TwoDigits(n)) == n
  {
    DecimalRoundTrip(n);
    if n < 10 {
      DecimalFront(0, n);
    }
  }

  /** The print-date text: the label, the era year's digits, `年`, two digits
      of month, `月`, two digits of day, `日`; the digits read back as the
      year minus 1911, the month and the day. */
  lemma PrintDateReadsBack(d: Date)
    requires d.year > 1911 && 1 <= d.month <= 12 && 1 <= d.day <= 31
    ensures var t, y := PrintDateText(d), Decimal(d.year - 1911);
      && |t| == 12 + |y|
      && t[..5] == "列印日期："
      && t[5..5 + |y|] == y && DecimalValue(y) == d.year - 1911
      && t[5 + |y|] == '年'
      && DecimalValue(t[6 + |y|..8 + |y|]) == d.month
      && t[8 + |y|] == '月'
      && DecimalValue(t[9 + |y|..11 + |y|]) == d.day
      && t[11 + |y|] == '日'
  {
    var y := Decimal(d.year - 1911);
    DecimalRoundTrip(d.year - 1911);
    TwoDigitsRoundTrip(d.month);
    TwoDigitsRoundTrip(d.day);
    var t := PrintDateText(d);
    var m, dd := TwoDigits(d.month), TwoDigits(d.day);
    assert t == "列印日期：" + y + "年" + m + "月" + dd + "日";
    assert t[6 + |y|..8 + |y|] == m;
    assert t[9 + |y|..11 + |y|] == dd;
  }
}
