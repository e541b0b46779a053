/** The records the export tool works on: the header/column binding tree, the
    title and footer rows, the point-merge directives, the flattened body column
    descriptions and the per-column merge state, and the typed row values. */
module ExportModels {
  import opened Grid

  /** Horizontal alignment of a cell; `General` is the "not set" value. */
  datatype Alignment = General | Left | Center | Right | Fill | Justify | CenterSelection | Distributed

  /** A point merge: at sheet row `rowIdx`, starting at column `columnIdx`,
      merge `mergeColumnCount` further columns into one. */
  datatype MergeDataColumn = MergeDataColumn(
    columnIdx: int,
    rowIdx: int,
    mergeColumnCount: int,
    mergeCellAlignType: Alignment,
    mergeCellPoints: int)

  /** One node of the header/column binding tree. The last four numeric
      fields before the font sizes are derived by the layering pass. */
  datatype BindModel = BindModel(
    headName: Option<string>,
    applyCellStyle: Option<Style>,            // header cell style
    applyCellStyleForColumn: Option<Style>,   // body cell style
    applyCellAlignmentForColumn: Alignment,
    subDataBinding: seq<BindModel>,
    dataName: seq<string>,
    mergeDataRowCount: seq<int>,              // run lengths, anchor row included
    mergeDataColumnCount: seq<MergeDataColumn>,
    columnWidth: Option<int>,
    showEmptyIfZero: bool,
    emptyString: string,
    isStringWithNumber: bool,
    rowNo: int,
    columsCount: int,
    nextRowCount: int,
    maxRowCount: int,
    headFontPoints: int,
    dataFontPoints: int,
    dataWithPoints: Option<int>)

  /** A binding as its constructor leaves it: no children, no data names, no
      merge directives, an empty blank text, general alignment. */
  function NewBindModel(): (b: BindModel)
    ensures b.subDataBinding == [] && b.dataName == [] && b.mergeDataRowCount == []
    ensures b.mergeDataColumnCount == [] && b.emptyString == "" && b.applyCellAlignmentForColumn == General
  {
    BindModel(None, None, None, General, [], [], [], [], None, false, "", false, 0, 0, 0, 0, 0, 0, None)
  }

  /** One content item of a title or footer row. */
  datatype TitleContent = TitleContent(
    text: Option<string>,
    mergeRowCount: Option<int>,       // rows merged below this one
    mergeColumnCount: Option<int>,    // columns merged right of this one
    applyCellStyle: Option<Style>)

  /** One title or footer row; a height of -1 keeps the default. */
  datatype TitleModel = TitleModel(content: seq<TitleContent>, rowHeightInPoint: int)

  /** The declared type of a data field. */
  datatype PropType = StringType | IntType | DecimalType | DoubleType | FloatType | OtherType(name: string)

  /** A field value tagged with its declared type. Numbers are exact. */
  datatype Field =
    | StringField(s: Option<string>)
    | IntField(i: int)
    | DecimalField(d: real)
    | DoubleField(d: real)
    | FloatField(d: real)
    | OtherField(typeName: string, isNull: bool)

  function TypeOf(f: Field): PropType {
    match f
    case StringField(_) => StringType
    case IntField(_) => IntType
    case DecimalField(_) => DecimalType
    case DoubleField(_) => DoubleType
    case FloatField(_) => FloatType
    case OtherField(n, _) => OtherType(n)
  }

  /** The `(string)` cast of a field's boxed value: `Some(s)` is the string
      (null included) it yields, `None` an invalid cast. A null of any type
      casts to the null string; a value of another type does not cast. */
  function AsString(f: Field): (r: Option<Option<string>>)
    ensures r.Some? <==> f.StringField? || (f.OtherField? && f.isNull)
    ensures f.StringField? ==> r == Some(f.s)
    ensures !f.StringField? && r.Some? ==> r == Some(None)
  {
    match f
    case StringField(s) => Some(s)
    case OtherField(_, isNull) => if isNull then Some(None) else None
    case _ => None
  }

  /** A data row: property name to its typed value. */
  type Row = map<string, Field>

  /** One body column, flattened out of a leaf binding. `leaf` is the index of
      the leaf (in pre-order) whose run-length list the column shares. */
  datatype DataNameInfo = DataNameInfo(
    dataName: string,
    leaf: nat,
    needMergeColumnCount: seq<MergeDataColumn>,
    showEmptyIfZero: bool,
    emptyString: string,
    applyCellStyleForColumn: Option<Style>,
    applyCellAlignmentForColumn: Alignment,
    dataFontPoints: int,
    dataWithPoints: Option<int>,
    isStringWithNumber: bool)

  /** The vertical-merge state of one body column. */
  datatype MergeInfo = MergeInfo(state: bool, pointer: nat, counter: int)

  /** One sheet to export, with its print settings and its content. */
  class SheetInfo {
    var name: string
    var printPageSize: int
    var printLandScape: bool
    var title: seq<TitleModel>
    var binding: seq<BindModel>
    var footer: seq<TitleModel>
    var data: seq<Row>

    constructor (name: string)
      ensures this.name == name && printPageSize == -1 && printLandScape
      ensures title == [] && binding == [] && footer == [] && data == []
    {
      this.name := name;
      printPageSize, printLandScape := -1, true;
      title, binding, footer, data := [], [], [], [];
    }
  }
}
