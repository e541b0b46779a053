/** The logical spreadsheet that the layout engine writes into.

    The real backend (a workbook library) is outside the model; what the engine
    asks of it is recorded here: every cell it creates, in order (a later cell at
    the same coordinate replaces an earlier one), every merged region it adds,
    the rows it creates with their heights, and the column widths it sets.
    In the workbook, creating a row that already exists replaces it and drops
    its cells; the log keeps every cell, so it reads as the workbook only where
    no row is created twice. */
module Grid {

  datatype Option<T> = None | Some(value: T) {
    function GetOr(default: T): T {
      match this
      case Some(v) => v
      case None => default
    }
  }

  /** Opaque style handles. The default styles of the export tool, and any
      caller-supplied style object (a `Custom` handle). */
  datatype Style =
    | TitleStyle        // default title-row style
    | FooterStyle       // default footer-row style
    | HeadStyle         // a clone of the default header style
    | IntStyle          // data style "#,##0"
    | PointStyle        // a clone of the data style "#,##0.00"
    | StringStyle       // data style for text
    | PrintDateStyle    // a clone of the text data style, right-aligned
    | Custom(id: nat)   // a style object supplied by the caller

  /** What a cell holds: text (a string cell), a number (a numeric cell), or
      nothing (a string cell given a null string becomes blank). */
  datatype Content = Text(s: string) | Number(x: real) | Blank

  datatype Placement = Placement(row: int, col: int, content: Content, style: Style)

  /** A merged region, rows r1..r2 and columns c1..c2, bounds included. */
  datatype Region = Region(r1: int, r2: int, c1: int, c2: int)

  /** A null string written to a cell leaves it blank. */
  function TextOf(s: Option<string>): (c: Content)
    ensures s.Some? ==> c == Text(s.value)
    ensures s.None? ==> c == Blank
  {
    match s
    case Some(t) => Text(t)
    case None => Blank
  }

  class Sheet {
    var cells: seq<Placement>
    var regions: seq<Region>
    var rowHeights: map<int, int>      // created rows; -1 means the default height
    var columnWidths: map<int, int>    // in 1/256 of a character

    constructor ()
      ensures cells == [] && regions == [] && rowHeights == map[] && columnWidths == map[]
    {
      cells, regions, rowHeights, columnWidths := [], [], map[], map[];
    }

    method CreateCell(row: int, col: int, content: Content, style: Style)
      modifies this
      ensures cells == old(cells) + [Placement(row, col, content, style)]
      ensures regions == old(regions) && rowHeights == old(rowHeights) && columnWidths == old(columnWidths)
    {
      cells := cells + [Placement(row, col, content, style)];
    }

    method AddMergedRegion(r: Region)
      modifies this
      ensures regions == old(regions) + [r]
      ensures cells == old(cells) && rowHeights == old(rowHeights) && columnWidths == old(columnWidths)
    {
      regions := regions + [r];
    }

    method CreateRow(row: int, height: int)
      modifies this
      ensures rowHeights == old(rowHeights)[row := height]
      ensures cells == old(cells) && regions == old(regions) && columnWidths == old(columnWidths)
    {
      rowHeights := rowHeights[row := height];
    }

    method SetColumnWidth(col: int, width: int)
      modifies this
      ensures columnWidths == old(columnWidths)[col := width]
      ensures cells == old(cells) && regions == old(regions) && rowHeights == old(rowHeights)
    {
      columnWidths := columnWidths[col := width];
    }
  }
}
