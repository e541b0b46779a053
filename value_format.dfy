/** The typed value formatter of the body renderer
    (Reporter/Tools/NPOIExportTool.cs, lines 444-588): given a column's
    description and a field value, the cell that is written, if any.

    Numbers are exact; `(int)x == x` is read as "x is a whole number within the
    32-bit range", and text-to-number parsing is supplied by the caller. */
module ValueFormat {
  import opened Grid
  import opened ExportModels

  /** The formatter either writes one cell, writes nothing (a field of a type
      it does not handle), or fails (an invalid cast or rounding argument). */
  datatype CellOutcome = NoCell | Put(content: Content, style: Style) | Fault

  /** Parsing text as a number: `Some(x)` when the text reads as `x`. */
  type Parser = string -> Option<real>

  predicate IsIntegral(x: real) {
    x == x.Floor as real
  }

  /** `x == (int)x` for a double `x`. */
  predicate IntegralInt32(x: real) {
    IsIntegral(x) && -2147483648.0 <= x <= 2147483647.0
  }

  function Pow10(p: nat): (r: nat)
    ensures r >= 1
  {
    if p == 0 then 1 else 10 * Pow10(p - 1)
  }

  /** The whole number nearest `y`, halves away from zero. */
  function RoundHalfAway(y: real): int {
    if y >= 0.0 then (y + 0.5).Floor else -((-y + 0.5).Floor)
  }

  /** Rounding to a multiple of `1 / scale`, halves away from zero. */
  function RoundScaled(x: real, scale: real): real
    requires scale > 0.0
  {
    RoundHalfAway(x * scale) as real / scale
  }

  /** 10^p as a real number. */
  function Scale(p: nat): (s: real)
    ensures s >= 1.0
  {
    Pow10(p) as real
  }

  /** Rounding to `p` decimal places, halves away from zero. */
  function RoundAway(x: real, p: nat): real {
    RoundScaled(x, Scale(p))
  }

  /** The numeric branch shared by double, decimal, float and numeric text.
      A zero shown as blank is a string cell with `zeroStyle`. */
  function NumberCell(x: real, info: DataNameInfo, zeroStyle: Style): (r: CellOutcome)
    // a number always gives a cell, unless the digit count is out of range
    ensures !r.NoCell?
    ensures r.Fault? <==> !(info.showEmptyIfZero && x == 0.0) && !(IntegralInt32(x) && info.dataWithPoints.GetOr(0) == 0)
                          && (info.dataWithPoints.GetOr(2) < 0 || info.dataWithPoints.GetOr(2) > 15)
    // a numeric cell is an integer-style whole number or a decimal-style value
    ensures r.Put? && r.content.Number? ==> (r.style == IntStyle && IsIntegral(r.content.x)) || r.style == PointStyle
  {
    if info.showEmptyIfZero && x == 0.0 then
      Put(Text(info.emptyString), zeroStyle)
    else if IntegralInt32(x) && info.dataWithPoints.GetOr(0) == 0 then
      Put(Number(x), IntStyle)
    else
      var points := info.dataWithPoints.GetOr(2);
      if points < 0 || points > 15 then Fault   // Math.Round rejects these digit counts
      else
        var v := RoundAway(x, points);
        Put(Number(v), if points == 0 && IsIntegral(v) then IntStyle else PointStyle)
  }

  /** The cell written for `field` in a column described by `info`. */
  function FormatValue(info: DataNameInfo, field: Field, parse: Parser): (r: CellOutcome)
    // no cell exactly for an unhandled type in a column without a style
    ensures r.NoCell? <==> info.applyCellStyleForColumn.None? && field.OtherField?
    // failures: a cast of a non-string to a string, or a bad digit count
    ensures r.Fault? ==>
      || (info.applyCellStyleForColumn.Some? && AsString(field).None?)
      || (TakesNumberPath(info, field, parse) && (info.dataWithPoints.GetOr(2) < 0 || info.dataWithPoints.GetOr(2) > 15))
  {
    if info.applyCellStyleForColumn.Some? then
      // the column's own style: the raw value, cast to a string
      match AsString(field)
      case Some(s) => Put(TextOf(s), info.applyCellStyleForColumn.value)
      case None => Fault
    else
      match field
      case StringField(s) =>
        var parsed := if s.Some? then parse(s.value) else None;
        if parsed.Some? && info.isStringWithNumber then NumberCell(parsed.value, info, StringStyle)
        else Put(TextOf(s), StringStyle)
      case DoubleField(x) => NumberCell(x, info, IntStyle)
      case DecimalField(x) => NumberCell(x, info, IntStyle)
      case FloatField(x) => NumberCell(x, info, IntStyle)
      case IntField(i) =>
        if info.showEmptyIfZero && i == 0 then Put(Text(info.emptyString), IntStyle)
        else Put(Number(i as real), IntStyle)
      case OtherField(_, _) => NoCell
  }

  /** The numeric value of a number field, or of text that parses. */
  function NumericValue(field: Field, parse: Parser): Option<real> {
    match field
    case DoubleField(x) => Some(x)
    case DecimalField(x) => Some(x)
    case FloatField(x) => Some(x)
    case IntField(i) => Some(i as real)
    case StringField(s) => if s.Some? then parse(s.value) else None
    case OtherField(_, _) => None
  }

  /** Whether the formatter treats `field` as a number in this column. */
  predicate TakesNumberPath(info: DataNameInfo, field: Field, parse: Parser) {
    && info.applyCellStyleForColumn.None?
    && NumericValue(field, parse).Some?
    && (field.StringField? ==> info.isStringWithNumber)
  }

  // ---------------------------------------------------------------------------
  // Rounding

  lemma FloorBounds(y: real)
    ensures y - 1.0 < y.Floor as real <= y
  {
  }

  /** The nearest whole number is at most half a unit away. */
  lemma RoundHalfAwayIsNearest(y: real)
    ensures -0.5 <= RoundHalfAway(y) as real - y <= 0.5
  {
    FloorBounds(y + 0.5);
    FloorBounds(-y + 0.5);
  }

  lemma RoundScaledBack(x: real, scale: real)
    requires scale > 0.0
    ensures RoundScaled(x, scale) * scale == RoundHalfAway(x * scale) as real
  {
  }

  /** Rounding to `p` places takes `x`, scaled by 10^p, to a nearest whole
      number: the result scaled back is that whole number. */
  lemma RoundAwayIsNearest(x: real, p: nat)
    ensures RoundAway(x, p) * Scale(p) == RoundHalfAway(x * Scale(p)) as real
    ensures -0.5 <= RoundHalfAway(x * Scale(p)) as real - x * Scale(p) <= 0.5
  {
    RoundScaledBack(x, Scale(p));
    RoundHalfAwayIsNearest(x * Scale(p));
  }

  /** A value exactly half-way between two whole numbers goes away from zero,
      on both sides. */
  lemma RoundHalfAwayTies(k: nat)
    ensures RoundHalfAway(k as real + 0.5) == k + 1
    ensures RoundHalfAway(-(k as real + 0.5)) == -(k + 1)
  {
    assert (k as real + 0.5 + 0.5).Floor == k + 1;
  }

  lemma RoundScaledOdd(x: real, scale: real)
    requires scale > 0.0
    ensures RoundScaled(-x, scale) == -RoundScaled(x, scale)
  {
    assert (-x) * scale == -(x * scale);
    assert RoundHalfAway(-(x * scale)) == -RoundHalfAway(x * scale);
  }

  /** Rounding is symmetric: it never depends on the sign. */
  lemma RoundAwayOdd(x: real, p: nat)
    ensures RoundAway(-x, p) == -RoundAway(x, p)
  {
    RoundScaledOdd(x, Scale(p));
  }

  /** Examples of half-away-from-zero (not banker's) rounding. */
  lemma RoundAwayExamples()
    ensures RoundAway(0.375, 2) == 0.38
    ensures RoundAway(2.5, 0) == 3.0 && RoundAway(-2.5, 0) == -3.0
    ensures RoundAway(0.125, 2) == 0.13
  {
    assert Scale(2) == 100.0 by { assert Pow10(2) == 100 by { assert Pow10(1) == 10; } }
    assert Scale(0) == 1.0 by { assert Pow10(0) == 1; }
    assert RoundHalfAway(37.5) == 38 by { assert (37.5 + 0.5).Floor == 38; }
    assert RoundHalfAway(2.5) == 3 by { assert (2.5 + 0.5).Floor == 3; }
    assert RoundHalfAway(-2.5) == -3 by { assert (2.5 + 0.5).Floor == 3; }
    assert RoundHalfAway(12.5) == 13 by { assert (12.5 + 0.5).Floor == 13; }
  }

  // ---------------------------------------------------------------------------
  // The formatter, case by case

  /** Zero shown as blank: a zero with the zero-blank flag becomes a STRING
      cell holding the blank text (integer style for number fields, string
      style for numeric text). */
  lemma ZeroAsBlank(info: DataNameInfo, field: Field, parse: Parser)
    requires TakesNumberPath(info, field, parse) && info.showEmptyIfZero
    requires NumericValue(field, parse) == Some(0.0)
    ensures FormatValue(info, field, parse) == Put(Text(info.emptyString), if field.StringField? then StringStyle else IntStyle)
  {
  }

  /** A whole number in a column without decimal places is an integer cell;
      an int field is one whenever it is not blanked. */
  lemma IntegralIsIntegerCell(info: DataNameInfo, field: Field, parse: Parser)
    requires TakesNumberPath(info, field, parse)
    requires !(info.showEmptyIfZero && NumericValue(field, parse) == Some(0.0))
    requires field.IntField? || (IntegralInt32(NumericValue(field, parse).value) && info.dataWithPoints.GetOr(0) == 0)
    ensures FormatValue(info, field, parse) == Put(Number(NumericValue(field, parse).value), IntStyle)
  {
  }

  /** Any other number is rounded half away from zero to the column's decimal
      places (2 when unset), with the integer style only for 0 places. */
  lemma OtherNumbersRounded(info: DataNameInfo, field: Field, parse: Parser)
    requires TakesNumberPath(info, field, parse) && !field.IntField?
    requires var x := NumericValue(field, parse).value;
      !(info.showEmptyIfZero && x == 0.0) && !(IntegralInt32(x) && info.dataWithPoints.GetOr(0) == 0)
    ensures var points := info.dataWithPoints.GetOr(2);
      FormatValue(info, field, parse) ==
        if 0 <= points <= 15
        then Put(Number(RoundAway(NumericValue(field, parse).value, points)), if points == 0 then IntStyle else PointStyle)
        else Fault
  {
    var points := info.dataWithPoints.GetOr(2);
    if points == 0 {
      var x := NumericValue(field, parse).value;
      assert Scale(0) == 1.0 by { assert Pow10(0) == 1; }
      RoundScaledBack(x, 1.0);
    }
  }

  /** Text that is not numeric for this column (it does not parse, or the
      column does not look for numbers) is written as it is, zero or not. */
  lemma PlainText(info: DataNameInfo, s: Option<string>, parse: Parser)
    requires info.applyCellStyleForColumn.None?
    requires !TakesNumberPath(info, StringField(s), parse)
    ensures FormatValue(info, StringField(s), parse) == Put(TextOf(s), StringStyle)
  {
  }

  /** A column style of its own writes the raw value cast to text: a string
      as it is, a null of any type as a blank cell; any other value cannot be
      cast. Without one, a field of an unhandled type writes nothing. */
  lemma OverrideAndUnhandled(info: DataNameInfo, field: Field, parse: Parser)
    ensures info.applyCellStyleForColumn.Some? ==>
      FormatValue(info, field, parse) ==
        if field.StringField? then Put(TextOf(field.s), info.applyCellStyleForColumn.value)
        else if field.OtherField? && field.isNull then Put(Blank, info.applyCellStyleForColumn.value)
        else Fault
    ensures info.applyCellStyleForColumn.None? && field.OtherField? ==> FormatValue(info, field, parse) == NoCell
  {
  }

  /** The zero-blank flag changes nothing for a non-zero value. */
  lemma NonZeroIgnoresBlankFlag(info: DataNameInfo, field: Field, parse: Parser)
    requires NumericValue(field, parse) != Some(0.0)
    ensures FormatValue(info.(showEmptyIfZero := true), field, parse) ==
            FormatValue(info.(showEmptyIfZero := false), field, parse)
  {
  }

  /** Every cell the formatter writes carries a number or text; numbers only
      on the number path, and then never with the string style. */
  lemma NumberCellsOnlyOnNumberPath(info: DataNameInfo, field: Field, parse: Parser)
    requires FormatValue(info, field, parse).Put? && FormatValue(info, field, parse).content.Number?
    ensures TakesNumberPath(info, field, parse)
    ensures FormatValue(info, field, parse).style in {IntStyle, PointStyle}
  {
  }
}
