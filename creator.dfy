/** The helpers of the sheet creator base class
    (Reporter/Models/ReportSheetCreater.cs): the scan that tells which columns
    hold any value, and the builders of space and signer strings. */
module SheetCreator {
  import opened Grid
  import opened ExportModels

  /** A property of the report's row type, as reflection describes it: its
      name, the text of its description attribute, the width of its column
      width attribute, and its declared type. */
  datatype Property = Property(name: string, description: Option<string>, columnWidth: Option<int>, typ: PropType)

  /** No two properties share a name. */
  predicate DistinctNames(properties: seq<Property>) {
    forall i, j | 0 <= i < j < |properties| :: properties[i].name != properties[j].name
  }

  /** Every row holds a value of the declared type for every property. */
  predicate RowsOf(data: seq<Row>, properties: seq<Property>) {
    forall k, j | 0 <= k < |data| && 0 <= j < |properties| ::
      properties[j].name in data[k] && TypeOf(data[k][properties[j].name]) == properties[j].typ
  }

  function Names(properties: seq<Property>): set<string> {
    set j | 0 <= j < |properties| :: properties[j].name
  }

  // ---------------------------------------------------------------------------
  // The emptiness detectors

  /** `char.IsWhiteSpace`: the Unicode space, line and paragraph separators,
      the control characters U+0009 to U+000D, and U+0085. */
  predicate IsWhiteSpace(c: char) {
    c == ' ' || '\t' <= c <= '\r' || c == '\U{85}' || c == '\U{A0}' || c == '\U{1680}'
    || '\U{2000}' <= c <= '\U{200A}' || c == '\U{2028}' || c == '\U{2029}'
    || c == '\U{202F}' || c == '\U{205F}' || c == '\U{3000}'
  }

  /** `_StringHandler`: null, empty or only white space. */
  predicate StringHandler(s: Option<string>) {
    s.None? || forall i | 0 <= i < |s.value| :: IsWhiteSpace(s.value[i])
  }

  /** `_DecimalHandler`: zero. */
  predicate DecimalHandler(d: real) {
    d == 0.0
  }

  /** `_IntHandler`: zero. */
  predicate IntHandler(i: int) {
    i == 0
  }

  /** Types that have a detector: `String`, `Int32` and `Decimal`. */
  predicate HasDetector(t: PropType) {
    t == StringType || t == IntType || t == DecimalType
  }

  /** The detector of the value's type calls it empty. */
  predicate IsEmptyValue(f: Field) {
    match f
    case StringField(s) => StringHandler(s)
    case IntField(i) => IntHandler(i)
    case DecimalField(d) => DecimalHandler(d)
    case _ => false
  }

  /** What the detectors call empty: null, empty or blank text, and zero;
      a value of a type without a detector never is. */
  lemma DetectorCases(f: Field)
    ensures StringHandler(None) && StringHandler(Some("")) && StringHandler(Some(" \t\r\n\U{3000}"))
    ensures !StringHandler(Some(" a ")) && !StringHandler(Some("0"))
    ensures IntHandler(0) && !IntHandler(-1) && DecimalHandler(0.0) && !DecimalHandler(0.01)
    ensures IsEmptyValue(f) ==> HasDetector(TypeOf(f))
    ensures f.IntField? ==> (IsEmptyValue(f) <==> f.i == 0)
    ensures f.DecimalField? ==> (IsEmptyValue(f) <==> f.d == 0.0)
  {
    assert !IsWhiteSpace(" a "[1]);
    assert !IsWhiteSpace("0"[0]);
  }

  // ---------------------------------------------------------------------------
  // `_EmptyColumnDic`

  /** What the scan has concluded about a property after the rows `rows`: some
      row has been read and the property is ignored, has no detector, or has a
      non-empty value in one of them. */
  predicate Seen(p: Property, rows: seq<Row>, ignore: seq<string>)
    requires forall k | 0 <= k < |rows| :: p.name in rows[k]
  {
    rows != [] && (p.name in ignore || !HasDetector(p.typ) || exists k | 0 <= k < |rows| :: !IsEmptyValue(rows[k][p.name]))
  }

  /** `_EmptyColumnDic`: for every property, whether its column is to be
      kept. With no data every column is; otherwise a column is kept when it
      is ignored, when its type has no detector, or when some row holds a
      value its detector does not call empty. A null ignore list counts as an
      empty one. */
  method EmptyColumnDic(data: seq<Row>, properties: seq<Property>, ignoreColumnNames: Option<seq<string>>)
    returns (dic: map<string, bool>)
    requires DistinctNames(properties) && RowsOf(data, properties)
    ensures dic.Keys == Names(properties)
    ensures forall j | 0 <= j < |properties| :: var p := properties[j];
      dic[p.name] <==> data == [] || p.name in ignoreColumnNames.GetOr([]) || !HasDetector(p.typ)
                       || exists k | 0 <= k < |data| :: !IsEmptyValue(data[k][p.name])
  {
    if |data| == 0 {
      return map n | n in Names(properties) :: true;
    }
    dic := map n | n in Names(properties) :: false;
    var ignore := ignoreColumnNames.GetOr([]);
    var i := 0;
    while i < |data|
      invariant 0 <= i <= |data| && dic.Keys == Names(properties)
      invariant forall j | 0 <= j < |properties| :: dic[properties[j].name] == Seen(properties[j], data[..i], ignore)
    {
      dic := ScanRowInto(data, properties, ignore, i, dic);
      i := i + 1;
    }
    assert data[..i] == data;
  }

  /** One row of the scan: every property in turn. */
  method ScanRowInto(data: seq<Row>, properties: seq<Property>, ignore: seq<string>, i: nat, dic0: map<string, bool>)
    returns (dic: map<string, bool>)
    requires DistinctNames(properties) && RowsOf(data, properties) && i < |data|
    requires dic0.Keys == Names(properties)
    requires forall j | 0 <= j < |properties| :: dic0[properties[j].name] == Seen(properties[j], data[..i], ignore)
    ensures dic.Keys == Names(properties)
    ensures forall j | 0 <= j < |properties| :: dic[properties[j].name] == Seen(properties[j], data[..i + 1], ignore)
  {
    dic := dic0;
    var item := data[i];
    ghost var before := seq(|properties|, l requires 0 <= l < |properties| => Seen(properties[l], data[..i], ignore));
    ghost var after := seq(|properties|, l requires 0 <= l < |properties| => Seen(properties[l], data[..i + 1], ignore));
    var j := 0;
    while j < |properties|
      invariant 0 <= j <= |properties| && dic.Keys == Names(properties)
      invariant forall l | 0 <= l < j :: dic[properties[l].name] == after[l]
      invariant forall l | j <= l < |properties| :: dic[properties[l].name] == before[l]
    {
      var property := properties[j];
      SeenStep(property, data, ignore, i);
      assert after[j] == (before[j] || property.name in ignore || !HasDetector(property.typ) || !IsEmptyValue(item[property.name]));
      var existThisProperty := property.name in dic;
      var v := true;
      if property.name in ignore && existThisProperty {
        v := true;
      } else if !existThisProperty || dic[property.name] {
        v := dic[property.name];
      } else if HasDetector(property.typ) {
        v := !IsEmptyValue(item[property.name]);
      }
      SetOne(dic, properties, j, v, before, after);
      dic := dic[property.name := v];
      j := j + 1;
    }
  }

  /** Setting property `j`'s entry to its new value keeps the entries of the
      other properties. */
  lemma SetOne(dic: map<string, bool>, properties: seq<Property>, j: nat, v: bool, before: seq<bool>, after: seq<bool>)
    requires DistinctNames(properties) && j < |properties| == |before| == |after|
    requires dic.Keys == Names(properties) && v == after[j]
    requires forall l | 0 <= l < j :: dic[properties[l].name] == after[l]
    requires forall l | j <= l < |properties| :: dic[properties[l].name] == before[l]
    ensures dic[properties[j].name := v].Keys == Names(properties)
    ensures forall l | 0 <= l < j + 1 :: dic[properties[j].name := v][properties[l].name] == after[l]
    ensures forall l | j + 1 <= l < |properties| :: dic[properties[j].name := v][properties[l].name] == before[l]
  {
  }

  /** Reading one more row: a property is seen after it exactly when it was
      seen before, or this row alone settles it. */
  lemma SeenStep(p: Property, data: seq<Row>, ignore: seq<string>, i: nat)
    requires i < |data| && forall k | 0 <= k < |data| :: p.name in data[k]
    ensures Seen(p, data[..i + 1], ignore) ==
      (Seen(p, data[..i], ignore) || p.name in ignore || !HasDetector(p.typ) || !IsEmptyValue(data[i][p.name]))
  {
    var pre, cur := data[..i], data[..i + 1];
    assert cur[i] == data[i];
    if exists k | 0 <= k < |cur| :: !IsEmptyValue(cur[k][p.name]) {
      var k :| 0 <= k < |cur| && !IsEmptyValue(cur[k][p.name]);
      if k < i {
        assert pre[k] == cur[k];
      }
    }
    if exists k | 0 <= k < |pre| :: !IsEmptyValue(pre[k][p.name]) {
      var k :| 0 <= k < |pre| && !IsEmptyValue(pre[k][p.name]);
      assert cur[k] == pre[k];
    }
  }

  // ---------------------------------------------------------------------------
  // String builders

  function Max0(n: int): nat {
    if n > 0 then n else 0
  }

  /** `n` copies of `c` (none when `n` is not positive). */
  function Repeat(c: char, n: int): (r: string)
    ensures |r| == Max0(n) && forall i | 0 <= i < |r| :: r[i] == c
    decreases Max0(n)
  {
    if n <= 0 then [] else Repeat(c, n - 1) + [c]
  }

  /** `CreateSpaces`: exactly `count` spaces, none when `count` is not
      positive. */
  method CreateSpaces(count: int) returns (result: string)
    ensures |result| == Max0(count)
    ensures forall i | 0 <= i < |result| :: result[i] == ' '
  {
    var aSpace := " ";
    result := "";
    var n := count;
    while n > 0
      invariant |result| + Max0(n) == Max0(count)
      invariant forall i | 0 <= i < |result| :: result[i] == ' '
    {
      result := result + aSpace;
      n := n - 1;
    }
  }

  /** `string.Join`: the items with `sep` between neighbours. */
  function Join(sep: string, items: seq<string>): string {
    if items == [] then ""
    else if |items| == 1 then items[0]
    else Join(sep, items[..|items| - 1]) + sep + items[|items| - 1]
  }

  /** Where item `i` starts in `Join(sep, items)`. */
  function Offset(sep: string, items: seq<string>, i: nat): nat
    requires i <= |items|
  {
    if i == 0 then 0 else Offset(sep, items, i - 1) + |items[i - 1]| + |sep|
  }

  /** The signers of the general layout. */
  const GeneralSigners: seq<string> := ["主辦：", "主任：", "秘書：", "單位首長："]

  /** The signers of the outreach layout. */
  const ForeignerSigners: seq<string> := ["主辦：", "主任：", "負責人："]

  /** `CreateSingerFooter`: the signers joined by `fullSpaceCounts`
      ideographic spaces (U+3000). */
  method CreateSingerFooter(signers: seq<string>, fullSpaceCounts: int) returns (r: string)
    ensures r == Join(Repeat('\U{3000}', fullSpaceCounts), signers)
  {
    var aFullSpace := "\U{3000}";
    var spacesString := "";
    var n := fullSpaceCounts;
    while n > 0
      invariant Max0(n) <= Max0(fullSpaceCounts)
      invariant spacesString == Repeat('\U{3000}', Max0(fullSpaceCounts) - Max0(n))
    {
      spacesString := spacesString + aFullSpace;
      n := n - 1;
    }
    return Join(spacesString, signers);
  }

  /** The joined text is as long as the items and the separators between
      them. */
  lemma {:induction false} JoinLength(sep: string, items: seq<string>)
    requires items != []
    ensures |Join(sep, items)| == Offset(sep, items, |items|) - |sep|
    decreases |items|
  {
    if |items| > 1 {
      var pre := items[..|items| - 1];
      JoinLength(sep, pre);
      OffsetOfPrefix(sep, items, |items| - 1, |items| - 1);
    }
  }

  /** Splitting the signers anywhere: the footer text is the text of the
      first part, one separator, and the text of the rest. */
  lemma {:induction false} JoinSplit(sep: string, items: seq<string>, i: nat)
    requires 0 < i < |items|
    ensures Join(sep, items) == Join(sep, items[..i]) + sep + Join(sep, items[i..])
    decreases |items|
  {
    var pre, last := items[..|items| - 1], items[|items| - 1];
    if i == |items| - 1 {
      assert items[..i] == pre && items[i..] == [last];
    } else {
      JoinSplit(sep, pre, i);
      var rest := items[i..];
      assert |rest| >= 2 && rest[..|rest| - 1] == pre[i..] && rest[|rest| - 1] == last;
      assert pre[..i] == items[..i];
    }
  }

  /** Offsets only depend on the items before them. */
  lemma OffsetOfPrefix(sep: string, items: seq<string>, n: nat, i: nat)
    requires i <= n <= |items|
    ensures Offset(sep, items[..n], i) == Offset(sep, items, i)
  {
    assert items[..n][..i] == items[..i];
    OffsetUpTo(sep, items[..n], items, i);
  }

  lemma {:induction false} OffsetUpTo(sep: string, a: seq<string>, b: seq<string>, i: nat)
    requires i <= |a| && i <= |b| && a[..i] == b[..i]
    ensures Offset(sep, a, i) == Offset(sep, b, i)
    decreases i
  {
    if i > 0 {
      assert a[..i - 1] == a[..i][..i - 1] && b[..i - 1] == b[..i][..i - 1];
      assert a[i - 1] == a[..i][i - 1];
      OffsetUpTo(sep, a, b, i - 1);
    }
  }
}
