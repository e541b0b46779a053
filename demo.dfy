/** The demonstration report (Reporter/Program.cs, lines 31-128): one hundred
    people in ten groups of ten and, with merging on, a summary row after each
    group, the group cells merged down over the group and its summary, and the
    ID and Name cells of each summary row merged across. */
module Demo {
  import opened Grid
  import opened ExportModels
  import opened Arith
  import opened Layering
  import opened DataNames
  import DataKeys
  import opened SheetCreator
  import opened GenericReport

  /** `DataModel`, the demo's row type; a property never set is null. */
  datatype DataModel = DataModel(organization: Option<string>, id: Option<string>, name: Option<string>, remark: Option<string>)

  const Remark: string := "我的備註很長我的備註很長我的備註很長我的備註很長"
  const Title: string := "簡易測試報表"

  /** The properties of `DataModel`, in declaration order, with their
      descriptions and widths. */
  const Properties: seq<Property> := [
    Property("Organization", Some("單位"), None, StringType),
    Property("ID", Some("ID"), None, StringType),
    Property("Name", Some("姓名"), None, StringType),
    Property("Remark", Some("備註"), Some(100), StringType)]

  function Decimal(n: nat): string {
    DataKeys.Decimal(n)
  }

  /** The name of group `g`. */
  function GroupName(g: nat): string {
    Decimal(g) + "組"
  }

  /** Person `i` (from 1): group `(i - 1) / 10 + 1`. */
  function Person(i: nat): DataModel
    requires i >= 1
  {
    DataModel(Some(GroupName((i - 1) / 10 + 1)), Some(Decimal(i)), Some("第" + Decimal(i) + "位"), Some(Remark))
  }

  function DemoData(): (r: seq<DataModel>)
    ensures |r| == 100
  {
    seq(100, k requires 0 <= k < 100 => Person(k + 1))
  }

  /** `_GetData`. */
  method GetData() returns (datas: seq<DataModel>)
    ensures datas == DemoData()
  {
    datas := [];
    for i := 1 to 101
      invariant |datas| == i - 1 && forall k | 0 <= k < i - 1 :: datas[k] == Person(k + 1)
    {
      datas := datas + [DataModel(Some(Decimal((i - 1) / 10 + 1) + "組"), Some(Decimal(i)), Some("第" + Decimal(i) + "位"), Some(Remark))];
    }
  }

  // ---------------------------------------------------------------------------
  // Grouping by Organization

  /** The distinct groups, in order of first appearance (`GroupBy`'s
      order). */
  function KeysOf(s: seq<DataModel>): seq<Option<string>> {
    if s == [] then []
    else
      var k := KeysOf(s[..|s| - 1]);
      if s[|s| - 1].organization in k then k else k + [s[|s| - 1].organization]
  }

  /** The members of one group, in order. */
  function GroupOf(s: seq<DataModel>, key: Option<string>): seq<DataModel> {
    if s == [] then []
    else GroupOf(s[..|s| - 1], key) + if s[|s| - 1].organization == key then [s[|s| - 1]] else []
  }

  /** The summary row of a group of `n`. */
  function Summary(key: Option<string>, n: nat): DataModel {
    DataModel(key, Some("人數"), None, Some(Decimal(n) + "人"))
  }

  /** Group `key`, followed by its summary row. */
  function Block(source: seq<DataModel>, key: Option<string>): seq<DataModel> {
    GroupOf(source, key) + [Summary(key, |GroupOf(source, key)|)]
  }

  /** Each of the groups `keys`, followed by its summary row. */
  function Blocks(source: seq<DataModel>, keys: seq<Option<string>>): seq<DataModel> {
    if keys == [] then [] else Blocks(source, keys[..|keys| - 1]) + Block(source, keys[|keys| - 1])
  }

  /** The point merge of a summary row: ID and Name merged, centred, 16
      points. */
  function PointMerge(rowIdx: int): MergeDataColumn {
    MergeDataColumn(1, rowIdx, 1, Center, 16)
  }

  /** One point merge per group, at the list's length after the group plus
      3. */
  function Merges(source: seq<DataModel>, keys: seq<Option<string>>): (r: seq<MergeDataColumn>)
    ensures |r| == |keys|
  {
    if keys == [] then [] else Merges(source, keys[..|keys| - 1]) + [PointMerge(|Blocks(source, keys)| + 3)]
  }

  /** The group sizes, groups in order of first appearance. */
  function Counts(s: seq<DataModel>): (r: seq<int>)
    ensures |r| == |KeysOf(s)|
  {
    seq(|KeysOf(s)|, j requires 0 <= j < |KeysOf(s)| => |GroupOf(s, KeysOf(s)[j])|)
  }

  /** A `DataModel` as the report reads it. */
  function AsRow(d: DataModel): Row {
    map["Organization" := StringField(d.organization), "ID" := StringField(d.id),
        "Name" := StringField(d.name), "Remark" := StringField(d.remark)]
  }

  function Rows(s: seq<DataModel>): seq<Row> {
    seq(|s|, k requires 0 <= k < |s| => AsRow(s[k]))
  }

  /** The parameter record: two titles, the print date, two footers. */
  function Parameter(data: seq<DataModel>, rowDic: map<string, Option<seq<int>>>,
                     colDic: map<string, Option<seq<MergeDataColumn>>>): ReportParameter {
    ReportParameter(Title, Rows(data), Some([Title, "第二行"]), true, Some(["這是自訂表尾", "第二行"]),
                    false, Some(rowDic), Some(colDic))
  }

  /** `_GetDataParameter`: with merging on, every group gets a summary row
      and a point merge on its ID cell, and the Organization column gets the
      group sizes of the extended list as run lengths. */
  method GetDataParameter(merge: bool) returns (parameter: ReportParameter)
    ensures !merge ==> parameter == Parameter(DemoData(), map[], map[])
    ensures merge ==> var keys := KeysOf(DemoData()); var data := Blocks(DemoData(), keys);
      parameter == Parameter(data, map["Organization" := Some(Counts(data))], map["ID" := Some(Merges(DemoData(), keys))])
  {
    var source := GetData();
    var mergeDataColumnCount: map<string, Option<seq<MergeDataColumn>>> := map[];
    var mergeRowCountDic: map<string, Option<seq<int>>> := map[];
    if merge {
      var sourceGroup := KeysOf(source);
      var dataList: seq<DataModel> := [];
      var mergeColumnList: seq<MergeDataColumn> := [];
      for j := 0 to |sourceGroup|
        invariant dataList == Blocks(source, sourceGroup[..j])
        invariant mergeColumnList == Merges(source, sourceGroup[..j])
      {
        var group := GroupOf(source, sourceGroup[j]);
        var sum := DataModel(sourceGroup[j], Some("人數"), None, Some(Decimal(|group|) + "人"));
        var result := group + [sum];
        dataList := dataList + result;
        var mergeColumn := MergeDataColumn(1, |dataList| + 3, 1, Center, 16);
        mergeColumnList := mergeColumnList + [mergeColumn];
        assert sourceGroup[..j + 1][..j] == sourceGroup[..j];
      }
      assert sourceGroup[..|sourceGroup|] == sourceGroup;
      mergeDataColumnCount := mergeDataColumnCount["ID" := Some(mergeColumnList)];
      mergeRowCountDic := mergeRowCountDic["Organization" := Some(Counts(dataList))];
      source := dataList;
    }
    parameter := ReportParameter(Title, Rows(source), Some([Title, "第二行"]), true, Some(["這是自訂表尾", "第二行"]),
                                 false, Some(mergeRowCountDic), Some(mergeDataColumnCount));
  }

  // ---------------------------------------------------------------------------
  // Grouping facts

  /** All members of `s` belong to group `key`. */
  predicate AllIn(s: seq<DataModel>, key: Option<string>) {
    forall i | 0 <= i < |s| :: s[i].organization == key
  }

  lemma {:induction false} GroupOfAppend(a: seq<DataModel>, b: seq<DataModel>, key: Option<string>)
    ensures GroupOf(a + b, key) == GroupOf(a, key) + GroupOf(b, key)
    decreases |b|
  {
    if b == [] {
      assert a + b == a;
    } else {
      var b' := b[..|b| - 1];
      assert (a + b)[..|a + b| - 1] == a + b';
      GroupOfAppend(a, b', key);
    }
  }

  lemma {:induction false} GroupOfAll(s: seq<DataModel>, key: Option<string>)
    requires AllIn(s, key)
    ensures GroupOf(s, key) == s
    decreases |s|
  {
    if s != [] {
      GroupOfAll(s[..|s| - 1], key);
    }
  }

  lemma {:induction false} GroupOfNone(s: seq<DataModel>, key: Option<string>, other: Option<string>)
    requires AllIn(s, other) && key != other
    ensures GroupOf(s, key) == []
    decreases |s|
  {
    if s != [] {
      GroupOfNone(s[..|s| - 1], key, other);
    }
  }

  lemma {:induction false} GroupOfIsIn(s: seq<DataModel>, key: Option<string>)
    ensures AllIn(GroupOf(s, key), key)
    decreases |s|
  {
    if s != [] {
      GroupOfIsIn(s[..|s| - 1], key);
    }
  }

  /** A group is listed once something of it has appeared. */
  lemma {:induction false} KeysOfMembers(s: seq<DataModel>)
    ensures forall i | 0 <= i < |s| :: s[i].organization in KeysOf(s)
    ensures forall k | k in KeysOf(s) :: exists i | 0 <= i < |s| :: s[i].organization == k
    decreases |s|
  {
    if s != [] {
      var pre := s[..|s| - 1];
      KeysOfMembers(pre);
      forall k | k in KeysOf(s) ensures exists i | 0 <= i < |s| :: s[i].organization == k {
        if k in KeysOf(pre) {
          var i :| 0 <= i < |pre| && pre[i].organization == k;
          assert s[i] == pre[i];
        } else {
          assert s[|s| - 1].organization == k;
        }
      }
      forall i | 0 <= i < |s| ensures s[i].organization in KeysOf(s) {
        if i < |pre| {
          assert s[i] == pre[i];
        }
      }
    }
  }

  /** Appending a non-empty run of one new group adds that group. */
  lemma {:induction false} KeysOfNewGroup(a: seq<DataModel>, b: seq<DataModel>, key: Option<string>)
    requires b != [] && AllIn(b, key) && key !in KeysOf(a)
    ensures KeysOf(a + b) == KeysOf(a) + [key]
    decreases |b|
  {
    var b' := b[..|b| - 1];
    assert (a + b)[..|a + b| - 1] == a + b';
    if b' == [] {
      assert a + b' == a;
    } else {
      KeysOfNewGroup(a, b', key);
    }
  }

  /** A group that is not listed has no members. */
  lemma {:induction false} GroupOfUnlisted(s: seq<DataModel>, key: Option<string>)
    requires key !in KeysOf(s)
    ensures GroupOf(s, key) == []
    decreases |s|
  {
    if s != [] {
      var pre := s[..|s| - 1];
      assert key !in KeysOf(pre);
      assert s[|s| - 1].organization in KeysOf(s);
      GroupOfUnlisted(pre, key);
    }
  }

  lemma {:induction false} KeysDistinct(s: seq<DataModel>)
    ensures Distinct(KeysOf(s))
    decreases |s|
  {
    if s != [] {
      KeysDistinct(s[..|s| - 1]);
    }
  }

  predicate Distinct(keys: seq<Option<string>>) {
    forall i, j | 0 <= i < j < |keys| :: keys[i] != keys[j]
  }

  /** The last of distinct keys is not among the others. */
  lemma LastIsNew(keys: seq<Option<string>>)
    requires keys != [] && Distinct(keys)
    ensures Distinct(keys[..|keys| - 1]) && keys[|keys| - 1] !in keys[..|keys| - 1]
  {
  }

  /** The number of rows in the groups of `keys`. */
  function GroupTotal(s: seq<DataModel>, keys: seq<Option<string>>): nat {
    if keys == [] then 0
    else GroupTotal(s, keys[..|keys| - 1]) + |GroupOf(s, keys[|keys| - 1])|
  }

  /** A row puts its group's count at one or more. */
  lemma {:induction false} GroupOfHas(s: seq<DataModel>, i: nat)
    requires i < |s|
    ensures |GroupOf(s, s[i].organization)| >= 1
    decreases |s|
  {
    if i < |s| - 1 {
      GroupOfHas(s[..|s| - 1], i);
    }
  }

  /** One more row adds one to the total of the distinct `keys` exactly when
      its group is among them. */
  lemma {:induction false} GroupTotalStep(s: seq<DataModel>, keys: seq<Option<string>>)
    requires s != [] && Distinct(keys)
    ensures GroupTotal(s, keys) == GroupTotal(s[..|s| - 1], keys) + if s[|s| - 1].organization in keys then 1 else 0
    decreases |keys|
  {
    if keys != [] {
      LastIsNew(keys);
      GroupTotalStep(s, keys[..|keys| - 1]);
      assert keys == keys[..|keys| - 1] + [keys[|keys| - 1]];
    }
  }

  /** Every group has at least one member, and the groups hold every row
      exactly once: their sizes add up to the number of rows. */
  lemma {:induction false} CountsCoverRows(s: seq<DataModel>)
    ensures forall j | 0 <= j < |Counts(s)| :: Counts(s)[j] >= 1
    ensures GroupTotal(s, KeysOf(s)) == |s|
    decreases |s|
  {
    KeysOfMembers(s);
    forall j | 0 <= j < |Counts(s)| ensures Counts(s)[j] >= 1 {
      assert KeysOf(s)[j] in KeysOf(s);
      var i :| 0 <= i < |s| && s[i].organization == KeysOf(s)[j];
      GroupOfHas(s, i);
    }
    if s != [] {
      var pre, o := s[..|s| - 1], s[|s| - 1].organization;
      CountsCoverRows(pre);
      KeysDistinct(pre);
      GroupTotalStep(s, KeysOf(pre));
      if o !in KeysOf(pre) {
        GroupOfUnlisted(pre, o);
        assert (KeysOf(pre) + [o])[..|KeysOf(pre)|] == KeysOf(pre);
      }
    }
  }

  /** A block is all of one group. */
  lemma BlockIsOneGroup(source: seq<DataModel>, key: Option<string>)
    ensures AllIn(Block(source, key), key)
  {
    GroupOfIsIn(source, key);
  }

  /** The groups of a list of blocks are the blocks' keys, in order. */
  lemma {:induction false} BlocksKeys(source: seq<DataModel>, keys: seq<Option<string>>)
    requires Distinct(keys)
    ensures KeysOf(Blocks(source, keys)) == keys
    decreases |keys|
  {
    if keys != [] {
      var pre, key := keys[..|keys| - 1], keys[|keys| - 1];
      LastIsNew(keys);
      BlocksKeys(source, pre);
      BlockIsOneGroup(source, key);
      KeysOfNewGroup(Blocks(source, pre), Block(source, key), key);
      assert keys == pre + [key];
    }
  }

  /** Each group of a list of blocks is the source group and its summary
      row. */
  lemma {:induction false} BlocksGroup(source: seq<DataModel>, keys: seq<Option<string>>, j: nat)
    requires Distinct(keys) && j < |keys|
    ensures GroupOf(Blocks(source, keys), keys[j]) == Block(source, keys[j])
    decreases |keys|, 1
  {
    if j < |keys| - 1 {
      BlocksGroupEarlier(source, keys, j);
    } else {
      BlocksGroupLast(source, keys);
    }
  }

  lemma {:induction false} BlocksGroupEarlier(source: seq<DataModel>, keys: seq<Option<string>>, j: nat)
    requires Distinct(keys) && j < |keys| - 1
    ensures GroupOf(Blocks(source, keys), keys[j]) == Block(source, keys[j])
    decreases |keys|, 0
  {
    var pre, key := keys[..|keys| - 1], keys[|keys| - 1];
    LastIsNew(keys);
    assert pre[j] == keys[j];
    BlocksGroup(source, pre, j);
    GroupOfAppend(Blocks(source, pre), Block(source, key), keys[j]);
    BlockIsOneGroup(source, key);
    GroupOfNone(Block(source, key), keys[j], key);
  }

  lemma BlocksGroupLast(source: seq<DataModel>, keys: seq<Option<string>>)
    requires Distinct(keys) && keys != []
    ensures GroupOf(Blocks(source, keys), keys[|keys| - 1]) == Block(source, keys[|keys| - 1])
  {
    var pre, key := keys[..|keys| - 1], keys[|keys| - 1];
    LastIsNew(keys);
    GroupOfAppend(Blocks(source, pre), Block(source, key), key);
    BlocksKeys(source, pre);
    GroupOfUnlisted(Blocks(source, pre), key);
    BlockIsOneGroup(source, key);
    GroupOfAll(Block(source, key), key);
  }

  /** With merging on, the run lengths of the Organization column are the
      group sizes plus one, in the source's group order. */
  lemma ExtendedCounts(source: seq<DataModel>)
    ensures var keys := KeysOf(source);
      && KeysOf(Blocks(source, keys)) == keys
      && forall j | 0 <= j < |keys| :: Counts(Blocks(source, keys))[j] == |GroupOf(source, keys[j])| + 1
  {
    var keys := KeysOf(source);
    KeysDistinct(source);
    BlocksKeys(source, keys);
    forall j | 0 <= j < |keys| ensures Counts(Blocks(source, keys))[j] == |GroupOf(source, keys[j])| + 1 {
      BlocksGroup(source, keys, j);
    }
  }
  lemma {:induction false} BlocksPrefix(source: seq<DataModel>, keys: seq<Option<string>>, n: nat)
    requires n <= |keys|
    ensures |Blocks(source, keys[..n])| <= |Blocks(source, keys)|
    ensures Blocks(source, keys)[..|Blocks(source, keys[..n])|] == Blocks(source, keys[..n])
    ensures Merges(source, keys)[..n] == Merges(source, keys[..n])
    decreases |keys|
  {
    if n == |keys| {
      assert keys[..n] == keys;
    } else {
      var pre := keys[..|keys| - 1];
      BlocksPrefix(source, pre, n);
      assert pre[..n] == keys[..n];
    }
  }

  /** Each point merge sits on its group's summary row, counting the body
      from sheet row 4 (three title rows and one header row). */
  lemma SummaryRows(source: seq<DataModel>, keys: seq<Option<string>>, j: nat)
    requires j < |keys|
    ensures var m := Merges(source, keys)[j];
      && 0 <= m.rowIdx - 4 < |Blocks(source, keys)|
      && Blocks(source, keys)[m.rowIdx - 4] == Summary(keys[j], |GroupOf(source, keys[j])|)
      && m.columnIdx == 1 && m.mergeColumnCount == 1
  {
    BlocksPrefix(source, keys, j + 1);
    var upTo := keys[..j + 1];
    assert upTo[..j] == keys[..j] && upTo[j] == keys[j];
    assert Merges(source, keys)[j] == Merges(source, upTo)[j];
    var p := Blocks(source, upTo);
    assert p[|p| - 1] == Summary(keys[j], |GroupOf(source, keys[j])|);
    assert Merges(source, upTo)[j] == PointMerge(|p| + 3);
    assert Blocks(source, keys)[|p| - 1] == p[|p| - 1];
  }

  // ---------------------------------------------------------------------------
  // The demo data


  /** The key of group number `g`, counting from 0. */
  function GroupKey(g: nat): Option<string> {
    Some(GroupName(g + 1))
  }

  function KeyList(m: nat): (r: seq<Option<string>>)
    ensures |r| == m
  {
    seq(m, g requires 0 <= g < m => GroupKey(g))
  }

  lemma GroupNamesDiffer(a: nat, b: nat)
    requires a != b
    ensures GroupName(a) != GroupName(b)
  {
    if GroupName(a) == GroupName(b) {
      var s, t := GroupName(a), GroupName(b);
      assert s[..|s| - 1] == Decimal(a) && t[..|t| - 1] == Decimal(b);
      DataKeys.DecimalRoundTrip(a);
      DataKeys.DecimalRoundTrip(b);
    }
  }

  /** People `10 * g + 1` to `10 * g + 10` are group `g`. */
  lemma DemoSlice(g: nat)
    requires g < 10
    ensures AllIn(DemoData()[10 * g..10 * g + 10], GroupKey(g))
  {
    var b := DemoData()[10 * g..10 * g + 10];
    forall k | 0 <= k < 10 ensures b[k].organization == GroupKey(g) {
      DivUnique(10 * g + k, 10, g, k);
    }
  }

  /** A list of 100 made of ten runs of ten, run `g` all group `g`. */
  predicate TenRuns(d: seq<DataModel>) {
    |d| == 100 && forall g | 0 <= g < 10 :: AllIn(d[10 * g..10 * g + 10], GroupKey(g))
  }

  lemma DemoTenRuns()
    ensures TenRuns(DemoData())
  {
    forall g | 0 <= g < 10 ensures AllIn(DemoData()[10 * g..10 * g + 10], GroupKey(g)) {
      DemoSlice(g);
    }
  }

  /** A prefix is a shorter prefix and the slice between them. */
  lemma PrefixSplit(s: seq<DataModel>, i: nat, j: nat)
    requires i <= j <= |s|
    ensures s[..j] == s[..i] + s[i..j]
  {
  }

  /** Group `m` is not among groups 0 to `m - 1`. */
  lemma KeyListNew(m: nat)
    ensures GroupKey(m) !in KeyList(m) && KeyList(m + 1) == KeyList(m) + [GroupKey(m)]
  {
    var prev := KeyList(m);
    forall h | 0 <= h < |prev| ensures prev[h] != GroupKey(m) {
      GroupNamesDiffer(h + 1, m + 1);
    }
  }

  /** The first `10 * m` people form the groups 0 to `m - 1`, in order. */
  lemma {:induction false} PrefixKeys(d: seq<DataModel>, m: nat)
    requires TenRuns(d) && m <= 10
    ensures KeysOf(d[..10 * m]) == KeyList(m)
    decreases m
  {
    if m > 0 {
      PrefixKeys(d, m - 1);
      PrefixSplit(d, 10 * (m - 1), 10 * m);
      assert AllIn(d[10 * (m - 1)..10 * (m - 1) + 10], GroupKey(m - 1));
      KeyListNew(m - 1);
      KeysOfNewGroup(d[..10 * (m - 1)], d[10 * (m - 1)..10 * m], GroupKey(m - 1));
    }
  }

  /** Group `g` first appears, complete, in the first `10 * (g + 1)`
      people. */
  lemma GroupFirst(d: seq<DataModel>, g: nat)
    requires TenRuns(d) && g < 10
    ensures GroupOf(d[..10 * (g + 1)], GroupKey(g)) == d[10 * g..10 * g + 10]
  {
    var key := GroupKey(g);
    var a, b := d[..10 * g], d[10 * g..10 * g + 10];
    PrefixSplit(d, 10 * g, 10 * g + 10);
    GroupOfAppend(a, b, key);
    PrefixKeys(d, g);
    KeyListNew(g);
    GroupOfUnlisted(a, key);
    assert AllIn(b, key);
    GroupOfAll(b, key);
  }

  /** Group `g` of the first `10 * m` people is people `10 * g + 1` to
      `10 * g + 10`. */
  lemma {:induction false} GroupUpTo(d: seq<DataModel>, g: nat, m: nat)
    requires TenRuns(d) && g < m <= 10
    ensures GroupOf(d[..10 * m], GroupKey(g)) == d[10 * g..10 * g + 10]
    decreases m
  {
    if m == g + 1 {
      GroupFirst(d, g);
    } else {
      var key := GroupKey(g);
      var a, b := d[..10 * (m - 1)], d[10 * (m - 1)..10 * m];
      PrefixSplit(d, 10 * (m - 1), 10 * m);
      GroupOfAppend(a, b, key);
      GroupUpTo(d, g, m - 1);
      GroupNamesDiffer(g + 1, m);
      assert AllIn(d[10 * (m - 1)..10 * (m - 1) + 10], GroupKey(m - 1));
      GroupOfNone(b, key, GroupKey(m - 1));
    }
  }

  /** The demo data: ten groups of ten, named "1組" to "10組", in order. */
  lemma DemoGroups()
    ensures KeysOf(DemoData()) == KeyList(10)
    ensures forall g | 0 <= g < 10 :: GroupOf(DemoData(), GroupKey(g)) == DemoData()[10 * g..10 * g + 10]
  {
    var d := DemoData();
    DemoTenRuns();
    assert d[..100] == d;
    PrefixKeys(d, 10);
    forall g | 0 <= g < 10 ensures GroupOf(d, GroupKey(g)) == d[10 * g..10 * g + 10] {
      GroupUpTo(d, g, 10);
    }
  }

  lemma {:induction false} DemoBlockSizes(keys: seq<Option<string>>, n: nat)
    requires |keys| == 10 && n <= 10
    requires forall g | 0 <= g < 10 :: |GroupOf(DemoData(), keys[g])| == 10
    ensures |Blocks(DemoData(), keys[..n])| == 11 * n
    ensures Merges(DemoData(), keys[..n]) == seq(n, j requires 0 <= j < n => PointMerge(11 * j + 14))
    decreases n
  {
    if n > 0 {
      DemoBlockSizes(keys, n - 1);
      var upTo := keys[..n];
      assert upTo[..n - 1] == keys[..n - 1] && upTo[n - 1] == keys[n - 1];
    }
  }

  /** With merging on, the Organization run lengths are ten entries of 11:
      each group of ten and its summary row. */
  lemma DemoRunLengths()
    ensures var data := Blocks(DemoData(), KeysOf(DemoData()));
      Counts(data) == seq(10, _ => 11)
  {
    DemoGroups();
    ExtendedCounts(DemoData());
  }

  /** With merging on, the extended list has 110 rows and the point merges
      sit on rows 14, 25, ..., 113, the summary rows' sheet rows. */
  lemma DemoPointMerges()
    ensures var keys := KeysOf(DemoData());
      && |Blocks(DemoData(), keys)| == 110
      && Merges(DemoData(), keys) == seq(10, j requires 0 <= j < 10 => PointMerge(11 * j + 14))
  {
    var keys := KeysOf(DemoData());
    DemoGroups();
    assert forall g | 0 <= g < 10 :: keys[g] == GroupKey(g);
    DemoBlockSizes(keys, 10);
    assert keys[..10] == keys;
  }

  /** The demo report's layout: three title rows (two titles and the print
      date) and a one-row header put the body at sheet row 4; the
      Organization column, which carries the run lengths, is column 0, and
      the ID column, which carries the point merges, is column 1. */
  lemma DemoLayout(rowDic: map<string, Option<seq<int>>>, colDic: map<string, Option<seq<MergeDataColumn>>>, today: Date)
    ensures var laid := LayerForest(Bindings(Properties, false, rowDic, colDic), 1);
      && |Titles([Title, "第二行"], SumCols(laid), true, today)| + MaxRows(laid) == 4
      && SumCols(laid) == 4
      && |Columns(laid)| == 4 && |LeafRuns(laid)| == 4
      && Columns(laid)[0].dataName == "Organization" && Columns(laid)[1].dataName == "ID"
      && LeafRuns(laid)[0] == Lookup(rowDic, "Organization")
      && Columns(laid)[1].needMergeColumnCount == Lookup(colDic, "ID")
  {
    TableShape(Properties, false, rowDic, colDic);
  }
}
