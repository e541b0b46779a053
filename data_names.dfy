/** The body's column list (Reporter/Tools/NPOIExportTool.cs, lines 738-767):
    one column per data name of every leaf binding, leaves taken left to
    right, depth first.

    Every column of a leaf refers to that leaf's run-length list, and the
    renderer changes that list in place. To keep that sharing visible, a column
    records the index of its leaf (`leaf`), and the lists live in one store
    indexed the same way (`LeafRuns`). */
module DataNames {
  import opened Grid
  import opened ExportModels
  import opened Layering
  import opened Arith

  /** The leaves of a tree, depth first, left to right. */
  function Leaves(b: BindModel): seq<BindModel>
    decreases b, 1
  {
    if b.subDataBinding == [] then [b] else ForestLeaves(b.subDataBinding)
  }

  function ForestLeaves(f: seq<BindModel>): seq<BindModel>
    decreases f, 0
  {
    if f == [] then [] else ForestLeaves(f[..|f| - 1]) + Leaves(f[|f| - 1])
  }

  /** The column description for data name `name` of leaf number `leaf`. */
  function Info(b: BindModel, name: string, leaf: nat): DataNameInfo {
    DataNameInfo(name, leaf, b.mergeDataColumnCount, b.showEmptyIfZero, b.emptyString,
                 b.applyCellStyleForColumn, b.applyCellAlignmentForColumn,
                 b.dataFontPoints, b.dataWithPoints, b.isStringWithNumber)
  }

  function LeafInfos(b: BindModel, leaf: nat): (r: seq<DataNameInfo>)
    ensures |r| == |b.dataName|
  {
    seq(|b.dataName|, i requires 0 <= i < |b.dataName| => Info(b, b.dataName[i], leaf))
  }

  /** The columns of a run of leaves numbered from `base`. */
  function NamesOf(leaves: seq<BindModel>, base: nat): seq<DataNameInfo> {
    if leaves == [] then []
    else NamesOf(leaves[..|leaves| - 1], base) + LeafInfos(leaves[|leaves| - 1], base + |leaves| - 1)
  }

  /** The body's columns. */
  function Columns(f: seq<BindModel>): seq<DataNameInfo> {
    NamesOf(ForestLeaves(f), 0)
  }

  /** The run-length store: leaf number `i`'s list at index `i`. */
  function LeafRuns(f: seq<BindModel>): (r: seq<seq<int>>)
    ensures |r| == |ForestLeaves(f)|
  {
    seq(|ForestLeaves(f)|, i requires 0 <= i < |ForestLeaves(f)| => ForestLeaves(f)[i].mergeDataRowCount)
  }

  /** A prefix of a forest one tree longer has that tree's leaves after the
      others. */
  lemma ForestLeavesStep(f: seq<BindModel>, n: nat)
    requires n < |f|
    ensures ForestLeaves(f[..n + 1]) == ForestLeaves(f[..n]) + Leaves(f[n])
  {
    assert f[..n + 1][..n] == f[..n];
  }

  lemma NamesOfAppend(a: seq<BindModel>, b: seq<BindModel>, base: nat)
    ensures NamesOf(a + b, base) == NamesOf(a, base) + NamesOf(b, base + |a|)
    decreases |b|
  {
    if b == [] {
      assert a + b == a;
    } else {
      var b', last := b[..|b| - 1], b[|b| - 1];
      assert (a + b)[..|a + b| - 1] == a + b';
      var tail := LeafInfos(last, base + |a| + |b| - 1);
      assert NamesOf(a + b, base) == NamesOf(a + b', base) + tail;
      assert NamesOf(b, base + |a|) == NamesOf(b', base + |a|) + tail;
      NamesOfAppend(a, b', base);
      AppendAssoc(NamesOf(a, base), NamesOf(b', base + |a|), tail);
    }
  }

  /** `_BuildDataNameOfDataBinding`: appends the columns of every leaf under
      `dataBinding` to `dataNameList`; `leaves` counts the leaves seen so far. */
  method BuildDataNameOfDataBinding(dataBinding: seq<BindModel>, dataNameList: seq<DataNameInfo>, leaves: nat)
    returns (list: seq<DataNameInfo>, leavesAfter: nat)
    ensures list == dataNameList + NamesOf(ForestLeaves(dataBinding), leaves)
    ensures leavesAfter == leaves + |ForestLeaves(dataBinding)|
    decreases dataBinding, 0
  {
    list, leavesAfter := dataNameList, leaves;
    var n := 0;
    while n < |dataBinding|
      invariant 0 <= n <= |dataBinding|
      invariant list == dataNameList + NamesOf(ForestLeaves(dataBinding[..n]), leaves)
      invariant leavesAfter == leaves + |ForestLeaves(dataBinding[..n])|
    {
      ghost var done := ForestLeaves(dataBinding[..n]);
      ghost var before := list;
      ForestLeavesStep(dataBinding, n);
      NamesOfAppend(done, Leaves(dataBinding[n]), leaves);
      list, leavesAfter := AppendNode(dataBinding[n], list, leavesAfter);
      AppendAssoc(dataNameList, NamesOf(done, leaves), NamesOf(Leaves(dataBinding[n]), leaves + |done|));
      n := n + 1;
    }
    assert dataBinding[..n] == dataBinding;
  }

  /** One binding of the loop: its children's columns, or its own when it is a
      leaf. */
  method AppendNode(item: BindModel, dataNameList: seq<DataNameInfo>, leaves: nat)
    returns (list: seq<DataNameInfo>, leavesAfter: nat)
    ensures list == dataNameList + NamesOf(Leaves(item), leaves)
    ensures leavesAfter == leaves + |Leaves(item)|
    decreases item, 1
  {
    if item.subDataBinding != [] {
      list, leavesAfter := BuildDataNameOfDataBinding(item.subDataBinding, dataNameList, leaves);
    } else {
      list := AppendLeaf(item, dataNameList, leaves);
      assert NamesOf([item], leaves) == LeafInfos(item, leaves) by {
        assert [item][..0] == [];
      }
      leavesAfter := leaves + 1;
    }
  }

  /** The columns of one leaf, one per data name, appended in order. */
  method AppendLeaf(item: BindModel, dataNameList: seq<DataNameInfo>, leaf: nat) returns (list: seq<DataNameInfo>)
    ensures list == dataNameList + LeafInfos(item, leaf)
  {
    list := dataNameList;
    var i := 0;
    while i < |item.dataName|
      invariant 0 <= i <= |item.dataName|
      invariant list == dataNameList + LeafInfos(item, leaf)[..i]
    {
      list := list + [Info(item, item.dataName[i], leaf)];
      assert LeafInfos(item, leaf)[..i + 1] == LeafInfos(item, leaf)[..i] + [LeafInfos(item, leaf)[i]];
      i := i + 1;
    }
    assert LeafInfos(item, leaf)[..i] == LeafInfos(item, leaf);
  }

  // ---------------------------------------------------------------------------
  // Properties

  /** One column per data name over all leaves: as many as the table has
      columns after layering. */
  lemma {:induction false} DataNamesCount(f: seq<BindModel>)
    ensures |Columns(f)| == ForestLeafColumns(f)
  {
    ForestNamesCount(f, 0);
  }

  lemma {:induction false} NodeNamesCount(b: BindModel, base: nat)
    ensures |NamesOf(Leaves(b), base)| == LeafColumns(b)
    decreases b, 1
  {
    if b.subDataBinding == [] {
      assert NamesOf([b], base) == LeafInfos(b, base) by {
        assert [b][..0] == [];
      }
    } else {
      ForestNamesCount(b.subDataBinding, base);
    }
  }

  lemma {:induction false} ForestNamesCount(f: seq<BindModel>, base: nat)
    ensures |NamesOf(ForestLeaves(f), base)| == ForestLeafColumns(f)
    decreases f, 0
  {
    if f != [] {
      var pre, last := f[..|f| - 1], f[|f| - 1];
      var lp := ForestLeaves(pre);
      assert ForestLeaves(f) == lp + Leaves(last);
      assert ForestLeafColumns(f) == ForestLeafColumns(pre) + LeafColumns(last);
      ForestNamesCount(pre, base);
      NodeNamesCount(last, base + |lp|);
      NamesOfAppend(lp, Leaves(last), base);
    }
  }

  /** Every column describes one data name of the leaf it points at, with that
      leaf's settings and point merges. */
  lemma {:induction false} NamesOfFromLeaves(leaves: seq<BindModel>, base: nat)
    ensures forall k :: 0 <= k < |NamesOf(leaves, base)| ==>
      var d := NamesOf(leaves, base)[k];
      && base <= d.leaf < base + |leaves|
      && d == Info(leaves[d.leaf - base], d.dataName, d.leaf)
      && d.dataName in leaves[d.leaf - base].dataName
    decreases |leaves|
  {
    if leaves != [] {
      var pre := leaves[..|leaves| - 1];
      NamesOfFromLeaves(pre, base);
      var all := NamesOf(leaves, base);
      forall k | 0 <= k < |all|
        ensures var d := all[k];
          && base <= d.leaf < base + |leaves|
          && d == Info(leaves[d.leaf - base], d.dataName, d.leaf)
          && d.dataName in leaves[d.leaf - base].dataName
      {
        if k < |NamesOf(pre, base)| {
          assert all[k] == NamesOf(pre, base)[k];
        } else {
          var j := k - |NamesOf(pre, base)|;
          assert all[k] == LeafInfos(leaves[|leaves| - 1], base + |leaves| - 1)[j];
        }
      }
    }
  }

  /** Every column points at a leaf of the store, and the store holds that
      leaf's own run-length list. */
  lemma ColumnsShareLeafRuns(f: seq<BindModel>)
    ensures forall k :: 0 <= k < |Columns(f)| ==>
      var d := Columns(f)[k];
      && d.leaf < |LeafRuns(f)|
      && LeafRuns(f)[d.leaf] == ForestLeaves(f)[d.leaf].mergeDataRowCount
      && d.needMergeColumnCount == ForestLeaves(f)[d.leaf].mergeDataColumnCount
  {
    NamesOfFromLeaves(ForestLeaves(f), 0);
  }

  /** The data names in column order are the leaves' data names, leaf after
      leaf. */
  lemma {:induction false} NamesInLeafOrder(leaves: seq<BindModel>, base: nat)
    ensures NameList(NamesOf(leaves, base)) == AllDataNames(leaves)
    decreases |leaves|
  {
    if leaves != [] {
      var pre, last := leaves[..|leaves| - 1], leaves[|leaves| - 1];
      NamesInLeafOrder(pre, base);
      NameListAppend(NamesOf(pre, base), LeafInfos(last, base + |leaves| - 1));
      assert NameList(LeafInfos(last, base + |leaves| - 1)) == last.dataName;
    }
  }

  function NameList(ds: seq<DataNameInfo>): (r: seq<string>)
    ensures |r| == |ds|
  {
    seq(|ds|, k requires 0 <= k < |ds| => ds[k].dataName)
  }

  lemma NameListAppend(a: seq<DataNameInfo>, b: seq<DataNameInfo>)
    ensures NameList(a + b) == NameList(a) + NameList(b)
  {
  }

  /** The concatenated data names of a run of leaves. */
  function AllDataNames(leaves: seq<BindModel>): seq<string> {
    if leaves == [] then [] else AllDataNames(leaves[..|leaves| - 1]) + leaves[|leaves| - 1].dataName
  }
}
