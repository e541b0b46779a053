/** The header layering pass (Reporter/Models/ReportSheetCreater.cs, lines
    168-196): it walks the binding tree and fills in each node's header row,
    the number of body columns it covers, and how many header rows it and its
    descendants need.

    The source sets these fields on the tree in place. Here a binding is a
    value, so the pass returns the annotated tree. */
module Layering {
  import opened Grid
  import opened ExportModels

  // ---------------------------------------------------------------------------
  // Measures of a binding tree

  function Max(a: int, b: int): int {
    if a >= b then a else b
  }

  /** The sum of the nodes' column counts. */
  function SumCols(f: seq<BindModel>): int {
    if f == [] then 0 else SumCols(f[..|f| - 1]) + f[|f| - 1].columsCount
  }

  /** The largest row count among the nodes. */
  function MaxRows(f: seq<BindModel>): int
    requires f != []
  {
    if |f| == 1 then f[0].maxRowCount else Max(MaxRows(f[..|f| - 1]), f[|f| - 1].maxRowCount)
  }

  /** The number of body columns under a node: its data names when it is a
      leaf, else those of its children. */
  function LeafColumns(b: BindModel): nat
    decreases b, 1
  {
    if b.subDataBinding == [] then |b.dataName| else ForestLeafColumns(b.subDataBinding)
  }

  function ForestLeafColumns(f: seq<BindModel>): nat
    decreases f, 0
  {
    if f == [] then 0 else ForestLeafColumns(f[..|f| - 1]) + LeafColumns(f[|f| - 1])
  }

  /** The number of header levels a node occupies: 1 for a leaf. */
  function Height(b: BindModel): nat
    decreases b, 1
  {
    if b.subDataBinding == [] then 1 else 1 + ForestHeight(b.subDataBinding)
  }

  function ForestHeight(f: seq<BindModel>): nat
    decreases f, 0
  {
    if f == [] then 0 else Max(ForestHeight(f[..|f| - 1]), Height(f[|f| - 1]))
  }

  // ---------------------------------------------------------------------------
  // The pass

  /** A node laid out at header row `depth` (the roots are at 1). */
  function LayerNode(b: BindModel, depth: int): BindModel
    decreases b, 1
  {
    if b.subDataBinding == [] then
      b.(rowNo := depth, columsCount := |b.dataName|, nextRowCount := 0, maxRowCount := depth)
    else
      var subs := LayerForest(b.subDataBinding, depth + 1);
      b.(subDataBinding := subs, rowNo := depth, columsCount := SumCols(subs),
         maxRowCount := MaxRows(subs), nextRowCount := MaxRows(subs) - depth)
  }

  function LayerForest(f: seq<BindModel>, depth: int): (r: seq<BindModel>)
    ensures |r| == |f|
    decreases f, 0
  {
    if f == [] then [] else LayerForest(f[..|f| - 1], depth) + [LayerNode(f[|f| - 1], depth)]
  }

  /** `_BuildLayerInfo`: lays out the children one by one at the next row,
      then totals the node from its laid-out children. */
  method BuildLayerInfo(data: BindModel, nowRow: int) returns (r: BindModel)
    ensures r == LayerNode(data, nowRow)
    decreases data
  {
    var subs := data.subDataBinding;
    if subs == [] {
      r := data.(rowNo := nowRow, columsCount := |data.dataName|, nextRowCount := 0, maxRowCount := nowRow);
    } else {
      var laid: seq<BindModel> := [];
      var i := 0;
      while i < |subs|
        invariant 0 <= i <= |subs|
        invariant laid == LayerForest(subs[..i], nowRow + 1)
      {
        var child := BuildLayerInfo(subs[i], nowRow + 1);
        assert subs[..i + 1][..i] == subs[..i];
        laid := laid + [child];
        i := i + 1;
      }
      assert subs[..i] == subs;
      r := data.(subDataBinding := laid, rowNo := nowRow, columsCount := SumCols(laid),
                 maxRowCount := MaxRows(laid), nextRowCount := MaxRows(laid) - nowRow);
    }
  }

  /** The layout of every root at row 1, as `BindAllData` does it. */
  method LayerRoots(roots: seq<BindModel>) returns (r: seq<BindModel>)
    ensures r == LayerForest(roots, 1)
  {
    r := [];
    var i := 0;
    while i < |roots|
      invariant 0 <= i <= |roots|
      invariant r == LayerForest(roots[..i], 1)
    {
      var laid := BuildLayerInfo(roots[i], 1);
      assert roots[..i + 1][..i] == roots[..i];
      r := r + [laid];
      i := i + 1;
    }
    assert roots[..i] == roots;
  }

  // ---------------------------------------------------------------------------
  // What the pass computes

  lemma LayerForestAt(f: seq<BindModel>, depth: int, i: int)
    requires 0 <= i < |f|
    ensures LayerForest(f, depth)[i] == LayerNode(f[i], depth)
    decreases |f|
  {
    if i < |f| - 1 {
      LayerForestAt(f[..|f| - 1], depth, i);
    }
  }

  lemma SumColsAppend(f: seq<BindModel>, g: seq<BindModel>)
    ensures SumCols(f + g) == SumCols(f) + SumCols(g)
    decreases |g|
  {
    if g == [] {
      assert f + g == f;
    } else {
      assert (f + g)[..|f + g| - 1] == f + g[..|g| - 1];
      SumColsAppend(f, g[..|g| - 1]);
    }
  }

  /** A leaf sits at its depth, covers one column per data name, and has no
      rows below it. */
  lemma LeafLayout(b: BindModel, depth: int)
    requires b.subDataBinding == []
    ensures var r := LayerNode(b, depth);
      r.rowNo == depth && r.columsCount == |b.dataName| && r.nextRowCount == 0 && r.maxRowCount == depth
  {
  }

  /** The deepest row under a node: its depth plus its height, less one. */
  lemma {:induction false} LayerMaxRow(b: BindModel, depth: int)
    ensures LayerNode(b, depth).maxRowCount == depth + Height(b) - 1
    decreases b, 1
  {
    if b.subDataBinding != [] {
      LayerForestMaxRow(b.subDataBinding, depth + 1);
    }
  }

  lemma {:induction false} LayerForestMaxRow(f: seq<BindModel>, depth: int)
    requires f != []
    ensures MaxRows(LayerForest(f, depth)) == depth + ForestHeight(f) - 1
    decreases f, 0
  {
    var last := f[|f| - 1];
    LayerMaxRow(last, depth);
    var r := LayerForest(f, depth);
    if |f| == 1 {
      assert r == [LayerNode(last, depth)];
      assert f[..0] == [];
    } else {
      LayerForestMaxRow(f[..|f| - 1], depth);
      assert r[..|r| - 1] == LayerForest(f[..|f| - 1], depth);
    }
  }

  /** An inner node covers the columns of its children, reaches the deepest
      row among them, and always has at least one row below it. */
  lemma InnerLayout(b: BindModel, depth: int)
    requires b.subDataBinding != []
    ensures var r := LayerNode(b, depth);
      && r.rowNo == depth
      && r.subDataBinding == LayerForest(b.subDataBinding, depth + 1)
      && r.columsCount == SumCols(r.subDataBinding)
      && r.maxRowCount == MaxRows(r.subDataBinding)
      && r.nextRowCount == r.maxRowCount - depth >= 1
  {
    LayerForestMaxRow(b.subDataBinding, depth + 1);
  }

  /** A node's column count after layering is the number of data names over
      the leaves below it. */
  lemma {:induction false} LayerColumns(b: BindModel, depth: int)
    ensures LayerNode(b, depth).columsCount == LeafColumns(b)
    decreases b, 1
  {
    if b.subDataBinding != [] {
      LayerForestColumns(b.subDataBinding, depth + 1);
    }
  }

  lemma {:induction false} LayerForestColumns(f: seq<BindModel>, depth: int)
    ensures SumCols(LayerForest(f, depth)) == ForestLeafColumns(f)
    decreases f, 0
  {
    if f != [] {
      var r := LayerForest(f, depth);
      LayerColumns(f[|f| - 1], depth);
      LayerForestColumns(f[..|f| - 1], depth);
      assert r[..|r| - 1] == LayerForest(f[..|f| - 1], depth);
    }
  }

  // ---------------------------------------------------------------------------
  // Only the four derived fields change

  /** A node with its derived fields cleared, all the way down. */
  function Strip(b: BindModel): BindModel
    decreases b, 1
  {
    b.(subDataBinding := StripForest(b.subDataBinding), rowNo := 0, columsCount := 0, nextRowCount := 0, maxRowCount := 0)
  }

  function StripForest(f: seq<BindModel>): (r: seq<BindModel>)
    ensures |r| == |f|
    decreases f, 0
  {
    if f == [] then [] else StripForest(f[..|f| - 1]) + [Strip(f[|f| - 1])]
  }

  /** Layering touches nothing but the row, column and row-count fields. */
  lemma {:induction false} LayerKeepsContent(b: BindModel, depth: int)
    ensures Strip(LayerNode(b, depth)) == Strip(b)
    decreases b, 1
  {
    if b.subDataBinding != [] {
      LayerForestKeepsContent(b.subDataBinding, depth + 1);
    }
  }

  lemma {:induction false} LayerForestKeepsContent(f: seq<BindModel>, depth: int)
    ensures StripForest(LayerForest(f, depth)) == StripForest(f)
    decreases f, 0
  {
    if f != [] {
      var r := LayerForest(f, depth);
      LayerKeepsContent(f[|f| - 1], depth);
      LayerForestKeepsContent(f[..|f| - 1], depth);
      assert r[..|r| - 1] == LayerForest(f[..|f| - 1], depth);
    }
  }

  /** Laying out a tree a second time changes nothing. */
  lemma {:induction false} LayerIdempotent(b: BindModel, depth: int)
    ensures LayerNode(LayerNode(b, depth), depth) == LayerNode(b, depth)
    decreases b, 1
  {
    if b.subDataBinding != [] {
      LayerForestIdempotent(b.subDataBinding, depth + 1);
    }
  }

  lemma {:induction false} LayerForestIdempotent(f: seq<BindModel>, depth: int)
    ensures LayerForest(LayerForest(f, depth), depth) == LayerForest(f, depth)
    decreases f, 0
  {
    if f != [] {
      var r := LayerForest(f, depth);
      LayerIdempotent(f[|f| - 1], depth);
      LayerForestIdempotent(f[..|f| - 1], depth);
      assert r[..|r| - 1] == LayerForest(f[..|f| - 1], depth);
    }
  }

  // ---------------------------------------------------------------------------
  // The invariant the header emitter relies on

  /** Every inner node's column count is the sum of its children's. */
  predicate ColumnsConsistent(b: BindModel)
    decreases b, 1
  {
    && b.columsCount >= 0
    && (b.subDataBinding != [] ==> b.columsCount == SumCols(b.subDataBinding))
    && ForestConsistent(b.subDataBinding)
  }

  predicate ForestConsistent(f: seq<BindModel>)
    decreases f, 0
  {
    f != [] ==> ForestConsistent(f[..|f| - 1]) && ColumnsConsistent(f[|f| - 1])
  }

  lemma {:induction false} ForestConsistentAt(f: seq<BindModel>, i: int)
    requires ForestConsistent(f) && 0 <= i < |f|
    ensures ColumnsConsistent(f[i])
    decreases |f|
  {
    if i < |f| - 1 {
      ForestConsistentAt(f[..|f| - 1], i);
    }
  }

  /** A laid-out tree is column-consistent. */
  lemma {:induction false} LayerConsistent(b: BindModel, depth: int)
    ensures ColumnsConsistent(LayerNode(b, depth))
    decreases b, 1
  {
    if b.subDataBinding != [] {
      LayerForestConsistent(b.subDataBinding, depth + 1);
      LayerForestColumns(b.subDataBinding, depth + 1);
    }
  }

  lemma {:induction false} LayerForestConsistent(f: seq<BindModel>, depth: int)
    ensures ForestConsistent(LayerForest(f, depth))
    decreases f, 0
  {
    if f != [] {
      var r := LayerForest(f, depth);
      LayerConsistent(f[|f| - 1], depth);
      LayerForestConsistent(f[..|f| - 1], depth);
      assert r[..|r| - 1] == LayerForest(f[..|f| - 1], depth);
    }
  }

  /** The totals `BindAllData` derives: the table's column count is the number
      of data names over all leaves, and its header is as deep as the deepest
      root. */
  lemma RootTotals(roots: seq<BindModel>)
    ensures SumCols(LayerForest(roots, 1)) == ForestLeafColumns(roots)
    ensures roots != [] ==> MaxRows(LayerForest(roots, 1)) == ForestHeight(roots)
    ensures ForestConsistent(LayerForest(roots, 1))
  {
    LayerForestColumns(roots, 1);
    LayerForestConsistent(roots, 1);
    if roots != [] {
      LayerForestMaxRow(roots, 1);
    }
  }
}
