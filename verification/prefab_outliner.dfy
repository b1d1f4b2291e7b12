/**
  The "last visible child" query of the prefab outliner handler, which decides where the
  capsule drawn around an expanded prefab is closed.

  The outliner's item model is a tree of rows. A `QModelIndex` is a row path from the
  invisible root plus a column; the parenting information lives in the name column. The
  walk starts at a row and, while that row is expanded and has children, steps to its last
  child, so it ends at the bottom row the view displays for that subtree.
 */
module PrefabOutliner {
  import opened Wrappers

  /** `EntityOutlinerListModel::ColumnName`, the column that carries the tree structure. */
  const ColumnName: nat := 0

  /** One row of the outliner: its `ExpandedRole` flag and its child rows. */
  datatype Item = Item(expanded: bool, children: seq<Item>)

  /** A `QModelIndex`: row numbers from the invisible root, and a column. */
  datatype Index = Index(path: seq<nat>, column: nat)

  /** The row `path` leads to from `item`, if every step names an existing child. */
  function Sub(item: Item, path: seq<nat>): Option<Item>
    decreases |path|
  {
    if path == [] then Some(item)
    else if path[0] < |item.children| then Sub(item.children[path[0]], path[1..])
    else None
  }

  /**
    The row an index refers to. The invisible root (the empty path) is not a row: the
    model holds no data for it, so its `ExpandedRole` reads as false.
   */
  function RowAt(root: Item, path: seq<nat>): Option<Item> {
    if path == [] then None else Sub(root, path)
  }

  /** `siblingAtColumn(ColumnName)`: the same row in the name column. */
  function NameColumn(index: Index): (r: Index)
    ensures r.path == index.path && r.column == ColumnName
    ensures index.column == ColumnName ==> r == index
  {
    if index.column != ColumnName then Index(index.path, ColumnName) else index
  }

  /** The row shows no child rows: it is collapsed, or it has none. */
  predicate Settled(item: Item) {
    !item.expanded || |item.children| == 0
  }

  /**
    `steps` leads from `item` through last children of expanded rows only, and ends at a
    settled row.
   */
  ghost predicate LastChildChain(item: Item, steps: seq<nat>)
    decreases |steps|
  {
    if steps == [] then Settled(item)
    else
      && !Settled(item)
      && steps[0] == |item.children| - 1
      && LastChildChain(item.children[steps[0]], steps[1..])
  }

  /**
    `Internal_GetLastVisibleChild` applied to `index`, where `item` is the row `index`
    refers to (the model lookups `hasChildren`, `ExpandedRole`, `ChildCountRole` read it).
   */
  function LastVisibleFrom(item: Item, index: Index): (r: Index)
    // a collapsed or childless row is returned unchanged
    ensures Settled(item) ==> r == index
    // otherwise the result is a descendant, in the name column, reached by last-child steps
    ensures !Settled(item) ==> r.column == ColumnName
    ensures |r.path| >= |index.path| && r.path[..|index.path|] == index.path
    ensures LastChildChain(item, r.path[|index.path|..])
    decreases item
  {
    if |item.children| == 0 || !item.expanded then
      index
    else
      var last := |item.children| - 1;
      var r := LastVisibleFrom(item.children[last], Index(index.path + [last], ColumnName));
      assert r.path[|index.path|..][1..] == r.path[|index.path| + 1..];
      assert r.path[..|index.path| + 1][..|index.path|] == r.path[..|index.path|];
      r
  }

  /** `Internal_GetLastVisibleChild` over the whole model. */
  function InternalGetLastVisibleChild(root: Item, index: Index): (r: Index)
    ensures RowAt(root, index.path).None? ==> r == index
  {
    match RowAt(root, index.path)
    case None => index
    case Some(item) => LastVisibleFrom(item, index)
  }

  /** `GetLastVisibleChild`: normalises the parent to the name column, then walks. */
  function GetLastVisibleChild(root: Item, parent: Index): (r: Index)
    ensures r.column == ColumnName
    ensures |r.path| >= |parent.path| && r.path[..|parent.path|] == parent.path
  {
    InternalGetLastVisibleChild(root, NameColumn(parent))
  }

  /** `IsLastVisibleChild`: compares the child, in the name column, with the walk's result. */
  function IsLastVisibleChild(root: Item, parent: Index, child: Index): (b: bool)
    ensures b <==> child.path == GetLastVisibleChild(root, parent).path
  {
    NameColumn(child) == GetLastVisibleChild(root, parent)
  }

  // ---------------------------------------------------------------------------
  // Properties
  // ---------------------------------------------------------------------------

  /** At most one last-child chain ends at a settled row: the walk's result is determined. */
  lemma {:induction false} LastChildChainUnique(item: Item, s: seq<nat>, t: seq<nat>)
    requires LastChildChain(item, s) && LastChildChain(item, t)
    ensures s == t
    decreases |s|
  {
    if s != [] {
      assert t != [];
      LastChildChainUnique(item.children[s[0]], s[1..], t[1..]);
      assert s == [s[0]] + s[1..] && t == [t[0]] + t[1..];
    }
  }

  /** The walk returns the index extended by exactly the last-child chain `steps`. */
  lemma LastVisibleFromFollowsChain(item: Item, index: Index, steps: seq<nat>)
    requires LastChildChain(item, steps)
    ensures LastVisibleFrom(item, index).path == index.path + steps
  {
    var r := LastVisibleFrom(item, index);
    LastChildChainUnique(item, r.path[|index.path|..], steps);
    assert r.path == r.path[..|index.path|] + r.path[|index.path|..];
  }

  /**
    The rows the view displays for the subtree of `item` at `path`, top to bottom: the row
    itself, then, if it is expanded, the displayed rows of each child in order.
   */
  ghost function DisplayedRows(item: Item, path: seq<nat>): (rows: seq<seq<nat>>)
    ensures |rows| >= 1 && rows[0] == path
    decreases item, 1
  {
    [path] + (if item.expanded then ChildRows(item, path, |item.children|) else [])
  }

  /** The displayed rows of the first `k` children of `item`. */
  ghost function ChildRows(item: Item, path: seq<nat>, k: nat): seq<seq<nat>>
    requires k <= |item.children|
    decreases item, 0, k
  {
    if k == 0 then []
    else ChildRows(item, path, k - 1) + DisplayedRows(item.children[k - 1], path + [k - 1])
  }

  /** The last visible child is the bottom row the view displays for the subtree. */
  lemma {:induction false} LastVisibleIsBottomRow(item: Item, index: Index)
    ensures var rows := DisplayedRows(item, index.path);
            LastVisibleFrom(item, index).path == rows[|rows| - 1]
    decreases item
  {
    if !Settled(item) {
      var last := |item.children| - 1;
      var child := item.children[last];
      var childPath := index.path + [last];
      LastVisibleIsBottomRow(child, Index(childPath, ColumnName));
      var below := DisplayedRows(child, childPath);
      var rows := DisplayedRows(item, index.path);
      assert ChildRows(item, index.path, |item.children|) == ChildRows(item, index.path, last) + below;
      assert rows[|rows| - 1] == below[|below| - 1];
    }
  }

  /** `GetLastVisibleChild` gives the same row whichever column of the parent row is passed. */
  lemma GetLastVisibleChildIgnoresColumn(root: Item, path: seq<nat>, c1: nat, c2: nat)
    ensures GetLastVisibleChild(root, Index(path, c1)) == GetLastVisibleChild(root, Index(path, c2))
  {
  }

  /** `IsLastVisibleChild` gives the same answer for every column of the parent and child rows. */
  lemma IsLastVisibleChildIgnoresColumns(root: Item, parent: seq<nat>, child: seq<nat>, p1: nat, p2: nat, c1: nat, c2: nat)
    ensures IsLastVisibleChild(root, Index(parent, p1), Index(child, c1))
            == IsLastVisibleChild(root, Index(parent, p2), Index(child, c2))
  {
    GetLastVisibleChildIgnoresColumn(root, parent, p1, p2);
  }

  /** A collapsed or childless row is its own last visible child. */
  lemma SettledRowIsOwnLastChild(root: Item, parent: Index, child: Index)
    requires child.path == parent.path
    requires RowAt(root, parent.path).Some? && Settled(RowAt(root, parent.path).value)
    ensures IsLastVisibleChild(root, parent, child)
  {
  }

  /**
    For a row the model holds, `IsLastVisibleChild` holds exactly of the bottom row the
    view displays for the parent's subtree.
   */
  lemma IsLastVisibleChildIsBottomRow(root: Item, parent: Index, child: Index)
    requires RowAt(root, parent.path).Some?
    ensures var rows := DisplayedRows(RowAt(root, parent.path).value, parent.path);
            IsLastVisibleChild(root, parent, child) <==> child.path == rows[|rows| - 1]
  {
    LastVisibleIsBottomRow(RowAt(root, parent.path).value, NameColumn(parent));
  }
}
