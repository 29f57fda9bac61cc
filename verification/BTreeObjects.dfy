/** From objects to heaps: the records of a set of nodes, and what an operation on a few objects keeps. `ns`
    is always the set of nodes of the tree before the operation. */
module BTreeObjects {
  import opened BTreeNode
  import opened BTreeShape

  /** All the fields of a node that tree operations change. */
  datatype Fields = Fields(position: int, count: nat, parent: Node, values: seq<Entry>, children: seq<Node?>)

  ghost function FieldsOf(n: Node): Fields
    reads n`position, n`count, n`parent, n`values, n`children
  {
    Fields(n.position, n.count, n.parent, n.values, n.children)
  }

  ghost function Raw(ns: set<Node>): map<Node?, Fields>
    reads ns`position, ns`count, ns`parent, ns`values, ns`children
  {
    map n: Node | n in ns :: FieldsOf(n)
  }

  /** The live part of a node. */
  ghost function RecOf(n: Node): Rec
    reads n`position, n`count, n`parent, n`values, n`children
  {
    Rec(n.leaf, n.maxCount, n.position, n.parent, n.Vals(), n.Row())
  }

  ghost function Snap(ns: set<Node>): Heap
    reads ns`position, ns`count, ns`parent, ns`values, ns`children
  {
    map n: Node | n in ns :: RecOf(n)
  }

  /** The objects an operation on two siblings touches are different nodes of the tree. */
  ghost predicate Apart(ns: set<Node>, left: Node, right: Node, p: Node, ks: set<Node>) {
    && left in ns && right in ns && p in ns && left != right && left != p && right != p
    && ks <= ns && left !in ks && right !in ks && p !in ks
  }

  // After an operation on a few objects, the heap is compared with a record F of it from before.

  /** Every node but these has the values and children it had. */
  ghost predicate RowsKept(ns: set<Node>, F: map<Node?, Fields>, but: set<Node>)
    reads ns`position, ns`count, ns`parent, ns`values, ns`children
  {
    forall n {:trigger F[n]} :: n in ns && n !in but ==>
      n in F && n.values == F[n].values && n.children == F[n].children && n.count == F[n].count
  }

  /** Every node but these has the parent, and every node but those the position, it had. */
  ghost predicate LinksKept(ns: set<Node>, F: map<Node?, Fields>, moved: set<Node>, shifted: set<Node>)
    reads ns`position, ns`count, ns`parent, ns`values, ns`children
  {
    forall n {:trigger F[n]} :: n in ns ==>
      n in F && (n !in moved ==> n.parent == F[n].parent) && (n !in shifted ==> n.position == F[n].position)
  }

  // ---- From the record F to the heap H of live parts ----

  ghost function LiveRec(leaf: bool, maxCount: nat, f: Fields): Rec {
    Rec(leaf, maxCount, f.position, f.parent,
        if f.count <= |f.values| then f.values[..f.count] else f.values,
        if leaf then [] else if f.count < |f.children| then f.children[..f.count + 1] else f.children)
  }

  /** H holds the live part of every node recorded in F. */
  ghost predicate Shows(ns: set<Node>, F: map<Node?, Fields>, H: Heap) {
    && H.Keys == ns && F.Keys == ns
    && forall n {:trigger H[n]} :: n in ns ==> H[n] == LiveRec(n.leaf, n.maxCount, F[n])
  }

  lemma SnapShows(ns: set<Node>)
    ensures Shows(ns, Raw(ns), Snap(ns))
  {}

  ghost predicate Recorded(ns: set<Node>, F: map<Node?, Fields>)
    reads ns`position, ns`count, ns`parent, ns`values, ns`children
  {
    F.Keys == ns && RowsKept(ns, F, {}) && LinksKept(ns, F, {}, {})
  }

  lemma RawRecorded(ns: set<Node>)
    ensures Recorded(ns, Raw(ns))
  {}

  ghost predicate ShapesRecorded(ns: set<Node>, F: map<Node?, Fields>) {
    F.Keys == ns && forall n {:trigger F[n]} :: n in ns ==>
      && |F[n].values| == n.maxCount && |F[n].children| == (if n.leaf then 0 else n.maxCount + 1)
      && F[n].count <= n.maxCount
  }

  lemma RawShapes(ns: set<Node>)
    requires forall n {:trigger n.Shape()} :: n in ns ==> n.Shape()
    ensures ShapesRecorded(ns, Raw(ns))
  {
    forall n {:trigger Raw(ns)[n]} | n in ns
      ensures |n.values| == n.maxCount && |n.children| == (if n.leaf then 0 else n.maxCount + 1)
      ensures n.count <= n.maxCount
    {
      assert n.Shape();
    }
  }

  lemma ShapesKept(ns: set<Node>, F: map<Node?, Fields>, rows: set<Node>)
    requires ShapesRecorded(ns, F) && RowsKept(ns, F, rows)
    ensures forall n {:trigger n.Shape()} :: n in ns && n !in rows ==> n.Shape()
  {
    forall n {:trigger n.Shape()} | n in ns && n !in rows ensures n.Shape() { assert F[n] == F[n]; }
  }

  /** What is kept of a node is kept in its record. */
  lemma RecKept(n: Node, ns: set<Node>, F: map<Node?, Fields>, H: Heap, rows: set<Node>, moved: set<Node>,
                shifted: set<Node>)
    requires Shows(ns, F, H) && RowsKept(ns, F, rows) && LinksKept(ns, F, moved, shifted) && n in ns
    ensures n in H && n.leaf == H[n].leaf && n.maxCount == H[n].maxCount
    ensures n !in rows ==> n.Vals() == H[n].vals && n.Row() == H[n].kids
    ensures n !in moved ==> n.parent == H[n].parent
    ensures n !in shifted ==> n.position == H[n].position
  {
    assert H[n] == LiveRec(n.leaf, n.maxCount, F[n]);
  }

  /** A node all of whose parts are kept. */
  lemma AllKept(n: Node, ns: set<Node>, F: map<Node?, Fields>, H: Heap, rows: set<Node>, moved: set<Node>,
                shifted: set<Node>)
    requires Shows(ns, F, H) && RowsKept(ns, F, rows) && LinksKept(ns, F, moved, shifted) && n in ns
    requires n !in rows && n !in moved && n !in shifted
    ensures n in H && RecOf(n) == H[n]
  {
    RecKept(n, ns, F, H, rows, moved, shifted);
  }

  /** A linked node's row, entry by entry. */
  lemma LinkedRow(n: Node)
    requires n.Shape() && n.Linked()
    ensures forall i {:trigger n.Row()[i]} :: 0 <= i < |n.Row()| ==>
      n.Row()[i] != null && n.Row()[i].parent == n && n.Row()[i].position == i
  {}

  lemma NoRow(n: Node)
    ensures n.leaf ==> n.Row() == []
  {}

  lemma UpdatedVals(n: Node, was: seq<Entry>, i: nat, x: Entry)
    requires i < n.count <= |was| && n.values == was[i := x]
    ensures n.Vals() == was[..n.count][i := x]
  {}

  /** What sits at j is in the row from `from` on if j is. */
  lemma LaterIn<T>(s: seq<T>, j: nat, from: nat)
    requires j < |s| && from <= |s|
    ensures j >= from ==> s[j] in s[from..]
  {
    if j >= from { assert s[from..][j - from] == s[j]; }
  }

  lemma SameKeys(ns: set<Node>, H: Heap)
    requires H.Keys == ns
    ensures Snap(ns).Keys == H.Keys
  {}
}
