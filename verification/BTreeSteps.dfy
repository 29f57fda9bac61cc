/** The structural steps on the objects of a tree: each is a node operation, and keeps the tree and the
    in-order sequence. ns is the set of nodes and G their spans. */
module BTreeSteps {
  import opened BTreeNode
  import opened BTreeShape
  import opened BTreeResplit
  import opened BTreeObjects
  import M = BTreeMerge
  import S = BTreeSplit
  import E = BTreeEdit
  import R = BTreeRoot
  import C = BTreeRecut
  import J = BTreeFuse
  import D = BTreeHalve
  import T = BTreeRegrow

  /** The nodes form a B-tree laying out s; only pend may be empty. */
  ghost predicate Struct(ns: set<Node>, G: Spans, root: Node?, s: seq<Entry>, cap: nat, pend: Node?)
    reads ns`position, ns`count, ns`parent, ns`values, ns`children
  {
    && cap >= 3
    && (forall n {:trigger n.Shape()} :: n in ns ==> n.Shape())
    && Tree(Snap(ns), G, root, s, cap, pend)
  }

  /** A node's record, field by field. */
  lemma Record(n: Node?, ns: set<Node>)
    requires forall m {:trigger m.Shape()} :: m in ns ==> m.Shape()
    requires n != null && n in ns
    ensures var r := Snap(ns)[n];
      && n.Shape() && r.leaf == n.leaf && r.maxCount == n.maxCount && r.position == n.position && r.parent == n.parent
      && r.vals == n.Vals() && r.kids == n.Row()
      && r.vals == n.values[..n.count] && r.kids == (if n.leaf then [] else n.children[..n.count + 1])
  {
    assert n.Shape();
  }

  /** Children know their parent and are one level down. */
  lemma Children(n: Node, ns: set<Node>, G: Spans, root: Node?, s: seq<Entry>, cap: nat, pend: Node?)
    requires Struct(ns, G, root, s, cap, pend) && n in ns
    ensures n.Shape() && n.Linked() && n in G && null !in n.Row()
    ensures forall c {:trigger c in n.Kids()} ::
        c in n.Kids() ==> c in ns && c.parent == n && c in G && G[c].h + 1 == G[n].h
    ensures forall c {:trigger c in n.Row()} :: c in n.Row() ==> c in n.Kids()
    ensures forall c {:trigger c in n.Kids()} :: c in n.Kids() ==> c in n.Row()
    ensures !n.leaf ==> forall k {:trigger n.children[k]} :: 0 <= k <= n.count ==>
      n.children[k] != null && n.children[k] in ns && n.children[k] in G && G[n.children[k]].h + 1 == G[n].h
  {
    hide AllTiled, AllUp, AllApart, AllFilled, Sized;
    Record(n, ns);
    var H := Snap(ns);
    assert KidsOk(H, G, n);
    if !n.leaf {
      forall k {:trigger n.children[k]} | 0 <= k <= n.count
        ensures n.children[k] != null && n.children[k] in ns && n.children[k].parent == n && n.children[k].position == k
        ensures n.children[k] in G && G[n.children[k]].h + 1 == G[n].h
      {
        var c := H[n].kids[k];
        assert c == n.children[k] && KidOk(H, G, n, k, c);
        Record(c, ns);
      }
      KidsRow(n);
    }
  }

  lemma KidsRow(n: Node)
    requires n.Shape() && !n.leaf && forall k {:trigger n.children[k]} :: 0 <= k <= n.count ==> n.children[k] != null
    ensures forall c {:trigger c in n.Row()} :: c in n.Row() ==> c in n.Kids()
    ensures forall c {:trigger c in n.Kids()} :: c in n.Kids() ==> c in n.Row()
    ensures null !in n.Row()
  {
    forall c {:trigger c in n.Row()} | c in n.Row() ensures c in n.Kids() {
      var k :| 0 <= k < |n.Row()| && n.Row()[k] == c;
      assert n.children[k] == c;
    }
    forall c {:trigger c in n.Kids()} | c in n.Kids() ensures c in n.Row() {
      var k :| 0 <= k <= n.count && n.children[k] == c;
      assert n.Row()[k] == c;
    }
  }

  /** A node that is not the root sits in an internal parent. */
  lemma Parent(n: Node, ns: set<Node>, G: Spans, root: Node?, s: seq<Entry>, cap: nat, pend: Node?)
    requires Struct(ns, G, root, s, cap, pend) && n in ns && n != root
    ensures n.parent in ns && n.parent.Shape() && !n.parent.leaf && n.parent != n
    ensures 0 <= n.position <= n.parent.count && n.parent.children[n.position] == n
    ensures n in G && n.parent in G && G[n].h + 1 == G[n.parent].h
  {
    hide AllTiled, AllApart, AllFilled, Sized;
    var H := Snap(ns);
    assert UpOk(H, n);
    Record(n, ns);
    Record(n.parent, ns);
    Children(n.parent, ns, G, root, s, cap, pend);
  }

  /** Sizes and heights. */
  lemma Sizes(n: Node, ns: set<Node>, G: Spans, root: Node?, s: seq<Entry>, cap: nat, pend: Node?)
    requires Struct(ns, G, root, s, cap, pend) && n in ns
    ensures n.Shape() && n in G && root in ns && root in G
    ensures (n != root || !n.leaf ==> n.maxCount == cap) && n.maxCount <= cap
    ensures n.leaf <==> G[n].h == 0
    ensures n != root ==> G[n].h < G[root].h
    ensures n != pend ==> n.count >= 1
  {
    hide AllTiled, AllApart, AllKids, AllUp;
    Record(n, ns);
    var H := Snap(ns);
    assert SizeOk(H, G, root, cap, n) && Filled(H, pend, n);
  }

  /** The stretch a leaf holds. */
  lemma LeafSpan(n: Node, ns: set<Node>, G: Spans, root: Node?, s: seq<Entry>, cap: nat, pend: Node?)
    requires Struct(ns, G, root, s, cap, pend) && n in ns && n.leaf
    ensures n.Shape() && n in G && 0 <= G[n].lo && G[n].hi == G[n].lo + n.count <= |s|
    ensures n.Vals() == s[G[n].lo..G[n].hi]
  {
    hide AllKids, AllApart, AllUp, Sized, AllFilled;
    Record(n, ns);
    assert TiledNode(Snap(ns), G, s, n);
  }

  /** The children and delimiters of an internal node, as stretches. */
  lemma InnerSpan(n: Node, ns: set<Node>, G: Spans, root: Node?, s: seq<Entry>, cap: nat, pend: Node?)
    requires Struct(ns, G, root, s, cap, pend) && n in ns && !n.leaf
    ensures n.Shape() && n in G && InnerRow(G, s, G[n].lo, G[n].hi, n.values[..n.count], n.children[..n.count + 1])
  {
    hide AllKids, AllApart, AllUp, Sized, AllFilled, InnerRow;
    Record(n, ns);
    assert TiledNode(Snap(ns), G, s, n);
  }

  /** Two nodes next to each other under one parent. */
  ghost predicate Siblings(ns: set<Node>, root: Node?, left: Node, right: Node)
    reads left, right
  {
    left in ns && right in ns && left != root && right != root
    && left.parent == right.parent && left.position + 1 == right.position
  }

  lemma Neighbourhood(left: Node, right: Node, ns: set<Node>, G: Spans, root: Node?, s: seq<Entry>, cap: nat,
                      pend: Node?)
    requires Struct(ns, G, root, s, cap, pend) && Siblings(ns, root, left, right)
    ensures left.Neighbours(right) && left.maxCount == cap && left.parent in ns && left.parent in Snap(ns)
    ensures Pair(Snap(ns), left, right, left.parent, left.position)
    ensures var ks, p := left.Kids() + right.Kids(), left.parent;
      && Apart(ns, left, right, p, ks) && ks !! p.Kids() && p.Kids() <= ns && p.Linked() && p !in p.Kids()
      && root !in ks && root !in p.Kids()
  {
    assert forall m {:trigger m.Shape()} :: m in ns ==> m.Shape();
    hide Struct;
    Parent(left, ns, G, root, s, cap, pend);
    Parent(right, ns, G, root, s, cap, pend);
    Children(left, ns, G, root, s, cap, pend);
    Children(right, ns, G, root, s, cap, pend);
    Children(left.parent, ns, G, root, s, cap, pend);
    Record(left, ns);
    Record(right, ns);
    Record(left.parent, ns);
    RootOnTop(ns, G, root, s, cap, pend);
    Sizes(left, ns, G, root, s, cap, pend);
    Sizes(right, ns, G, root, s, cap, pend);
  }

  /** Nothing is above the root. */
  lemma RootOnTop(ns: set<Node>, G: Spans, root: Node?, s: seq<Entry>, cap: nat, pend: Node?)
    requires Struct(ns, G, root, s, cap, pend)
    ensures root in ns && root in G && cap >= 3 && forall n {:trigger n in ns} ::
        n in ns ==> n in G && (n != root ==> G[n].h < G[root].h)
  {
    hide AllTiled, AllApart, AllKids, AllUp, AllFilled;
    forall n {:trigger n in ns} | n in ns ensures n in G && (n != root ==> G[n].h < G[root].h) {
      assert SizeOk(Snap(ns), G, root, cap, n);
    }
  }

  // ---- Rebalancing ----

  /** What is known of the records before a rebalance of left and right. */
  ghost predicate CutFrom(left: Node, right: Node, p: Node, at: int, ns: set<Node>, V: seq<Entry>, K: seq<Node?>,
                          ks: set<Node>,
                          F: map<Node?, Fields>, H: Heap) {
    && Shows(ns, F, H) && ShapesRecorded(ns, F) && Apart(ns, left, right, p, ks) && left.leaf == right.leaf
    && Pair(H, left, right, p, at) && V == PairVals(H, left, right, p, at) && K == PairKids(H, left, right)
    && (if left.leaf then K == [] else |K| == |V| + 1)
    && (forall c {:trigger c in K} :: c in K ==> c in ks) && (forall c {:trigger c in ks} :: c in ks ==> c in K)
  }

  lemma CutReady(left: Node, right: Node, ns: set<Node>, G: Spans, root: Node?, s: seq<Entry>, cap: nat, pend: Node?)
    returns (p: Node, at: int, V: seq<Entry>, K: seq<Node?>, ks: set<Node>)
    requires Struct(ns, G, root, s, cap, pend) && Siblings(ns, root, left, right)
    ensures p == left.parent && at == left.position && ks == left.Kids() + right.Kids()
    ensures root !in ks && left.maxCount == cap
    ensures C.Around(ns, left, right, p, at, p.Vals(), V, K, ks) && Apart(ns, left, right, p, ks)
    ensures CutFrom(left, right, p, at, ns, V, K, ks, Raw(ns), Snap(ns))
    ensures |V| == left.count + 1 + right.count && K == left.Row() + right.Row()
  {
    assert forall m {:trigger m.Shape()} :: m in ns ==> m.Shape();
    hide Struct, Node.Neighbours;
    p, at, ks := left.parent, left.position, left.Kids() + right.Kids();
    Neighbourhood(left, right, ns, G, root, s, cap, pend);
    V, K := left.JointVals(right), left.JointRow(right);
    Record(left, ns);
    Record(right, ns);
    Record(p, ns);
    SnapShows(ns);
    RawShapes(ns);
    Children(left, ns, G, root, s, cap, pend);
    Children(right, ns, G, root, s, cap, pend);
  }

  /** The heap after a rebalance is a tree again. */
  lemma CutDone(left: Node, right: Node, p: Node, at: int, ns: set<Node>, V: seq<Entry>, K: seq<Node?>, ks: set<Node>,
                F: map<Node?, Fields>, H: Heap, G: Spans, root: Node?, s: seq<Entry>, cap: nat, pend: Node?)
    returns (G': Spans)
    requires CutFrom(left, right, p, at, ns, V, K, ks, F, H)
    requires cap >= 3 && Tree(H, G, root, s, cap, pend) && (pend == null || pend == left || pend == right)
    requires RowsKept(ns, F, {left, right, p}) && LinksKept(ns, F, ks, ks)
    requires C.CutRows(left, right, p, at, H[p].vals, V, K) && p.count == F[p].count && p.children == F[p].children
    requires 1 <= left.count <= cap && 1 <= |V| - 1 - left.count <= cap
    ensures left in G && right in G && Struct(ns, G', root, s, cap, null)
    ensures G' == ResplitSpans(G, left, right, G'[left].hi)
  {
    hide Tree, C.CutRows, RowCut, LinksKept, LiveRec;
    ShapesKept(ns, F, {left, right, p});
    assert left.Shape() && right.Shape() && p.Shape() by { CutShapes(left, right, p, at, H[p].vals, V, K); }
    hide ShapesRecorded, RowsKept;
    assert C.WasCut(left, right, p, at, ns, V, K, ks, F, H);
    C.CutHeap(left, right, p, at, ns, V, K, ks, F, H);
    TreeKeys(H, G, root, s, cap, pend);
    G' := ResplitSpans(G, left, right, At(G, G[left].lo, H[left].leaf, K, left.count));
    ResplitKeepsTree(H, Snap(ns), G, G', root, s, cap, pend, left, right, p, at, left.count);
  }

  lemma CutShapes(left: Node, right: Node, p: Node, at: int, pv: seq<Entry>, V: seq<Entry>, K: seq<Node?>)
    requires C.CutRows(left, right, p, at, pv, V, K)
    ensures left.Shape() && right.Shape() && p.Shape()
    ensures left.count < |V| && right.count == |V| - 1 - left.count
    ensures !left.leaf && left.leaf == right.leaf && |K| == |V| + 1 ==> left.Row() + right.Row() == K
  {
    assert |left.Vals()| == left.count && |right.Vals()| == right.count;
  }

  lemma ParentKept(n: Node, ns: set<Node>, F: map<Node?, Fields>, moved: set<Node>, shifted: set<Node>)
    requires LinksKept(ns, F, moved, shifted) && n in ns && n !in moved && F.Keys == ns
    ensures n.parent == F[n].parent
  {}

  lemma TreeKeys(H: Heap, G: Spans, root: Node?, s: seq<Entry>, cap: nat, pend: Node?)
    requires Tree(H, G, root, s, cap, pend)
    ensures H.Keys == G.Keys && root in H
  {}

  /** Either rebalance on the tree. */
  method Rebalance(left: Node, right: Node, toMove: nat, toLeft: bool, ghost ns: set<Node>, ghost G: Spans,
                   ghost root: Node?,
                   ghost s: seq<Entry>, ghost cap: nat, ghost pend: Node?, ghost F: map<Node?, Fields>)
    returns (ghost G': Spans)
    requires Struct(ns, G, root, s, cap, pend) && (pend == null || pend == left || pend == right)
    requires Siblings(ns, root, left, right) && C.Movable(left, right, toMove, toLeft) && F == Raw(ns)
    modifies ns`position, ns`count, ns`parent, ns`values, ns`children
    ensures Struct(ns, G', root, s, cap, null)
    ensures left.count == if toLeft then old(left.count) + toMove else old(left.count) - toMove
    ensures right.count == if toLeft then old(right.count) - toMove else old(right.count) + toMove
    ensures left in G && right in G && G' == ResplitSpans(G, left, right, G'[left].hi)
    ensures !left.leaf ==> left.Row() + right.Row() == old(left.Row() + right.Row())
    ensures RowsKept(ns, F, {left, right, old(left.parent)})
    ensures root != null && root in ns && root.parent == old(root.parent)
  {
    ghost var H := Snap(ns);
    ghost var p, at, V, K, ks := CutReady(left, right, ns, G, root, s, cap, pend);
    assert cap >= 3 && Tree(H, G, root, s, cap, pend) && p.Vals() == H[p].vals;
    RawRecorded(ns);
    Neighbourhood(left, right, ns, G, root, s, cap, pend);
    RootOnTop(ns, G, root, s, cap, pend);
    assert F[root].parent == root.parent;
    hide Struct, Tree, C.Around, CutFrom, C.CutRows, RowsKept, LinksKept, Siblings, Node.Neighbours, Raw, Snap, Pair;
    C.RecutAll(left, right, toMove, toLeft, ns, p, at, p.Vals(), V, K, ks, F);
    CutShapes(left, right, p, at, H[p].vals, V, K);
    G' := CutDone(left, right, p, at, ns, V, K, ks, F, H, G, root, s, cap, pend);
    ParentKept(root, ns, F, ks, ks);
  }

  // ---- Merging ----

  /** What is known of the records before a merge of left and right. */
  ghost predicate FuseFrom(left: Node, right: Node, p: Node, at: int, ns: set<Node>, V: seq<Entry>, K: seq<Node?>,
                           ks: set<Node>, pks: set<Node>, F: map<Node?, Fields>, H: Heap) {
    && Shows(ns, F, H) && ShapesRecorded(ns, F) && Apart(ns, left, right, p, ks) && ks !! pks && p !in pks
    && Pair(H, left, right, p, at) && V == PairVals(H, left, right, p, at) && K == PairKids(H, left, right)
    && (forall c {:trigger c in K} :: c in K ==> c in ks) && (forall c {:trigger c in ks} :: c in ks ==> c in K)
    && (forall c {:trigger c in H[p].kids} :: c in H[p].kids ==> c in pks)
    && (forall c {:trigger c in pks} :: c in pks ==> c in H[p].kids)
    && (forall i {:trigger H[p].kids[i]} :: 0 <= i < |H[p].kids| ==> H[p].kids[i] in H && H[H[p].kids[i]].position == i)
  }

  lemma FuseReady(left: Node, right: Node, ns: set<Node>, G: Spans, root: Node?, s: seq<Entry>, cap: nat, pend: Node?)
    returns (p: Node, at: int, V: seq<Entry>, K: seq<Node?>, ks: set<Node>, pks: set<Node>)
    requires Struct(ns, G, root, s, cap, pend) && Siblings(ns, root, left, right) && left.count + 1 + right.count <= cap
    ensures p == left.parent && at == left.position && root !in ks && pks <= ns && left in pks && left !in ks
    ensures J.Around(ns, left, right, p, at, p.Vals(), p.Row(), V, K, ks, pks) && Apart(ns, left, right, p, ks)
    ensures FuseFrom(left, right, p, at, ns, V, K, ks, pks, Raw(ns), Snap(ns))
    ensures |V| == left.count + 1 + right.count && |p.Vals()| == p.count
  {
    assert forall m {:trigger m.Shape()} :: m in ns ==> m.Shape();
    hide Struct;
    p, at, ks, pks := left.parent, left.position, left.Kids() + right.Kids(), left.parent.Kids();
    Neighbourhood(left, right, ns, G, root, s, cap, pend);
    Parent(left, ns, G, root, s, cap, pend);
    Parent(right, ns, G, root, s, cap, pend);
    V, K := left.JointVals(right), left.JointRow(right);
    Record(left, ns);
    Record(right, ns);
    Record(p, ns);
    SnapShows(ns);
    RawShapes(ns);
    Children(left, ns, G, root, s, cap, pend);
    Children(right, ns, G, root, s, cap, pend);
    Children(p, ns, G, root, s, cap, pend);
    KidPositions(p, ns, G, root, s, cap, pend);
  }

  /** Children sit at their positions, seen from the heap. */
  lemma KidPositions(n: Node, ns: set<Node>, G: Spans, root: Node?, s: seq<Entry>, cap: nat, pend: Node?)
    requires Struct(ns, G, root, s, cap, pend) && n in ns
    ensures var H := Snap(ns); forall i {:trigger H[n].kids[i]} :: 0 <= i < |H[n].kids| ==>
      H[n].kids[i] in H && H[H[n].kids[i]].position == i && H[H[n].kids[i]].parent == n
  {
    hide AllTiled, AllUp, AllApart, AllFilled, Sized, RecOf;
    var H := Snap(ns);
    assert KidsOk(H, G, n);
    forall i {:trigger H[n].kids[i]} | 0 <= i < |H[n].kids|
      ensures H[n].kids[i] in H && H[H[n].kids[i]].position == i && H[H[n].kids[i]].parent == n
    {
      assert KidOk(H, G, n, i, H[n].kids[i]);
    }
  }

  /** The heap after a merge is a tree again, though the parent may have lost its last value. */
  lemma FuseDone(left: Node, right: Node, p: Node, at: int, ns: set<Node>, V: seq<Entry>, K: seq<Node?>, ks: set<Node>,
                 pks: set<Node>, F: map<Node?, Fields>, H: Heap, G: Spans, root: Node?, s: seq<Entry>, cap: nat,
                     pend: Node?)
    returns (G': Spans)
    requires FuseFrom(left, right, p, at, ns, V, K, ks, pks, F, H)
    requires cap >= 3 && Tree(H, G, root, s, cap, pend) && (pend == null || pend == left || pend == right)
    requires RowsKept(ns, F, {left, right, p}) && LinksKept(ns, F, ks, ks + pks)
    requires J.FusedRows(left, p, at, H[p].vals, H[p].kids, V, K) && |V| <= cap
    ensures left in G && right in G && Struct(ns - {right}, G', root, s, cap, p) && G' == M.MergedSpans(G, left, right)
  {
    hide Tree, J.FusedRows, M.Merged, LinksKept, LiveRec;
    ShapesKept(ns, F, {left, right, p});
    FusedShapes(left, p, at, H[p].vals, H[p].kids, V, K);
    hide ShapesRecorded, RowsKept;
    assert J.WasFused(left, right, p, at, ns, ks, pks, F, H);
    J.FuseHeap(left, right, p, at, ns, ks, pks, F, H);
    TreeKeys(H, G, root, s, cap, pend);
    G' := M.MergedSpans(G, left, right);
    M.MergeKeepsTree(H, Snap(ns - {right}), G, G', root, s, cap, pend, left, right, p, at);
  }

  lemma FusedShapes(left: Node, p: Node, at: int, pv: seq<Entry>, pk: seq<Node?>, V: seq<Entry>, K: seq<Node?>)
    requires J.FusedRows(left, p, at, pv, pk, V, K)
    ensures left.Shape() && p.Shape() && left.count == |V| && p.count == |pv| - 1 && left.Row() == K
  {
    assert |left.Vals()| == left.count && |p.Vals()| == p.count;
  }

  /** merge on the tree. */
  method Fuse(left: Node, right: Node, ghost ns: set<Node>, ghost G: Spans, ghost root: Node?,
              ghost s: seq<Entry>, ghost cap: nat, ghost pend: Node?, ghost F: map<Node?, Fields>)
    returns (ghost G': Spans)
    requires Struct(ns, G, root, s, cap, pend) && (pend == null || pend == left || pend == right)
    requires Siblings(ns, root, left, right) && left.count + 1 + right.count <= cap && F == Raw(ns)
    modifies ns`position, ns`count, ns`parent, ns`values, ns`children
    ensures Struct(ns - {right}, G', root, s, cap, left.parent)
    ensures left.count == old(left.count) + 1 + old(right.count)
    ensures left.parent == old(left.parent) && left.parent.count == old(left.parent.count) - 1
    ensures left in G && right in G && G' == M.MergedSpans(G, left, right)
    ensures RowsKept(ns, F, {left, right, left.parent})
    ensures root != null && root in ns && root.parent == old(root.parent)
  {
    ghost var H := Snap(ns);
    ghost var p, at, V, K, ks, pks := FuseReady(left, right, ns, G, root, s, cap, pend);
    assert cap >= 3 && Tree(H, G, root, s, cap, pend) && p.Vals() == H[p].vals && p.Row() == H[p].kids;
    RawRecorded(ns);
    RootOnTop(ns, G, root, s, cap, pend);
    assert F[root].parent == root.parent && F[left].parent == p && p in ns && left in ns && right in ns;
    hide Struct, Tree, J.Around, FuseFrom, J.FusedRows, RowsKept, LinksKept, Siblings, Raw, Snap, Pair;
    J.FuseAll(left, right, ns, p, at, p.Vals(), p.Row(), V, K, ks, pks, F);
    FusedShapes(left, p, at, H[p].vals, H[p].kids, V, K);
    G' := FuseDone(left, right, p, at, ns, V, K, ks, pks, F, H, G, root, s, cap, pend);
    ParentKept(root, ns, F, ks, ks + pks);
    ParentKept(left, ns, F, ks, ks + pks);
  }

  // ---- Splitting ----

  /** What is known of the records before a split of node into itself and dest. */
  ghost predicate HalveFrom(node: Node, dest: Node, p: Node, at: int, ns: set<Node>, ks: set<Node>, pks: set<Node>,
                            F: map<Node?, Fields>, H: Heap) {
    && Shows(ns, F, H) && ShapesRecorded(ns, F) && D.Distinct(ns, node, dest, p, ks, pks)
    && node in H && p in H && H[node].leaf == node.leaf && H[node].parent == p && H[node].position == at && !H[p].leaf
    && 0 <= at < |H[p].kids| && |H[p].kids| == |H[p].vals| + 1 && H[p].kids[at] == node
    && (if node.leaf then H[node].kids == [] else |H[node].kids| == |H[node].vals| + 1)
    && (forall c {:trigger c in H[node].kids} :: c in H[node].kids ==> c in ks)
    && (forall c {:trigger c in ks} :: c in ks ==> c in H[node].kids)
    && (forall c {:trigger c in H[p].kids} :: c in H[p].kids ==> c in pks)
    && (forall c {:trigger c in pks} :: c in pks ==> c in H[p].kids)
    && (forall i {:trigger H[p].kids[i]} :: 0 <= i < |H[p].kids| ==> H[p].kids[i] in H && H[H[p].kids[i]].position == i)
    && (forall i {:trigger H[node].kids[i]} :: 0 <= i < |H[node].kids| ==>
          H[node].kids[i] in H && H[H[node].kids[i]].position == i && H[H[node].kids[i]].parent == node)
  }

  lemma HalveAround(node: Node, dest: Node, ns: set<Node>, G: Spans, root: Node?, s: seq<Entry>, cap: nat, pend: Node?)
    requires Struct(ns, G, root, s, cap, pend) && node in ns && node != root && dest !in ns && node.count >= 2
    requires dest.Shape() && dest.leaf == node.leaf && dest.maxCount == cap && dest.count == 0
    requires node.parent.count < cap
    ensures var p, ks, pks := node.parent, node.Kids(), node.parent.Kids();
      && p in ns && p.Shape() && !p.leaf && root !in ks && p !in ks && node != p && p.Linked() && node.Linked()
      && D.Distinct(ns, node, dest, p, ks, pks)
      && D.Around(ns, node, dest, p, node.position, p.Vals(), p.Row(), node.Vals(), node.Row(), ks, pks)
  {
    hide Struct, Node.Linked, Node.Kids, Node.Row, Node.Vals;
    Parent(node, ns, G, root, s, cap, pend);
    Children(node, ns, G, root, s, cap, pend);
    Children(node.parent, ns, G, root, s, cap, pend);
    Sizes(node, ns, G, root, s, cap, pend);
    Sizes(node.parent, ns, G, root, s, cap, pend);
    RootOnTop(ns, G, root, s, cap, pend);
  }

  lemma HalveReady(node: Node, dest: Node, ns: set<Node>, G: Spans, root: Node?, s: seq<Entry>, cap: nat, pend: Node?)
    returns (p: Node, at: int, ks: set<Node>, pks: set<Node>)
    requires Struct(ns, G, root, s, cap, pend) && node in ns && node != root && dest !in ns && node.count >= 2
    requires dest.Shape() && dest.leaf == node.leaf && dest.maxCount == cap && dest.count == 0
    requires node.parent.count < cap
    ensures p == node.parent && p in ns && at == node.position && root !in ks && p !in ks && node != p
    ensures D.Around(ns, node, dest, p, at, p.Vals(), p.Row(), node.Vals(), node.Row(), ks, pks)
    ensures D.Distinct(ns, node, dest, p, ks, pks)
    ensures HalveFrom(node, dest, p, at, ns, ks, pks, Raw(ns), Snap(ns))
    ensures |node.Vals()| == node.count && |p.Vals()| == p.count
  {
    assert forall m {:trigger m.Shape()} :: m in ns ==> m.Shape();
    hide Struct, Node.Linked, Node.Kids, D.Around, D.Distinct;
    p, at, ks, pks := node.parent, node.position, node.Kids(), node.parent.Kids();
    HalveAround(node, dest, ns, G, root, s, cap, pend);
    Parent(node, ns, G, root, s, cap, pend);
    Record(node, ns);
    Record(p, ns);
    SnapShows(ns);
    RawShapes(ns);
    KidsRecorded(node, ns, G, root, s, cap, pend);
    KidsRecorded(p, ns, G, root, s, cap, pend);
    KidPositions(p, ns, G, root, s, cap, pend);
    KidPositions(node, ns, G, root, s, cap, pend);
  }

  /** The children of a node are those of its record. */
  lemma KidsRecorded(n: Node, ns: set<Node>, G: Spans, root: Node?, s: seq<Entry>, cap: nat, pend: Node?)
    requires Struct(ns, G, root, s, cap, pend) && n in ns
    ensures n in Snap(ns)
    ensures forall c {:trigger c in Snap(ns)[n].kids} :: c in Snap(ns)[n].kids ==> c in n.Kids()
    ensures forall c {:trigger c in n.Kids()} :: c in n.Kids() ==> c in Snap(ns)[n].kids
  {
    assert forall m {:trigger m.Shape()} :: m in ns ==> m.Shape();
    hide Struct, Node.Kids;
    Record(n, ns);
    Children(n, ns, G, root, s, cap, pend);
  }

  /** The heap after a split is a tree again, though one half may have no value yet. */
  lemma HalveDone(node: Node, dest: Node, p: Node, at: int, ns: set<Node>, ks: set<Node>, pks: set<Node>,
                  F: map<Node?, Fields>, H: Heap, G: Spans, root: Node?, s: seq<Entry>, cap: nat, pend: Node?)
    returns (G': Spans)
    requires HalveFrom(node, dest, p, at, ns, ks, pks, F, H) && root != node
    requires cap >= 3 && Tree(H, G, root, s, cap, pend) && (pend == null || pend == p)
    requires RowsKept(ns, F, {node, p}) && LinksKept(ns, F, ks, ks + pks) && p.parent == H[p].parent
    requires D.HalvedRows(node, dest, p, at, H[p].vals, H[p].kids, H[node].vals, H[node].kids)
    requires |H[p].vals| < H[p].maxCount && |H[node].vals| >= 2
    ensures node in G && dest !in G && Struct(ns + {dest}, G', root, s, cap, if node.count == 0 then node else dest)
    ensures G' == S.SplitSpans(G, node, dest, G'[node].hi)
  {
    hide Tree, D.HalvedRows, S.SplitAt, LinksKept, LiveRec;
    ShapesKept(ns, F, {node, p});
    HalvedShapes(node, dest, p, at, H[p].vals, H[p].kids, H[node].vals, H[node].kids);
    hide ShapesRecorded, RowsKept;
    assert D.WasHalved(node, dest, p, at, ns, ks, pks, F, H);
    D.HalveHeap(node, dest, p, at, ns, ks, pks, F, H);
    TreeKeys(H, G, root, s, cap, pend);
    G' := S.SplitSpans(G, node, dest, At(G, G[node].lo, H[node].leaf, H[node].kids, node.count));
    S.SplitKeepsTree(H, Snap(ns + {dest}), G, G', root, s, cap, pend, node, dest, p, at, node.count);
  }

  lemma HalvedShapes(node: Node, dest: Node, p: Node, at: int, pv: seq<Entry>, pk: seq<Node?>, V: seq<Entry>,
                     K: seq<Node?>)
    requires D.HalvedRows(node, dest, p, at, pv, pk, V, K)
    ensures node.Shape() && dest.Shape() && p.Shape() && node.count < |V| && dest.count == |V| - 1 - node.count
    ensures p.count == |pv| + 1
    ensures !node.leaf && |K| == |V| + 1 ==> node.Row() + dest.Row() == K
  {
    assert |node.Vals()| == node.count && |p.Vals()| == p.count && |dest.Vals()| == dest.count;
  }

  /** split on the tree. */
  method Halve(node: Node, dest: Node, insertPosition: nat, ghost ns: set<Node>, ghost G: Spans, ghost root: Node?,
               ghost s: seq<Entry>, ghost cap: nat, ghost pend: Node?, ghost F: map<Node?, Fields>)
    returns (ghost G': Spans)
    requires Struct(ns, G, root, s, cap, pend) && (pend == null || pend == node.parent)
    requires node in ns && node != root && dest !in ns && node.count >= 2 && F == Raw(ns)
    requires dest.Shape() && dest.leaf == node.leaf && dest.maxCount == cap && dest.count == 0
    requires node.parent.count < cap
    modifies ns`position, ns`count, ns`parent, ns`values, ns`children, dest
    ensures Struct(ns + {dest}, G', root, s, cap, if node.count == 0 then node else dest)
    ensures node.count == old(node.count) - 1 - old(node.SplitCount(insertPosition))
    ensures dest.count == old(node.SplitCount(insertPosition))
    ensures node in G && dest !in G && G' == S.SplitSpans(G, node, dest, G'[node].hi)
    ensures !node.leaf ==> node.Row() + dest.Row() == old(node.Row())
    ensures RowsKept(ns, F, {node, old(node.parent)})
    ensures root != null && root in ns && root.parent == old(root.parent)
  {
    ghost var H := Snap(ns);
    ghost var p, at, ks, pks := HalveReady(node, dest, ns, G, root, s, cap, pend);
    assert cap >= 3 && Tree(H, G, root, s, cap, pend) && p.Vals() == H[p].vals && p.Row() == H[p].kids;
    assert node.Vals() == H[node].vals && node.Row() == H[node].kids && p.parent == H[p].parent == F[p].parent;
    assert H[p].maxCount == cap by { Sizes(p, ns, G, root, s, cap, pend); }
    RawRecorded(ns);
    RootOnTop(ns, G, root, s, cap, pend);
    assert F[root].parent == root.parent && node in ns;
    hide Struct, Tree, D.Around, D.Distinct, HalveFrom, D.HalvedRows, RowsKept, LinksKept, Raw, Snap;
    D.HalveAll(node, dest, insertPosition, ns, p, at, p.Vals(), p.Row(), node.Vals(), node.Row(), ks, pks, F);
    HalvedShapes(node, dest, p, at, H[p].vals, H[p].kids, H[node].vals, H[node].kids);
    ParentKept(root, ns, F, ks, ks + pks);
    ParentKept(p, ns, F, ks, ks + pks);
    G' := HalveDone(node, dest, p, at, ns, ks, pks, F, H, G, root, s, cap, pend);
  }
}
