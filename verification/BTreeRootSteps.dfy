/** The steps at the root and in a leaf, on the objects of a tree. */
module BTreeRootSteps {
  import opened BTreeNode
  import opened BTreeShape
  import opened BTreeObjects
  import opened BTreeSteps
  import E = BTreeEdit
  import R = BTreeRoot
  import T = BTreeRegrow

  /** A root without children is the only node. */
  lemma LeafRootAlone(ns: set<Node>, G: Spans, r: Node, s: seq<Entry>, cap: nat, pend: Node?)
    requires Struct(ns, G, r, s, cap, pend) && r.leaf
    ensures ns == {r} && G.Keys == {r} && r in G && G[r] == Span(0, |s|, 0)
  {
    RootOnTop(ns, G, r, s, cap, pend);
    Sizes(r, ns, G, r, s, cap, pend);
    forall n | n in ns ensures n == r { Sizes(n, ns, G, r, s, cap, pend); }
    assert G.Keys == Snap(ns).Keys;
  }

  /** A tree of one leaf. */
  lemma OneLeafTree(n: Node, s: seq<Entry>, cap: nat, pend: Node?)
    requires cap >= 3 && n.Shape() && n.leaf && 1 <= n.maxCount <= cap && n.Vals() == s
    requires n.count >= 1 || pend == n
    ensures Struct({n}, map[n := Span(0, |s|, 0)], n, s, cap, pend)
  {
    var H, G: Spans := Snap({n}), map[n := Span(0, |s|, 0)];
    assert H.Keys == G.Keys;
    forall m | m in H
      ensures TiledNode(H, G, s, m) && KidsOk(H, G, m) && SizeOk(H, G, n, cap, m) && Filled(H, pend, m)
    {}
  }

  // ---- Growing ----

  /** A new internal root above a leaf root. */
  method RaiseLeafRoot(r: Node, ghost ns: set<Node>, ghost G: Spans, ghost s: seq<Entry>, cap: nat,
                       ghost F: map<Node?, Fields>) returns (q: Node, ghost G': Spans)
    requires Struct(ns, G, r, s, cap, null) && r in ns && r.leaf && r.maxCount == cap && r.parent == r && F == Raw(ns)
    modifies ns`position, ns`count, ns`parent, ns`values, ns`children
    ensures fresh(q) && Struct(ns + {q}, G', q, s, cap, q) && q !in G && G' == G[q := Span(0, |s|, 1)]
    ensures !q.leaf && q.count == 0 && q.parent == r && q.rightmost == r && q.size == old(r.count) && r.parent == q
    ensures RowsKept(ns, F, {})
  {
    ghost var H := Snap(ns);
    assert forall m {:trigger m.Shape()} :: m in ns ==> m.Shape();
    assert cap >= 3 && Tree(H, G, r, s, cap, null) && r.Shape() && H[r].maxCount == cap && H[r].leaf;
    RawRecorded(ns);
    RawShapes(ns);
    SnapShows(ns);
    hide Struct, Tree, RowsKept, LinksKept, Raw, Snap, ShapesRecorded;
    q := T.RaiseLeaf(r, cap, ns, F);
    G' := RaisedLeafDone(r, q, ns, F, H, G, s, cap);
  }

  lemma RaisedLeafDone(r: Node, q: Node, ns: set<Node>, F: map<Node?, Fields>, H: Heap, G: Spans, s: seq<Entry>,
                       cap: nat)
    returns (G': Spans)
    requires cap >= 3 && Tree(H, G, r, s, cap, null) && Shows(ns, F, H) && ShapesRecorded(ns, F)
    requires RowsKept(ns, F, {}) && LinksKept(ns, F, {r}, {r}) && r in ns && r in H && r.leaf
    requires q !in ns && H[r].maxCount == cap
    requires H[r].leaf && !q.leaf && q.Shape() && q.maxCount == cap && q.Vals() == []
    requires q.Row() == [r] && r.parent == q && r.position == 0
    ensures Struct(ns + {q}, G', q, s, cap, q) && q !in G && G' == G[q := Span(0, |s|, 1)]
  {
    hide Tree, R.LeafRaised, LinksKept, LiveRec;
    ShapesKept(ns, F, {});
    TreeKeys(H, G, r, s, cap, null);
    T.RaisedLeafHeap(r, q, cap, ns, F, H);
    R.RaiseLeafKeepsTree(H, Snap(ns + {q}), G, r, q, s, cap);
    G' := G[q := Span(0, |s|, 1)];
  }

  /** A new node takes over what an internal root holds. */
  method RaiseInnerRoot(r: Node, ghost ns: set<Node>, ghost G: Spans, ghost s: seq<Entry>, cap: nat,
                        ghost F: map<Node?, Fields>) returns (q: Node, ghost G': Spans)
    requires Struct(ns, G, r, s, cap, null) && r in ns && !r.leaf && F == Raw(ns)
    modifies ns`position, ns`count, ns`parent, ns`values, ns`children
    ensures fresh(q) && Struct(ns + {q}, G', r, s, cap, r) && q !in G && r in G && G' == R.RaisedSpans(G, r, q)
    ensures !q.leaf && q.count == old(r.count) && q.Row() == old(r.Row()) && r.count == 0 && q.parent == r
    ensures q.maxCount == cap && q.Shape() && r.parent == old(r.parent) && RowsKept(ns, F, {r})
  {
    ghost var H := Snap(ns);
    ghost var V, K, ks := r.Vals(), r.Row(), r.Kids();
    Record(r, ns);
    Children(r, ns, G, r, s, cap, null);
    Sizes(r, ns, G, r, s, cap, null);
    assert cap >= 3 && Tree(H, G, r, s, cap, null) && H[r].vals == V && H[r].kids == K && |V| == r.count;
    assert forall m {:trigger m.Shape()} :: m in ns ==> m.Shape();
    RawRecorded(ns);
    RawShapes(ns);
    SnapShows(ns);
    assert r !in ks && ks <= ns;
    hide Struct, Tree, RowsKept, LinksKept, Raw, Snap, ShapesRecorded, T.RaisedRows, Node.Kids;
    q := T.RaiseInner(r, cap, ns, V, K, ks, F);
    RaisedCounts(r, q, cap, V, K);
    G' := RaisedInnerDone(r, q, ns, ks, F, H, G, s, cap);
  }

  lemma RaisedCounts(r: Node, q: Node, cap: nat, V: seq<Entry>, K: seq<Node?>)
    requires T.RaisedRows(r, q, cap, V, K)
    ensures r.Shape() && q.Shape() && q.count == |V| && r.count == 0 && q.Row() == K
    ensures q.parent == r && !q.leaf && q.maxCount == cap
  {
    assert |q.Vals()| == q.count && |r.Vals()| == r.count;
  }

  lemma RaisedInnerDone(r: Node, q: Node, ns: set<Node>, ks: set<Node>, F: map<Node?, Fields>, H: Heap, G: Spans,
                        s: seq<Entry>, cap: nat) returns (G': Spans)
    requires cap >= 3 && Tree(H, G, r, s, cap, null) && Shows(ns, F, H) && ShapesRecorded(ns, F)
    requires RowsKept(ns, F, {r}) && LinksKept(ns, F, ks, {}) && r in ns && r in H && !r.leaf
    requires q !in ns && r !in ks && ks <= ns
    requires T.RaisedRows(r, q, cap, H[r].vals, H[r].kids)
    requires forall c {:trigger c in H[r].kids} :: c in H[r].kids ==> c in ks
    requires forall c {:trigger c in ks} :: c in ks ==> c in H[r].kids
    ensures Struct(ns + {q}, G', r, s, cap, r) && q !in G && r in G && G' == R.RaisedSpans(G, r, q)
  {
    hide Tree, R.InnerRaised, LinksKept, LiveRec, T.RaisedRows;
    ShapesKept(ns, F, {r});
    RaisedCounts(r, q, cap, H[r].vals, H[r].kids);
    TreeKeys(H, G, r, s, cap, null);
    T.RaisedInnerHeap(r, q, cap, ns, ks, F, H);
    R.RaiseInnerKeepsTree(H, Snap(ns + {q}), G, r, q, s, cap);
    G' := R.RaisedSpans(G, r, q);
  }

  /** A full leaf root of less than full size makes way for a larger one. */
  method GrowLeafRoot(r: Node, max: nat, ghost ns: set<Node>, ghost G: Spans, ghost s: seq<Entry>, ghost cap: nat)
    returns (n: Node, ghost G': Spans)
    requires Struct(ns, G, r, s, cap, null) && r in ns && r.leaf && r.count <= max <= cap && 1 <= max
    modifies ns`position, ns`count, ns`parent, ns`values, ns`children
    ensures fresh(n) && n.leaf && n.maxCount == max && n.count == old(r.count) && n.parent == n
    ensures r in G && G' == map[n := G[r]] && Struct({n}, G', n, s, cap, null)
  {
    LeafRootAlone(ns, G, r, s, cap, null);
    LeafSpan(r, ns, G, r, s, cap, null);
    Sizes(r, ns, G, r, s, cap, null);
    n := new Node.Leaf(null, max);
    ghost var V := r.Vals();
    assert V == s && r.Kids() == {} && n.Kids() == {};
    assert T.Swappable(n, r, [], [], {}, V, [], {});
    hide Struct;
    T.SwapRows(n, r, [], [], {}, V, [], {});
    assert |n.Vals()| == n.count;
    G' := map[n := G[r]];
    OneLeafTree(n, s, cap, null);
  }

  // ---- Shrinking ----

  /** The only child of an empty root, a leaf, becomes the root. */
  method DropToLeaf(r: Node, c: Node, ghost ns: set<Node>, ghost G: Spans, ghost s: seq<Entry>, ghost cap: nat)
    returns (ghost G': Spans)
    requires Struct(ns, G, r, s, cap, r) && r in ns && r.Shape() && !r.leaf && r.count == 0
    requires r.children[0] == c && c.leaf && r.parent == c
    modifies c`parent
    ensures c in G && Struct({c}, G', c, s, cap, null) && G' == map[c := G[c]] && c.parent == c && ns == {r, c}
    ensures G[c] == Span(0, |s|, 0)
  {
    ghost var H := Snap(ns);
    Children(r, ns, G, r, s, cap, r);
    OnlyChildSpan(r, c, ns, G, s, cap);
    c.parent := r.parent;
    G' := map[c := G[c]];
    OneLeafTree(c, s, cap, null);
  }

  lemma OnlyChildSpan(r: Node, c: Node, ns: set<Node>, G: Spans, s: seq<Entry>, cap: nat)
    requires Struct(ns, G, r, s, cap, r) && r in ns && r.Shape() && !r.leaf && r.count == 0
    requires r.children[0] == c && c.leaf
    ensures c in ns && ns == {r, c} && c in G && G[c] == Span(0, |s|, 0) && c.Shape()
    ensures c.Vals() == s && c.count >= 1 && 1 <= c.maxCount <= cap
  {
    assert c == r.Row()[0];
    Record(r, ns);
    Children(r, ns, G, r, s, cap, r);
    Record(c, ns);
    LeafSpan(c, ns, G, r, s, cap, r);
    Sizes(c, ns, G, r, s, cap, r);
    var H := Snap(ns);
    assert H[r].kids == [c] && H[r].vals == [];
    hide AllKids, AllTiled, AllUp, AllApart, Sized, AllFilled;
    R.OnlyChild(H, G, r, c, s, cap);
    forall n | n in ns ensures n in {r, c} {
      R.OnlyChildHighest(H, G, r, c, s, cap, n);
      Sizes(n, ns, G, r, s, cap, r);
    }
  }

  /** The only child of an empty root, an internal node, hands everything to the root. */
  method DropInnerChild(r: Node, c: Node, ghost ns: set<Node>, ghost G: Spans, ghost s: seq<Entry>, ghost cap: nat,
                        ghost F: map<Node?, Fields>) returns (ghost G': Spans)
    requires Struct(ns, G, r, s, cap, r) && r in ns && r.Shape() && !r.leaf && r.count == 0
    requires r.children[0] == c && !c.leaf && F == Raw(ns)
    modifies ns`position, ns`count, ns`parent, ns`values, ns`children
    ensures c in ns && r in G && c in G && Struct(ns - {c}, G', r, s, cap, null) && G' == R.DroppedSpans(G, r, c)
    ensures r.parent == old(r.parent) && RowsKept(ns, F, {r, c}) && r.count >= 1 && c != r
  {
    ghost var H := Snap(ns);
    assert c == r.Row()[0] && r.Row() == [c] && r.Vals() == [];
    Record(r, ns);
    Children(r, ns, G, r, s, cap, r);
    assert c in r.Kids();
    Record(c, ns);
    Children(c, ns, G, r, s, cap, r);
    Sizes(c, ns, G, r, s, cap, r);
    Sizes(r, ns, G, r, s, cap, r);
    RootOnTop(ns, G, r, s, cap, r);
    ghost var V, K, ks := c.Vals(), c.Row(), c.Kids();
    assert cap >= 3 && Tree(H, G, r, s, cap, r) && H[c].vals == V && H[c].kids == K && H[r].vals == [] &&
        H[r].kids == [c];
    assert forall m {:trigger m.Shape()} :: m in ns ==> m.Shape();
    RawRecorded(ns);
    RawShapes(ns);
    SnapShows(ns);
    assert r !in ks && c !in ks && ks <= ns && r != c;
    hide Struct, Tree, RowsKept, LinksKept, Raw, Snap, ShapesRecorded, T.DroppedRows, Node.Kids;
    T.DropInner(r, c, ns, V, K, ks, F);
    DroppedCounts(r, V, K);
    G' := DroppedDone(r, c, ns, ks, F, H, G, s, cap);
  }

  lemma DroppedCounts(r: Node, V: seq<Entry>, K: seq<Node?>)
    requires T.DroppedRows(r, V, K)
    ensures r.Shape() && r.count == |V|
  {
    assert |r.Vals()| == r.count;
  }

  lemma DroppedDone(r: Node, c: Node, ns: set<Node>, ks: set<Node>, F: map<Node?, Fields>, H: Heap, G: Spans,
                    s: seq<Entry>, cap: nat) returns (G': Spans)
    requires cap >= 3 && Tree(H, G, r, s, cap, r) && Shows(ns, F, H) && ShapesRecorded(ns, F)
    requires RowsKept(ns, F, {r, c}) && LinksKept(ns, F, ks + {c}, {}) && r in ns && c in ns
    requires r != c && r !in ks && c !in ks && ks <= ns
    requires r in H && c in H && !H[r].leaf && !H[c].leaf && H[r].vals == [] && H[r].kids == [c]
    requires T.DroppedRows(r, H[c].vals, H[c].kids)
    requires forall k {:trigger k in H[c].kids} :: k in H[c].kids ==> k in ks
    requires forall k {:trigger k in ks} :: k in ks ==> k in H[c].kids
    ensures Struct(ns - {c}, G', r, s, cap, null) && r in G && c in G && G' == R.DroppedSpans(G, r, c)
  {
    hide Tree, R.Dropped, LinksKept, LiveRec, T.DroppedRows;
    ShapesKept(ns, F, {r, c});
    DroppedCounts(r, H[c].vals, H[c].kids);
    TreeKeys(H, G, r, s, cap, r);
    T.DroppedHeap(r, c, ns, ks, F, H);
    R.DropInnerKeepsTree(H, Snap(ns - {c}), G, r, c, s, cap);
    G' := R.DroppedSpans(G, r, c);
  }

  // ---- One leaf ----

  /** insert_value on a leaf of the tree. */
  method AddToLeaf(n: Node, i: nat, x: Entry, ghost ns: set<Node>, ghost G: Spans, ghost root: Node?,
                   ghost s: seq<Entry>,
                   ghost cap: nat, ghost pend: Node?, ghost F: map<Node?, Fields>) returns (ghost G': Spans)
    requires Struct(ns, G, root, s, cap, pend) && (pend == null || pend == n)
    requires n in ns && n.leaf && i <= n.count < n.maxCount && F == Raw(ns)
    modifies ns`position, ns`count, ns`parent, ns`values, ns`children
    ensures n in G && 0 <= G[n].lo + i <= |s| && G' == E.PushedSpans(G, G[n].lo + i)
    ensures Struct(ns, G', root, E.InsertAt(s, G[n].lo + i, x), cap, null)
    ensures n.count == old(n.count) + 1 && root != null && root in ns && root.parent == old(root.parent)
  {
    ghost var H := Snap(ns);
    ghost var V := n.Vals();
    Record(n, ns);
    RootOnTop(ns, G, root, s, cap, pend);
    assert cap >= 3 && Tree(H, G, root, s, cap, pend) && H[n].vals == V && |V| == n.count &&
        H[n].maxCount == n.maxCount;
    assert forall m {:trigger m.Shape()} :: m in ns ==> m.Shape();
    RawRecorded(ns);
    RawShapes(ns);
    SnapShows(ns);
    assert F[root].parent == root.parent;
    hide Struct, Tree, RowsKept, LinksKept, Raw, Snap, ShapesRecorded, Node.Vals;
    T.InsertIntoLeaf(n, i, x, ns, V, F);
    ParentKept(root, ns, F, {}, {});
    G' := AddedDone(n, i, x, ns, F, H, G, root, s, cap, pend);
    LongerVals(n, V[..i] + [x] + V[i..]);
  }

  lemma LongerVals(n: Node, V: seq<Entry>)
    requires n.Shape() && n.Vals() == V
    ensures n.count == |V|
  {}

  lemma AddedDone(n: Node, i: nat, x: Entry, ns: set<Node>, F: map<Node?, Fields>, H: Heap, G: Spans, root: Node?,
                  s: seq<Entry>, cap: nat, pend: Node?) returns (G': Spans)
    requires cap >= 3 && Tree(H, G, root, s, cap, pend) && (pend == null || pend == n)
    requires Shows(ns, F, H) && ShapesRecorded(ns, F)
    requires RowsKept(ns, F, {n}) && LinksKept(ns, F, {}, {}) && n in ns && n in H && n.leaf && n.Shape()
    requires i <= |H[n].vals| < H[n].maxCount && n.Vals() == H[n].vals[..i] + [x] + H[n].vals[i..]
    ensures n in G && 0 <= G[n].lo + i <= |s| && G' == E.PushedSpans(G, G[n].lo + i)
    ensures Struct(ns, G', root, E.InsertAt(s, G[n].lo + i, x), cap, null)
  {
    assert H[n].leaf;
    hide Tree, LinksKept, LiveRec, E.InsertAt, E.PushedSpans;
    ShapesKept(ns, F, {n});
    TreeKeys(H, G, root, s, cap, pend);
    T.InsertedHeap(n, i, x, ns, F, H);
    G' := E.PushedSpans(G, G[n].lo + i);
    E.InsertKeepsTree(H, Snap(ns), G, G', root, s, cap, pend, n, i, x);
  }

  /** remove_value on a leaf of the tree. */
  method TakeFromLeaf(n: Node, i: nat, ghost ns: set<Node>, ghost G: Spans, ghost root: Node?, ghost s: seq<Entry>,
                      ghost cap: nat, ghost F: map<Node?, Fields>) returns (ghost G': Spans)
    requires Struct(ns, G, root, s, cap, null) && n in ns && n.leaf && i < n.count && F == Raw(ns)
    modifies ns`position, ns`count, ns`parent, ns`values, ns`children
    ensures n in G && 0 <= G[n].lo + i < G[n].hi <= |s| && G' == E.PulledSpans(G, G[n].lo + i)
    ensures Struct(ns, G', root, E.RemoveAt(s, G[n].lo + i), cap, n)
    ensures n.count == old(n.count) - 1 && root != null && root in ns && root.parent == old(root.parent)
  {
    ghost var H := Snap(ns);
    ghost var V := n.Vals();
    Record(n, ns);
    RootOnTop(ns, G, root, s, cap, null);
    assert cap >= 3 && Tree(H, G, root, s, cap, null) && H[n].vals == V && |V| == n.count;
    assert forall m {:trigger m.Shape()} :: m in ns ==> m.Shape();
    RawRecorded(ns);
    RawShapes(ns);
    SnapShows(ns);
    assert F[root].parent == root.parent;
    hide Struct, Tree, RowsKept, LinksKept, Raw, Snap, ShapesRecorded, Node.Vals;
    T.RemoveFromLeaf(n, i, ns, V, F);
    ParentKept(root, ns, F, {}, {});
    G' := TakenDone(n, i, ns, F, H, G, root, s, cap);
    LongerVals(n, V[..i] + V[i + 1..]);
  }

  lemma TakenDone(n: Node, i: nat, ns: set<Node>, F: map<Node?, Fields>, H: Heap, G: Spans, root: Node?,
                  s: seq<Entry>, cap: nat) returns (G': Spans)
    requires cap >= 3 && Tree(H, G, root, s, cap, null) && Shows(ns, F, H) && ShapesRecorded(ns, F)
    requires RowsKept(ns, F, {n}) && LinksKept(ns, F, {}, {}) && n in ns && n in H && n.leaf && n.Shape()
    requires i < |H[n].vals| && n.Vals() == H[n].vals[..i] + H[n].vals[i + 1..]
    ensures n in G && 0 <= G[n].lo + i < G[n].hi <= |s| && G' == E.PulledSpans(G, G[n].lo + i)
    ensures Struct(ns, G', root, E.RemoveAt(s, G[n].lo + i), cap, n)
  {
    assert H[n].leaf;
    hide Tree, LinksKept, LiveRec, E.RemoveAt, E.PulledSpans;
    ShapesKept(ns, F, {n});
    TreeKeys(H, G, root, s, cap, null);
    T.RemovedHeap(n, i, ns, F, H);
    G' := E.PulledSpans(G, G[n].lo + i);
    E.RemoveKeepsTree(H, Snap(ns), G, G', root, s, cap, n, i);
  }

  /** value_swap of value i of leaf l with delimiter j of internal node n. */
  method SwapDelimiter(l: Node, i: nat, n: Node, j: nat, ghost ns: set<Node>, ghost G: Spans, ghost root: Node?,
                       ghost s: seq<Entry>, ghost cap: nat, ghost F: map<Node?, Fields>)
    requires Struct(ns, G, root, s, cap, null) && l in ns && l.leaf && i < l.count && n in ns && !n.leaf && j < n.count
    requires F == Raw(ns)
    modifies ns`position, ns`count, ns`parent, ns`values, ns`children
    ensures l in G && j < |n.children| && n.children[j] in G && 0 <= G[l].lo + i < |s| && 0 <= G[n.children[j]].hi < |s|
    ensures Struct(ns, G, root, E.Swapped(s, G[l].lo + i, G[n.children[j]].hi), cap, null)
    ensures l.count == old(l.count) && n.count == old(n.count) && n.children == old(n.children)
    ensures root != null && root in ns && root.parent == old(root.parent)
  {
    ghost var H := Snap(ns);
    Record(l, ns);
    Record(n, ns);
    RootOnTop(ns, G, root, s, cap, null);
    LeafSpan(l, ns, G, root, s, cap, null);
    InnerSpan(n, ns, G, root, s, cap, null);
    assert Glue(G, s, n.children[j], n.values[j], n.children[j + 1]) by {
      assert Glue(G, s, n.children[..n.count + 1][j], n.values[..n.count][j], n.children[..n.count + 1][j + 1]);
    }
    assert E.ExchangeSetting(H, G, root, s, cap, n, j, l, i);
    assert cap >= 3 && Tree(H, G, root, s, cap, null);
    assert forall m {:trigger m.Shape()} :: m in ns ==> m.Shape();
    RawRecorded(ns);
    RawShapes(ns);
    SnapShows(ns);
    assert F[root].parent == root.parent && H[n].kids[j] == n.children[j];
    hide Struct, Tree, RowsKept, LinksKept, Raw, Snap, ShapesRecorded, Node.Vals, InnerRow, E.ExchangeSetting;
    T.SwapValue(l, i, n, j, ns, F);
    ParentKept(root, ns, F, {}, {});
    SwappedDone(l, i, n, j, ns, F, H, G, root, s, cap);
  }

  lemma SwappedDone(l: Node, i: nat, n: Node, j: nat, ns: set<Node>, F: map<Node?, Fields>, H: Heap, G: Spans,
                    root: Node?,
                    s: seq<Entry>, cap: nat)
    requires cap >= 3 && Tree(H, G, root, s, cap, null) && E.ExchangeSetting(H, G, root, s, cap, n, j, l, i)
    requires Shows(ns, F, H) && ShapesRecorded(ns, F) && RowsKept(ns, F, {l, n}) && LinksKept(ns, F, {}, {})
    requires l in ns && n in ns && l != n && l.Shape() && n.Shape() && l.count == F[l].count && n.count == F[n].count
    requires l.children == F[l].children && n.children == F[n].children
    requires n.Vals() == H[n].vals[j := H[l].vals[i]] && l.Vals() == H[l].vals[i := H[n].vals[j]]
    ensures Struct(ns, G, root, E.Swapped(s, G[l].lo + i, G[H[n].kids[j]].hi), cap, null)
  {
    assert l in H && n in H && i < |H[l].vals| && j < |H[n].vals|;
    hide Tree, LinksKept, LiveRec, E.ExchangeSetting, E.Swapped, E.Exchanged;
    ShapesKept(ns, F, {l, n});
    T.ExchangedHeap(l, i, n, j, ns, F, H);
    E.ExchangeKeepsTree(H, G, root, s, cap, n, j, l, i);
  }
}
