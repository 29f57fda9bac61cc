/** The tree itself: root, insertion, erasure and iteration over Node objects (src/btree/btree.h, class btree). */
module BTree {
  import opened BTreeNode
  import opened BTreeShape
  import opened BTreeObjects
  import opened BTreeSteps
  import opened BTreeRootSteps
  import opened BTreeSearch
  import opened BTreeIter
  import opened BTreeRoom
  import opened BTreeErase
  import opened BTreeContents
  import opened BTreeMeaning
  import E = BTreeEdit
  import M = BTreeMerge
  import R = BTreeRoot

  /** What the root knows once the insertion under way is counted. */
  ghost predicate Counted(ns: set<Node>, G: Spans, root: Node?, s: seq<Entry>)
    reads root
  {
    && root != null && root in ns && root.parent in ns && First(G, root.parent) && (root.leaf ==> root.parent == root)
    && (!root.leaf ==> root.rightmost in ns && Last(G, root.rightmost, |s|) && root.size == |s| + 1)
  }

  lemma EndsAfterInsert(ns: set<Node>, G: Spans, G': Spans, root: Node, s: seq<Entry>, g: int, x: Entry)
    requires Counted(ns, G, root, s) && 0 <= g <= |s| && G' == E.PushedSpans(G, g)
    ensures Ends(ns, G', root, E.InsertAt(s, g, x))
  {}

  /** A place in a leaf with room, at in-order index g. */
  ghost predicate Open(ns: set<Node>, G: Spans, n: Node, position: nat, g: int)
    reads n`count
  {
    n in ns && n in G && n.leaf && position <= n.count < n.maxCount && G[n].lo + position == g
  }

  lemma OpenFromRoomy(ns: set<Node>, G: Spans, cap: nat, n0: Node, p0: nat, K: seq<Node?>, ns': set<Node>, G': Spans,
                      n: Node, position: nat, g: int)
    requires Roomy(ns, G, cap, n0, p0, K, ns', G', n, position) && n0 in G && G[n0].lo + p0 == g && n0.leaf
    ensures Open(ns', G', n, position, g)
  {}

  /** What an insertion may use of the state before it. */
  lemma InsertSetting(n: Node, p: nat, g: int, ns: set<Node>, G: Spans, root: Node?, s: seq<Entry>, cap: nat,
                      pend: Node?)
    requires Struct(ns, G, root, s, cap, pend) && Ends(ns, G, root, s) && Points(ns, G, n, p, g) && n.leaf
    requires pend == null || pend == root
    ensures n.Shape() && n.count <= n.maxCount <= cap && n in ns && n in G && 0 <= g <= |s|
    ensures p <= n.count && RootMarked(root)
    ensures n.maxCount < cap ==> n == root
    ensures root != null && root in ns && (root.leaf ==> ns == {root} && n == root)
    ensures root.leaf ==> root.count == |s|
    ensures G[n].lo + p == g && 1 <= n.maxCount
  {
    PointsAt(ns, G, root, s, cap, pend, n, p, g);
    Sizes(n, ns, G, root, s, cap, pend);
    if root.leaf {
      LeafRootAlone(ns, G, root, s, cap, pend);
      LeafSpan(root, ns, G, root, s, cap, pend);
    }
    assert SizeOk(Snap(ns), G, root, cap, n);
    Record(n, ns);
  }

  /** A place in an internal node has a value before it. */
  lemma InternalPlace(n: Node, p: nat, g: int, ns: set<Node>, G: Spans, root: Node?, s: seq<Entry>, cap: nat)
    requires Struct(ns, G, root, s, cap, null) && Ends(ns, G, root, s) && Points(ns, G, n, p, g) && !n.leaf
    ensures RootMarked(root) && g > 0
  {
    PointsAt(ns, G, root, s, cap, null, n, p, g);
    ChildSpan(n, p, ns, G, root, s, cap, null);
    HasValues(n.children[p], ns, G, root, s, cap);
  }

  /** Every stretch is longer than empty. */
  lemma HasValues(n: Node, ns: set<Node>, G: Spans, root: Node?, s: seq<Entry>, cap: nat)
    requires Struct(ns, G, root, s, cap, null) && n in ns
    ensures n in G && G[n].lo < G[n].hi && 0 <= G[n].lo
  {
    Sizes(n, ns, G, root, s, cap, null);
    if n.leaf {
      LeafSpan(n, ns, G, root, s, cap, null);
    } else {
      ChildSpan(n, 0, ns, G, root, s, cap, null);
      PointsAt(ns, G, root, s, cap, null, n, 0, G[n.children[0]].hi);
    }
  }

  /** What an erasure may use of the state before it. */
  lemma EraseSetting(n: Node, p: int, g: int, ns: set<Node>, G: Spans, root: Node?, s: seq<Entry>, cap: nat)
    requires Struct(ns, G, root, s, cap, null) && Ends(ns, G, root, s) && Points(ns, G, n, p, g) && 0 <= p < n.count
    ensures n in ns && n in G && n.Shape() && RootMarked(root) && root in ns && 0 <= g < |s|
    ensures n.leaf ==> G[n].lo + p == g
    ensures !n.leaf ==>
        g > 0 && g + 1 < |s| && !root.leaf && p < |n.children| && n.children[p] in G && G[n.children[p]].hi == g
  {
    PointsAt(ns, G, root, s, cap, null, n, p, g);
    RootOnTop(ns, G, root, s, cap, null);
    Sizes(root, ns, G, root, s, cap, null);
    Sizes(n, ns, G, root, s, cap, null);
    if !n.leaf {
      InternalPlace(n, p, g, ns, G, root, s, cap);
      ChildSpan(n, p + 1, ns, G, root, s, cap, null);
      HasValues(n.children[p + 1], ns, G, root, s, cap);
      InnerSane(n, ns, G, root, s, cap, null);
      Whole(ns, G, root, s, cap, null);
    }
  }

  /** What try_shrink may use of the state before it. */
  lemma ShrinkSetting(r: Node, ns: set<Node>, G: Spans, s: seq<Entry>, cap: nat)
    requires Struct(ns, G, r, s, cap, r) && Ends(ns, G, r, s)
    ensures r in ns && r.Shape() && r in G
    ensures r.leaf && r.count == 0 ==> s == []
    ensures !r.leaf && r.count == 0 ==> r.children[0] != null && r.children[0] in ns && r.children[0] != r
    ensures !r.leaf && r.count == 0 && r.children[0].leaf ==> r.parent == r.children[0]
  {
    Whole(ns, G, r, s, cap, r);
    Record(r, ns);
    if r.leaf {
      LeafSpan(r, ns, G, r, s, cap, r);
    } else if r.count == 0 {
      ChildSpan(r, 0, ns, G, r, s, cap, r);
      if r.children[0].leaf { OnlyChildSpan(r, r.children[0], ns, G, s, cap); }
    }
  }

  lemma StandsInside(ns: set<Node>, G: Spans, s: seq<Entry>, n: Node, p: int, t: int)
    requires Stands(ns, G, s, n, p, t) && t < |s|
    ensures Points(ns, G, n, p, t) && p < n.count
  {}

  /** The place an erasure left its leaf iterator at. */
  lemma LeafPlace(n: Node, p: int, t: int, ns: set<Node>, G: Spans, root: Node?, s: seq<Entry>, cap: nat)
    requires Struct(ns, G, root, s, cap, null) && Ends(ns, G, root, s)
    requires n in ns && n in G && n.leaf && G[n].lo + p == t && Within(G[n], p)
    ensures RootMarked(root) && n.count >= 1 && p <= n.count
    ensures if p == n.count then Points(ns, G, n, p - 1, t - 1) else Stands(ns, G, s, n, p, t)
  {
    LeafSpan(n, ns, G, root, s, cap, null);
    Sizes(n, ns, G, root, s, cap, null);
  }

  /** The ends of a tree, as iterators. */
  lemma EndPlaces(ns: set<Node>, G: Spans, root: Node?, s: seq<Entry>, cap: nat)
    requires Struct(ns, G, root, s, cap, null) && Ends(ns, G, root, s)
    ensures RootMarked(root) && |s| > 0 && Stands(ns, G, s, root.parent, 0, 0)
    ensures var last := if root.leaf then root else root.rightmost;
      last != null && last.Shape() && Stands(ns, G, s, last, last.count, |s|)
  {
    var first, last := root.parent, if root.leaf then root else root.rightmost;
    if root.leaf { LeafRootAlone(ns, G, root, s, cap, null); }
    LeafSpan(first, ns, G, root, s, cap, null);
    LeafSpan(last, ns, G, root, s, cap, null);
    Sizes(first, ns, G, root, s, cap, null);
  }

  lemma LeafRootSize(r: Node, ns: set<Node>, G: Spans, s: seq<Entry>, cap: nat)
    requires Struct(ns, G, r, s, cap, null) && r.leaf
    ensures r.count == |s|
  {
    LeafRootAlone(ns, G, r, s, cap, null);
    LeafSpan(r, ns, G, r, s, cap, null);
  }

  lemma LeavesLevel(ns: set<Node>, G: Spans, root: Node?, s: seq<Entry>, cap: nat)
    requires Struct(ns, G, root, s, cap, null)
    ensures forall n {:trigger n in ns} :: n in ns && n.leaf && n in G ==> G[n].h == 0
  {
    forall n {:trigger n in ns} | n in ns && n.leaf &&
        n in G ensures G[n].h == 0 { Sizes(n, ns, G, root, s, cap, null); }
  }

  class BTree {
    const kNodeValues: nat
    const search: SearchType
    var root: Node?
    // The nodes, the stretch of the in-order sequence each one holds, and that sequence.
    ghost var nodes: set<Node>
    ghost var spans: Spans
    ghost var elems: seq<Entry>

    /** rebalance_or_split: makes room at the iterator, by moving values to a sibling or by splitting. */
    method RebalanceOrSplit(node0: Node, position0: nat) returns (node: Node, position: nat)
      requires Struct(nodes, spans, root, elems, kNodeValues, null) && Ends(nodes, spans, root, elems)
      requires node0 in nodes && node0.count == node0.maxCount == kNodeValues && position0 <= node0.count
      modifies this`root, this`nodes, this`spans, nodes
      ensures Struct(nodes, spans, root, elems, kNodeValues, node) && Ends(nodes, spans, root, elems)
      ensures root != null && !root.leaf && fresh(nodes - old(nodes))
      ensures Roomy(old(nodes), old(spans), kNodeValues, node0, position0, old(node0.Row()), nodes, spans, node,
          position)
      ensures node0 in old(spans) && LowerKept(old(Raw(nodes)), old(spans), Raw(nodes), spans, old(spans)[node0].h)
      ensures nodes == old(nodes) <==>
        old(node0 != root && (
          || (0 < node0.position <= |node0.parent.children|
              && CanTake(node0.parent.children[node0.position - 1], position0 > 0))
          || (0 <= node0.position < node0.parent.count && node0.position + 1 < |node0.parent.children|
              && CanTake(node0.parent.children[node0.position + 1], position0 < node0.count))))
      decreases Above(spans, root, node0), 1
    {
      hide Struct, Roomy, LowerKept, Node.Row, Raw;
      ghost var ns, G, s := nodes, spans, elems;
      var r: Node := root;
      var parent := node0.parent;
      if node0 != r {
        NextTo(node0, ns, G, r, s, kNodeValues, null);
        if node0.position > 0 {
          var left := parent.children[node0.position - 1];
          if left.count < left.maxCount {
            var toMove := Share(left, position0 < left.maxCount);
            if position0 >= toMove || left.count + toMove < left.maxCount {
              node, position, spans := ShiftToLeft(node0, position0, left, toMove, ns, G, r, s, kNodeValues);
              PendFilled(ns, spans, r, s, kNodeValues, null, node);
              return;
            }
          }
        }
        if node0.position < parent.count {
          var right := parent.children[node0.position + 1];
          Sizes(right, ns, G, r, s, kNodeValues, null);
          if right.count < right.maxCount {
            var toMove := Share(right, position0 > 0);
            if position0 + toMove <= node0.count || right.count + toMove < right.maxCount {
              node, position, spans := ShiftToRight(node0, position0, right, toMove, ns, G, r, s, kNodeValues);
              PendFilled(ns, spans, r, s, kNodeValues, null, node);
              return;
            }
          }
        }
        node, position := SplitUnder(node0, position0, parent);
      } else {
        node, position := SplitRoot(node0, position0);
      }
    }

    /** The rest of rebalance_or_split below the root: room in the parent first, then the split. */
    method SplitUnder(node0: Node, position0: nat, parent: Node) returns (node: Node, position: nat)
      requires Struct(nodes, spans, root, elems, kNodeValues, null) && Ends(nodes, spans, root, elems)
      requires node0 in nodes && node0.count == node0.maxCount == kNodeValues && position0 <= node0.count
      requires node0 != root && parent == node0.parent
      modifies this`root, this`nodes, this`spans, nodes
      ensures Struct(nodes, spans, root, elems, kNodeValues, node) && Ends(nodes, spans, root, elems)
      ensures root != null && !root.leaf && fresh(nodes - old(nodes))
      ensures Roomy(old(nodes), old(spans), kNodeValues, node0, position0, old(node0.Row()), nodes, spans, node,
          position)
      ensures node0 in old(spans) && LowerKept(old(Raw(nodes)), old(spans), Raw(nodes), spans, old(spans)[node0].h)
      ensures old(nodes) < nodes
      decreases Above(spans, root, node0), 0
    {
      hide Struct, Ends, Roomy, LowerKept, Node.Row, Raw;
      ghost var ns, G, s, F, K0, KP, at := nodes, spans, elems, Raw(nodes), node0.Row(), parent.Row(), node0.position;
      ParentSetting(node0, ns, G, root, s, kNodeValues);
      SameRow(node0, F);
      ghost var pend: Node? := null;
      if parent.count == parent.maxCount {
        var P, k := RebalanceOrSplit(parent, node0.position);
        UnderRoomy(node0, P, k, KP, parent, at, ns, G, nodes, spans, root, s, kNodeValues);
        LowerRow(node0, F, G, nodes, spans, G[parent].h);
        RootOnTop(nodes, spans, root, s, kNodeValues, P);
        pend := P;
      }
      SameRow(node0, F);
      assert node0.Row() == K0;
      ghost var ns1, G1, F1 := nodes, spans, Raw(nodes);
      node, position, nodes, spans := SplitOff(node0, position0, parent, ns1, G1, root, s, kNodeValues, pend);
      LowerTrans(F, G, F1, G1, Raw(nodes), spans, G[node0].h, G[parent].h);
      RoomyVia(ns, G, node0, K0, ns1, G1, node0, kNodeValues, position0, nodes, spans, node, position);
    }
  
    /** The rest of rebalance_or_split at the root: a new root, or a new node below it, and then the split. */
    method SplitRoot(node0: Node, position0: nat) returns (node: Node, position: nat)
      requires Struct(nodes, spans, root, elems, kNodeValues, null) && Ends(nodes, spans, root, elems)
      requires node0 == root && node0.count == node0.maxCount == kNodeValues && position0 <= node0.count
      modifies this`root, this`nodes, this`spans, nodes
      ensures Struct(nodes, spans, root, elems, kNodeValues, node) && Ends(nodes, spans, root, elems)
      ensures root != null && !root.leaf && fresh(nodes - old(nodes))
      ensures Roomy(old(nodes), old(spans), kNodeValues, node0, position0, old(node0.Row()), nodes, spans, node,
          position)
      ensures node0 in old(spans) && LowerKept(old(Raw(nodes)), old(spans), Raw(nodes), spans, old(spans)[node0].h)
      ensures old(nodes) < nodes
    {
      hide Struct, Ends, Roomy, LowerKept, Node.Row, Raw, RowsKept;
      ghost var ns, G, F, K0 := nodes, spans, Raw(nodes), node0.Row();
      var node1, parent, G1 := RaiseRoot(node0, F);
      ghost var ns1 := ns + {parent};
      ghost var F1 := Raw(ns1);
      node, position, nodes, spans := SplitOff(node1, position0, parent, ns1, G1, root, elems, kNodeValues,
          node1.parent);
      LowerTrans(F, G, F1, G1, Raw(nodes), spans, G[node0].h, G1[node1].h);
      RoomyVia(ns, G, node0, K0, ns1, G1, node1, kNodeValues, position0, nodes, spans, node, position);
    }

    /** What happens to a full root before it is split: a leaf gets a new root above it, an inner root hands what it
        holds to a new node below it. */
    method RaiseRoot(node0: Node, ghost F: map<Node?, Fields>) returns (node1: Node, parent: Node, ghost G1: Spans)
      requires Struct(nodes, spans, root, elems, kNodeValues, null) && Ends(nodes, spans, root, elems)
      requires node0 == root && node0.count == node0.maxCount == kNodeValues && F == Raw(nodes)
      modifies this`root, nodes
      ensures root != null && !root.leaf && fresh(parent) && node0 in spans && node1 in G1
      ensures Struct(nodes + {parent}, G1, root, elems, kNodeValues, node1.parent)
      ensures Ends(nodes + {parent}, G1, root, elems)
      ensures node1 in nodes + {parent} && node1 != root && node1.count == node1.maxCount
      ensures node1.parent.count < kNodeValues
      ensures node1.count == old(node0.count) && node1.Row() == old(node0.Row()) && G1[node1].h == spans[node0].h
      ensures node0.leaf == node1.leaf && (node0.leaf ==> spans[node0].lo == G1[node1].lo)
      ensures root in nodes + {parent}
      ensures LowerKept(F, spans, Raw(nodes + {parent}), G1, spans[node0].h)
    {
      hide Struct, LowerKept, Node.Row, Raw, RowsKept;
      ghost var ns, G, s := nodes, spans, elems;
      RootSetting(node0, ns, G, s, kNodeValues);
      NoRow(node0);
      if node0.leaf {
        parent, G1 := RaiseLeafRoot(node0, ns, G, s, kNodeValues, F);
        root := parent;
        node1 := node0;
        CountKept(node0, ns, F, {});
        LowerAfter(ns, F, G, ns + {parent}, G1, G[node0].h, {});
      } else {
        parent, G1 := RaiseInnerRoot(node0, ns, G, s, kNodeValues, F);
        node1 := parent;
        LowerAfter(ns, F, G, ns + {parent}, G1, G[node0].h, {node0});
      }
      NoRow(node1);
    }

    // ---- Insertion ----

    /** The part of internal_insert before the value goes in: room in the leaf, and the size counted. */
    method MakeRoom(n0: Node, p0: nat, ghost g: int, ghost pend: Node?) returns (n: Node, position: nat)
      requires Struct(nodes, spans, root, elems, kNodeValues, pend) && Ends(nodes, spans, root, elems)
      requires Points(nodes, spans, n0, p0, g) && n0.leaf && (pend == null || (pend == root == n0 && n0.count == 0))
      modifies this`root, this`nodes, this`spans, nodes
      ensures Struct(nodes, spans, root, elems, kNodeValues, n) && Counted(nodes, spans, root, elems)
      ensures Open(nodes, spans, n, position, g) && fresh(nodes - old(nodes))
    {
      hide Struct, Points, Roomy;
      ghost var ns, G, s, K0 := nodes, spans, elems, n0.Row();
      InsertSetting(n0, p0, g, ns, G, root, s, kNodeValues, pend);
      n, position := n0, p0;
      if n.count == n.maxCount {
        if n.maxCount < kNodeValues {
          var max := if 2 * n.maxCount < kNodeValues then 2 * n.maxCount else kNodeValues;
          n, spans := GrowLeafRoot(n, max, ns, G, s, kNodeValues);
          nodes := {n};
          root := n;
          PendFilled(nodes, spans, root, s, kNodeValues, null, n);
        } else {
          n, position := RebalanceOrSplit(n, position);
          OpenFromRoomy(ns, G, kNodeValues, n0, p0, K0, nodes, spans, n, position, g);
          root.size := root.size + 1;
        }
      } else {
        if !root.leaf {
          root.size := root.size + 1;
        }
        PendFilled(ns, G, root, s, kNodeValues, pend, n);
      }
    }

    /** The first part of internal_insert: an insertion before a delimiter goes behind the value before it. */
    method ToLeaf(n0: Node, p0: nat, ghost g: int, ghost pend: Node?) returns (n: Node, position: nat)
      requires Struct(nodes, spans, root, elems, kNodeValues, pend) && Ends(nodes, spans, root, elems)
      requires Points(nodes, spans, n0, p0, g) && (pend == null || (pend == root == n0 && n0.leaf && n0.count == 0))
      ensures Points(nodes, spans, n, position, g) && n.leaf && (n0.leaf ==> n == n0 && position == p0)
    {
      hide Struct, Ends;
      n, position := n0, p0;
      if !n.leaf {
        InternalPlace(n, position, g, nodes, spans, root, elems, kNodeValues);
        var p: int;
        n, p := Decrement(n, position, nodes, spans, root, elems, kNodeValues, g);
        position := p + 1;
      }
    }

    /** internal_insert: puts x at the place the iterator stands, in-order index g. */
    method InternalInsert(n0: Node, p0: nat, x: Entry, ghost g: int, ghost pend: Node?) returns (n: Node, position: nat)
      requires Struct(nodes, spans, root, elems, kNodeValues, pend) && Ends(nodes, spans, root, elems)
      requires Points(nodes, spans, n0, p0, g) && (pend == null || (pend == root == n0 && n0.leaf && n0.count == 0))
      modifies this`root, this`nodes, this`spans, this`elems, nodes
      ensures 0 <= g <= |old(elems)| && elems == E.InsertAt(old(elems), g, x)
      ensures Struct(nodes, spans, root, elems, kNodeValues, null) && Ends(nodes, spans, root, elems)
      ensures Points(nodes, spans, n, position, g) && position < n.count && fresh(nodes - old(nodes))
    {
      hide Struct, Ends;
      n, position := ToLeaf(n0, p0, g, pend);
      InsertSetting(n, position, g, nodes, spans, root, elems, kNodeValues, pend);
      n, position := MakeRoom(n, position, g, pend);
      ghost var G := spans;
      spans := AddToLeaf(n, position, x, nodes, spans, root, elems, kNodeValues, n, Raw(nodes));
      EndsAfterInsert(nodes, G, spans, root, elems, g, x);
      elems := E.InsertAt(elems, g, x);
    }

    /** The state between operations: a B-tree, or nothing. */
    ghost predicate Valid()
      reads this, nodes
    {
      && kNodeValues >= 3 && Sorted(elems)
      && if root == null then nodes == {} && spans == map[] && elems == []
         else Struct(nodes, spans, root, elems, kNodeValues, null) && Ends(nodes, spans, root, elems)
    }

    constructor (capacity: nat, searchType: SearchType)
      requires capacity >= 3
      ensures Valid() && kNodeValues == capacity && search == searchType && root == null && elems == [] && nodes == {}
    {
      kNodeValues, search, root := capacity, searchType, null;
      nodes, spans, elems := {}, map[], [];
    }

    /** The first root of an empty tree: a leaf for one value. */
    method FirstRoot()
      requires Valid() && root == null
      modifies this`root, this`nodes, this`spans
      ensures root != null && Struct(nodes, spans, root, elems, kNodeValues, root) && Ends(nodes, spans, root, elems)
      ensures root.leaf && root.count == 0 && fresh(nodes)
    {
      root := new Node.Leaf(null, 1);
      nodes, spans := {root}, map[root := Span(0, 0, 0)];
      OneLeafTree(root, [], kNodeValues, root);
    }

    /** insert_unique: x goes in where its key belongs, unless the key is there; the iterator returned stands at
        the value with that key, in-order index g. */
    method InsertUnique(x: Entry) returns (n: Node, position: int, inserted: bool, ghost g: int)
      requires Valid()
      modifies this`root, this`nodes, this`spans, this`elems, nodes
      ensures Valid() && fresh(nodes - old(nodes))
      ensures inserted <==> !HasKey(old(elems), x.key)
      ensures Bound(old(elems), x.key, false, g)
      ensures elems == if inserted then E.InsertAt(old(elems), g, x) else old(elems)
      ensures AsMap(elems) == if x.key in old(AsMap(elems)) then old(AsMap(elems))
          else old(AsMap(elems))[x.key := x.data]
      ensures root != null && Points(nodes, spans, n, position, g) && position < n.count && elems[g].key == x.key
    {
      hide Struct, Points, AsMap, HasKey;
      ghost var pend: Node? := null;
      if root == null {
        FirstRoot();
        pend := root;
      }
      var exact;
      n, position, exact, g := Locate(root, x.key, search, nodes, spans, elems, kNodeValues, pend);
      if exact {
        PresentKey(elems, x.key, g);
        var last: Node?;
        last, position := InternalLast(n, position, nodes, spans, root, elems, kNodeValues, pend, g);
        return last, position, false, g;
      }
      if !search.CompareTo() {
        var last, lastPosition := InternalLast(n, position, nodes, spans, root, elems, kNodeValues, pend, g);
        if last != null {
          PointsAt(nodes, spans, root, elems, kNodeValues, pend, last, lastPosition, g);
          if !(x.key < last.values[lastPosition].key) {
            PresentKey(elems, x.key, g);
            return last, lastPosition, false, g;
          }
        }
      }
      InsertIntoMap(elems, g, x);
      if pend != null {
        PointsAt(nodes, spans, root, elems, kNodeValues, pend, n, position, g);
        LeafRootAlone(nodes, spans, root, elems, kNodeValues, pend);
      }
      n, position := InternalInsert(n, position, x, g, pend);
      inserted := true;
    }

    /** The insertion in front of an iterator, where the key fits. */
    method InsertBefore(n0: Node, p0: int, x: Entry, ghost h: int) returns (n: Node, position: int)
      requires Valid() && root != null && Stands(nodes, spans, elems, n0, p0, h) && 0 <= h <= |elems|
      requires (h > 0 ==> elems[h - 1].key < x.key) && (h < |elems| ==> x.key < elems[h].key)
      modifies this`root, this`nodes, this`spans, this`elems, nodes
      ensures Valid() && fresh(nodes - old(nodes)) && Bound(old(elems), x.key, false, h) && !HasKey(old(elems), x.key)
      ensures elems == E.InsertAt(old(elems), h, x)
      ensures root != null && Points(nodes, spans, n, position, h) && position < n.count && elems[h].key == x.key
    {
      hide Struct, Points, Stands, AsMap, HasKey;
      FitsBetween(elems, x.key, h);
      InsertIntoMap(elems, h, x);
      Place(n0, p0, h);
      n, position := InternalInsert(n0, p0, x, h, null);
    }

    /** Whether x belongs right before the element that the hint is at. */
    method FitsHere(n0: Node, p0: int, x: Entry, ghost h: int) returns (fits: bool)
      requires Valid() && root != null && Stands(nodes, spans, elems, n0, p0, h)
      requires h < |elems| ==> x.key < elems[h].key
      ensures 0 <= h <= |elems| && (fits <==> (h > 0 ==> elems[h - 1].key < x.key))
    {
      hide Struct, Ends, Points, Stands, AsMap, HasKey;
      var first, firstPosition := Begin();
      Same(n0, p0, h, first, firstPosition, 0);
      Place(n0, p0, h);
      fits := n0 == first && p0 == firstPosition;
      if !fits {
        var prev, p := Back(n0, p0, h);
        fits := prev.values[p].key < x.key;
      }
    }

    /** Whether x belongs right before the element after the hint. */
    method FitsAfter(n0: Node, p0: int, x: Entry, ghost h: int) returns (fits: bool, next: Node, p: int)
      requires Valid() && root != null && Stands(nodes, spans, elems, n0, p0, h) && 0 <= h < |elems|
      ensures Stands(nodes, spans, elems, next, p, h + 1) && h + 1 <= |elems|
      ensures fits <==> (h + 1 < |elems| ==> x.key < elems[h + 1].key)
    {
      hide Struct, Ends, Points, Stands, AsMap, HasKey;
      var last, lastPosition := End();
      next, p := Forward(n0, p0, h);
      Same(next, p, h + 1, last, lastPosition, |elems|);
      if h + 1 < |elems| { Shows(next, p, h + 1); }
      fits := (next == last && p == lastPosition) || x.key < next.values[p].key;
    }

    /** insert_unique with a hint: next to the hint if x belongs there, wherever it belongs otherwise. */
    method InsertHint(n0: Node?, p0: int, x: Entry, ghost h: int) returns (n: Node, position: int, ghost g: int)
      requires Valid() && (root != null ==> n0 != null && Stands(nodes, spans, elems, n0, p0, h))
      modifies this`root, this`nodes, this`spans, this`elems, nodes
      ensures Valid() && fresh(nodes - old(nodes)) && Bound(old(elems), x.key, false, g)
      ensures elems == if HasKey(old(elems), x.key) then old(elems) else E.InsertAt(old(elems), g, x)
      ensures root != null && Points(nodes, spans, n, position, g) && position < n.count && elems[g].key == x.key
    {
      hide Struct, Ends, Points, Stands, AsMap, HasKey;
      if root != null {
        var last, lastPosition := End();
        Same(n0, p0, h, last, lastPosition, |elems|);
        Place(n0, p0, h);
        if h < |elems| { Shows(n0, p0, h); }
        if (n0 == last && p0 == lastPosition) || x.key < n0.values[p0].key {
          var fits := FitsHere(n0, p0, x, h);
          if fits {
            n, position := InsertBefore(n0, p0, x, h);
            return n, position, h;
          }
        } else if n0.values[p0].key < x.key {
          var fits, next, p := FitsAfter(n0, p0, x, h);
          if fits {
            n, position := InsertBefore(next, p, x, h + 1);
            return n, position, h + 1;
          }
        } else {
          PresentKey(elems, x.key, h);
          return n0, p0, h;
        }
      }
      var inserted;
      n, position, inserted, g := InsertUnique(x);
    }

    /** operator++. */
    method Forward(n0: Node, p0: int, ghost g: int) returns (n: Node, position: int)
      requires Valid() && root != null && Stands(nodes, spans, elems, n0, p0, g) && g < |elems|
      ensures Stands(nodes, spans, elems, n, position, g + 1)
    {
      hide Struct;
      EndPlaces(nodes, spans, root, elems, kNodeValues);
      n, position := Increment(n0, p0, nodes, spans, root, elems, kNodeValues, g);
    }

    /** operator--. */
    method Back(n0: Node, p0: int, ghost g: int) returns (n: Node, position: int)
      requires Valid() && root != null && Stands(nodes, spans, elems, n0, p0, g) && g > 0
      ensures Stands(nodes, spans, elems, n, position, g - 1)
      ensures n.Shape() && 0 <= position < n.count && n.values[position] == elems[g - 1]
    {
      hide Struct;
      EndPlaces(nodes, spans, root, elems, kNodeValues);
      n, position := Decrement(n0, p0, nodes, spans, root, elems, kNodeValues, g);
      Shows(n, position, g - 1);
    }

    /** Decrementing undoes incrementing. */
    method ForwardAndBack(n0: Node, p0: int, ghost g: int) returns (n: Node, position: int)
      requires Valid() && root != null && Stands(nodes, spans, elems, n0, p0, g) && g < |elems|
      ensures n == n0 && position == p0
    {
      hide Struct, Stands;
      Same(n0, p0, g, n0, p0, g);
      n, position := Forward(n0, p0, g);
      n, position := Back(n, position, g + 1);
      Same(n, position, g, n0, p0, g);
    }

    /** increment_by(count) is count single increments. */
    method StepsAgree(n0: Node, p0: int, count: nat, ghost g: int) returns (n: Node, position: int, m: Node, q: int)
      requires Valid() && root != null && Stands(nodes, spans, elems, n0, p0, g) && g + count <= |elems|
      ensures n == m && position == q && Stands(nodes, spans, elems, n, position, g + count)
    {
      hide Struct, Stands;
      EndPlaces(nodes, spans, root, elems, kNodeValues);
      n, position := IncrementBy(n0, p0, count, nodes, spans, root, elems, kNodeValues, g);
      m, q := n0, p0;
      for i := 0 to count
        invariant Stands(nodes, spans, elems, m, q, g + i) && Stands(nodes, spans, elems, n, position, g + count)
      {
        m, q := Forward(m, q, g + i);
      }
      Same(n, position, g + count, m, q, g + count);
    }

    // ---- Erasure ----

    /** The first part of erase: the value leaves through a leaf. The iterator then stands at the next value, or,
        when the value was a delimiter, at the value before it, which now is the delimiter. */
    method TakeOut(n0: Node, p0: nat, ghost g: int) returns (n: Node, position: nat, internalDelete: bool)
      requires Struct(nodes, spans, root, elems, kNodeValues, null) && Ends(nodes, spans, root, elems)
      requires Points(nodes, spans, n0, p0, g) && p0 < n0.count
      modifies this`spans, this`elems, nodes
      ensures 0 <= g < |old(elems)| && elems == E.RemoveAt(old(elems), g)
      ensures Struct(nodes, spans, root, elems, kNodeValues, n) && Ends(nodes, spans, root, elems)
      ensures n in nodes && n in spans && n.leaf && Within(spans[n], position)
      ensures spans[n].lo + position == if internalDelete then g - 1 else g
      ensures internalDelete ==> 0 < g < |elems|
    {
      hide Struct;
      n, position, internalDelete := n0, p0, false;
      EraseSetting(n, position, g, nodes, spans, root, elems, kNodeValues);
      ghost var s, at := elems, g;
      if !n.leaf {
        var p: int;
        n, p := Decrement(n, position, nodes, spans, root, elems, kNodeValues, g);
        position := p;
        PointsAt(nodes, spans, root, elems, kNodeValues, null, n, position, g - 1);
        SwapDelimiter(n, position, n0, p0, nodes, spans, root, elems, kNodeValues, Raw(nodes));
        s, at := E.Swapped(s, g - 1, g), g - 1;
        SwapThenRemove(elems, g);
        internalDelete := true;
        root.size := root.size - 1;
      } else if !root.leaf {
        root.size := root.size - 1;
      }
      ghost var G := spans;
      spans := TakeFromLeaf(n, position, nodes, G, root, s, kNodeValues, Raw(nodes));
      EndsAfterRemove(nodes, G, spans, root, s, at);
      elems := E.RemoveAt(s, at);
    }

    /** try_shrink. */
    method TryShrink()
      requires Struct(nodes, spans, root, elems, kNodeValues, root) && Ends(nodes, spans, root, elems)
      modifies this`root, this`nodes, this`spans, nodes
      ensures root == null ==> nodes == {} && spans == map[] && elems == []
      ensures root != null ==> Struct(nodes, spans, root, elems, kNodeValues, null) && Ends(nodes, spans, root, elems)
      ensures root != null ==> LeavesKept(old(nodes), old(spans), nodes, spans)
      ensures nodes <= old(nodes)
    {
      hide Struct;
      ghost var ns, G, s := nodes, spans, elems;
      var r: Node := root;
      ShrinkSetting(r, ns, G, s, kNodeValues);
      if r.count > 0 {
        PendFilled(ns, G, r, s, kNodeValues, r, null);
        return;
      }
      if r.leaf {
        root, nodes, spans := null, {}, map[];
      } else {
        var child := r.children[0];
        if child.leaf {
          spans := DropToLeaf(r, child, ns, G, s, kNodeValues);
          nodes := {child};
          root := child;
        } else {
          spans := DropInnerChild(r, child, ns, G, s, kNodeValues, Raw(ns));
          nodes := nodes - {child};
        }
      }
    }

    /** The loop of erase: merges and rebalances from the leaf up. The place of the leaf's iterator, in-order
        index t, is followed through every step. */
    method CloseGap(n0: Node, p0: int, ghost t: int) returns (res: Node, resPosition: int)
      requires Struct(nodes, spans, root, elems, kNodeValues, n0) && Ends(nodes, spans, root, elems)
      requires n0 in nodes && n0 in spans && n0.leaf && spans[n0].lo + p0 == t && Within(spans[n0], p0)
      modifies this`root, this`nodes, this`spans, nodes
      ensures root == null ==> nodes == {} && spans == map[] && elems == []
      ensures root != null ==> Struct(nodes, spans, root, elems, kNodeValues, null) && Ends(nodes, spans, root, elems)
      ensures root != null ==>
        res in nodes && res in spans && res.leaf && spans[res].lo + resPosition == t && Within(spans[res], resPosition)
      ensures nodes <= old(nodes)
    {
      hide Struct, Ends;
      var n, position := n0, p0;
      res, resPosition := n, position;
      ghost var ns0 := nodes;
      RootOnTop(nodes, spans, root, elems, kNodeValues, n);
      while true
        invariant root != null && n in nodes && n in spans && root in spans && nodes <= ns0
        invariant Struct(nodes, spans, root, elems, kNodeValues, n) && Ends(nodes, spans, root, elems)
        invariant res in nodes && res in spans && res.leaf && spans[res].lo + resPosition == t
        invariant Within(spans[res], resPosition)
        invariant n.leaf ==> res == n && resPosition == position
        decreases spans[root].h - spans[n].h
      {
        RootOnTop(nodes, spans, root, elems, kNodeValues, n);
        if n == root {
          TryShrink();
          break;
        }
        if n.count >= kNodeValues / 2 {
          PendFilled(nodes, spans, root, elems, kNodeValues, n, null);
          break;
        }
        var merged;
        ghost var giver: Node?;
        merged, n, position, nodes, spans, giver :=
          TryMergeOrRebalance(n, position, root, nodes, spans, elems, kNodeValues);
        if n.leaf {
          res, resPosition := n, position;
        }
        if !merged {
          break;
        }
        n := n.parent;
        Sizes(n, nodes, spans, root, elems, kNodeValues, n);
      }
    }

    /** erase: the value at in-order index g goes, and the iterator returned stands at the value after it, or
        at the end; null once the tree is empty. */
    method Erase(n0: Node, p0: nat, ghost g: int) returns (n: Node?, position: int)
      requires Valid() && root != null && Points(nodes, spans, n0, p0, g) && p0 < n0.count
      modifies this`root, this`nodes, this`spans, this`elems, nodes
      ensures Valid() && nodes <= old(nodes)
      ensures 0 <= g < |old(elems)| && elems == E.RemoveAt(old(elems), g)
      ensures AsMap(elems) == old(AsMap(elems)) - {old(elems)[g].key}
      ensures n == null <==> root == null
      ensures n != null ==> Stands(nodes, spans, elems, n, position, g)
    {
      hide Struct, Ends, Points, Stands, AsMap;
      ghost var s := elems;
      var m, p, internalDelete := TakeOut(n0, p0, g);
      RemoveFromMap(s, g);
      ghost var t := if internalDelete then g - 1 else g;
      var res;
      res, p := CloseGap(m, p, t);
      if root == null {
        return null, 0;
      }
      LeafPlace(res, p, t, nodes, spans, root, elems, kNodeValues);
      n, position := res, p;
      if p == res.count {
        position := res.count - 1;
        n, position := Increment(res, position, nodes, spans, root, elems, kNodeValues, t - 1);
      }
      if internalDelete {
        StandsInside(nodes, spans, elems, n, position, t);
        n, position := Increment(n, position, nodes, spans, root, elems, kNodeValues, t);
      }
    }

    /** erase_unique. */
    method EraseUnique(k: real) returns (erased: nat)
      requires Valid()
      modifies this`root, this`nodes, this`spans, this`elems, nodes
      ensures Valid() && nodes <= old(nodes)
      ensures erased == if k in old(AsMap(elems)) then 1 else 0
      ensures AsMap(elems) == old(AsMap(elems)) - {k}
    {
      hide Struct, Ends, Points, Stands, AsMap, HasKey;
      Lookup(elems, k);
      var n, position, g := InternalFind(k);
      if n == null {
        return 0;
      }
      var next, p := Erase(n, position, g);
      return 1;
    }

    /** What an iterator shows. */
    lemma Shows(n: Node, position: int, g: int)
      requires Valid() && root != null && Stands(nodes, spans, elems, n, position, g) && g < |elems|
      ensures n.Shape() && 0 <= position < n.count && n.values[position] == elems[g]
    {
      PointsAt(nodes, spans, root, elems, kNodeValues, null, n, position, g);
    }

    /** An iterator's place, for internal_insert. */
    lemma Place(n: Node, position: int, g: int)
      requires Valid() && root != null && Stands(nodes, spans, elems, n, position, g)
      ensures Points(nodes, spans, n, position, g) && 0 <= position && 0 <= g <= |elems|
      ensures g < |elems| ==> position < n.count
    {}

    /** Equality of iterators is equality of their places. */
    lemma Same(n: Node, i: int, g: int, m: Node, j: int, h: int)
      requires Valid() && root != null && Stands(nodes, spans, elems, n, i, g) && Stands(nodes, spans, elems, m, j, h)
      ensures (g == h <==> n == m && i == j) && 0 <= g <= |elems|
    {
      OnePlace(nodes, spans, root, elems, kNodeValues, n, i, g, m, j, h);
    }

    // ---- Looking up ----

    /** internal_find_unique. */
    method InternalFind(k: real) returns (n: Node?, position: int, ghost g: int)
      requires Valid()
      ensures n != null <==> HasKey(elems, k)
      ensures n != null ==>
          Points(nodes, spans, n, position, g) && 0 <= position < n.count && 0 <= g < |elems| && elems[g].key == k
    {
      hide Struct, Points, AsMap;
      g := 0;
      if root != null {
        var m, exact;
        EndPlaces(nodes, spans, root, elems, kNodeValues);
        m, position, exact, g := Locate(root, k, search, nodes, spans, elems, kNodeValues, null);
        if exact {
          PointsAt(nodes, spans, root, elems, kNodeValues, null, m, position, g);
          return m, position, g;
        }
        if !search.CompareTo() {
          n, position := InternalLast(m, position, nodes, spans, root, elems, kNodeValues, null, g);
          if n != null {
            PointsAt(nodes, spans, root, elems, kNodeValues, null, n, position, g);
            if !(k < n.values[position].key) {
              return n, position, g;
            }
          }
        }
        AbsentKey(elems, k, g);
      }
      return null, 0, g;
    }

    /** internal_lower_bound and internal_upper_bound. */
    method InternalBound(k: real, upper: bool) returns (n: Node?, position: int, ghost g: int)
      requires Valid()
      ensures Bound(elems, k, upper, g) && (n == null <==> g == |elems|)
      ensures n != null ==> Points(nodes, spans, n, position, g) && position < n.count
    {
      hide Struct, Points;
      n, position, g := root, 0, 0;
      if root != null {
        EndPlaces(nodes, spans, root, elems, kNodeValues);
        var m, p := DescendTo(root, k, upper, search, nodes, spans, elems, kNodeValues, null);
        g := spans[m].lo + p;
        n, position := InternalLast(m, p, nodes, spans, root, elems, kNodeValues, null, g);
      }
    }

    /** end. */
    method End() returns (n: Node?, position: int)
      requires Valid()
      ensures (n == null <==> root == null) && (n == null ==> position == 0)
      ensures n != null ==> Stands(nodes, spans, elems, n, position, |elems|)
    {
      hide Struct, Stands;
      n, position := null, 0;
      if root != null {
        EndPlaces(nodes, spans, root, elems, kNodeValues);
        n := if root.leaf then root else root.rightmost;
        position := n.count;
      }
    }

    /** begin. */
    method Begin() returns (n: Node?, position: int)
      requires Valid()
      ensures n == null <==> root == null
      ensures n != null ==> Stands(nodes, spans, elems, n, position, 0)
    {
      hide Struct, Stands;
      n, position := null, 0;
      if root != null {
        EndPlaces(nodes, spans, root, elems, kNodeValues);
        n := root.parent;
      }
    }

    /** lower_bound and upper_bound: the first value not before the bound, or the end. */
    method BoundOf(k: real, upper: bool) returns (n: Node?, position: int, ghost g: int)
      requires Valid()
      ensures Bound(elems, k, upper, g) && (n == null <==> root == null)
      ensures n != null ==> Stands(nodes, spans, elems, n, position, g)
    {
      hide Struct;
      n, position, g := InternalBound(k, upper);
      if n == null {
        n, position := End();
      }
    }

    /** find_unique: the value with key k, or the end. */
    method FindUnique(k: real) returns (n: Node?, position: int, ghost g: int)
      requires Valid()
      ensures (n == null <==> root == null) && (n == null ==> position == 0)
      ensures n != null ==> Stands(nodes, spans, elems, n, position, g)
      ensures g < |elems| ==> 0 <= g && elems[g].key == k
      ensures g < |elems| <==> HasKey(elems, k)
    {
      hide Struct;
      n, position, g := InternalFind(k);
      if n == null {
        n, position := End();
        g := |elems|;
      }
    }

    /** size. */
    method Size() returns (size: int)
      requires Valid()
      ensures size == |elems|
    {
      hide Struct;
      if root == null {
        return 0;
      }
      if root.leaf {
        LeafRootSize(root, nodes, spans, elems, kNodeValues);
        return root.count;
      }
      return root.size;
    }

    /** height: counts nodes round the circle from the root to its parent, the leftmost leaf, and back up. */
    method Height() returns (h: nat)
      requires Valid()
      ensures h == if root == null then 0 else if root in spans then spans[root].h + 1 else 0
      ensures root != null ==> root in spans && |elems| >= Pow2(h) - 1
      ensures root != null ==> forall n :: n in nodes && n.leaf && n in spans ==> spans[n].h == 0
    {
      h := 0;
      if root != null {
        EndPlaces(nodes, spans, root, elems, kNodeValues);
        Whole(nodes, spans, root, elems, kNodeValues, null);
        LeavesLevel(nodes, spans, root, elems, kNodeValues);
        TallIsFull(Snap(nodes), spans, root, elems, kNodeValues, root);
        hide Struct;
        h := 1;
        var n := root.parent;
        if n != root { NotRoot(n, nodes, spans, root, elems, kNodeValues, null); }
        while n != root
          invariant n in nodes && n in spans && h == spans[n].h + 1
          decreases spans[root].h - spans[n].h
        {
          h := h + 1;
          NotRoot(n, nodes, spans, root, elems, kNodeValues, null);
          Parent(n, nodes, spans, root, elems, kNodeValues, null);
          n := n.parent;
        }
      }
    }

    /** The loop of assign: from begin to end, one value after the other. */
    method Walk() returns (out: seq<Entry>)
      requires Valid()
      ensures out == elems
    {
      hide Struct;
      out := [];
      var n, position := Begin();
      var last, lastPosition := End();
      if n == null || last == null {
        return;
      }
      while n != last || position != lastPosition
        invariant n != null && last != null && |out| <= |elems| && out == elems[..|out|]
        invariant Stands(nodes, spans, elems, n, position, |out|)
        invariant Stands(nodes, spans, elems, last, lastPosition, |elems|)
        decreases |elems| - |out|
      {
        OnePlace(nodes, spans, root, elems, kNodeValues, n, position, |out|, last, lastPosition, |elems|);
        PointsAt(nodes, spans, root, elems, kNodeValues, null, n, position, |out|);
        var g := |out|;
        out := out + [n.values[position]];
        EndPlaces(nodes, spans, root, elems, kNodeValues);
        n, position := Increment(n, position, nodes, spans, root, elems, kNodeValues, g);
      }
      OnePlace(nodes, spans, root, elems, kNodeValues, n, position, |out|, last, lastPosition, |elems|);
    }
  }
}
