/** Splitting a node, from the objects to the heap. */
module BTreeHalve {
  import opened BTreeNode
  import opened BTreeShape
  import opened BTreeSplit
  import opened BTreeObjects

  /** What split may assume: node holds V and K with child set ks, its parent holds pv and pk with child set
      pks and has room, and dest is a new node of the same kind. */
  ghost predicate Around(ns: set<Node>, node: Node, dest: Node, p: Node, at: int, pv: seq<Entry>, pk: seq<Node?>,
                         V: seq<Entry>, K: seq<Node?>, ks: set<Node>, pks: set<Node>)
    reads node, dest, p, node.Kids(), p.Kids()
  {
    && node.parent == p && node.position == at && p.Vals() == pv && p.Row() == pk && node.Vals() == V && node.Row() == K
    && ks == node.Kids() && pks == p.Kids()
    && node.Shape() && dest.Shape() && p.Shape() && !p.leaf
    && node.leaf == dest.leaf && node.maxCount == dest.maxCount && dest.count == 0 && node.count >= 2
    && node.Linked() && p.Linked() && 0 <= at <= p.count < p.maxCount && p.children[at] == node
  }

  /** The objects a split touches are different, and all but dest are nodes of the tree. */
  ghost predicate Distinct(ns: set<Node>, node: Node, dest: Node, p: Node, ks: set<Node>, pks: set<Node>) {
    && node in ns && p in ns && dest !in ns && node != p && ks <= ns && pks <= ns
    && node !in ks && p !in ks && p !in pks && ks !! pks
  }

  /** The node's row is cut after its last value, which is a delimiter now, with dest to its right. */
  ghost predicate HalvedRows(node: Node, dest: Node, p: Node, at: int, pv: seq<Entry>, pk: seq<Node?>,
                             V: seq<Entry>, K: seq<Node?>)
    reads node, dest, p, node.Kids(), dest.Kids(), p.Kids()
  {
    && node.count < |V| && 0 <= at <= |pv| && |pk| == |pv| + 1 && (node.leaf || node.count + 1 < |K|)
    && node.Vals() == V[..node.count] && dest.Vals() == V[node.count + 1..]
    && node.Row() == (if node.leaf then [] else K[..node.count + 1])
    && dest.Row() == (if node.leaf then [] else K[node.count + 1..])
    && p.Vals() == pv[..at] + [V[node.count]] + pv[at..] && p.Row() == pk[..at + 1] + [dest] + pk[at + 1..]
    && node.Shape() && dest.Shape() && p.Shape() && node.Linked() && dest.Linked() && p.Linked() && !p.leaf
    && dest.leaf == node.leaf && dest.maxCount == node.maxCount
  }

  /** split, with what it does to each object. */
  method Halve(node: Node, dest: Node, insertPosition: nat, ghost ns: set<Node>, ghost p: Node, ghost at: int,
               ghost pv: seq<Entry>, ghost pk: seq<Node?>, ghost V: seq<Entry>, ghost K: seq<Node?>,
               ghost ks: set<Node>, ghost pks: set<Node>)
    requires Around(ns, node, dest, p, at, pv, pk, V, K, ks, pks) && Distinct(ns, node, dest, p, ks, pks)
    modifies node`values, node`count, node`children, dest`values, dest`count, dest`children
    modifies dest`parent, dest`position, p`values, p`count, p`children, ks`parent, ks`position, pks`position
    ensures node.count == old(node.count) - 1 - old(node.SplitCount(insertPosition))
    ensures HalvedRows(node, dest, p, at, pv, pk, V, K)
  {
    assert |pv| == p.count && |pk| == p.count + 1 && |V| == node.count && (node.leaf || |K| == node.count + 1);
    assert ks !! {node, dest, p} && pks !! {dest, p};
    hide Node.Vals, Node.Row, Node.Kids;
    node.Split(dest, insertPosition);
    NoRow(node);
    NoRow(dest);
  }

  /** A split, with what it does to all nodes. */
  method HalveAll(node: Node, dest: Node, insertPosition: nat, ghost ns: set<Node>, ghost p: Node, ghost at: int,
                  ghost pv: seq<Entry>, ghost pk: seq<Node?>, ghost V: seq<Entry>, ghost K: seq<Node?>,
                  ghost ks: set<Node>, ghost pks: set<Node>, ghost F: map<Node?, Fields>)
    requires Around(ns, node, dest, p, at, pv, pk, V, K, ks, pks)
    requires Distinct(ns, node, dest, p, ks, pks) && Recorded(ns, F)
    modifies ns`position, ns`count, ns`parent, ns`values, ns`children, dest
    ensures node.count == old(node.count) - 1 - old(node.SplitCount(insertPosition))
    ensures HalvedRows(node, dest, p, at, pv, pk, V, K)
    ensures RowsKept(ns, F, {node, p}) && LinksKept(ns, F, ks, ks + pks)
  {
    hide Around, HalvedRows;
    Halve(node, dest, insertPosition, ns, p, at, pv, pk, V, K, ks, pks);
    forall n {:trigger F[n]} | n in ns && n !in {node, p}
      ensures n in F && n.values == F[n].values && n.children == F[n].children && n.count == F[n].count
    {
      assert n in F;
    }
    forall n {:trigger F[n]} | n in ns
      ensures n in F && (n !in ks ==> n.parent == F[n].parent) && (n !in ks + pks ==> n.position == F[n].position)
    {
      assert n in F;
    }
  }

  /** The situation after HalveAll, H being the heap before it. */
  ghost predicate WasHalved(node: Node, dest: Node, p: Node, at: int, ns: set<Node>, ks: set<Node>, pks: set<Node>,
                            F: map<Node?, Fields>, H: Heap)
    reads ns, node, dest, p, node.Kids(), dest.Kids(), p.Kids()
  {
    && Shows(ns, F, H) && RowsKept(ns, F, {node, p}) && LinksKept(ns, F, ks, ks + pks)
    && Distinct(ns, node, dest, p, ks, pks)
    && node in H && p in H && H[p].parent == p.parent && H[node].leaf == node.leaf && H[node].parent == p &&
        H[node].position == at
    && 0 <= at < |H[p].kids| && |H[p].kids| == |H[p].vals| + 1 && H[p].kids[at] == node
    && (if node.leaf then H[node].kids == [] else |H[node].kids| == |H[node].vals| + 1)
    && HalvedRows(node, dest, p, at, H[p].vals, H[p].kids, H[node].vals, H[node].kids)
    && (forall c {:trigger c in H[node].kids} :: c in H[node].kids ==> c in ks)
    && (forall c {:trigger c in ks} :: c in ks ==> c in H[node].kids)
    && (forall c {:trigger c in H[p].kids} :: c in H[p].kids ==> c in pks)
    && (forall c {:trigger c in pks} :: c in pks ==> c in H[p].kids)
    && (forall i {:trigger H[p].kids[i]} :: 0 <= i < |H[p].kids| ==> H[p].kids[i] in H && H[H[p].kids[i]].position == i)
    && (forall i {:trigger H[node].kids[i]} :: 0 <= i < |H[node].kids| ==>
          H[node].kids[i] in H && H[H[node].kids[i]].position == i && H[H[node].kids[i]].parent == node)
  }

  lemma HalvedNodes(node: Node, dest: Node, p: Node, at: int, ns: set<Node>, ks: set<Node>, pks: set<Node>,
                    F: map<Node?, Fields>, H: Heap)
    requires WasHalved(node, dest, p, at, ns, ks, pks, F, H)
    ensures Snap(ns + {dest}).Keys == H.Keys + {dest} && node.count < |H[node].vals|
    ensures NodesSplit(H, Snap(ns + {dest}), node, dest, p, at, node.count)
  {
    hide Node.Linked, Node.Kids, LiveRec, RowsKept;
    RecKept(node, ns, F, H, {node, p}, ks, ks + pks);
    RecKept(p, ns, F, H, {node, p}, ks, ks + pks);
    LinkedRow(p);
    assert p.Row()[at] == node && p.Row()[at + 1] == dest;
  }

  lemma HalvedKid(node: Node, dest: Node, p: Node, at: int, ns: set<Node>, ks: set<Node>, pks: set<Node>,
                  F: map<Node?, Fields>, H: Heap, i: nat)
    requires WasHalved(node, dest, p, at, ns, ks, pks, F, H) && i < |H[node].kids|
    ensures var c := H[node].kids[i];
      c in H && c in ns && RecOf(c) == if i <= node.count then H[c]
          else H[c].(parent := dest, position := i - node.count - 1)
  {
    hide LiveRec, Node.Kids;
    var c := H[node].kids[i];
    assert c in H[node].kids && c in ks;
    LinkedRow(node);
    LinkedRow(dest);
    assert c == if i <= node.count then node.Row()[i] else dest.Row()[i - node.count - 1];
    RecKept(c, ns, F, H, {node, p}, ks, ks + pks);
  }

  lemma HalvedParentKid(node: Node, dest: Node, p: Node, at: int, ns: set<Node>, ks: set<Node>, pks: set<Node>,
                        F: map<Node?, Fields>, H: Heap, j: nat)
    requires WasHalved(node, dest, p, at, ns, ks, pks, F, H) && j < |H[p].kids| && j != at
    ensures var c := H[p].kids[j];
      c in H && c in ns && RecOf(c) == if j < at then H[c] else H[c].(position := j + 1)
  {
    hide LiveRec, Node.Kids;
    var c, i := H[p].kids[j], if j < at then j else j + 1;
    assert c in H[p].kids;
    LinkedRow(p);
    assert p.Row()[i] == c;
    RecKept(c, ns, F, H, {node, p}, ks, ks + pks);
  }

  lemma HalvedOther(node: Node, dest: Node, p: Node, at: int, ns: set<Node>, ks: set<Node>, pks: set<Node>,
                    F: map<Node?, Fields>, H: Heap, n: Node)
    requires WasHalved(node, dest, p, at, ns, ks, pks, F, H)
    requires n in ns && n !in {node, p} && n !in H[p].kids[at + 1..]
    requires node.count < |H[node].vals| && (H[node].leaf || n !in H[node].kids[node.count + 1..])
    ensures n in H && RecOf(n) == H[n]
  {
    hide HalvedRows, LiveRec;
    if n in pks {
      var j :| 0 <= j < |H[p].kids| && H[p].kids[j] == n;
      LaterIn(H[p].kids, j, at + 1);
      HalvedParentKid(node, dest, p, at, ns, ks, pks, F, H, j);
    } else if n in ks {
      var i :| 0 <= i < |H[node].kids| && H[node].kids[i] == n;
      if !node.leaf { LaterIn(H[node].kids, i, node.count + 1); }
      HalvedKid(node, dest, p, at, ns, ks, pks, F, H, i);
    } else {
      AllKept(n, ns, F, H, {node, p}, ks, ks + pks);
    }
  }

  /** What HalveAll leaves is the heap with the node split. */
  lemma HalveHeap(node: Node, dest: Node, p: Node, at: int, ns: set<Node>, ks: set<Node>, pks: set<Node>,
                  F: map<Node?, Fields>, H: Heap)
    requires WasHalved(node, dest, p, at, ns, ks, pks, F, H) && !H[p].leaf
    ensures SplitAt(H, Snap(ns + {dest}), node, dest, p, at, node.count)
  {
    hide HalvedRows, RecOf, LiveRec, RowsKept, LinksKept, NodesSplit;
    var H', k, pk, a := Snap(ns + {dest}), H[node].kids, H[p].kids, node.count;
    HalvedNodes(node, dest, p, at, ns, ks, pks, F, H);
    forall i {:trigger k[i]} | a < i < |k|
      ensures k[i] in H && H'[k[i]] == H[k[i]].(parent := dest, position := i - a - 1)
    {
      HalvedKid(node, dest, p, at, ns, ks, pks, F, H, i);
    }
    forall j {:trigger pk[j]} | at < j < |pk| ensures pk[j] in H && H'[pk[j]] == H[pk[j]].(position := j + 1) {
      HalvedParentKid(node, dest, p, at, ns, ks, pks, F, H, j);
    }
    forall n {:trigger H'[n]} | n in H && n !in {node, p} && (H[node].leaf || n !in k[a + 1..]) && n !in pk[at + 1..]
      ensures H'[n] == H[n]
    {
      HalvedOther(node, dest, p, at, ns, ks, pks, F, H, n);
    }
  }
}
