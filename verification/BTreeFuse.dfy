/** Merging two siblings, from the objects to the heap. */
module BTreeFuse {
  import opened BTreeNode
  import opened BTreeShape
  import opened BTreeResplit
  import opened BTreeMerge
  import opened BTreeObjects

  /** What merge may assume: as for a rebalance, and the whole row of the parent, pk with child set pks. */
  ghost predicate Around(ns: set<Node>, left: Node, right: Node, p: Node, at: int, pv: seq<Entry>, pk: seq<Node?>,
                         V: seq<Entry>, K: seq<Node?>, ks: set<Node>, pks: set<Node>)
    reads ns, left, right, p, left.Kids(), right.Kids(), left.parent, p.Kids()
  {
    && left.Neighbours(right) && left.parent == p && left.position == at && p.Vals() == pv && p.Row() == pk
    && V == left.JointVals(right) && K == left.JointRow(right) && ks == left.Kids() + right.Kids() && pks == p.Kids()
    && left.count + 1 + right.count <= left.maxCount
    && p.Linked() && p !in pks && ks !! pks && p.children[at] == left && p.children[at + 1] == right
  }

  /** Everything is in left now, and the parent has neither the delimiter nor right. */
  ghost predicate FusedRows(left: Node, p: Node, at: int, pv: seq<Entry>, pk: seq<Node?>, V: seq<Entry>, K: seq<Node?>)
    reads left, p, left.Kids(), p.Kids()
  {
    && 0 <= at < |pv| && |pk| == |pv| + 1
    && left.Vals() == V && left.Row() == K
    && p.Vals() == pv[..at] + pv[at + 1..] && p.Row() == pk[..at + 1] + pk[at + 2..]
    && left.Shape() && p.Shape() && left.Linked() && p.Linked() && !p.leaf
  }

  /** merge, with what it does to each object. */
  method Fuse(left: Node, right: Node, ghost ns: set<Node>, ghost p: Node, ghost at: int, ghost pv: seq<Entry>,
              ghost pk: seq<Node?>, ghost V: seq<Entry>, ghost K: seq<Node?>, ghost ks: set<Node>, ghost pks: set<Node>)
    requires Around(ns, left, right, p, at, pv, pk, V, K, ks, pks)
    modifies left`values, left`count, left`children, right`values, right`count, right`children
    modifies p`values, p`count, p`children, ks`parent, ks`position, pks`position
    ensures FusedRows(left, p, at, pv, pk, V, K)
  {
    assert |pv| == p.count && |pk| == p.count + 1;
    hide Node.JointVals, Node.JointRow, Node.Vals, Node.Row, Node.Kids;
    left.Merge(right);
  }

  /** A merge, with what it does to all nodes. */
  method FuseAll(left: Node, right: Node, ghost ns: set<Node>, ghost p: Node, ghost at: int, ghost pv: seq<Entry>,
                 ghost pk: seq<Node?>, ghost V: seq<Entry>, ghost K: seq<Node?>, ghost ks: set<Node>,
                     ghost pks: set<Node>,
                 ghost F: map<Node?, Fields>)
    requires Around(ns, left, right, p, at, pv, pk, V, K, ks, pks)
    requires Apart(ns, left, right, p, ks) && pks <= ns && Recorded(ns, F)
    modifies ns`position, ns`count, ns`parent, ns`values, ns`children
    ensures FusedRows(left, p, at, pv, pk, V, K)
    ensures RowsKept(ns, F, {left, right, p}) && LinksKept(ns, F, ks, ks + pks)
  {
    hide Around, FusedRows;
    Fuse(left, right, ns, p, at, pv, pk, V, K, ks, pks);
    forall n {:trigger F[n]} | n in ns && n !in {left, right, p}
      ensures n in F && n.values == F[n].values && n.children == F[n].children && n.count == F[n].count
    {
      assert n in F;
    }
    forall n {:trigger F[n]} | n in ns
      ensures n in F && (n !in ks ==> n.parent == F[n].parent) && (n !in ks + pks ==> n.position == F[n].position)
    {
      assert n in F;
    }
  }

  /** The situation after FuseAll, H being the heap before it. */
  ghost predicate WasFused(left: Node, right: Node, p: Node, at: int, ns: set<Node>, ks: set<Node>, pks: set<Node>,
                           F: map<Node?, Fields>, H: Heap)
    reads ns, left, right, p, left.Kids(), p.Kids()
  {
    && Shows(ns, F, H) && RowsKept(ns, F, {left, right, p}) && LinksKept(ns, F, ks, ks + pks)
    && Apart(ns, left, right, p, ks) && ks !! pks && p !in pks
    && Pair(H, left, right, p, at)
    && FusedRows(left, p, at, H[p].vals, H[p].kids, PairVals(H, left, right, p, at), PairKids(H, left, right))
    && (forall c {:trigger c in PairKids(H, left, right)} :: c in PairKids(H, left, right) ==> c in ks)
    && (forall c {:trigger c in ks} :: c in ks ==> c in PairKids(H, left, right))
    && (forall c {:trigger c in H[p].kids} :: c in H[p].kids ==> c in pks)
    && (forall c {:trigger c in pks} :: c in pks ==> c in H[p].kids)
    && (forall i {:trigger H[p].kids[i]} :: 0 <= i < |H[p].kids| ==> H[p].kids[i] in H && H[H[p].kids[i]].position == i)
  }

  lemma FusedNodes(left: Node, right: Node, p: Node, at: int, ns: set<Node>, ks: set<Node>, pks: set<Node>,
                   F: map<Node?, Fields>, H: Heap)
    requires WasFused(left, right, p, at, ns, ks, pks, F, H)
    ensures Snap(ns - {right}).Keys == H.Keys - {right}
    ensures NodesMerged(H, Snap(ns - {right}), left, right, p, at, PairVals(H, left, right, p, at),
        PairKids(H, left, right))
  {
    hide Node.Linked, Node.Kids, LiveRec, PairVals, PairKids, RowsKept;
    RecKept(left, ns, F, H, {left, right, p}, ks, ks + pks);
    RecKept(p, ns, F, H, {left, right, p}, ks, ks + pks);
    LinkedRow(p);
    assert p.Row()[at] == left;
  }

  lemma FusedKid(left: Node, right: Node, p: Node, at: int, ns: set<Node>, ks: set<Node>, pks: set<Node>,
                 F: map<Node?, Fields>, H: Heap, i: nat)
    requires WasFused(left, right, p, at, ns, ks, pks, F, H) && i < |PairKids(H, left, right)|
    ensures var c := PairKids(H, left, right)[i];
      c in H && c in ns && c != right && RecOf(c) == H[c].(parent := left, position := i)
  {
    hide LiveRec, Node.Kids;
    var c := PairKids(H, left, right)[i];
    assert c in PairKids(H, left, right);
    LinkedRow(left);
    assert left.Row()[i] == c;
    RecKept(c, ns, F, H, {left, right, p}, ks, ks + pks);
  }

  lemma FusedParentKid(left: Node, right: Node, p: Node, at: int, ns: set<Node>, ks: set<Node>, pks: set<Node>,
                       F: map<Node?, Fields>, H: Heap, j: nat)
    requires WasFused(left, right, p, at, ns, ks, pks, F, H) && j < |H[p].kids| && j !in {at, at + 1}
    ensures var c := H[p].kids[j];
      c in H && c in ns && c != right && RecOf(c) == if j < at then H[c] else H[c].(position := j - 1)
  {
    hide LiveRec, Node.Kids;
    var c, i := H[p].kids[j], if j < at then j else j - 1;
    assert c in H[p].kids;
    LinkedRow(p);
    assert p.Row()[i] == c;
    RecKept(c, ns, F, H, {left, right, p}, ks, ks + pks);
  }

  lemma FusedOther(left: Node, right: Node, p: Node, at: int, ns: set<Node>, ks: set<Node>, pks: set<Node>,
                   F: map<Node?, Fields>, H: Heap, n: Node)
    requires WasFused(left, right, p, at, ns, ks, pks, F, H)
    requires n in ns && n !in {left, right, p} && n !in PairKids(H, left, right) && n !in H[p].kids[at + 2..]
    ensures n in H && RecOf(n) == H[n]
  {
    hide FusedRows, LiveRec;
    if n in pks {
      var j :| 0 <= j < |H[p].kids| && H[p].kids[j] == n;
      LaterIn(H[p].kids, j, at + 2);
      FusedParentKid(left, right, p, at, ns, ks, pks, F, H, j);
    } else {
      AllKept(n, ns, F, H, {left, right, p}, ks, ks + pks);
    }
  }

  /** What FuseAll leaves is the heap with the two nodes merged. */
  lemma FuseHeap(left: Node, right: Node, p: Node, at: int, ns: set<Node>, ks: set<Node>, pks: set<Node>,
                 F: map<Node?, Fields>, H: Heap)
    requires WasFused(left, right, p, at, ns, ks, pks, F, H)
    ensures Merged(H, Snap(ns - {right}), left, right, p, at)
  {
    hide FusedRows, RecOf, LiveRec, RowsKept, LinksKept, NodesMerged, PairVals, PairKids;
    var H', K, pk := Snap(ns - {right}), PairKids(H, left, right), H[p].kids;
    FusedNodes(left, right, p, at, ns, ks, pks, F, H);
    forall i {:trigger K[i]} | 0 <= i < |K|
      ensures K[i] in H && K[i] in H' && H'[K[i]] == H[K[i]].(parent := left, position := i)
    {
      FusedKid(left, right, p, at, ns, ks, pks, F, H, i);
    }
    forall j {:trigger pk[j]} | at + 2 <= j < |pk|
      ensures pk[j] in H && pk[j] in H' && H'[pk[j]] == H[pk[j]].(position := j - 1)
    {
      FusedParentKid(left, right, p, at, ns, ks, pks, F, H, j);
    }
    forall n {:trigger H'[n]} | n in H' && n !in {left, p} && n !in K && n !in pk[at + 2..] ensures H'[n] == H[n] {
      FusedOther(left, right, p, at, ns, ks, pks, F, H, n);
    }
  }
}
