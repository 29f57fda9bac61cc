/** Rebalancing two siblings, from the objects to the heap. */
module BTreeRecut {
  import opened BTreeNode
  import opened BTreeShape
  import opened BTreeResplit
  import opened BTreeObjects

  /** What an operation on two siblings may assume of the objects around them: their joint row is V and K,
      their children are ks, and the parent's values are pv, with their delimiter at position at. */
  ghost predicate Around(ns: set<Node>, left: Node, right: Node, p: Node, at: int, pv: seq<Entry>,
                         V: seq<Entry>, K: seq<Node?>, ks: set<Node>)
    reads ns, left, right, p, left.Kids(), right.Kids(), left.parent
  {
    && left.Neighbours(right) && left.parent == p && left.position == at && p.Vals() == pv
    && V == left.JointVals(right) && K == left.JointRow(right)
    && |V| == left.count + 1 + right.count && (if left.leaf then K == [] else |K| == |V| + 1)
    && ks == left.Kids() + right.Kids()
  }

  /** The joint row is now cut after left's last value. */
  ghost predicate CutRows(left: Node, right: Node, p: Node, at: int, pv: seq<Entry>, V: seq<Entry>, K: seq<Node?>)
    reads left, right, p, left.Kids(), right.Kids()
  {
    && left.count < |V| && 0 <= at < |pv| && (left.leaf || left.count + 1 < |K|)
    && left.Vals() == V[..left.count] && right.Vals() == V[left.count + 1..]
    && left.Row() == (if left.leaf then [] else K[..left.count + 1])
    && right.Row() == (if left.leaf then [] else K[left.count + 1..])
    && p.Vals() == pv[at := V[left.count]]
    && left.Shape() && right.Shape() && p.Shape() && left.Linked() && right.Linked()
  }

  /** Whether toMove values may go from one sibling to the other. */
  ghost predicate Movable(left: Node, right: Node, toMove: nat, toLeft: bool)
    reads left, right
  {
    && 1 <= toMove
    && if toLeft then right.count >= left.count && toMove < right.count && left.count + toMove <= left.maxCount
       else left.count >= right.count && toMove < left.count && right.count + toMove <= left.maxCount
  }

  /** rebalance_right_to_left (toLeft) or rebalance_left_to_right, with what it does to each object. */
  method Recut(left: Node, right: Node, toMove: nat, toLeft: bool, ghost ns: set<Node>, ghost p: Node,
               ghost at: int, ghost pv: seq<Entry>, ghost V: seq<Entry>, ghost K: seq<Node?>, ghost ks: set<Node>)
    requires Around(ns, left, right, p, at, pv, V, K, ks) && Movable(left, right, toMove, toLeft)
    modifies left`values, left`count, left`children, right`values, right`count, right`children, p`values
    modifies ks`parent, ks`position
    ensures left.count == if toLeft then old(left.count) + toMove else old(left.count) - toMove
    ensures CutRows(left, right, p, at, pv, V, K)
  {
    if toLeft {
      RecutLeft(left, right, toMove, ns, p, at, pv, V, K, ks);
    } else {
      RecutRight(left, right, toMove, ns, p, at, pv, V, K, ks);
    }
  }

  method RecutLeft(left: Node, right: Node, toMove: nat, ghost ns: set<Node>, ghost p: Node,
                   ghost at: int, ghost pv: seq<Entry>, ghost V: seq<Entry>, ghost K: seq<Node?>, ghost ks: set<Node>)
    requires Around(ns, left, right, p, at, pv, V, K, ks) && Movable(left, right, toMove, true)
    modifies left`values, left`count, left`children, right`values, right`count, right`children, p`values
    modifies ks`parent, ks`position
    ensures left.count == old(left.count) + toMove
    ensures CutRows(left, right, p, at, pv, V, K)
  {
    ghost var was := p.values;
    assert pv == was[..p.count];
    hide Node.JointVals, Node.JointRow, Node.Vals, Node.Row, Node.Kids;
    left.RebalanceRightToLeft(right, toMove);
    NoRow(left);
    NoRow(right);
    UpdatedVals(p, was, at, V[left.count]);
  }

  method RecutRight(left: Node, right: Node, toMove: nat, ghost ns: set<Node>, ghost p: Node,
                   ghost at: int, ghost pv: seq<Entry>, ghost V: seq<Entry>, ghost K: seq<Node?>, ghost ks: set<Node>)
    requires Around(ns, left, right, p, at, pv, V, K, ks) && Movable(left, right, toMove, false)
    modifies left`values, left`count, left`children, right`values, right`count, right`children, p`values
    modifies ks`parent, ks`position
    ensures left.count == old(left.count) - toMove
    ensures CutRows(left, right, p, at, pv, V, K)
  {
    ghost var was := p.values;
    assert pv == was[..p.count];
    hide Node.JointVals, Node.JointRow, Node.Vals, Node.Row, Node.Kids;
    left.RebalanceLeftToRight(right, toMove);
    NoRow(left);
    NoRow(right);
    UpdatedVals(p, was, at, V[left.count]);
  }

  /** A rebalance, with what it does to all nodes. */
  method RecutAll(left: Node, right: Node, toMove: nat, toLeft: bool, ghost ns: set<Node>, ghost p: Node, ghost at: int,
                  ghost pv: seq<Entry>, ghost V: seq<Entry>, ghost K: seq<Node?>, ghost ks: set<Node>,
                      ghost F: map<Node?, Fields>)
    requires Around(ns, left, right, p, at, pv, V, K, ks) && Movable(left, right, toMove, toLeft)
    requires Apart(ns, left, right, p, ks) && Recorded(ns, F)
    modifies ns`position, ns`count, ns`parent, ns`values, ns`children
    ensures left.count == if toLeft then old(left.count) + toMove else old(left.count) - toMove
    ensures CutRows(left, right, p, at, pv, V, K)
    ensures p.count == F[p].count && p.children == F[p].children
    ensures RowsKept(ns, F, {left, right, p}) && LinksKept(ns, F, ks, ks)
  {
    hide Around, CutRows, Movable;
    Recut(left, right, toMove, toLeft, ns, p, at, pv, V, K, ks);
    forall n {:trigger F[n]} | n in ns && n !in {left, right, p}
      ensures n in F && n.values == F[n].values && n.children == F[n].children && n.count == F[n].count
    {
      assert n in F;
    }
    forall n {:trigger F[n]} | n in ns
      ensures n in F && (n !in ks ==> n.parent == F[n].parent && n.position == F[n].position)
    {
      assert n in F;
    }
  }

  /** Every child in a cut row points at the node it is under. */
  lemma RowLinks(left: Node, right: Node, p: Node, at: int, pv: seq<Entry>, V: seq<Entry>, K: seq<Node?>, i: nat)
    requires CutRows(left, right, p, at, pv, V, K) && left.leaf == right.leaf
    requires (if left.leaf then K == [] else |K| == |V| + 1) && i < |K|
    ensures K[i] != null && K[i].parent == (if i <= left.count then left else right)
    ensures K[i].position == (if i <= left.count then i else i - left.count - 1)
  {
    LinkedRow(left);
    LinkedRow(right);
    assert K[i] == if i <= left.count then left.Row()[i] else right.Row()[i - left.count - 1];
  }

  /** The situation after RecutAll, H being the heap before it. */
  ghost predicate WasCut(left: Node, right: Node, p: Node, at: int, ns: set<Node>, V: seq<Entry>, K: seq<Node?>,
                         ks: set<Node>,
                         F: map<Node?, Fields>, H: Heap)
    reads ns, left, right, p, left.Kids(), right.Kids()
  {
    && Shows(ns, F, H) && RowsKept(ns, F, {left, right, p}) && LinksKept(ns, F, ks, ks)
    && Apart(ns, left, right, p, ks) && left.leaf == right.leaf
    && p in H && CutRows(left, right, p, at, H[p].vals, V, K) && p.count == F[p].count && p.children == F[p].children
    && (if left.leaf then K == [] else |K| == |V| + 1) && (forall c {:trigger c in K} :: c in K ==> c in ks)
    && (forall c {:trigger c in ks} :: c in ks ==> c in K)
  }

  lemma CutThree(left: Node, right: Node, p: Node, at: int, ns: set<Node>, V: seq<Entry>, K: seq<Node?>, ks: set<Node>,
                 F: map<Node?, Fields>, H: Heap)
    requires WasCut(left, right, p, at, ns, V, K, ks, F, H)
    ensures left.count < |V| && 0 <= at < |H[p].vals| && H[left].leaf == left.leaf
    ensures RecOf(left) == H[left].(vals := V[..left.count], kids := if left.leaf then [] else K[..left.count + 1])
    ensures RecOf(right) == H[right].(vals := V[left.count + 1..], kids := if left.leaf then []
        else K[left.count + 1..])
    ensures RecOf(p) == H[p].(vals := H[p].vals[at := V[left.count]])
  {
    hide Node.Linked, Node.Kids;
    RecKept(left, ns, F, H, {left, right, p}, ks, ks);
    RecKept(right, ns, F, H, {left, right, p}, ks, ks);
    RecKept(p, ns, F, H, {left, right, p}, ks, ks);
  }

  lemma CutLink(left: Node, right: Node, p: Node, at: int, ns: set<Node>, V: seq<Entry>, K: seq<Node?>, ks: set<Node>,
                F: map<Node?, Fields>, H: Heap, i: nat)
    requires WasCut(left, right, p, at, ns, V, K, ks, F, H) && i < |K|
    ensures K[i] != null && K[i].parent == (if i <= left.count then left else right)
    ensures K[i].position == (if i <= left.count then i else i - left.count - 1)
  {
    hide CutRows, LinksKept, RowsKept, Shows;
    RowLinks(left, right, p, at, H[p].vals, V, K, i);
  }

  lemma CutKid(left: Node, right: Node, p: Node, at: int, ns: set<Node>, V: seq<Entry>, K: seq<Node?>, ks: set<Node>,
               F: map<Node?, Fields>, H: Heap, i: nat)
    requires WasCut(left, right, p, at, ns, V, K, ks, F, H) && i < |K|
    ensures K[i] in ns && K[i] in H
    ensures RecOf(K[i]) == H[K[i]].(parent := if i <= left.count then left else right,
                                    position := if i <= left.count then i else i - left.count - 1)
  {
    hide LiveRec, CutRows;
    assert K[i] in K;
    CutLink(left, right, p, at, ns, V, K, ks, F, H, i);
    RecKept(K[i], ns, F, H, {left, right, p}, ks, ks);
  }

  lemma CutOther(left: Node, right: Node, p: Node, at: int, ns: set<Node>, V: seq<Entry>, K: seq<Node?>, ks: set<Node>,
                 F: map<Node?, Fields>, H: Heap, n: Node)
    requires WasCut(left, right, p, at, ns, V, K, ks, F, H) && n in ns && n !in {left, right, p} && n !in K
    ensures n in H && RecOf(n) == H[n]
  {
    hide CutRows, LiveRec;
    RecKept(n, ns, F, H, {left, right, p}, ks, ks);
  }

  /** What RecutAll leaves is the heap with its row cut. */
  lemma CutHeap(left: Node, right: Node, p: Node, at: int, ns: set<Node>, V: seq<Entry>, K: seq<Node?>, ks: set<Node>,
                F: map<Node?, Fields>, H: Heap)
    requires WasCut(left, right, p, at, ns, V, K, ks, F, H)
    ensures RowCut(H, Snap(ns), left, right, p, at, left.count, V, K)
  {
    hide CutRows, RecOf, LiveRec, RowsKept, LinksKept, NodesCut, KidsMoved;
    var H' := Snap(ns);
    SameKeys(ns, H);
    assert NodesCut(H, H', left, right, p, at, left.count, V,
        K) by { CutNodes(left, right, p, at, ns, V, K, ks, F, H); }
    assert KidsMoved(H, H', left, right, left.count, K) by { CutKids(left, right, p, at, ns, V, K, ks, F, H); }
    forall n {:trigger H'[n]} | n in H && n !in {left, right, p} && n !in K ensures H'[n] == H[n] {
      CutOther(left, right, p, at, ns, V, K, ks, F, H, n);
    }
  }

  lemma CutNodes(left: Node, right: Node, p: Node, at: int, ns: set<Node>, V: seq<Entry>, K: seq<Node?>, ks: set<Node>,
                 F: map<Node?, Fields>, H: Heap)
    requires WasCut(left, right, p, at, ns, V, K, ks, F, H)
    ensures H.Keys == Snap(ns).Keys && NodesCut(H, Snap(ns), left, right, p, at, left.count, V, K)
  {
    hide CutRows, LiveRec, RowsKept, LinksKept, RecOf;
    SameKeys(ns, H);
    CutThree(left, right, p, at, ns, V, K, ks, F, H);
  }

  lemma CutKids(left: Node, right: Node, p: Node, at: int, ns: set<Node>, V: seq<Entry>, K: seq<Node?>, ks: set<Node>,
                F: map<Node?, Fields>, H: Heap)
    requires WasCut(left, right, p, at, ns, V, K, ks, F, H)
    ensures H.Keys == Snap(ns).Keys && KidsMoved(H, Snap(ns), left, right, left.count, K)
  {
    hide CutRows, LiveRec, RowsKept, LinksKept, RecOf;
    SameKeys(ns, H);
    forall i {:trigger K[i]} | 0 <= i < |K|
      ensures K[i] in H && Snap(ns)[K[i]] == H[K[i]].(parent := if i <= left.count then left else right,
                                                     position := if i <= left.count then i else i - left.count - 1)
    {
      CutKid(left, right, p, at, ns, V, K, ks, F, H, i);
    }
  }
}
