/** Closing the gap an erasure leaves (src/btree/btree.h, merge_nodes and try_merge_or_rebalance). */
module BTreeErase {
  import opened BTreeNode
  import opened BTreeShape
  import opened BTreeObjects
  import opened BTreeResplit
  import opened BTreeSteps
  import opened BTreeIter
  import opened BTreeRoom
  import C = BTreeRecut
  import E = BTreeEdit
  import M = BTreeMerge

  /** Every leaf still holds the stretch it held. */
  ghost predicate LeavesKept(ns: set<Node>, G: Spans, ns': set<Node>, G': Spans) {
    forall n {:trigger n in ns} :: n in ns && n.leaf && n in G ==> n in ns' && n in G' && G'[n] == G[n]
  }

  /** The place (node0, position0) of a leaf is the place (node, position) now. */
  ghost predicate SamePlace(G: Spans, node0: Node, position0: int, ns': set<Node>, G': Spans, node: Node, position: int)
  {
    && node0 in G && node in ns' && node in G' && node.leaf == node0.leaf
    && (node0.leaf ==> G'[node].lo + position == G[node0].lo + position0)
    && (node0.leaf && Within(G[node0], position0) ==> Within(G'[node], position))
  }

  /** A position that a node with this stretch has. */
  ghost predicate Within(sp: Span, position: int) {
    0 <= position && sp.lo + position <= sp.hi
  }

  lemma EndsAfterMerge(ns: set<Node>, G: Spans, G': Spans, root: Node, first: Node, last: Node?, s: seq<Entry>,
                       left: Node, right: Node)
    requires left in G && right in G && left != right && left.leaf == right.leaf && G' == M.MergedSpans(G, left, right)
    requires 0 <= G[left].lo <= G[left].hi && G[left].hi + 1 == G[right].lo <= G[right].hi <= |s| && left in ns
    requires root in ns && root != right && first in ns && First(G, first) && !root.leaf
    requires last in ns && Last(G, last, |s|)
    ensures first in ns - {right} && First(G', first)
    ensures (if last == right then left else last) in ns - {right}
    ensures Last(G', if last == right then left else last, |s|)
  {}

  /** merge_nodes. */
  method MergeNodes(left: Node, right: Node, root: Node, ghost ns: set<Node>, ghost G: Spans, ghost s: seq<Entry>,
                    ghost cap: nat, ghost pend: Node?) returns (ghost G': Spans)
    requires Struct(ns, G, root, s, cap, pend) && Ends(ns, G, root, s) && (pend == left || pend == right)
    requires Siblings(ns, root, left, right) && left.count + 1 + right.count <= cap
    modifies ns`position, ns`count, ns`parent, ns`values, ns`children, root`rightmost
    ensures Struct(ns - {right}, G', root, s, cap, left.parent) && Ends(ns - {right}, G', root, s)
    ensures left in G && right in G && left in ns && right in ns && right != root && left != right
    ensures left.leaf == right.leaf
    ensures G[left].h == G[right].h
    ensures G' == M.MergedSpans(G, left, right) && G[left].hi + 1 == G[right].lo <= G[right].hi && !root.leaf
    ensures left.count == old(left.count) + 1 + old(right.count)
    ensures left.parent == old(left.parent) && left.parent in G && G[left.parent].h == G[left].h + 1
    ensures left.parent in ns && left.parent != right
    ensures LeavesKept(ns - {left, right}, G, ns - {right}, G') && (!left.leaf ==> LeavesKept(ns, G, ns - {right}, G'))
  {
    hide Struct, Raw, RowsKept;
    SiblingSpans(left, right, ns, G, root, s, cap, pend);
    NotRoot(left, ns, G, root, s, cap, pend);
    MergeHeight(left, right, ns, G, root, s, cap, pend);
    ghost var first, last := root.parent, root.rightmost;
    hide Siblings;
    G' := Fuse(left, right, ns, G, root, s, cap, pend, Raw(ns));
    if right.leaf && root.rightmost == right {
      root.rightmost := left;
    }
    EndsAfterMerge(ns, G, G', root, first, last, s, left, right);
  }

  lemma NotRoot(n: Node, ns: set<Node>, G: Spans, root: Node?, s: seq<Entry>, cap: nat, pend: Node?)
    requires Struct(ns, G, root, s, cap, pend) && n in ns && n != root
    ensures root != null && root in ns && !root.leaf && n in G && root in G && G[n].h < G[root].h && n.parent in ns
  {
    RootOnTop(ns, G, root, s, cap, pend);
    Sizes(root, ns, G, root, s, cap, pend);
    Sizes(n, ns, G, root, s, cap, pend);
    Parent(n, ns, G, root, s, cap, pend);
  }

  lemma MergeHeight(left: Node, right: Node, ns: set<Node>, G: Spans, root: Node?, s: seq<Entry>, cap: nat, pend: Node?)
    requires Struct(ns, G, root, s, cap, pend) && Siblings(ns, root, left, right)
    ensures left.parent in G && left in G && G[left.parent].h == G[left].h + 1 && left.parent in ns
    ensures left.parent != right && left.parent != left
  {
    Parent(left, ns, G, root, s, cap, pend);
    Parent(right, ns, G, root, s, cap, pend);
  }

  /** Either rebalance of try_merge_or_rebalance: node0 gets values from its sibling. */
  method Balance(left: Node, right: Node, toMove: nat, toLeft: bool, position0: int, root: Node, ghost ns: set<Node>,
                 ghost G: Spans,
                 ghost s: seq<Entry>, ghost cap: nat) returns (position: int, ghost G': Spans)
    requires var node := if toLeft then left else right; var sibling := if toLeft then right else left;
      && Struct(ns, G, root, s, cap, node) && Ends(ns, G, root, s) && Siblings(ns, root, left, right)
      && 1 <= toMove < sibling.count && node.count + toMove <= cap && sibling.count >= node.count
    modifies ns`position, ns`count, ns`parent, ns`values, ns`children
    ensures Struct(ns, G', root, s, cap, null) && Ends(ns, G', root, s)
    ensures var node := if toLeft then left else right;
      SamePlace(G, node, position0, ns, G', node, position) && (!node.leaf ==> LeavesKept(ns, G, ns, G'))
    ensures root in G && root in G' && G'[root].h == G[root].h
    ensures left.count == if toLeft then old(left.count) + toMove else old(left.count) - toMove
    ensures right.count == if toLeft then old(right.count) - toMove else old(right.count) + toMove
  {
    hide Struct, Raw, RowsKept;
    ghost var node := if toLeft then left else right;
    SiblingSpans(left, right, ns, G, root, s, cap, node);
    NotRoot(left, ns, G, root, s, cap, node);
    if left.leaf {
      LeafSpan(left, ns, G, root, s, cap, node);
      LeafSpan(right, ns, G, root, s, cap, node);
    }
    assert left in ns && right in ns;
    G' := Rebalance(left, right, toMove, toLeft, ns, G, root, s, cap, node, Raw(ns));
    hide Siblings;
    position := if toLeft then position0 else position0 + toMove;
    EndsAfterCut(ns, G, G', root, s, left, right, G'[left].hi);
    if left.leaf {
      LeafSpan(left, ns, G', root, s, cap, null);
      LeafSpan(right, ns, G', root, s, cap, null);
    }
  }

  /** What try_merge_or_rebalance may use of a node short of values, and of its siblings. */
  lemma ShortSetting(n: Node, ns: set<Node>, G: Spans, root: Node?, s: seq<Entry>, cap: nat)
    requires Struct(ns, G, root, s, cap, n) && Ends(ns, G, root, s) && n in ns && n != root
    ensures var p := n.parent; p in ns && p.Shape() && !p.leaf && 0 <= n.position <= p.count && p.count >= 1 && cap >= 3
    ensures n.maxCount == cap && root in ns && root in G && n in G && n.parent in G
    ensures 0 < n.position ==>
        ShortSibling(n.parent.children[n.position - 1], ns, root, cap) &&
            Siblings(ns, root, n.parent.children[n.position - 1], n)
    ensures n.position < n.parent.count ==>
      ShortSibling(n.parent.children[n.position + 1], ns, root, cap) &&
          Siblings(ns, root, n, n.parent.children[n.position + 1])
    ensures n.leaf ==> G[n].hi == G[n].lo + n.count
  {
    NextTo(n, ns, G, root, s, cap, n);
    Sizes(n, ns, G, root, s, cap, n);
    Sizes(n.parent, ns, G, root, s, cap, n);
    Parent(n, ns, G, root, s, cap, n);
    RootOnTop(ns, G, root, s, cap, n);
    if n.position > 0 { Sizes(n.parent.children[n.position - 1], ns, G, root, s, cap, n); }
    if n.position < n.parent.count { Sizes(n.parent.children[n.position + 1], ns, G, root, s, cap, n); }
    if n.leaf { LeafSpan(n, ns, G, root, s, cap, n); }
  }

  /** A sibling has a value and no more than it can hold. */
  ghost predicate ShortSibling(n: Node?, ns: set<Node>, root: Node?, cap: nat)
    reads n
  {
    n != null && n in ns && n.maxCount == cap && 1 <= n.count <= cap
  }

  lemma LeftSpan(left: Node, ns: set<Node>, G: Spans, root: Node?, s: seq<Entry>, cap: nat, pend: Node?)
    requires Struct(ns, G, root, s, cap, pend) && left in ns
    ensures left in G && (left.leaf ==> G[left].hi == G[left].lo + left.count)
  {
    if left.leaf { LeafSpan(left, ns, G, root, s, cap, pend); } else { Sizes(left, ns, G, root, s, cap, pend); }
  }

  /** Whether a node's values, a sibling's and their delimiter fit into one node. */
  predicate Fits(sibling: Node?, node: Node)
    reads sibling, node
  {
    sibling != null && sibling.count + node.count < sibling.maxCount
  }

  /** Whether a sibling has values to spare, and the values were not taken from its side of the node. */
  predicate CanGive(sibling: Node?, cap: nat, away: bool)
    reads sibling
  {
    sibling != null && sibling.count > cap / 2 && away
  }

  /** try_merge_or_rebalance: merges the node with a sibling, or else tops it up from one, or leaves it. The
      place of a leaf's iterator stays the same; a node left alone is not empty. */
  method TryMergeOrRebalance(node0: Node, position0: int, root: Node, ghost ns: set<Node>, ghost G: Spans,
                             ghost s: seq<Entry>, cap: nat)
    returns (merged: bool, node: Node, position: int, ghost ns': set<Node>, ghost G': Spans, ghost giver: Node?)
    requires Struct(ns, G, root, s, cap, node0) && Ends(ns, G, root, s) && node0 in ns
    requires node0 != root && node0.count < cap / 2
    modifies ns`position, ns`count, ns`parent, ns`values, ns`children, root`rightmost
    ensures Ends(ns', G', root, s) && ns' <= ns && node in ns' && root in ns'
    ensures node0 in G && root in G && root in G' && G'[root].h == G[root].h
    ensures merged ==>
        Struct(ns', G', root, s, cap, node.parent) && node.parent in ns' && node.parent in G' &&
            G'[node.parent].h == G[node0].h + 1
    ensures !merged ==> Struct(ns', G', root, s, cap, null)
    ensures SamePlace(G, node0, position0, ns', G', node, position) && (!node0.leaf ==> LeavesKept(ns, G, ns', G'))
    ensures merged <==> old(
      || (0 < node0.position <= |node0.parent.children| && Fits(node0.parent.children[node0.position - 1], node0))
      || (0 <= node0.position < node0.parent.count && node0.position + 1 < |node0.parent.children|
          && Fits(node0.parent.children[node0.position + 1], node0)))
    ensures !merged ==> node == node0
    ensures !merged && giver != null ==>
      && old(node0.count) < node0.count && (giver.count == node0.count || giver.count == node0.count + 1)
      && giver in old(node0.parent.children) && giver != node0
    ensures !merged && giver == null ==>
        ns' == ns && G' == G && position == position0 && node0.count == old(node0.count)
    ensures !merged && giver == null ==> old(
      && !(0 < node0.position <= |node0.parent.children|
           && CanGive(node0.parent.children[node0.position - 1], cap, node0.count == 0 || position0 < node0.count))
      && !(0 <= node0.position < node0.parent.count && node0.position + 1 < |node0.parent.children|
           && CanGive(node0.parent.children[node0.position + 1], cap, node0.count == 0 || position0 > 0)))
  {
    hide Struct, Ends, Siblings;
    giver := null;
    ShortSetting(node0, ns, G, root, s, cap);
    node, position, ns', G' := node0, position0, ns, G;
    var parent := node0.parent;
    if node0.position > 0 {
      var left := parent.children[node0.position - 1];
      if 1 + left.count + node0.count <= left.maxCount {
        position := position + 1 + left.count;
        LeftSpan(left, ns, G, root, s, cap, node0);
        G' := MergeNodes(left, node0, root, ns, G, s, cap, node0);
        return true, left, position, ns - {node0}, G', null;
      }
    }
    if node0.position < parent.count {
      var right := parent.children[node0.position + 1];
      if 1 + node0.count + right.count <= right.maxCount {
        G' := MergeNodes(node0, right, root, ns, G, s, cap, node0);
        return true, node0, position, ns - {right}, G', null;
      }
      if right.count > cap / 2 && (node0.count == 0 || position > 0) {
        var toMove := (right.count - node0.count) / 2;
        toMove := Min(toMove, right.count - 1);
        position, G' := Balance(node0, right, toMove, true, position, root, ns, G, s, cap);
        return false, node0, position, ns, G', right;
      }
    }
    if node0.position > 0 {
      var left := parent.children[node0.position - 1];
      if left.count > cap / 2 && (node0.count == 0 || position < node0.count) {
        var toMove := (left.count - node0.count) / 2;
        toMove := Min(toMove, left.count - 1);
        position, G' := Balance(left, node0, toMove, false, position, root, ns, G, s, cap);
        return false, node0, position, ns, G', left;
      }
    }
    PendFilled(ns, G, root, s, cap, node0, null);
    return false, node0, position, ns, G', null;
  }

  // ---- Taking the value out ----

  /** What the root knows once the erasure under way is counted. */
  ghost predicate Discounted(ns: set<Node>, G: Spans, root: Node?, s: seq<Entry>)
    reads root
  {
    && root != null && root in ns && root.parent in ns && First(G, root.parent) && (root.leaf ==> root.parent == root)
    && (!root.leaf ==> root.rightmost in ns && Last(G, root.rightmost, |s|) && root.size == |s| - 1)
  }

  lemma EndsAfterRemove(ns: set<Node>, G: Spans, G': Spans, root: Node, s: seq<Entry>, g: int)
    requires Discounted(ns, G, root, s) && 0 <= g < |s| && G' == E.PulledSpans(G, g)
    ensures Ends(ns, G', root, E.RemoveAt(s, g))
  {}

  /** Exchanging a value with the one before it and removing that place removes the value. */
  lemma SwapThenRemove(s: seq<Entry>, g: int)
    requires 0 < g < |s|
    ensures E.RemoveAt(E.Swapped(s, g - 1, g), g - 1) == E.RemoveAt(s, g)
  {}
}
