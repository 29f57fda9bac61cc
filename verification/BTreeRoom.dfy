/** Making room for an insertion (src/btree/btree.h, rebalance_or_split), step by step. */
module BTreeRoom {
  import opened BTreeNode
  import opened BTreeShape
  import opened BTreeObjects
  import opened BTreeResplit
  import opened BTreeSteps
  import opened BTreeRootSteps
  import C = BTreeRecut
  import S = BTreeSplit

  // ---- What the root knows ----

  ghost predicate First(G: Spans, n: Node?) {
    n != null && n.leaf && n in G && G[n].lo == 0
  }

  ghost predicate Last(G: Spans, n: Node?, len: int) {
    n != null && n.leaf && n in G && G[n].hi == len
  }

  /** The root's parent is the leftmost leaf; an internal root also knows the rightmost leaf and the size. */
  ghost predicate Ends(ns: set<Node>, G: Spans, root: Node?, s: seq<Entry>)
    reads root
  {
    && root != null && root in ns && root.parent in ns && First(G, root.parent) && (root.leaf ==> root.parent == root)
    && (!root.leaf ==> root.rightmost in ns && Last(G, root.rightmost, |s|) && root.size == |s|)
  }

  /** Stretches of two siblings. */
  lemma SiblingSpans(left: Node, right: Node, ns: set<Node>, G: Spans, root: Node?, s: seq<Entry>, cap: nat,
                     pend: Node?)
    requires Struct(ns, G, root, s, cap, pend) && Siblings(ns, root, left, right)
    ensures left in G && right in G && left.parent in G && left != right && left.leaf == right.leaf
    ensures 0 <= G[left].lo <= G[left].hi && G[left].hi + 1 == G[right].lo <= G[right].hi <= |s|
    ensures G[left].h == G[right].h && G[left].h + 1 == G[left.parent].h
    ensures left.parent.Shape() && 0 <= left.position < left.parent.count
    ensures left.Shape() && right.Shape() && left.maxCount == cap && right.maxCount == cap
  {
    Neighbourhood(left, right, ns, G, root, s, cap, pend);
    Parent(left, ns, G, root, s, cap, pend);
    Parent(right, ns, G, root, s, cap, pend);
    var p, at := left.parent, left.position;
    InnerSpan(p, ns, G, root, s, cap, pend);
    hide Struct;
    var v, k := p.values[..p.count], p.children[..p.count + 1];
    assert k[at] == left && k[at + 1] == right;
    assert Glue(G, s, k[at], v[at], k[at + 1]);
    InsideAll(p, ns, G, root, s, cap, pend);
  }

  lemma InsideAll(n: Node, ns: set<Node>, G: Spans, root: Node?, s: seq<Entry>, cap: nat, pend: Node?)
    requires Struct(ns, G, root, s, cap, pend) && n in ns
    ensures n in G && 0 <= G[n].lo <= G[n].hi <= |s|
  {
    hide AllKids, AllApart, AllUp, Sized, AllFilled;
    assert TiledNode(Snap(ns), G, s, n);
  }

  // ---- Making room for an insertion ----

  /** Nodes below height h are as they were. */
  ghost predicate LowerKept(F: map<Node?, Fields>, G: Spans, F': map<Node?, Fields>, G': Spans, h: nat) {
    forall n {:trigger F[n]} :: n in F && n in G && G[n].h < h ==>
      && n in F' && n in G' && G'[n] == G[n]
      && F'[n].values == F[n].values && F'[n].count == F[n].count && F'[n].children == F[n].children
  }

  lemma LowerTrans(F: map<Node?, Fields>, G: Spans, F1: map<Node?, Fields>, G1: Spans, F2: map<Node?, Fields>,
                   G2: Spans,
                   h: nat, h1: nat)
    requires LowerKept(F, G, F1, G1, h1) && LowerKept(F1, G1, F2, G2, h) && h <= h1
    ensures LowerKept(F, G, F2, G2, h)
  {
    forall n {:trigger F[n]} | n in F && n in G && G[n].h < h
      ensures n in F2 && n in G2 && G2[n] == G[n]
      ensures F2[n].values == F[n].values && F2[n].count == F[n].count && F2[n].children == F[n].children
    {
      assert n in F1 && F1[n].values == F[n].values;
    }
  }

  /** node has room, and position in it is the gap that position0 in node0 was: the same in-order index in a
      leaf, the same child in an internal node. */
  ghost predicate Roomy(ns: set<Node>, G: Spans, cap: nat, node0: Node, position0: int, K0: seq<Node?>,
                        ns': set<Node>, G': Spans, node: Node, position: int)
    reads node`count, node`values, node`children
  {
    && node0 in G && node in ns' && node in G' && node.Shape() && node.count < node.maxCount == cap
    && node.leaf == node0.leaf && 0 <= position <= node.count && ns <= ns'
    && (node0.leaf ==> G'[node].lo + position == G[node0].lo + position0)
    && (!node0.leaf ==> 0 <= position0 < |K0| && position < |node.Row()| && node.Row()[position] == K0[position0])
  }

  lemma LowerAfter(ns: set<Node>, F: map<Node?, Fields>, G: Spans, ns': set<Node>, G': Spans, h: nat, but: set<Node>)
    requires RowsKept(ns, F, but) && F.Keys == ns && ns <= ns'
    requires forall n {:trigger G[n]} :: n in G && G[n].h < h ==> n !in but && n in G' && G'[n] == G[n]
    ensures LowerKept(F, G, Raw(ns'), G', h)
  {
    forall n {:trigger F[n]} | n in F && n in G && G[n].h < h
      ensures n in ns' && n in G' && G'[n] == G[n] && n.values == F[n].values
      ensures n.count == F[n].count && n.children == F[n].children
    {
      assert G[n] == G[n];
    }
  }

  lemma EndsAfterCut(ns: set<Node>, G: Spans, G': Spans, root: Node, s: seq<Entry>, left: Node, right: Node, m: int)
    requires Ends(ns, G, root, s) && left in G && right in G && left != right && G' == ResplitSpans(G, left, right, m)
    requires 0 <= G[left].lo <= G[left].hi && G[left].hi + 1 == G[right].lo <= G[right].hi <= |s|
    ensures Ends(ns, G', root, s)
  {}

  /** The gap after the rows of left and right, K0 and K1 before, were cut elsewhere; c is how many values left had. */
  lemma RoomAfterCut(ns: set<Node>, G: Spans, ns': set<Node>, G': Spans, root: Node?, s: seq<Entry>, cap: nat,
                     pend: Node?,
                     left: Node, right: Node, c: nat, K0: seq<Node?>, K1: seq<Node?>,
                     fromLeft: bool, position0: nat, toLeft: bool, position: nat)
    requires Struct(ns', G', root, s, cap, pend) && ns <= ns' && left in ns' && right in ns'
    requires left != right && left.leaf == right.leaf
    requires left in G && (!fromLeft ==> right in G) && left in G' && right in G'
    requires G'[left].lo == G[left].lo && G'[right].lo == G'[left].hi + 1 && left.maxCount == right.maxCount == cap
    requires left.leaf && !fromLeft ==> G[right].lo == G[left].lo + c + 1
    requires !left.leaf ==>
        |K0| == c + 1 && left.Row() + right.Row() == K0 + K1 && position0 < |if fromLeft then K0 else K1|
    requires (if fromLeft then 0 else c + 1) + position0 == (if toLeft then 0 else left.count + 1) + position
    requires position <= (if toLeft then left else right).count < cap
    ensures var node := if toLeft then left else right; var node0 := if fromLeft then left else right;
      Roomy(ns, G, cap, node0, position0, if fromLeft then K0 else K1, ns', G', node, position)
  {
    Record(left, ns');
    Record(right, ns');
    if left.leaf {
      LeafSpan(left, ns', G', root, s, cap, pend);
      LeafSpan(right, ns', G', root, s, cap, pend);
    } else {
      var i := (if fromLeft then 0 else c + 1) + position0;
      assert (K0 + K1)[i] == (if fromLeft then K0 else K1)[position0];
      assert (left.Row() + right.Row())[i] == (if toLeft then left else right).Row()[position];
    }
  }

  /** What a cut may use of the state before it. */
  lemma CutSetting(left: Node, right: Node, ns: set<Node>, G: Spans, root: Node?, s: seq<Entry>, cap: nat)
    requires Struct(ns, G, root, s, cap, null) && Siblings(ns, root, left, right)
    ensures left in G && right in G && left.parent in G && left != right && left.leaf == right.leaf
    ensures 0 <= G[left].lo <= G[left].hi && G[left].hi + 1 == G[right].lo <= G[right].hi <= |s|
    ensures G[left].h == G[right].h < G[left.parent].h && Raw(ns).Keys == ns
    ensures left.maxCount == cap && right.maxCount == cap && 1 <= left.count && 1 <= right.count
    ensures left.leaf ==> G[left].hi == G[left].lo + left.count
    ensures !left.leaf ==> |left.Row()| == left.count + 1 && |right.Row()| == right.count + 1
  {
    SiblingSpans(left, right, ns, G, root, s, cap, null);
    Sizes(left, ns, G, root, s, cap, null);
    Sizes(right, ns, G, root, s, cap, null);
    if left.leaf { LeafSpan(left, ns, G, root, s, cap, null); }
  }

  /** rebalance_or_split when the left sibling takes values. */
  method ShiftToLeft(node0: Node, position0: nat, left: Node, toMove: nat, ghost ns: set<Node>, ghost G: Spans,
                     ghost root: Node, ghost s: seq<Entry>, ghost cap: nat)
    returns (node: Node, position: nat, ghost G': Spans)
    requires Struct(ns, G, root, s, cap, null) && Ends(ns, G, root, s)
    requires Siblings(ns, root, left, node0) && node0.count == node0.maxCount && position0 <= node0.count
    requires left.count < left.maxCount && 1 <= toMove <= left.maxCount - left.count
    requires position0 >= toMove || left.count + toMove < left.maxCount
    modifies ns`position, ns`count, ns`parent, ns`values, ns`children
    ensures Struct(ns, G', root, s, cap, null) && Ends(ns, G', root, s)
    ensures Roomy(ns, G, cap, node0, position0, old(node0.Row()), ns, G', node, position)
    ensures node0 in G && LowerKept(old(Raw(ns)), G, Raw(ns), G', G[node0].h)
  {
    hide Struct, Node.Row, Raw, Roomy, LowerKept, RowsKept;
    ghost var F := Raw(ns);
    ghost var p, K0, K1, c := left.parent, left.Row(), node0.Row(), left.count;
    CutSetting(left, node0, ns, G, root, s, cap);
    hide Siblings;
    G' := Rebalance(left, node0, toMove, true, ns, G, root, s, cap, null, F);
    node, position := node0, position0;
    if position0 < toMove {
      position := position0 - toMove + left.count + 1;
      node := left;
    } else {
      position := position0 - toMove;
    }
    RoomAfterCut(ns, G, ns, G', root, s, cap, null, left, node0, c, K0, K1, false, position0, position0 < toMove,
        position);
    LowerAfter(ns, F, G, ns, G', G[node0].h, {left, node0, p});
    EndsAfterCut(ns, G, G', root, s, left, node0, G'[left].hi);
  }

  /** rebalance_or_split when the right sibling takes values. */
  method ShiftToRight(node0: Node, position0: nat, right: Node, toMove: nat, ghost ns: set<Node>, ghost G: Spans,
                      ghost root: Node, ghost s: seq<Entry>, ghost cap: nat)
    returns (node: Node, position: nat, ghost G': Spans)
    requires Struct(ns, G, root, s, cap, null) && Ends(ns, G, root, s)
    requires Siblings(ns, root, node0, right) && node0.count == node0.maxCount && position0 <= node0.count
    requires right.count < right.maxCount && 1 <= toMove <= right.maxCount - right.count
    requires position0 + toMove <= node0.count || right.count + toMove < right.maxCount
    modifies ns`position, ns`count, ns`parent, ns`values, ns`children
    ensures Struct(ns, G', root, s, cap, null) && Ends(ns, G', root, s)
    ensures Roomy(ns, G, cap, node0, position0, old(node0.Row()), ns, G', node, position)
    ensures node0 in G && LowerKept(old(Raw(ns)), G, Raw(ns), G', G[node0].h)
  {
    hide Struct, Node.Row, Raw, Roomy, LowerKept, RowsKept;
    ghost var F := Raw(ns);
    ghost var p, K0, K1, c := node0.parent, node0.Row(), right.Row(), node0.count;
    CutSetting(node0, right, ns, G, root, s, cap);
    hide Siblings;
    G' := Rebalance(node0, right, toMove, false, ns, G, root, s, cap, null, F);
    node, position := node0, position0;
    if position > node0.count {
      position := position - node0.count - 1;
      node := right;
    }
    RoomAfterCut(ns, G, ns, G', root, s, cap, null, node0, right, c, K0, K1, true, position0,
        position0 <= node0.count, position);
    LowerAfter(ns, F, G, ns, G', G[node0].h, {node0, right, p});
    EndsAfterCut(ns, G, G', root, s, node0, right, G'[node0].hi);
  }

  /** What a split may use of the state before it. */
  lemma SplitSetting(node: Node, ns: set<Node>, G: Spans, root: Node?, s: seq<Entry>, cap: nat, pend: Node?)
    requires Struct(ns, G, root, s, cap, pend) && node in ns && node != root && node.count == node.maxCount
    ensures node in G && node.parent in G && node.parent != node && node.parent in ns && !root.leaf && root != null
    ensures cap >= 3 && node.maxCount == cap && G[node].h < G[node.parent].h && Raw(ns).Keys == ns
    ensures !node.leaf ==> |node.Row()| == node.count + 1
  {
    Parent(node, ns, G, root, s, cap, pend);
    Sizes(node, ns, G, root, s, cap, pend);
    Record(node, ns);
    RootOnTop(ns, G, root, s, cap, pend);
    Sizes(root, ns, G, root, s, cap, pend);
  }

  /** A pending node that holds a value is pending no more. */
  lemma PendFilled(ns: set<Node>, G: Spans, root: Node?, s: seq<Entry>, cap: nat, pend: Node?, pend': Node?)
    requires Struct(ns, G, root, s, cap, pend)
    requires pend == null || pend == pend' || (pend in ns && pend.count >= 1)
    ensures Struct(ns, G, root, s, cap, pend')
  {
    hide AllTiled, AllKids, AllUp, AllApart, Sized;
    var H := Snap(ns);
    forall n | n in H ensures Filled(H, pend', n) {
      assert Filled(H, pend, n);
      Record(n, ns);
    }
  }

  /** The split at the end of rebalance_or_split; parent0 is only what the new node's parent starts as. */
  method SplitOff(node0: Node, position0: nat, parent0: Node, ghost ns: set<Node>, ghost G: Spans, root: Node,
                  ghost s: seq<Entry>, cap: nat, ghost pend: Node?)
    returns (node: Node, position: nat, ghost ns': set<Node>, ghost G': Spans)
    requires Struct(ns, G, root, s, cap, pend) && Ends(ns, G, root, s) && (pend == null || pend == node0.parent)
    requires node0 in ns && node0 != root && node0.count == node0.maxCount
    requires position0 <= node0.count && node0.parent.count < cap
    modifies ns`position, ns`count, ns`parent, ns`values, ns`children, root`rightmost
    ensures Struct(ns', G', root, s, cap, node) && Ends(ns', G', root, s) && fresh(ns' - ns) && ns < ns'
    ensures Roomy(ns, G, cap, node0, position0, old(node0.Row()), ns', G', node, position)
    ensures node0 in G && LowerKept(old(Raw(ns)), G, Raw(ns'), G', G[node0].h)
  {
    hide Struct, Node.Row, Raw, Roomy, LowerKept, RowsKept;
    ghost var F := Raw(ns);
    ghost var p, K0, c := node0.parent, node0.Row(), node0.count;
    SplitSetting(node0, ns, G, root, s, cap, pend);
    var splitNode: Node;
    if node0.leaf {
      splitNode := new Node.Leaf(parent0, cap);
    } else {
      splitNode := new Node.Internal(parent0, cap);
    }
    G' := Halve(node0, splitNode, position0, ns, G, root, s, cap, pend, F);
    ns' := ns + {splitNode};
    if node0.leaf && root.rightmost == node0 {
      root.rightmost := splitNode;
    }
    node, position := node0, position0;
    if position > node0.count {
      position := position - node0.count - 1;
      node := splitNode;
    }
    LowerAfter(ns, F, G, ns', G', G[node0].h, {node0, p});
    assert K0 + [] == K0;
    ghost var empty := if node0.count == 0 then node0 else splitNode;
    RoomAfterCut(ns, G, ns', G', root, s, cap, empty, node0, splitNode, c, K0, [], true, position0,
      position0 <= node0.count, position);
    PendFilled(ns', G', root, s, cap, empty, node);
  }

  /** How far below the root a node is. */
  ghost function Above(G: Spans, root: Node?, n: Node): nat {
    if root in G && n in G && G[n].h <= G[root].h then G[root].h - G[n].h else 0
  }

  function Max(a: int, b: int): int {
    if a < b then b else a
  }

  function Min(a: int, b: int): int {
    if a < b then a else b
  }

  /** Whether a sibling can relieve a full node: it has two free places, or one and the insertion does not go to the
      end of the node that is next to it. */
  predicate CanTake(sibling: Node?, away: bool)
    reads sibling
  {
    && sibling != null && sibling.count < sibling.maxCount
    && (sibling.maxCount - sibling.count == 1 ==> away)
  }

  /** How many values rebalance_or_split offers a sibling: all its room or half of it, at least one. */
  function Share(sibling: Node, spread: bool): (toMove: nat)
    reads sibling
    requires sibling.count < sibling.maxCount
    ensures 1 <= toMove <= sibling.maxCount - sibling.count
    ensures var room := sibling.maxCount - sibling.count;
      if spread && room > 1 then room == 2 * toMove || room == 2 * toMove + 1 else toMove == room
  {
    Max(1, (sibling.maxCount - sibling.count) / (if spread then 2 else 1))
  }

  /** A neighbour of a node that is not the root. */
  lemma NextTo(n: Node, ns: set<Node>, G: Spans, root: Node?, s: seq<Entry>, cap: nat, pend: Node?)
    requires Struct(ns, G, root, s, cap, pend) && n in ns && n != root
    ensures root != null && !root.leaf
    ensures var p := n.parent; p in ns && p.Shape() && !p.leaf && 0 <= n.position <= p.count
    ensures var p := n.parent;
      0 < n.position ==> p.children[n.position - 1] != null && Siblings(ns, root, p.children[n.position - 1], n)
    ensures var p := n.parent;
      n.position < p.count ==> p.children[n.position + 1] != null && Siblings(ns, root, n, p.children[n.position + 1])
  {
    var p := n.parent;
    Parent(n, ns, G, root, s, cap, pend);
    Children(p, ns, G, root, s, cap, pend);
    p.LinkedKids();
    RootOnTop(ns, G, root, s, cap, pend);
    Sizes(p, ns, G, root, s, cap, pend);
    Sizes(n, ns, G, root, s, cap, pend);
    Sizes(root, ns, G, root, s, cap, pend);
  }

  /** Room for n1 in a later state is room for n0, when n1 then stands where n0 stood before. */
  lemma RoomyVia(ns: set<Node>, G: Spans, n0: Node, K: seq<Node?>, ns1: set<Node>, G1: Spans, n1: Node, cap: nat,
                 position0: int,
                 ns2: set<Node>, G2: Spans, node: Node, position: int)
    requires Roomy(ns1, G1, cap, n1, position0, K, ns2, G2, node, position)
    requires ns <= ns1 && n0 in G && n1 in G1 && n0.leaf == n1.leaf && (n0.leaf ==> G[n0].lo == G1[n1].lo)
    ensures Roomy(ns, G, cap, n0, position0, K, ns2, G2, node, position)
  {}

  /** After room was made in its parent, a node hangs under a node with room. */
  lemma UnderRoomy(node0: Node, P: Node, k: int, K0: seq<Node?>, p0: Node, position0: int, ns: set<Node>, G: Spans,
                   ns1: set<Node>, G1: Spans, root: Node?, s: seq<Entry>, cap: nat)
    requires Struct(ns1, G1, root, s, cap, P) && Roomy(ns, G, cap, p0, position0, K0, ns1, G1, P, k)
    requires !p0.leaf && 0 <= position0 < |K0| && K0[position0] == node0
    ensures node0 in ns1 && node0.parent == P && node0 != root && P.count < cap && ns <= ns1
  {
    assert P.Row()[k] == node0;
    assert node0 in P.Row();
    hide Struct, Node.Row;
    Children(P, ns1, G1, root, s, cap, P);
    RootOnTop(ns1, G1, root, s, cap, P);
  }

  /** A node below height h has the row it had. */
  lemma LowerRow(n: Node, F: map<Node?, Fields>, G: Spans, ns': set<Node>, G': Spans, h: nat)
    requires LowerKept(F, G, Raw(ns'), G', h) && n in F && n in G && G[n].h < h
    ensures n in ns' && n in G' && G'[n] == G[n]
    ensures n.values == F[n].values && n.count == F[n].count && n.children == F[n].children
  {
    var f := F[n];
  }

  /** What a split below the root may use of the state before it. */
  lemma ParentSetting(n: Node, ns: set<Node>, G: Spans, root: Node?, s: seq<Entry>, cap: nat)
    requires Struct(ns, G, root, s, cap, null) && n in ns && n != root
    ensures var p := n.parent;
      && p in ns && p.maxCount == cap && !p.leaf && n in G && p in G && G[n].h < G[p].h && p.count <= cap
      && 0 <= n.position <= p.count && n.position < |p.Row()| && p.Row()[n.position] == n
    ensures Above(G, root, n.parent) < Above(G, root, n)
    ensures root != null && root in ns && !root.leaf && Raw(ns).Keys == ns && n in Raw(ns)
    ensures n.count == Raw(ns)[n].count && n.children == Raw(ns)[n].children
    ensures LowerKept(Raw(ns), G, Raw(ns), G, G[n.parent].h)
  {
    Parent(n, ns, G, root, s, cap, null);
    Sizes(n.parent, ns, G, root, s, cap, null);
    Sizes(n, ns, G, root, s, cap, null);
    RootOnTop(ns, G, root, s, cap, null);
    Sizes(root, ns, G, root, s, cap, null);
  }

  lemma CountKept(n: Node, ns: set<Node>, F: map<Node?, Fields>, but: set<Node>)
    requires RowsKept(ns, F, but) && n in ns && n !in but && F.Keys == ns
    ensures n.count == F[n].count
  {}

  lemma SameRow(n: Node, F: map<Node?, Fields>)
    requires n in F && n.count == F[n].count && n.children == F[n].children
    ensures n.Row() == if n.leaf then [] else if F[n].count < |F[n].children| then F[n].children[..F[n].count + 1]
        else F[n].children
  {}

  /** What a split of the root may use of the state before it. */
  lemma RootSetting(r: Node, ns: set<Node>, G: Spans, s: seq<Entry>, cap: nat)
    requires Struct(ns, G, r, s, cap, null) && Ends(ns, G, r, s)
    ensures r in ns && r in G && cap >= 3 && Raw(ns).Keys == ns && Raw(ns)[r].count == r.count
    ensures forall n {:trigger G[n]} :: n in G ==> n == r || G[n].h < G[r].h
    ensures r.leaf ==> G[r].lo == 0 && G[r].hi == |s| && r.parent == r && r.count == |s|
  {
    RootOnTop(ns, G, r, s, cap, null);
    Sizes(r, ns, G, r, s, cap, null);
    if r.leaf {
      LeafRootAlone(ns, G, r, s, cap, null);
      LeafSpan(r, ns, G, r, s, cap, null);
    }
  }
}
