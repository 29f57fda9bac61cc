/** Iterators: a node and a position in it, and the walks that move them (src/btree/btree.h, btree_iterator
    and the internal_* searches). */
module BTreeIter {
  import opened BTreeNode
  import opened BTreeShape
  import opened BTreeObjects
  import opened BTreeResplit
  import opened BTreeSteps
  import opened BTreeRootSteps
  import opened BTreeSearch
  import E = BTreeEdit

  /** The position stands at in-order index idx: in a leaf its own values count on from the leaf's start, in an
      internal node a position stands right after the stretch of its child. */
  ghost predicate Points(ns: set<Node>, G: Spans, n: Node, position: int, idx: int)
    reads n`count, n`children
  {
    && n in ns && n in G && 0 <= position <= n.count
    && (n.leaf ==> idx == G[n].lo + position)
    && (!n.leaf ==> position < |n.children| && n.children[position] in G && idx == G[n.children[position]].hi)
  }

  /** The root's parent is a leaf; every other node's parent is not. */
  ghost predicate RootMarked(root: Node?)
    reads root
  {
    root != null && root.parent.leaf
  }

  /** is_root recognises the root. */
  lemma IsRoot(n: Node, ns: set<Node>, G: Spans, root: Node?, s: seq<Entry>, cap: nat, pend: Node?)
    requires Struct(ns, G, root, s, cap, pend) && RootMarked(root) && n in ns
    ensures n.parent.leaf <==> n == root
  {
    if n != root { Parent(n, ns, G, root, s, cap, pend); }
  }

  /** The value a position stands at. */
  lemma PointsAt(ns: set<Node>, G: Spans, root: Node?, s: seq<Entry>, cap: nat, pend: Node?, n: Node, position: int,
                 idx: int)
    requires Struct(ns, G, root, s, cap, pend) && Points(ns, G, n, position, idx)
    ensures n in ns && n.Shape() && 0 <= position <= n.count && 0 <= G[n].lo <= idx <= G[n].hi <= |s|
    ensures position < n.count ==> idx < G[n].hi && n.values[position] == s[idx]
    ensures position == n.count ==> idx == G[n].hi
  {
    if n.leaf {
      LeafSpan(n, ns, G, root, s, cap, pend);
      assert position < n.count ==> n.Vals()[position] == n.values[position];
    } else {
      InnerSpan(n, ns, G, root, s, cap, pend);
      InnerSane(n, ns, G, root, s, cap, pend);
      hide Struct;
      var v, k := n.values[..n.count], n.children[..n.count + 1];
      assert k[position] == n.children[position];
      if position < n.count {
        assert Glue(G, s, k[position], v[position], k[position + 1]);
      }
    }
  }

  lemma InnerSane(n: Node, ns: set<Node>, G: Spans, root: Node?, s: seq<Entry>, cap: nat, pend: Node?)
    requires Struct(ns, G, root, s, cap, pend) && n in ns
    ensures n in G && 0 <= G[n].lo <= G[n].hi <= |s|
  {
    hide AllKids, AllApart, AllUp, Sized, AllFilled, AllTiled;
    Record(n, ns);
    SpansSane(Snap(ns), G, s);
  }

  /** A child's stretch within its parent's. */
  lemma ChildSpan(n: Node, i: nat, ns: set<Node>, G: Spans, root: Node?, s: seq<Entry>, cap: nat, pend: Node?)
    requires Struct(ns, G, root, s, cap, pend) && n in ns && !n.leaf && n.Shape() && i <= n.count
    ensures var c := n.children[i];
      && c != null && c in ns && c in G && c.parent == n && c.position == i && G[c].h + 1 == G[n].h
      && G[n].lo <= G[c].lo <= G[c].hi <= G[n].hi && Points(ns, G, n, i, G[c].hi)
      && (i == 0 ==> G[c].lo == G[n].lo) && (i == n.count ==> G[c].hi == G[n].hi)
      && (i > 0 ==> n.children[i - 1] in G && G[c].lo == G[n.children[i - 1]].hi + 1)
  {
    InnerSpan(n, ns, G, root, s, cap, pend);
    Children(n, ns, G, root, s, cap, pend);
    hide Struct;
    n.LinkedKids();
    var v, k := n.values[..n.count], n.children[..n.count + 1];
    assert k[i] == n.children[i];
    if i > 0 {
      assert Glue(G, s, k[i - 1], v[i - 1], k[i]);
    }
  }

  /** Where an iterator may stand: at a value, or behind the last value of the last leaf. */
  ghost predicate Stands(ns: set<Node>, G: Spans, s: seq<Entry>, n: Node, position: int, idx: int)
    reads n`count, n`children
  {
    && Points(ns, G, n, position, idx) && 0 <= idx <= |s|
    && (idx < |s| ==> position < n.count) && (idx == |s| ==> n.leaf && position == n.count)
  }

  /** One step up from the end of a node. */
  lemma UpFromEnd(n: Node, idx: int, ns: set<Node>, G: Spans, root: Node?, s: seq<Entry>, cap: nat, pend: Node?)
    requires Struct(ns, G, root, s, cap, pend) && n in ns && n != root && n in G && G[n].hi == idx
    ensures Points(ns, G, n.parent, n.position, idx) && G[n.parent].h == G[n].h + 1
  {
    Parent(n, ns, G, root, s, cap, pend);
    ChildSpan(n.parent, n.position, ns, G, root, s, cap, pend);
  }

  /** The loop of increment_slow and internal_last: up from the end of a node to the first position that is
      not its node's end, or to the root. */
  method ClimbUp(n0: Node, p0: int, ghost ns: set<Node>, ghost G: Spans, ghost root: Node?, ghost s: seq<Entry>,
                 ghost cap: nat,
                 ghost pend: Node?, ghost idx: int) returns (n: Node, position: int)
    requires Struct(ns, G, root, s, cap, pend) && RootMarked(root) && Points(ns, G, n0, p0, idx)
    ensures Points(ns, G, n, position, idx) && (position < n.count || n == root)
  {
    hide Struct;
    n, position := n0, p0;
    IsRoot(n, ns, G, root, s, cap, pend);
    RootOnTop(ns, G, root, s, cap, pend);
    while position == n.count && !n.parent.leaf
      invariant Points(ns, G, n, position, idx) && (n.parent.leaf <==> n == root)
      decreases G[root].h - G[n].h
    {
      PointsAt(ns, G, root, s, cap, pend, n, position, idx);
      UpFromEnd(n, idx, ns, G, root, s, cap, pend);
      position := n.position;
      n := n.parent;
      IsRoot(n, ns, G, root, s, cap, pend);
    }
  }

  /** At the root, or in a leaf, the end of the node is the end of everything. */
  lemma EndOfRoot(ns: set<Node>, G: Spans, root: Node?, s: seq<Entry>, cap: nat, pend: Node?, n: Node, position: int,
                  idx: int)
    requires Struct(ns, G, root, s, cap, pend) && Points(ns, G, n, position, idx)
    ensures position < n.count ==> idx < |s|
    ensures n == root && position == n.count ==> idx == |s|
  {
    PointsAt(ns, G, root, s, cap, pend, n, position, idx);
    Whole(ns, G, root, s, cap, pend);
  }

  lemma Whole(ns: set<Node>, G: Spans, root: Node?, s: seq<Entry>, cap: nat, pend: Node?)
    requires Struct(ns, G, root, s, cap, pend)
    ensures root in ns && root in G && G[root].lo == 0 && G[root].hi == |s|
  {
    RootOnTop(ns, G, root, s, cap, pend);
  }

  /** The leftmost leaf below a node, or the rightmost. */
  method Descend(n0: Node, toFirst: bool, ghost ns: set<Node>, ghost G: Spans, ghost root: Node?, ghost s: seq<Entry>,
                 ghost cap: nat, ghost pend: Node?) returns (n: Node)
    requires Struct(ns, G, root, s, cap, pend) && n0 in ns
    ensures n in ns && n.leaf && n in G && n0 in G
    ensures if toFirst then G[n].lo == G[n0].lo else G[n].hi == G[n0].hi
  {
    hide Struct;
    n := n0;
    Sizes(n, ns, G, root, s, cap, pend);
    while !n.leaf
      invariant n in ns && n in G && n.Shape()
      invariant if toFirst then G[n].lo == G[n0].lo else G[n].hi == G[n0].hi
      decreases G[n].h
    {
      ChildSpan(n, if toFirst then 0 else n.count, ns, G, root, s, cap, pend);
      n := n.children[if toFirst then 0 else n.count];
      Sizes(n, ns, G, root, s, cap, pend);
    }
  }

  /** increment_slow: from behind a leaf to the value there, from an internal value to the next one. */
  method IncrementSlow(n0: Node, p0: int, ghost ns: set<Node>, ghost G: Spans, ghost root: Node?, ghost s: seq<Entry>,
                       ghost cap: nat, ghost idx: int) returns (n: Node, position: int)
    requires Struct(ns, G, root, s, cap, null) && RootMarked(root) && Points(ns, G, n0, p0, idx)
    requires if n0.leaf then p0 == n0.count else p0 < n0.count
    ensures Stands(ns, G, s, n, position, if n0.leaf then idx else idx + 1)
  {
    hide Struct;
    PointsAt(ns, G, root, s, cap, null, n0, p0, idx);
    if n0.leaf {
      n, position := ClimbUp(n0, p0, ns, G, root, s, cap, null, idx);
      EndOfRoot(ns, G, root, s, cap, null, n, position, idx);
      if position == n.count {
        n, position := n0, p0;
      }
    } else {
      ChildSpan(n0, p0 + 1, ns, G, root, s, cap, null);
      n := Descend(n0.children[p0 + 1], true, ns, G, root, s, cap, null);
      position := 0;
      Sizes(n, ns, G, root, s, cap, null);
      PointsAt(ns, G, root, s, cap, null, n, position, idx + 1);
    }
  }

  /** increment. */
  method Increment(n0: Node, p0: int, ghost ns: set<Node>, ghost G: Spans, ghost root: Node?, ghost s: seq<Entry>,
                   ghost cap: nat, ghost idx: int) returns (n: Node, position: int)
    requires Struct(ns, G, root, s, cap, null) && RootMarked(root) && Points(ns, G, n0, p0, idx) && p0 < n0.count
    ensures Stands(ns, G, s, n, position, idx + 1)
  {
    hide Struct;
    n, position := n0, p0;
    if n.leaf {
      position := position + 1;
      PointsAt(ns, G, root, s, cap, null, n, position, idx + 1);
      if position < n.count {
        return;
      }
    }
    n, position := IncrementSlow(n, position, ns, G, root, s, cap, if n.leaf then idx + 1 else idx);
  }

  /** increment_by: whole leaves at a time. */
  method IncrementBy(n0: Node, p0: int, count: nat, ghost ns: set<Node>, ghost G: Spans, ghost root: Node?,
                     ghost s: seq<Entry>,
                     ghost cap: nat, ghost idx: int) returns (n: Node, position: int)
    requires Struct(ns, G, root, s, cap, null) && RootMarked(root) && Stands(ns, G, s, n0, p0, idx)
    requires idx + count <= |s|
    ensures Stands(ns, G, s, n, position, idx + count)
  {
    hide Struct;
    n, position := n0, p0;
    var c: int := count;
    while c > 0
      invariant 0 <= c <= count && Stands(ns, G, s, n, position, idx + count - c)
    {
      ghost var at := idx + count - c;
      PointsAt(ns, G, root, s, cap, null, n, position, at);
      if n.leaf {
        var rest := n.count - position;
        position := position + if rest < c then rest else c;
        c := c - rest;
        if position < n.count {
          PointsAt(ns, G, root, s, cap, null, n, position, idx + count);
          return;
        }
        n, position := IncrementSlow(n, position, ns, G, root, s, cap, at + rest);
      } else {
        c := c - 1;
        n, position := IncrementSlow(n, position, ns, G, root, s, cap, at);
      }
    }
  }

  /** decrement, anywhere but at the first value. */
  method Decrement(n0: Node, p0: int, ghost ns: set<Node>, ghost G: Spans, ghost root: Node?, ghost s: seq<Entry>,
                   ghost cap: nat, ghost idx: int) returns (n: Node, position: int)
    requires Struct(ns, G, root, s, cap, null) && RootMarked(root) && Points(ns, G, n0, p0, idx) && idx > 0
    ensures Stands(ns, G, s, n, position, idx - 1)
    ensures !n0.leaf ==> n.leaf && position == n.count - 1 && G[n].hi == idx
  {
    hide Struct;
    PointsAt(ns, G, root, s, cap, null, n0, p0, idx);
    if n0.leaf {
      n, position := n0, p0 - 1;
      if position >= 0 {
        return;
      }
      n, position := ClimbDown(n0, ns, G, root, s, cap, idx);
    } else {
      ChildSpan(n0, p0, ns, G, root, s, cap, null);
      n := Descend(n0.children[p0], false, ns, G, root, s, cap, null);
      position := n.count - 1;
      Sizes(n, ns, G, root, s, cap, null);
      LeafSpan(n, ns, G, root, s, cap, null);
    }
  }

  /** The loop of decrement_slow: up from before the first value of a leaf to the value there. */
  method ClimbDown(n0: Node, ghost ns: set<Node>, ghost G: Spans, ghost root: Node?, ghost s: seq<Entry>,
                   ghost cap: nat,
                   ghost idx: int) returns (n: Node, position: int)
    requires Struct(ns, G, root, s, cap, null) && RootMarked(root) && n0 in ns && n0 in G && G[n0].lo == idx > 0
    ensures Stands(ns, G, s, n, position, idx - 1)
  {
    hide Struct;
    n, position := n0, -1;
    IsRoot(n, ns, G, root, s, cap, null);
    Whole(ns, G, root, s, cap, null);
    RootOnTop(ns, G, root, s, cap, null);
    while position < 0 && !n.parent.leaf
      invariant n in ns && n in G && position >= -1 && (n.parent.leaf <==> n == root)
      invariant position == -1 ==> G[n].lo == idx
      invariant position >= 0 ==> Points(ns, G, n, position, idx - 1) && position < n.count
      decreases G[root].h - G[n].h
    {
      Parent(n, ns, G, root, s, cap, null);
      ChildSpan(n.parent, n.position, ns, G, root, s, cap, null);
      if n.position > 0 { ChildSpan(n.parent, n.position - 1, ns, G, root, s, cap, null); }
      position := n.position - 1;
      n := n.parent;
      IsRoot(n, ns, G, root, s, cap, null);
    }
    PointsAt(ns, G, root, s, cap, null, n, position, idx - 1);
  }

  /** internal_last: the same place as an iterator that stands at a value; null at the very end. */
  method InternalLast(n0: Node, p0: int, ghost ns: set<Node>, ghost G: Spans, ghost root: Node?, ghost s: seq<Entry>,
                      ghost cap: nat, ghost pend: Node?, ghost idx: int) returns (n: Node?, position: int)
    requires Struct(ns, G, root, s, cap, pend) && RootMarked(root) && Points(ns, G, n0, p0, idx)
    ensures 0 <= idx <= |s| && (n == null <==> idx == |s|)
    ensures n != null ==> Points(ns, G, n, position, idx) && position < n.count
  {
    hide Struct;
    n, position := n0, p0;
    IsRoot(n0, ns, G, root, s, cap, pend);
    RootOnTop(ns, G, root, s, cap, pend);
    PointsAt(ns, G, root, s, cap, pend, n0, p0, idx);
    while n != null && position == n.count
      invariant n != null ==> Points(ns, G, n, position, idx) && (n.parent.leaf <==> n == root)
      invariant n == null ==> idx == |s|
      decreases if n == null then 0 else G[root].h - G[n].h + 1
    {
      PointsAt(ns, G, root, s, cap, pend, n, position, idx);
      EndOfRoot(ns, G, root, s, cap, pend, n, position, idx);
      if n != root { UpFromEnd(n, idx, ns, G, root, s, cap, pend); }
      position := n.position;
      n := n.parent;
      if n.leaf {
        n := null;
      } else {
        IsRoot(n, ns, G, root, s, cap, pend);
      }
    }
    if n != null { EndOfRoot(ns, G, root, s, cap, pend, n, position, idx); }
  }

  // ---- Searching the tree ----

  /** The values of a node of a sorted tree ascend. */
  lemma NodeAscends(n: Node, ns: set<Node>, G: Spans, root: Node?, s: seq<Entry>, cap: nat, pend: Node?)
    requires Struct(ns, G, root, s, cap, pend) && Ascending(s) && n in ns
    ensures n.Shape() && Ascending(n.Vals())
  {
    if n.leaf {
      LeafSpan(n, ns, G, root, s, cap, pend);
    } else {
      InnerSpan(n, ns, G, root, s, cap, pend);
      hide Struct;
      var v, k := n.values[..n.count], n.children[..n.count + 1];
      forall i, j {:trigger v[i], v[j]} | 0 <= i < j < |v| ensures v[i].key <= v[j].key {
        RowOrder(G, s, G[n].lo, G[n].hi, v, k, i, j);
        assert Glue(G, s, k[i], v[i], k[i + 1]) && Glue(G, s, k[j], v[j], k[j + 1]);
      }
    }
  }

  /** Everything up to lo lies before the bound of k, and nothing from hi on does. */
  ghost predicate Window(s: seq<Entry>, k: real, upper: bool, lo: int, hi: int) {
    && 0 <= lo <= hi <= |s|
    && (forall i {:trigger s[i]} :: 0 <= i < lo ==> Before(s[i], k, upper))
    && (forall i {:trigger s[i]} :: hi <= i < |s| ==> !Before(s[i], k, upper))
  }

  /** The child at the bound holds the bound. */
  lemma NarrowWindow(n: Node, p: nat, k: real, upper: bool, ns: set<Node>, G: Spans, root: Node?, s: seq<Entry>,
                     cap: nat, pend: Node?)
    requires Struct(ns, G, root, s, cap, pend) && Ascending(s) && n in ns && !n.leaf && n in G
    requires Window(s, k, upper, G[n].lo, G[n].hi) && n.Shape() && Bound(n.Vals(), k, upper, p)
    ensures p <= n.count && n.children[p] != null && n.children[p] in ns && n.children[p] in G
    ensures G[n.children[p]].h < G[n].h
    ensures Window(s, k, upper, G[n.children[p]].lo, G[n.children[p]].hi)
    ensures p < n.count ==> G[n.children[p]].hi < |s| && n.values[p] == s[G[n.children[p]].hi]
    ensures p == n.count ==> G[n.children[p]].hi == G[n].hi
  {
    hide Struct;
    ChildSpan(n, p, ns, G, root, s, cap, pend);
    PointsAt(ns, G, root, s, cap, pend, n, p, G[n.children[p]].hi);
    InnerSane(n.children[p], ns, G, root, s, cap, pend);
    assert p < n.count ==> n.Vals()[p] == n.values[p];
    if p > 0 {
      ChildSpan(n, p - 1, ns, G, root, s, cap, pend);
      PointsAt(ns, G, root, s, cap, pend, n, p - 1, G[n.children[p - 1]].hi);
      assert n.Vals()[p - 1] == n.values[p - 1];
    }
  }

  /** In a leaf the bound in the node is the bound in the sequence. */
  lemma LeafBound(n: Node, p: nat, k: real, upper: bool, ns: set<Node>, G: Spans, root: Node?, s: seq<Entry>,
                  cap: nat, pend: Node?)
    requires Struct(ns, G, root, s, cap, pend) && n in ns && n.leaf && n in G
    requires Window(s, k, upper, G[n].lo, G[n].hi) && n.Shape() && Bound(n.Vals(), k, upper, p)
    ensures Bound(s, k, upper, G[n].lo + p) && Points(ns, G, n, p, G[n].lo + p)
  {
    LeafSpan(n, ns, G, root, s, cap, pend);
    hide Struct;
    forall i {:trigger s[i]} | 0 <= i < |s| ensures Before(s[i], k, upper) <==> i < G[n].lo + p {
      if G[n].lo <= i < G[n].hi { assert n.Vals()[i - G[n].lo] == s[i]; }
    }
  }

  /** The descent of internal_lower_bound and internal_upper_bound, to a place in a leaf. */
  method DescendTo(r: Node, k: real, upper: bool, search: SearchType, ghost ns: set<Node>, ghost G: Spans,
                   ghost s: seq<Entry>, ghost cap: nat, ghost pend: Node?) returns (n: Node, position: nat)
    requires Struct(ns, G, r, s, cap, pend) && Ascending(s)
    ensures n in ns && n in G && n.leaf && Points(ns, G, n, position, G[n].lo + position)
    ensures Bound(s, k, upper, G[n].lo + position)
  {
    hide Struct;
    n, position := r, 0;
    Whole(ns, G, r, s, cap, pend);
    while true
      invariant n in ns && n in G && Window(s, k, upper, G[n].lo, G[n].hi)
      decreases G[n].h
    {
      NodeAscends(n, ns, G, r, s, cap, pend);
      if upper {
        position := NodeUpperBound(n, k, search);
      } else {
        var exact;
        position, exact := NodeLowerBound(n, k, search);
      }
      if n.leaf {
        LeafBound(n, position, k, upper, ns, G, r, s, cap, pend);
        break;
      }
      NarrowWindow(n, position, k, upper, ns, G, r, s, cap, pend);
      n := n.children[position];
    }
  }

  /** internal_locate, plain and compare-to: the compare-to kinds stop at an equal key, wherever it is. */
  method Locate(r: Node, k: real, search: SearchType, ghost ns: set<Node>, ghost G: Spans,
                ghost s: seq<Entry>, ghost cap: nat, ghost pend: Node?) returns (n: Node, position: nat, exact: bool,
                    ghost idx: int)
    requires Struct(ns, G, r, s, cap, pend) && Ascending(s)
    ensures Points(ns, G, n, position, idx) && 0 <= idx <= |s|
    ensures exact ==> position < n.count && idx < |s| && s[idx].key == k
    ensures !exact ==> n.leaf && Bound(s, k, false, idx)
    ensures !exact && search.CompareTo() ==> idx < |s| ==> s[idx].key != k
  {
    hide Struct;
    n, position, exact := r, 0, false;
    Whole(ns, G, r, s, cap, pend);
    while true
      invariant n in ns && n in G && Window(s, k, false, G[n].lo, G[n].hi)
      invariant search.CompareTo() && G[n].hi < |s| ==> s[G[n].hi].key > k
      decreases G[n].h
    {
      NodeAscends(n, ns, G, r, s, cap, pend);
      position, exact := NodeLowerBound(n, k, search);
      if exact {
        if n.leaf { LeafBound(n, position, k, false, ns, G, r, s, cap, pend); }
            else { ChildSpan(n, position, ns, G, r, s, cap, pend); }
        idx := if n.leaf then G[n].lo + position else G[n.children[position]].hi;
        PointsAt(ns, G, r, s, cap, pend, n, position, idx);
        return;
      }
      assert position < n.count ==> n.Vals()[position] == n.values[position];
      if n.leaf {
        LeafBound(n, position, k, false, ns, G, r, s, cap, pend);
        idx := G[n].lo + position;
        PointsAt(ns, G, r, s, cap, pend, n, position, idx);
        break;
      }
      NarrowWindow(n, position, k, false, ns, G, r, s, cap, pend);
      n := n.children[position];
    }
  }

  // ---- One place for every index ----

  /** Two positions of leaves that hold one index are the same. */
  lemma SameLeaf(ns: set<Node>, G: Spans, root: Node?, s: seq<Entry>, cap: nat, n: Node, i: int, m: Node, j: int,
                 idx: int)
    requires Struct(ns, G, root, s, cap, null) && n.leaf && m.leaf
    requires Points(ns, G, n, i, idx) && i < n.count && Points(ns, G, m, j, idx) && j < m.count
    ensures n == m && i == j
  {
    PointsAt(ns, G, root, s, cap, null, n, i, idx);
    PointsAt(ns, G, root, s, cap, null, m, j, idx);
    hide AllTiled, AllKids, AllUp, AllFilled;
    assert SizeOk(Snap(ns), G, root, cap, n) && SizeOk(Snap(ns), G, root, cap, m);
    assert ApartOk(G, n, m);
  }

  /** No index is both a leaf's value and a delimiter. */
  lemma LeafOrDelimiter(ns: set<Node>, G: Spans, root: Node?, s: seq<Entry>, cap: nat, n: Node, i: int, idx: int,
                        m: Node, j: int)
    requires Struct(ns, G, root, s, cap, null) && n.leaf && m in ns && !m.leaf
    requires Points(ns, G, n, i, idx) && i < n.count && m.Shape() && 0 <= j < m.count
    ensures !Points(ns, G, m, j, idx)
  {
    PointsAt(ns, G, root, s, cap, null, n, i, idx);
    ChildSpan(m, j, ns, G, root, s, cap, null);
    Record(n, ns);
    hide AllTiled, AllKids, AllUp, AllFilled, AllApart, Sized;
    E.NotInLeaf(Snap(ns), G, root, s, cap, n, idx, m.children[j]);
  }

  lemma SameDelimiter(ns: set<Node>, G: Spans, root: Node?, s: seq<Entry>, cap: nat, n: Node, i: int, m: Node,
                      j: int, idx: int)
    requires Struct(ns, G, root, s, cap, null) && !n.leaf && !m.leaf
    requires Points(ns, G, n, i, idx) && i < n.count && Points(ns, G, m, j, idx) && j < m.count
    ensures n == m && i == j
  {
    Record(n, ns);
    Record(m, ns);
    var H := Snap(ns);
    assert H[n].kids[i] == n.children[i] && H[m].kids[j] == m.children[j];
    hide AllTiled, AllKids, AllUp, AllFilled, AllApart, Sized;
    E.DelimiterUnique(H, G, root, s, cap, n, i, m, j);
  }

  /** Iterators are equal exactly when they stand at the same in-order index. */
  lemma OnePlace(ns: set<Node>, G: Spans, root: Node?, s: seq<Entry>, cap: nat, n: Node, i: int, idx: int, m: Node,
                 j: int, jdx: int)
    requires Struct(ns, G, root, s, cap, null) && Stands(ns, G, s, n, i, idx) && Stands(ns, G, s, m, j, jdx)
    ensures idx == jdx <==> n == m && i == j
  {
    if idx == jdx {
      PointsAt(ns, G, root, s, cap, null, n, i, idx);
      PointsAt(ns, G, root, s, cap, null, m, j, jdx);
      if idx < |s| {
        if n.leaf && m.leaf {
          SameLeaf(ns, G, root, s, cap, n, i, m, j, idx);
        } else if n.leaf {
          LeafOrDelimiter(ns, G, root, s, cap, n, i, idx, m, j);
        } else if m.leaf {
          LeafOrDelimiter(ns, G, root, s, cap, m, j, idx, n, i);
        } else {
          SameDelimiter(ns, G, root, s, cap, n, i, m, j, idx);
        }
      } else {
        LastLeafUnique(ns, G, root, s, cap, n, m);
      }
    }
  }

  lemma LastLeafUnique(ns: set<Node>, G: Spans, root: Node?, s: seq<Entry>, cap: nat, n: Node, m: Node)
    requires Struct(ns, G, root, s, cap, null) && n in ns && m in ns && n.leaf && m.leaf
    requires n in G && m in G && G[n].lo + n.count == |s| == G[m].lo + m.count
    ensures n == m
  {
    LeafSpan(n, ns, G, root, s, cap, null);
    LeafSpan(m, ns, G, root, s, cap, null);
    Sizes(n, ns, G, root, s, cap, null);
    Sizes(m, ns, G, root, s, cap, null);
    hide AllTiled, AllKids, AllUp, AllFilled, Sized;
    assert ApartOk(G, n, m);
  }
}
