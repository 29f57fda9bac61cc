/** What it means for a heap of nodes to be a B-tree holding a given in-order sequence, and why each
    structural change of src/btree/btree.h keeps it one. Heaps are plain maps here; BTree.dfy connects
    them to the Node objects. */
module BTreeShape {
  import opened BTreeNode

  /** One node: its live values, its live children (none in a leaf) and its links. */
  datatype Rec = Rec(leaf: bool, maxCount: nat, position: int, parent: Node, vals: seq<Entry>, kids: seq<Node?>)

  /** A node's subtree holds the in-order sequence from index lo up to hi; its leaves are h levels down. */
  datatype Span = Span(lo: int, hi: int, h: nat)

  type Heap = map<Node?, Rec>
  type Spans = map<Node?, Span>

  // ---- The invariant ----

  /** A row of values and children lays out s[lo..hi]: a leaf's values are the stretch itself, and in an
      internal row there is exactly one delimiter between two neighbouring children. */
  ghost predicate Tiled(G: Spans, s: seq<Entry>, lo: int, hi: int, leaf: bool, vals: seq<Entry>, kids: seq<Node?>) {
    if leaf then kids == [] && LeafRow(s, lo, hi, vals) else InnerRow(G, s, lo, hi, vals, kids)
  }

  ghost predicate LeafRow(s: seq<Entry>, lo: int, hi: int, vals: seq<Entry>) {
    0 <= lo <= hi <= |s| && vals == s[lo..hi]
  }

  ghost predicate InnerRow(G: Spans, s: seq<Entry>, lo: int, hi: int, vals: seq<Entry>, kids: seq<Node?>) {
    && 0 <= lo <= hi <= |s| && |kids| == |vals| + 1
    && (forall i {:trigger kids[i]} :: 0 <= i < |kids| ==> kids[i] in G && lo <= G[kids[i]].lo <= G[kids[i]].hi <= hi)
    && G[kids[0]].lo == lo && G[kids[|vals|]].hi == hi
    && forall i {:trigger vals[i]} :: 0 <= i < |vals| ==> Glue(G, s, kids[i], vals[i], kids[i + 1])
  }

  /** Value v follows child a and precedes child b. */
  ghost predicate Glue(G: Spans, s: seq<Entry>, a: Node?, v: Entry, b: Node?) {
    a in G && b in G && 0 <= G[a].hi < |s| && v == s[G[a].hi] && G[b].lo == G[a].hi + 1
  }

  /** A child is in the heap, one level down, and points back. */
  ghost predicate KidOk(H: Heap, G: Spans, n: Node?, i: nat, c: Node?)
    requires n in G
  {
    c in H && c in G && H[c].parent == n && H[c].position == i && G[c].h + 1 == G[n].h
  }

  ghost predicate KidsOk(H: Heap, G: Spans, n: Node?)
    requires n in G && n in H
  {
    forall i {:trigger H[n].kids[i]} :: 0 <= i < |H[n].kids| ==> KidOk(H, G, n, i, H[n].kids[i])
  }

  /** Every node but the root sits in its parent at its position. */
  ghost predicate UpOk(H: Heap, n: Node?)
    requires n in H
  {
    var p := H[n].parent;
    p in H && 0 <= H[n].position < |H[p].kids| && H[p].kids[H[n].position] == n
  }

  /** Only a leaf root may be smaller than cap; the root is the highest node. */
  ghost predicate SizeOk(H: Heap, G: Spans, root: Node?, cap: nat, n: Node?)
    requires n in H && n in G && root in G
  {
    && |H[n].vals| <= H[n].maxCount
    && (H[n].maxCount == cap || (n == root && H[n].leaf && 1 <= H[n].maxCount <= cap))
    && (H[n].leaf <==> G[n].h == 0)
    && (n != root ==> G[n].h < G[root].h)
  }

  /** Two nodes of one level are separated by at least a delimiter. */
  ghost predicate ApartOk(G: Spans, m: Node?, n: Node?)
    requires m in G && n in G
  {
    m != n && G[m].h == G[n].h ==> G[m].hi < G[n].lo || G[n].hi < G[m].lo
  }

  ghost predicate TiledNode(H: Heap, G: Spans, s: seq<Entry>, n: Node?)
    requires n in H && n in G
  {
    Tiled(G, s, G[n].lo, G[n].hi, H[n].leaf, H[n].vals, H[n].kids)
  }

  ghost predicate Filled(H: Heap, pend: Node?, n: Node?)
    requires n in H
  {
    n != pend ==> |H[n].vals| >= 1
  }

  // Each clause is instantiated only where a proof names it for a node: following parent or child links
  // from inside a quantifier would never end.
  ghost predicate Sized(H: Heap, G: Spans, root: Node?, cap: nat)
    requires H.Keys == G.Keys && root in G
  {
    null !in H && forall n {:trigger SizeOk(H, G, root, cap, n)} :: n in H ==> SizeOk(H, G, root, cap, n)
  }

  ghost predicate AllTiled(H: Heap, G: Spans, s: seq<Entry>)
    requires H.Keys == G.Keys
  {
    forall n {:trigger TiledNode(H, G, s, n)} :: n in H ==> TiledNode(H, G, s, n)
  }

  ghost predicate AllKids(H: Heap, G: Spans)
    requires H.Keys == G.Keys
  {
    forall n {:trigger KidsOk(H, G, n)} :: n in H ==> KidsOk(H, G, n)
  }

  ghost predicate AllUp(H: Heap, root: Node?) {
    forall n {:trigger UpOk(H, n)} :: n in H && n != root ==> UpOk(H, n)
  }

  ghost predicate AllApart(G: Spans) {
    forall m, n {:trigger ApartOk(G, m, n)} :: m in G && n in G ==> ApartOk(G, m, n)
  }

  ghost predicate AllFilled(H: Heap, pend: Node?) {
    forall n {:trigger Filled(H, pend, n)} :: n in H ==> Filled(H, pend, n)
  }

  /** The heap is a B-tree with root `root` laying out s; only `pend` may be empty. */
  ghost predicate Tree(H: Heap, G: Spans, root: Node?, s: seq<Entry>, cap: nat, pend: Node?) {
    && H.Keys == G.Keys && root in H && G[root].lo == 0 && G[root].hi == |s|
    && Sized(H, G, root, cap) && AllTiled(H, G, s) && AllKids(H, G) && AllUp(H, root) && AllApart(G)
    && AllFilled(H, pend)
  }

  // ---- Joining and cutting rows ----

  /** Two rows with a delimiter between them make one row. */
  lemma JoinRows(G: Spans, s: seq<Entry>, lo: int, m: int, hi: int, leaf: bool,
                 v1: seq<Entry>, k1: seq<Node?>, v2: seq<Entry>, k2: seq<Node?>)
    requires Tiled(G, s, lo, m, leaf, v1, k1) && Tiled(G, s, m + 1, hi, leaf, v2, k2)
    ensures Tiled(G, s, lo, hi, leaf, v1 + [s[m]] + v2, k1 + k2)
  {
    if !leaf { JoinInner(G, s, lo, m, hi, v1, k1, v2, k2); }
  }

  lemma JoinInner(G: Spans, s: seq<Entry>, lo: int, m: int, hi: int,
                  v1: seq<Entry>, k1: seq<Node?>, v2: seq<Entry>, k2: seq<Node?>)
    requires InnerRow(G, s, lo, m, v1, k1) && InnerRow(G, s, m + 1, hi, v2, k2)
    ensures InnerRow(G, s, lo, hi, v1 + [s[m]] + v2, k1 + k2)
  {
    var v, k := v1 + [s[m]] + v2, k1 + k2;
    forall i | 0 <= i < |k|
      ensures k[i] in G && lo <= G[k[i]].lo <= G[k[i]].hi <= hi
    {
      if i < |k1| { assert k[i] == k1[i]; } else { assert k[i] == k2[i - |k1|]; }
    }
    assert k[|v1|] == k1[|v1|] && k[|v1| + 1] == k2[0] && k[|v|] == k2[|v2|];
    forall i | 0 <= i < |v|
      ensures Glue(G, s, k[i], v[i], k[i + 1])
    {
      if i < |v1| {
        assert v[i] == v1[i];
      } else if i > |v1| {
        assert v[i] == v2[i - |v1| - 1];
      }
    }
  }

  /** The in-order index of a row's value i. */
  ghost function At(G: Spans, lo: int, leaf: bool, kids: seq<Node?>, i: nat): int {
    if leaf then lo + i else if i < |kids| && kids[i] in G then G[kids[i]].hi else 0
  }

  /** A row cut at value a makes two rows with that value as delimiter. */
  lemma CutRow(G: Spans, s: seq<Entry>, lo: int, hi: int, leaf: bool, v: seq<Entry>, k: seq<Node?>, a: nat)
    requires Tiled(G, s, lo, hi, leaf, v, k) && a < |v|
    ensures var m := At(G, lo, leaf, k, a);
      && lo <= m < hi && v[a] == s[m]
      && Tiled(G, s, lo, m, leaf, v[..a], if leaf then [] else k[..a + 1])
      && Tiled(G, s, m + 1, hi, leaf, v[a + 1..], if leaf then [] else k[a + 1..])
  {
    if !leaf {
      assert Glue(G, s, k[a], v[a], k[a + 1]);
      CutLeft(G, s, lo, hi, v, k, a);
      CutRight(G, s, lo, hi, v, k, a + 1);
    }
  }

  lemma CutLeft(G: Spans, s: seq<Entry>, lo: int, hi: int, v: seq<Entry>, k: seq<Node?>, a: nat)
    requires InnerRow(G, s, lo, hi, v, k) && a <= |v|
    ensures k[a] in G && InnerRow(G, s, lo, G[k[a]].hi, v[..a], k[..a + 1])
  {
    forall i | 0 <= i <= a
      ensures k[..a + 1][i] in G && lo <= G[k[i]].lo <= G[k[i]].hi <= G[k[a]].hi
    {
      RowOrder(G, s, lo, hi, v, k, i, a);
    }
    forall i | 0 <= i < a ensures Glue(G, s, k[i], v[..a][i], k[i + 1]) { assert v[..a][i] == v[i]; }
  }

  lemma CutRight(G: Spans, s: seq<Entry>, lo: int, hi: int, v: seq<Entry>, k: seq<Node?>, a: nat)
    requires InnerRow(G, s, lo, hi, v, k) && a <= |v|
    ensures k[a] in G && InnerRow(G, s, G[k[a]].lo, hi, v[a..], k[a..])
  {
    forall i | 0 <= i < |k| - a
      ensures k[a..][i] in G && G[k[a]].lo <= G[k[a..][i]].lo <= G[k[a..][i]].hi <= hi
    {
      RowOrder(G, s, lo, hi, v, k, a, a + i);
    }
    forall i | 0 <= i < |v| - a ensures Glue(G, s, k[a..][i], v[a..][i], k[a..][i + 1]) {
      assert v[a..][i] == v[a + i];
    }
  }

  /** Children of a row come in order, a delimiter apart. */
  lemma RowOrder(G: Spans, s: seq<Entry>, lo: int, hi: int, v: seq<Entry>, k: seq<Node?>, i: nat, j: nat)
    requires InnerRow(G, s, lo, hi, v, k) && i <= j <= |v|
    ensures k[i] in G && k[j] in G && G[k[i]].lo <= G[k[j]].lo && G[k[i]].hi <= G[k[j]].hi
    ensures i < j ==> G[k[i]].hi < G[k[j]].lo
    decreases j - i
  {
    assert k[i] in G && k[j] in G;
    if i < j {
      RowOrder(G, s, lo, hi, v, k, i, j - 1);
      assert Glue(G, s, k[j - 1], v[j - 1], k[j]);
    }
  }

  /** Every span of a tree lies inside the sequence. */
  lemma SpansSane(H: Heap, G: Spans, s: seq<Entry>)
    requires H.Keys == G.Keys && AllTiled(H, G, s)
    ensures forall n {:trigger G[n]} :: n in G ==> 0 <= G[n].lo <= G[n].hi <= |s|
  {
    forall n {:trigger G[n]} | n in G ensures 0 <= G[n].lo <= G[n].hi <= |s| { assert TiledNode(H, G, s, n); }
  }
}
