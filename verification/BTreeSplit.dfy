/** Splitting: a node gives its upper part to a new right neighbour and a delimiter to its parent. */
module BTreeSplit {
  import opened BTreeNode
  import opened BTreeShape
  import opened BTreeResplit

  /** What split does to the heap: value a of the node becomes the delimiter. */
  ghost predicate SplitAt(H: Heap, H': Heap, node: Node, dest: Node, p: Node?, at: int, a: nat) {
    && node in H && p in H && node != p && dest !in H && H'.Keys == H.Keys + {dest}
    && !H[p].leaf && 0 <= at < |H[p].kids| && |H[p].kids| == |H[p].vals| + 1 && H[p].kids[at] == node
    && var k, pk := H[node].kids, H[p].kids;
    && a < |H[node].vals| && (if H[node].leaf then k == [] else |k| == |H[node].vals| + 1)
    && NodesSplit(H, H', node, dest, p, at, a)
    && (forall i {:trigger k[i]} :: a < i < |k| ==>
          k[i] in H && H'[k[i]] == H[k[i]].(parent := dest, position := i - a - 1))
    && (forall j {:trigger pk[j]} :: at < j < |pk| ==> pk[j] in H && H'[pk[j]] == H[pk[j]].(position := j + 1))
    && (forall n {:trigger H'[n]} ::
        n in H && n !in {node, p} && (H[node].leaf || n !in k[a + 1..]) && n !in pk[at + 1..] ==>
          H'[n] == H[n])
  }

  ghost predicate NodesSplit(H: Heap, H': Heap, node: Node, dest: Node, p: Node?, at: int, a: nat)
    requires node in H && p in H && H'.Keys == H.Keys + {dest}
    requires 0 <= at < |H[p].kids| && |H[p].kids| == |H[p].vals| + 1
    requires a < |H[node].vals| && (if H[node].leaf then H[node].kids == [] else |H[node].kids| == |H[node].vals| + 1)
  {
    var v, k, pv, pk := H[node].vals, H[node].kids, H[p].vals, H[p].kids;
    && H'[node] == H[node].(vals := v[..a], kids := if H[node].leaf then [] else k[..a + 1])
    && H'[dest] == Rec(H[node].leaf, H[node].maxCount, at + 1, H'[dest].parent,
                       v[a + 1..], if H[node].leaf then [] else k[a + 1..])
    && H'[dest].parent == p
    && H'[p] == H[p].(vals := pv[..at] + [v[a]] + pv[at..], kids := pk[..at + 1] + [dest] + pk[at + 1..])
  }

  /** The spans afterwards: the node ends, and dest begins, around the new delimiter's index m. */
  ghost function SplitSpans(G: Spans, node: Node, dest: Node, m: int): Spans
    requires node in G
  {
    G[node := G[node].(hi := m)][dest := G[node].(lo := m + 1)]
  }

  ghost predicate Setting(H: Heap, H': Heap, G: Spans, G': Spans, root: Node?, s: seq<Entry>,
                          node: Node, dest: Node, p: Node?, at: int, a: nat) {
    && H.Keys == G.Keys && AllKids(H, G) && AllUp(H, root) && AllTiled(H, G, s)
    && SplitAt(H, H', node, dest, p, at, a)
    && G' == SplitSpans(G, node, dest, At(G, G[node].lo, H[node].leaf, H[node].kids, a))
  }

  /** The parent's row with the new delimiter. */
  lemma ParentRow(G: Spans, G': Spans, s: seq<Entry>, lo: int, hi: int, v: seq<Entry>, k: seq<Node?>, at: nat,
                  node: Node, dest: Node, m: int)
    requires InnerRow(G, s, lo, hi, v, k) && at <= |v| && k[at] == node
    requires node in G && dest !in G && G' == SplitSpans(G, node, dest, m) && G[node].lo <= m < G[node].hi
    ensures InnerRow(G', s, lo, hi, v[..at] + [s[m]] + v[at..], k[..at + 1] + [dest] + k[at + 1..])
  {
    var v', k' := v[..at] + [s[m]] + v[at..], k[..at + 1] + [dest] + k[at + 1..];
    Distinct(G, s, lo, hi, v, k, at);
    forall i | 0 <= i < |k'|
      ensures k'[i] in G' && lo <= G'[k'[i]].lo <= G'[k'[i]].hi <= hi
    {
      if i != at + 1 { assert k'[i] == k[if i <= at then i else i - 1]; }
    }
    assert k'[0] == k[0] && k'[|v'|] == if at == |v| then dest else k[|v|];
    forall i | 0 <= i < |v'| ensures Glue(G', s, k'[i], v'[i], k'[i + 1]) {
      if i < at {
        assert Glue(G, s, k[i], v[i], k[i + 1]);
      } else if i > at {
        assert Glue(G, s, k[i - 1], v[i - 1], k[i]);
      }
    }
  }

  /** The cut of the node's own row. */
  lemma NodeRow(H: Heap, G: Spans, G': Spans, s: seq<Entry>, node: Node, dest: Node, a: nat)
    requires node in H && node in G && TiledNode(H, G, s, node) && a < |H[node].vals| && dest !in G
    requires G' == SplitSpans(G, node, dest, At(G, G[node].lo, H[node].leaf, H[node].kids, a))
    ensures var v, k, leaf := H[node].vals, H[node].kids, H[node].leaf;
      && G[node].lo <= G'[node].hi < G[node].hi <= |s| && 0 <= G[node].lo && v[a] == s[G'[node].hi]
      && Tiled(G, s, G'[node].lo, G'[node].hi, leaf, v[..a], if leaf then [] else k[..a + 1])
      && Tiled(G, s, G'[dest].lo, G'[dest].hi, leaf, v[a + 1..], if leaf then [] else k[a + 1..])
  {
    CutRow(G, s, G[node].lo, G[node].hi, H[node].leaf, H[node].vals, H[node].kids, a);
  }

  /** Where the node and its children hang. */
  lemma Links(H: Heap, G: Spans, root: Node?, node: Node, p: Node?, at: int)
    requires H.Keys == G.Keys && AllKids(H, G) && AllUp(H, root) && node in H && p in H
    requires 0 <= at < |H[p].kids| && H[p].kids[at] == node
    ensures H[node].parent == p && H[node].position == at && G[node].h + 1 == G[p].h
    ensures forall c {:trigger c in H[node].kids} :: c in H[node].kids ==>
      c in H && G[c].h + 1 == G[node].h && H[c].parent == node && c !in {node, p}
  {
    assert KidsOk(H, G, p) && KidsOk(H, G, node);
    assert KidOk(H, G, p, at, H[p].kids[at]);
  }

  lemma SplitTiled(H: Heap, H': Heap, G: Spans, G': Spans, root: Node?, s: seq<Entry>,
                   node: Node, dest: Node, p: Node?, at: int, a: nat)
    requires Setting(H, H', G, G', root, s, node, dest, p, at, a)
    ensures H'.Keys == G'.Keys && TiledNode(H', G', s, node) && TiledNode(H', G', s, dest) && TiledNode(H', G', s, p)
  {
    hide InnerRow, LeafRow, AllKids, AllUp;
    Links(H, G, root, node, p, at);
    assert TiledNode(H, G, s, node) && TiledNode(H, G, s, p);
    NodeRow(H, G, G', s, node, dest, a);
    ParentRow(G, G', s, G[p].lo, G[p].hi, H[p].vals, H[p].kids, at, node, dest, G'[node].hi);
    KidsKept(G, G', node, dest, H[node].kids);
    RowFrame(G, G', s, G'[node].lo, G'[node].hi, H'[node].leaf, H'[node].vals, H'[node].kids);
    RowFrame(G, G', s, G'[dest].lo, G'[dest].hi, H'[dest].leaf, H'[dest].vals, H'[dest].kids);
  }

  lemma SplitOther(H: Heap, H': Heap, G: Spans, G': Spans, root: Node?, s: seq<Entry>,
                   node: Node, dest: Node, p: Node?, at: int, a: nat, n: Node?)
    requires Setting(H, H', G, G', root, s, node, dest, p, at, a)
    requires n in H' && n !in {node, dest, p}
    ensures n in H && H'[n].leaf == H[n].leaf && H'[n].vals == H[n].vals && H'[n].kids == H[n].kids
    ensures H'[n].maxCount == H[n].maxCount && n in G' && G'[n] == G[n]
  {
    hide AllTiled, AllUp, AllKids;
    var k, pk := H[node].kids, H[p].kids;
    if !H[node].leaf && n in k[a + 1..] {
      var i :| 0 <= i < |k[a + 1..]| && k[a + 1..][i] == n;
      assert k[i + a + 1] == n;
    } else if n in pk[at + 1..] {
      var i :| 0 <= i < |pk[at + 1..]| && pk[at + 1..][i] == n;
      assert pk[i + at + 1] == n;
    }
  }

  lemma SplitOtherTiled(H: Heap, H': Heap, G: Spans, G': Spans, root: Node?, s: seq<Entry>,
                        node: Node, dest: Node, p: Node?, at: int, a: nat, n: Node?)
    requires Setting(H, H', G, G', root, s, node, dest, p, at, a)
    requires n in H' && n !in {node, dest, p}
    ensures n in H && n in G' && TiledNode(H', G', s, n)
  {
    hide InnerRow, LeafRow, AllUp;
    Links(H, G, root, node, p, at);
    SplitOther(H, H', G, G', root, s, node, dest, p, at, a, n);
    assert TiledNode(H, G, s, n) && KidsOk(H, G, n);
    RowFrame(G, G', s, G[n].lo, G[n].hi, H[n].leaf, H[n].vals, H[n].kids);
  }

  lemma SplitSideKids(H: Heap, H': Heap, G: Spans, G': Spans, root: Node?, s: seq<Entry>,
                      node: Node, dest: Node, p: Node?, at: int, a: nat)
    requires Setting(H, H', G, G', root, s, node, dest, p, at, a)
    ensures H'.Keys == G'.Keys && KidsOk(H', G', node) && KidsOk(H', G', dest)
  {
    hide AllUp, AllTiled;
    Links(H, G, root, node, p, at);
    LaterKids(H, G, p, at + 1);
    var k := H[node].kids;
    assert KidsOk(H, G, node);
    if !H[node].leaf { LaterKids(H, G, node, a + 1); }
    forall i {:trigger H'[node].kids[i]} | 0 <= i < |H'[node].kids| ensures KidOk(H', G', node, i, H'[node].kids[i]) {
      assert KidOk(H, G, node, i, k[i]) && k[i] !in k[a + 1..];
    }
    forall i {:trigger H'[dest].kids[i]} | 0 <= i < |H'[dest].kids| ensures KidOk(H', G', dest, i, H'[dest].kids[i]) {
      assert KidOk(H, G, node, i + a + 1, k[i + a + 1]);
    }
  }

  lemma SplitParentKids(H: Heap, H': Heap, G: Spans, G': Spans, root: Node?, s: seq<Entry>,
                        node: Node, dest: Node, p: Node?, at: int, a: nat)
    requires Setting(H, H', G, G', root, s, node, dest, p, at, a)
    ensures H'.Keys == G'.Keys && KidsOk(H', G', p)
  {
    hide AllUp, AllTiled;
    Links(H, G, root, node, p, at);
    LaterKids(H, G, p, at + 1);
    var pk := H[p].kids;
    assert KidsOk(H, G, p);
    forall i {:trigger H'[p].kids[i]} | 0 <= i < |H'[p].kids| ensures KidOk(H', G', p, i, H'[p].kids[i]) {
      if i <= at {
        assert KidOk(H, G, p, i, pk[i]) && pk[i] !in pk[at + 1..];
        assert H'[p].kids[i] == pk[i];
        if !H[node].leaf { LaterKids(H, G, node, a + 1); }
      } else if i > at + 1 {
        assert KidOk(H, G, p, i - 1, pk[i - 1]);
      }
    }
  }

  lemma SplitOtherKids(H: Heap, H': Heap, G: Spans, G': Spans, root: Node?, s: seq<Entry>,
                       node: Node, dest: Node, p: Node?, at: int, a: nat, n: Node?)
    requires Setting(H, H', G, G', root, s, node, dest, p, at, a)
    requires n in H' && n !in {node, dest, p}
    ensures n in G' && KidsOk(H', G', n)
  {
    hide AllUp, AllTiled;
    Links(H, G, root, node, p, at);
    SplitOther(H, H', G, G', root, s, node, dest, p, at, a, n);
    assert KidsOk(H, G, n);
    LaterKids(H, G, p, at + 1);
    if !H[node].leaf { LaterKids(H, G, node, a + 1); }
    forall i {:trigger H'[n].kids[i]} | 0 <= i < |H'[n].kids| ensures KidOk(H', G', n, i, H'[n].kids[i]) {
      var c := H[n].kids[i];
      assert KidOk(H, G, n, i, c) && c !in H[p].kids[at + 1..];
      assert H[node].leaf || c !in H[node].kids[a + 1..];
    }
  }

  /** A child sitting at i or later is among the later ones. */
  lemma EarlierKid(H: Heap, n: Node?, i: nat)
    requires n in H && UpOk(H, n) && i <= |H[H[n].parent].kids|
    ensures H[n].position >= i ==> n in H[H[n].parent].kids[i..]
  {
    var k := H[H[n].parent].kids;
    if H[n].position >= i { assert k[i..][H[n].position - i] == n; }
  }

  lemma SplitUp(H: Heap, H': Heap, G: Spans, G': Spans, root: Node?, s: seq<Entry>,
                node: Node, dest: Node, p: Node?, at: int, a: nat, n: Node?)
    requires Setting(H, H', G, G', root, s, node, dest, p, at, a)
    requires n in H' && n != root
    ensures UpOk(H', n)
  {
    hide AllTiled, AllKids;
    Links(H, G, root, node, p, at);
    LaterKids(H, G, p, at + 1);
    var k, pk := H[node].kids, H[p].kids;
    if n == dest {
      assert H'[p].kids[at + 1] == dest;
    } else {
      assert UpOk(H, n);
      if !H[node].leaf && n in k[a + 1..] {
        var i :| 0 <= i < |k[a + 1..]| && k[a + 1..][i] == n;
        assert k[i + a + 1] == n && H'[dest].kids[i] == n;
      } else if n in pk[at + 1..] {
        var j :| 0 <= j < |pk[at + 1..]| && pk[at + 1..][j] == n;
        assert pk[j + at + 1] == n && H'[p].kids[j + at + 2] == n;
      } else if H[n].parent == p {
        EarlierKid(H, n, at + 1);
        assert H'[p].kids[H[n].position] == n;
      } else if H[n].parent == node {
        if !H[node].leaf { EarlierKid(H, n, a + 1); }
        assert H'[node].kids[H[n].position] == n;
      } else {
        SplitOther(H, H', G, G', root, s, node, dest, p, at, a, H[n].parent);
      }
    }
  }

  lemma SplitApart(G: Spans, G': Spans, node: Node, dest: Node, m: int)
    requires node in G && dest !in G && AllApart(G) && G' == SplitSpans(G, node, dest, m)
    requires forall n {:trigger G[n]} :: n in G ==> G[n].lo <= G[n].hi
    requires G[node].lo <= m < G[node].hi
    ensures AllApart(G')
  {
    forall x, y | x in G' && y in G' ensures ApartOk(G', x, y) {
      var x0 := if x == dest then node else x;
      var y0 := if y == dest then node else y;
      assert ApartOk(G, x0, y0);
    }
  }

  lemma SplitSized(H: Heap, H': Heap, G: Spans, G': Spans, root: Node?, s: seq<Entry>, cap: nat, pend: Node?,
                   node: Node, dest: Node, p: Node?, at: int, a: nat)
    requires Setting(H, H', G, G', root, s, node, dest, p, at, a)
    requires root in H && root != node && Sized(H, G, root, cap) && AllFilled(H, pend) && (pend == null || pend == p)
    requires |H[p].vals| < H[p].maxCount && |H[node].vals| >= 2
    ensures H'.Keys == G'.Keys && root in G' && Sized(H', G', root, cap)
    ensures AllFilled(H', if a == 0 then node else dest)
  {
    hide AllKids, AllTiled, AllUp;
    var pend' := if a == 0 then node else dest;
    Links(H, G, root, node, p, at);
    assert SizeOk(H, G, root, cap, node) && SizeOk(H, G, root, cap, p);
    forall n | n in H' ensures SizeOk(H', G', root, cap, n) && Filled(H', pend', n) {
      if n !in {node, dest, p} {
        assert SizeOk(H, G, root, cap, n) && Filled(H, pend, n);
        SplitOther(H, H', G, G', root, s, node, dest, p, at, a, n);
      }
    }
  }

  /** split keeps the tree and what it holds; one of the two halves may be empty until the insertion. */
  lemma SplitKeepsTree(H: Heap, H': Heap, G: Spans, G': Spans, root: Node?, s: seq<Entry>, cap: nat, pend: Node?,
                       node: Node, dest: Node, p: Node?, at: int, a: nat)
    requires Tree(H, G, root, s, cap, pend) && (pend == null || pend == p) && root != node
    requires SplitAt(H, H', node, dest, p, at, a)
    requires G' == SplitSpans(G, node, dest, At(G, G[node].lo, H[node].leaf, H[node].kids, a))
    requires |H[p].vals| < H[p].maxCount && |H[node].vals| >= 2
    ensures Tree(H', G', root, s, cap, if a == 0 then node else dest)
  {
    hide InnerRow, LeafRow, AllKids, AllUp, AllApart, AllFilled, Sized;
    assert TiledNode(H, G, s, node);
    NodeRow(H, G, G', s, node, dest, a);
    SplitTilesAndLinks(H, H', G, G', root, s, node, dest, p, at, a);
    SpansSane(H, G, s);
    SplitApart(G, G', node, dest, G'[node].hi);
    SplitSized(H, H', G, G', root, s, cap, pend, node, dest, p, at, a);
  }

  lemma SplitTilesAndLinks(H: Heap, H': Heap, G: Spans, G': Spans, root: Node?, s: seq<Entry>,
                           node: Node, dest: Node, p: Node?, at: int, a: nat)
    requires Setting(H, H', G, G', root, s, node, dest, p, at, a)
    ensures H'.Keys == G'.Keys && AllTiled(H', G', s) && AllKids(H', G') && AllUp(H', root)
  {
    hide TiledNode, KidsOk, UpOk;
    SplitTiled(H, H', G, G', root, s, node, dest, p, at, a);
    SplitSideKids(H, H', G, G', root, s, node, dest, p, at, a);
    SplitParentKids(H, H', G, G', root, s, node, dest, p, at, a);
    forall n | n in H' && n !in {node, dest, p} ensures TiledNode(H', G', s, n) && KidsOk(H', G', n) {
      SplitOtherTiled(H, H', G, G', root, s, node, dest, p, at, a, n);
      SplitOtherKids(H, H', G, G', root, s, node, dest, p, at, a, n);
    }
    forall n | n in H' && n != root ensures UpOk(H', n) {
      SplitUp(H, H', G, G', root, s, node, dest, p, at, a, n);
    }
  }
}
