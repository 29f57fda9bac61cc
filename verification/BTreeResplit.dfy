/** Rebalancing: two neighbouring children keep their joint row but cut it somewhere else. */
module BTreeResplit {
  import opened BTreeNode
  import opened BTreeShape

  ghost predicate Pair(H: Heap, left: Node?, right: Node?, p: Node?, at: int) {
    && left in H && right in H && p in H && left != right && left != p && right != p
    && 0 <= at < |H[p].vals| && |H[p].kids| == |H[p].vals| + 1 && !H[p].leaf
    && H[p].kids[at] == left && H[p].kids[at + 1] == right
    && H[left].leaf == H[right].leaf
  }

  /** The values of both nodes with their delimiter between them. */
  ghost function PairVals(H: Heap, left: Node?, right: Node?, p: Node?, at: int): seq<Entry>
    requires Pair(H, left, right, p, at)
  {
    H[left].vals + [H[p].vals[at]] + H[right].vals
  }

  ghost function PairKids(H: Heap, left: Node?, right: Node?): seq<Node?>
    requires left in H && right in H
  {
    H[left].kids + H[right].kids
  }

  /** What both rebalances do to the heap: the joint row is cut at value a. */
  ghost predicate Resplit(H: Heap, H': Heap, left: Node, right: Node, p: Node?, at: int, a: nat) {
    && Pair(H, left, right, p, at)
    && RowCut(H, H', left, right, p, at, a, PairVals(H, left, right, p, at), PairKids(H, left, right))
  }

  ghost predicate RowCut(H: Heap, H': Heap, left: Node, right: Node, p: Node?, at: int, a: nat, V: seq<Entry>,
                         K: seq<Node?>) {
    && left in H && right in H && p in H && H'.Keys == H.Keys
    && NodesCut(H, H', left, right, p, at, a, V, K)
    && KidsMoved(H, H', left, right, a, K)
    && (forall n {:trigger H'[n]} :: n in H && n !in {left, right, p} && n !in K ==> H'[n] == H[n])
  }

  ghost predicate NodesCut(H: Heap, H': Heap, left: Node, right: Node, p: Node?, at: int, a: nat, V: seq<Entry>,
                           K: seq<Node?>)
    requires left in H && right in H && p in H && H'.Keys == H.Keys
  {
    && 0 <= at < |H[p].vals|
    && var leaf := H[left].leaf;
    && a < |V| && (if leaf then K == [] else |K| == |V| + 1)
    && H'[left] == H[left].(vals := V[..a], kids := if leaf then [] else K[..a + 1])
    && H'[right] == H[right].(vals := V[a + 1..], kids := if leaf then [] else K[a + 1..])
    && H'[p] == H[p].(vals := H[p].vals[at := V[a]])
  }

  ghost predicate KidsMoved(H: Heap, H': Heap, left: Node, right: Node, a: nat, K: seq<Node?>)
    requires H'.Keys == H.Keys
  {
    forall i {:trigger K[i]} :: 0 <= i < |K| ==>
      && K[i] in H
      && H'[K[i]] == H[K[i]].(parent := if i <= a then left else right, position := if i <= a then i else i - a - 1)
  }

  /** The spans afterwards: left ends, and right begins, at the new delimiter's index m. */
  ghost function ResplitSpans(G: Spans, left: Node, right: Node, m: int): Spans
    requires left in G && right in G
  {
    G[left := G[left].(hi := m)][right := G[right].(lo := m + 1)]
  }

  /** A row whose children keep their spans stays a row. */
  lemma RowFrame(G: Spans, G': Spans, s: seq<Entry>, lo: int, hi: int, leaf: bool, v: seq<Entry>, k: seq<Node?>)
    requires Tiled(G, s, lo, hi, leaf, v, k)
    requires forall i {:trigger k[i]} :: 0 <= i < |k| ==> k[i] in G' && k[i] in G && G'[k[i]] == G[k[i]]
    ensures Tiled(G', s, lo, hi, leaf, v, k)
  {
    if !leaf {
      forall i | 0 <= i < |v| ensures Glue(G', s, k[i], v[i], k[i + 1]) { assert Glue(G, s, k[i], v[i], k[i + 1]); }
    }
  }

  /** The parent's row with a moved delimiter. */
  lemma ParentRow(G: Spans, G': Spans, s: seq<Entry>, lo: int, hi: int, v: seq<Entry>, k: seq<Node?>, at: nat,
                  left: Node, right: Node, m: int)
    requires InnerRow(G, s, lo, hi, v, k) && at < |v| && k[at] == left && k[at + 1] == right
    requires left in G && right in G && left != right && G[left].lo <= m < G[right].hi
    requires G' == ResplitSpans(G, left, right, m)
    ensures InnerRow(G', s, lo, hi, v[at := s[m]], k)
  {
    var v' := v[at := s[m]];
    Distinct(G, s, lo, hi, v, k, at);
    Distinct(G, s, lo, hi, v, k, at + 1);
    forall i | 0 <= i < |v'| ensures Glue(G', s, k[i], v'[i], k[i + 1]) {
      assert Glue(G, s, k[i], v[i], k[i + 1]);
    }
  }

  /** A child occurs once in its row. */
  lemma Distinct(G: Spans, s: seq<Entry>, lo: int, hi: int, v: seq<Entry>, k: seq<Node?>, i: nat)
    requires InnerRow(G, s, lo, hi, v, k) && i <= |v|
    ensures forall j {:trigger k[j]} :: 0 <= j <= |v| && j != i ==> k[j] != k[i]
  {
    forall j {:trigger k[j]} | 0 <= j <= |v| && j != i ensures k[j] != k[i] {
      if i < j { RowOrder(G, s, lo, hi, v, k, i, j); } else { RowOrder(G, s, lo, hi, v, k, j, i); }
    }
  }

  /** The joint row lies between the outer ends, and its cut gives the two new rows. */
  lemma PairRow(H: Heap, G: Spans, s: seq<Entry>, left: Node, right: Node, p: Node?, at: int, a: nat)
    requires Pair(H, left, right, p, at) && left in G && right in G && p in G
    requires TiledNode(H, G, s, left) && TiledNode(H, G, s, right) && TiledNode(H, G, s, p)
    requires a < |PairVals(H, left, right, p, at)|
    ensures var V, K, leaf := PairVals(H, left, right, p, at), PairKids(H, left, right), H[left].leaf;
      var m := At(G, G[left].lo, leaf, K, a);
      && G[left].lo <= m < G[right].hi && V[a] == s[m] && G[left].hi + 1 == G[right].lo
      && Tiled(G, s, G[left].lo, G[right].hi, leaf, V, K)
      && Tiled(G, s, G[left].lo, m, leaf, V[..a], if leaf then [] else K[..a + 1])
      && Tiled(G, s, m + 1, G[right].hi, leaf, V[a + 1..], if leaf then [] else K[a + 1..])
  {
    assert G[left].hi + 1 == G[right].lo && H[p].vals[at] == s[G[left].hi] by {
      assert Glue(G, s, H[p].kids[at], H[p].vals[at], H[p].kids[at + 1]);
    }
    JoinRows(G, s, G[left].lo, G[left].hi, G[right].hi, H[left].leaf, H[left].vals, H[left].kids, H[right].vals,
        H[right].kids);
    CutRow(G, s, G[left].lo, G[right].hi, H[left].leaf, PairVals(H, left, right, p, at), PairKids(H, left, right), a);
  }

  /** Where the two nodes and their children hang. */
  lemma PairLinks(H: Heap, G: Spans, root: Node?, left: Node, right: Node, p: Node?, at: int)
    requires H.Keys == G.Keys && AllKids(H, G) && AllUp(H, root) && Pair(H, left, right, p, at)
    ensures H[left].parent == p && H[right].parent == p && H[left].position == at && H[right].position == at + 1
    ensures G[left].h == G[right].h && G[left].h + 1 == G[p].h
    ensures forall c {:trigger c in PairKids(H, left, right)} :: c in PairKids(H, left, right) ==>
      c in H && c in G && G[c].h + 1 == G[left].h && (H[c].parent == left || H[c].parent == right) &&
          c !in {left, right, p}
    ensures forall c {:trigger c in PairKids(H, left, right)} :: c in H && c != root && H[c].parent in {left, right} ==>
      c in PairKids(H, left, right)
  {
    assert KidsOk(H, G, p) && KidsOk(H, G, left) && KidsOk(H, G, right);
    assert KidOk(H, G, p, at, H[p].kids[at]) && KidOk(H, G, p, at + 1, H[p].kids[at + 1]);
    forall c | c in H && c != root && H[c].parent in {left, right}
      ensures c in PairKids(H, left, right)
    {
      assert UpOk(H, c);
    }
  }

  /** The context of a rebalance: only the clauses of the invariant that it needs. */
  ghost predicate Setting(H: Heap, H': Heap, G: Spans, G': Spans, root: Node?, s: seq<Entry>,
                          left: Node, right: Node, p: Node?, at: int, a: nat) {
    && H.Keys == G.Keys && AllKids(H, G) && AllUp(H, root) && AllTiled(H, G, s)
    && Resplit(H, H', left, right, p, at, a)
    && G' == ResplitSpans(G, left, right, At(G, G[left].lo, H[left].leaf, PairKids(H, left, right), a))
  }

  lemma ResplitParentTiled(H: Heap, H': Heap, G: Spans, G': Spans, root: Node?, s: seq<Entry>,
                           left: Node, right: Node, p: Node?, at: int, a: nat)
    requires Setting(H, H', G, G', root, s, left, right, p, at, a)
    ensures TiledNode(H', G', s, p)
  {
    hide InnerRow, LeafRow, AllKids, AllUp;
    assert TiledNode(H, G, s, left) && TiledNode(H, G, s, right) && TiledNode(H, G, s, p);
    PairRow(H, G, s, left, right, p, at, a);
    ParentRow(G, G', s, G[p].lo, G[p].hi, H[p].vals, H[p].kids, at, left, right, G'[left].hi);
  }

  lemma ResplitSidesTiled(H: Heap, H': Heap, G: Spans, G': Spans, root: Node?, s: seq<Entry>,
                          left: Node, right: Node, p: Node?, at: int, a: nat)
    requires Setting(H, H', G, G', root, s, left, right, p, at, a)
    ensures TiledNode(H', G', s, left) && TiledNode(H', G', s, right)
  {
    hide InnerRow, LeafRow, AllKids, AllUp;
    PairLinks(H, G, root, left, right, p, at);
    assert TiledNode(H, G, s, left) && TiledNode(H, G, s, right) && TiledNode(H, G, s, p);
    PairRow(H, G, s, left, right, p, at, a);
    var K := PairKids(H, left, right);
    KidsKept(G, G', left, right, K);
    RowFrame(G, G', s, G'[left].lo, G'[left].hi, H'[left].leaf, H'[left].vals, H'[left].kids);
    RowFrame(G, G', s, G'[right].lo, G'[right].hi, H'[right].leaf, H'[right].vals, H'[right].kids);
  }

  lemma KidsKept(G: Spans, G': Spans, left: Node, right: Node, K: seq<Node?>)
    requires forall n :: n in G && n !in {left, right} ==> n in G' && G'[n] == G[n]
    requires forall c {:trigger c in K} :: c in K ==> c in G && c !in {left, right}
    ensures forall i {:trigger K[i]} :: 0 <= i < |K| ==> K[i] in G && K[i] in G' && G'[K[i]] == G[K[i]]
  {
    forall i {:trigger K[i]} | 0 <= i < |K| ensures K[i] in G && K[i] in G' && G'[K[i]] == G[K[i]] { assert K[i] in K; }
  }

  lemma ResplitOthersTiled(H: Heap, H': Heap, G: Spans, G': Spans, root: Node?, s: seq<Entry>,
                           left: Node, right: Node, p: Node?, at: int, a: nat, n: Node?)
    requires Setting(H, H', G, G', root, s, left, right, p, at, a)
    requires n in H && n !in {left, right, p}
    ensures H'[n].leaf == H[n].leaf && H'[n].vals == H[n].vals && H'[n].kids == H[n].kids
    ensures H'[n].maxCount == H[n].maxCount && G'[n] == G[n]
    ensures TiledNode(H', G', s, n)
  {
    hide InnerRow, LeafRow, AllUp;
    PairLinks(H, G, root, left, right, p, at);
    assert TiledNode(H, G, s, n) && KidsOk(H, G, n);
    assert H'[n].leaf == H[n].leaf && H'[n].vals == H[n].vals && H'[n].kids == H[n].kids;
    RowFrame(G, G', s, G[n].lo, G[n].hi, H[n].leaf, H[n].vals, H[n].kids);
  }

  /** Children of p from index i on sit at i or later. */
  lemma LaterKids(H: Heap, G: Spans, p: Node?, i: nat)
    requires H.Keys == G.Keys && AllKids(H, G) && p in H && i <= |H[p].kids|
    ensures forall c {:trigger c in H[p].kids[i..]} :: c in H[p].kids[i..] ==>
      c in H && H[c].parent == p && H[c].position >= i
  {
    assert KidsOk(H, G, p);
    forall c {:trigger c in H[p].kids[i..]} | c in H[p].kids[i..]
      ensures c in H && H[c].parent == p && H[c].position >= i
    {
      var j :| 0 <= j < |H[p].kids[i..]| && H[p].kids[i..][j] == c;
      assert KidOk(H, G, p, j + i, H[p].kids[j + i]);
    }
  }

  lemma ResplitTiled(H: Heap, H': Heap, G: Spans, G': Spans, root: Node?, s: seq<Entry>,
                     left: Node, right: Node, p: Node?, at: int, a: nat)
    requires Setting(H, H', G, G', root, s, left, right, p, at, a)
    ensures H'.Keys == G'.Keys && AllTiled(H', G', s)
  {
    hide TiledNode, AllUp, AllKids;
    ResplitParentTiled(H, H', G, G', root, s, left, right, p, at, a);
    ResplitSidesTiled(H, H', G, G', root, s, left, right, p, at, a);
    forall n | n in H' && n !in {left, right, p} ensures TiledNode(H', G', s, n) {
      ResplitOthersTiled(H, H', G, G', root, s, left, right, p, at, a, n);
    }
  }

  lemma ResplitSideKids(H: Heap, H': Heap, G: Spans, G': Spans, root: Node?, s: seq<Entry>,
                        left: Node, right: Node, p: Node?, at: int, a: nat)
    requires Setting(H, H', G, G', root, s, left, right, p, at, a)
    ensures KidsOk(H', G', left) && KidsOk(H', G', right)
  {
    hide AllUp, AllTiled;
    PairLinks(H, G, root, left, right, p, at);
    var K := PairKids(H, left, right);
    forall i {:trigger H'[left].kids[i]} | 0 <= i < |H'[left].kids| ensures KidOk(H', G', left, i, H'[left].kids[i]) {
      assert K[i] in K;
    }
    forall i {:trigger H'[right].kids[i]} | 0 <= i < |H'[right].kids| ensures KidOk(H', G', right, i,
        H'[right].kids[i]) {
      assert K[i + a + 1] in K;
    }
  }

  lemma ResplitKids(H: Heap, H': Heap, G: Spans, G': Spans, root: Node?, s: seq<Entry>,
                    left: Node, right: Node, p: Node?, at: int, a: nat)
    requires Setting(H, H', G, G', root, s, left, right, p, at, a)
    ensures H'.Keys == G'.Keys && AllKids(H', G')
  {
    hide AllUp, AllTiled;
    PairLinks(H, G, root, left, right, p, at);
    ResplitSideKids(H, H', G, G', root, s, left, right, p, at, a);
    forall n | n in H' && n !in {left, right} ensures KidsOk(H', G', n) {
      assert KidsOk(H, G, n);
      if n != p { ResplitOthersTiled(H, H', G, G', root, s, left, right, p, at, a, n); }
    }
  }

  lemma ResplitUp(H: Heap, H': Heap, G: Spans, G': Spans, root: Node?, s: seq<Entry>,
                  left: Node, right: Node, p: Node?, at: int, a: nat)
    requires Setting(H, H', G, G', root, s, left, right, p, at, a)
    ensures AllUp(H', root)
  {
    hide AllKids, AllTiled;
    PairLinks(H, G, root, left, right, p, at);
    var K := PairKids(H, left, right);
    forall n | n in H' && n != root ensures UpOk(H', n) {
      assert UpOk(H, n);
      if n in K {
        var i :| 0 <= i < |K| && K[i] == n;
        assert H'[left].kids + H'[right].kids == K;
        assert K[i] == (H'[left].kids + H'[right].kids)[i];
      }
    }
  }

  lemma ResplitApart(G: Spans, G': Spans, left: Node, right: Node, m: int)
    requires left in G && right in G && left != right && AllApart(G) && G' == ResplitSpans(G, left, right, m)
    requires forall n {:trigger G[n]} :: n in G ==> G[n].lo <= G[n].hi
    requires G[left].h == G[right].h && G[left].hi + 1 == G[right].lo && G[left].lo <= m < G[right].hi
    ensures AllApart(G')
  {
    forall x, y | x in G' && y in G' ensures ApartOk(G', x, y) {
      assert ApartOk(G, x, y);
      assert ApartOk(G, x, left) && ApartOk(G, x, right) && ApartOk(G, y, left) && ApartOk(G, y, right);
    }
  }

  /** Either rebalance keeps the tree and what it holds. */
  lemma ResplitKeepsTree(H: Heap, H': Heap, G: Spans, G': Spans, root: Node?, s: seq<Entry>, cap: nat, pend: Node?,
                         left: Node, right: Node, p: Node?, at: int, a: nat)
    requires Tree(H, G, root, s, cap, pend) && (pend == null || pend == left || pend == right)
    requires Resplit(H, H', left, right, p, at, a)
    requires G' == ResplitSpans(G, left, right, At(G, G[left].lo, H[left].leaf, PairKids(H, left, right), a))
    requires 1 <= a <= cap && 1 <= |PairVals(H, left, right, p, at)| - 1 - a <= cap
    ensures Tree(H', G', root, s, cap, null)
    ensures G[left].h == G[right].h && G[left].hi + 1 == G[right].lo
  {
    hide InnerRow, LeafRow, AllKids, AllUp, AllApart, Sized, AllFilled;
    PairLinks(H, G, root, left, right, p, at);
    assert TiledNode(H, G, s, left) && TiledNode(H, G, s, right) && TiledNode(H, G, s, p);
    PairRow(H, G, s, left, right, p, at, a);
    ResplitTiled(H, H', G, G', root, s, left, right, p, at, a);
    ResplitKids(H, H', G, G', root, s, left, right, p, at, a);
    ResplitUp(H, H', G, G', root, s, left, right, p, at, a);
    SpansSane(H, G, s);
    ResplitApart(G, G', left, right, G'[left].hi);
    ResplitSized(H, H', G, G', root, s, cap, pend, left, right, p, at, a);
  }

  lemma ResplitSized(H: Heap, H': Heap, G: Spans, G': Spans, root: Node?, s: seq<Entry>, cap: nat, pend: Node?,
                     left: Node, right: Node, p: Node?, at: int, a: nat)
    requires Setting(H, H', G, G', root, s, left, right, p, at, a)
    requires root in H && Sized(H, G, root, cap) && AllFilled(H, pend)
    requires (pend == null || pend == left || pend == right)
    requires 1 <= a <= cap && 1 <= |PairVals(H, left, right, p, at)| - 1 - a <= cap
    ensures H'.Keys == G'.Keys && root in G' && Sized(H', G', root, cap) && AllFilled(H', null)
  {
    hide AllKids, AllTiled, AllUp, TiledNode;
    PairLinks(H, G, root, left, right, p, at);
    assert SizeOk(H, G, root, cap, p) && SizeOk(H, G, root, cap, left) && SizeOk(H, G, root, cap, right);
    forall n | n in H' ensures SizeOk(H', G', root, cap, n) && Filled(H', null, n) {
      assert SizeOk(H, G, root, cap, n) && Filled(H, pend, n);
      if n !in {left, right, p} { ResplitOthersTiled(H, H', G, G', root, s, left, right, p, at, a, n); }
    }
  }
}
