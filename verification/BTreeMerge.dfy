/** Merging: two neighbouring children and their delimiter become one node. */
module BTreeMerge {
  import opened BTreeNode
  import opened BTreeShape
  import opened BTreeResplit

  /** What merge does to the heap, and the deletion of the emptied right node. */
  ghost predicate Merged(H: Heap, H': Heap, left: Node, right: Node, p: Node?, at: int) {
    && Pair(H, left, right, p, at) && H'.Keys == H.Keys - {right}
    && var K, pk := PairKids(H, left, right), H[p].kids;
    && NodesMerged(H, H', left, right, p, at, PairVals(H, left, right, p, at), K)
    && KidsJoined(H, H', left, K)
    && LaterShifted(H, H', at, pk)
    && (forall n {:trigger H'[n]} :: n in H' && n !in {left, p} && n !in K && n !in pk[at + 2..] ==> H'[n] == H[n])
  }

  ghost predicate NodesMerged(H: Heap, H': Heap, left: Node, right: Node, p: Node?, at: int, V: seq<Entry>,
                              K: seq<Node?>)
    requires Pair(H, left, right, p, at) && H'.Keys == H.Keys - {right}
  {
    && H'[left] == H[left].(vals := V, kids := K)
    && H'[p] == H[p].(vals := H[p].vals[..at] + H[p].vals[at + 1..], kids := H[p].kids[..at + 1] + H[p].kids[at + 2..])
  }

  ghost predicate KidsJoined(H: Heap, H': Heap, left: Node, K: seq<Node?>) {
    forall i {:trigger K[i]} ::
        0 <= i < |K| ==> K[i] in H && K[i] in H' && H'[K[i]] == H[K[i]].(parent := left, position := i)
  }

  ghost predicate LaterShifted(H: Heap, H': Heap, at: int, pk: seq<Node?>)
    requires 0 <= at < |pk|
  {
    forall j {:trigger pk[j]} :: at + 2 <= j < |pk| ==>
      pk[j] in H && pk[j] in H' && H'[pk[j]] == H[pk[j]].(position := j - 1)
  }

  /** The spans afterwards: left reaches as far as right did. */
  ghost function MergedSpans(G: Spans, left: Node, right: Node): Spans
    requires left in G && right in G
  {
    (G - {right})[left := G[left].(hi := G[right].hi)]
  }

  ghost predicate Setting(H: Heap, H': Heap, G: Spans, G': Spans, root: Node?, s: seq<Entry>,
                          left: Node, right: Node, p: Node?, at: int) {
    && H.Keys == G.Keys && AllKids(H, G) && AllUp(H, root) && AllTiled(H, G, s)
    && Merged(H, H', left, right, p, at) && G' == MergedSpans(G, left, right)
  }

  /** The parent's row without the delimiter. */
  lemma ParentRow(G: Spans, G': Spans, s: seq<Entry>, lo: int, hi: int, v: seq<Entry>, k: seq<Node?>, at: nat,
                  left: Node, right: Node)
    requires InnerRow(G, s, lo, hi, v, k) && at < |v| && k[at] == left && k[at + 1] == right
    requires left in G && right in G && left != right && G' == MergedSpans(G, left, right)
    ensures InnerRow(G', s, lo, hi, v[..at] + v[at + 1..], k[..at + 1] + k[at + 2..])
  {
    var v', k' := v[..at] + v[at + 1..], k[..at + 1] + k[at + 2..];
    Distinct(G, s, lo, hi, v, k, at);
    Distinct(G, s, lo, hi, v, k, at + 1);
    assert Glue(G, s, k[at], v[at], k[at + 1]);
    forall i | 0 <= i < |k'|
      ensures k'[i] in G' && lo <= G'[k'[i]].lo <= G'[k'[i]].hi <= hi
    {
      assert k'[i] == if i <= at then k[i] else k[i + 1];
    }
    assert k'[0] == k[0] && k'[|v'|] == if at + 1 == |v| then left else k[|v|];
    forall i | 0 <= i < |v'| ensures Glue(G', s, k'[i], v'[i], k'[i + 1]) {
      if i < at {
        assert Glue(G, s, k[i], v[i], k[i + 1]);
      } else {
        assert Glue(G, s, k[i + 1], v[i + 1], k[i + 2]);
      }
    }
  }

  lemma JointRow(H: Heap, G: Spans, s: seq<Entry>, left: Node, right: Node, p: Node?, at: int)
    requires Pair(H, left, right, p, at) && left in G && right in G && p in G
    requires TiledNode(H, G, s, left) && TiledNode(H, G, s, right) && TiledNode(H, G, s, p)
    ensures G[left].hi + 1 == G[right].lo
    ensures Tiled(G, s, G[left].lo, G[right].hi, H[left].leaf, PairVals(H, left, right, p, at),
        PairKids(H, left, right))
  {
    PairRow(H, G, s, left, right, p, at, 0);
  }

  lemma MergedTiled(H: Heap, H': Heap, G: Spans, G': Spans, root: Node?, s: seq<Entry>,
                    left: Node, right: Node, p: Node?, at: int)
    requires Setting(H, H', G, G', root, s, left, right, p, at)
    ensures H'.Keys == G'.Keys && TiledNode(H', G', s, left) && TiledNode(H', G', s, p)
  {
    hide InnerRow, LeafRow, AllKids, AllUp;
    PairLinks(H, G, root, left, right, p, at);
    assert TiledNode(H, G, s, left) && TiledNode(H, G, s, right) && TiledNode(H, G, s, p);
    JointRow(H, G, s, left, right, p, at);
    ParentRow(G, G', s, G[p].lo, G[p].hi, H[p].vals, H[p].kids, at, left, right);
    KidsKept(G, G', left, right, PairKids(H, left, right));
    RowFrame(G, G', s, G'[left].lo, G'[left].hi, H'[left].leaf, H'[left].vals, H'[left].kids);
  }

  lemma MergedOther(H: Heap, H': Heap, G: Spans, G': Spans, root: Node?, s: seq<Entry>,
                    left: Node, right: Node, p: Node?, at: int, n: Node?)
    requires Setting(H, H', G, G', root, s, left, right, p, at)
    requires n in H' && n !in {left, p}
    ensures n in H && H'[n].leaf == H[n].leaf && H'[n].vals == H[n].vals && H'[n].kids == H[n].kids
    ensures H'[n].maxCount == H[n].maxCount && n != right && n in G' && G'[n] == G[n]
  {
    hide AllTiled, AllUp, AllKids;
    var K, pk := PairKids(H, left, right), H[p].kids;
    if n in K {
      var i :| 0 <= i < |K| && K[i] == n;
    } else if n in pk[at + 2..] {
      var i :| 0 <= i < |pk[at + 2..]| && pk[at + 2..][i] == n;
      assert pk[i + at + 2] == n;
    }
  }

  lemma MergedOtherTiled(H: Heap, H': Heap, G: Spans, G': Spans, root: Node?, s: seq<Entry>,
                         left: Node, right: Node, p: Node?, at: int, n: Node?)
    requires Setting(H, H', G, G', root, s, left, right, p, at)
    requires n in H' && n !in {left, p}
    ensures n in H && n in G' && TiledNode(H', G', s, n)
  {
    hide InnerRow, LeafRow, AllUp;
    PairLinks(H, G, root, left, right, p, at);
    MergedOther(H, H', G, G', root, s, left, right, p, at, n);
    assert TiledNode(H, G, s, n) && KidsOk(H, G, n);
    RowFrame(G, G', s, G[n].lo, G[n].hi, H[n].leaf, H[n].vals, H[n].kids);
  }

  lemma MergedSideKids(H: Heap, H': Heap, G: Spans, G': Spans, root: Node?, s: seq<Entry>,
                       left: Node, right: Node, p: Node?, at: int)
    requires Setting(H, H', G, G', root, s, left, right, p, at)
    ensures left in H' && left in G' && p in H' && p in G' && KidsOk(H', G', left) && KidsOk(H', G', p)
  {
    hide AllUp, AllTiled;
    PairLinks(H, G, root, left, right, p, at);
    var K, pk := PairKids(H, left, right), H[p].kids;
    forall i {:trigger H'[left].kids[i]} | 0 <= i < |H'[left].kids| ensures KidOk(H', G', left, i, H'[left].kids[i]) {
      assert K[i] in K;
    }
    assert KidsOk(H, G, p);
    forall i {:trigger H'[p].kids[i]} | 0 <= i < |H'[p].kids| ensures KidOk(H', G', p, i, H'[p].kids[i]) {
      assert H'[p].kids[i] == if i <= at then pk[i] else pk[i + 1];
      if i < at { ParentKidKept(H, H', G, G', root, s, left, right, p, at, i); }
    }
  }

  /** A child of the parent left of the pair is untouched. */
  lemma ParentKidKept(H: Heap, H': Heap, G: Spans, G': Spans, root: Node?, s: seq<Entry>,
                      left: Node, right: Node, p: Node?, at: int, i: nat)
    requires Setting(H, H', G, G', root, s, left, right, p, at) && i < at
    ensures var c := H[p].kids[i];
      c in H && c in H' && c in G && c in G' && H'[c] == H[c] && G'[c] == G[c] && c != left && c != right
  {
    hide AllUp, AllTiled;
    PairLinks(H, G, root, left, right, p, at);
    assert KidsOk(H, G, p);
    var c, pk := H[p].kids[i], H[p].kids;
    assert KidOk(H, G, p, i, pk[i]) && KidOk(H, G, p, at, pk[at]) && KidOk(H, G, p, at + 1, pk[at + 1]);
    LaterKids(H, G, p, at + 2);
  }

  lemma MergedOtherKids(H: Heap, H': Heap, G: Spans, G': Spans, root: Node?, s: seq<Entry>,
                        left: Node, right: Node, p: Node?, at: int, n: Node?)
    requires Setting(H, H', G, G', root, s, left, right, p, at)
    requires n in H' && n !in {left, p}
    ensures n in G' && KidsOk(H', G', n)
  {
    hide AllUp, AllTiled;
    PairLinks(H, G, root, left, right, p, at);
    MergedOther(H, H', G, G', root, s, left, right, p, at, n);
    assert KidsOk(H, G, n) && KidsOk(H, G, p);
    LaterKids(H, G, p, at + 2);
    forall i {:trigger H'[n].kids[i]} | 0 <= i < |H'[n].kids| ensures KidOk(H', G', n, i, H'[n].kids[i]) {
      var c := H[n].kids[i];
      assert KidOk(H, G, n, i, c) && c !in H[p].kids[at + 2..];
    }
  }

  lemma MergedUp(H: Heap, H': Heap, G: Spans, G': Spans, root: Node?, s: seq<Entry>,
                 left: Node, right: Node, p: Node?, at: int, n: Node?)
    requires Setting(H, H', G, G', root, s, left, right, p, at)
    requires n in H' && n != root
    ensures UpOk(H', n)
  {
    hide AllTiled;
    PairLinks(H, G, root, left, right, p, at);
    var K, pk := PairKids(H, left, right), H[p].kids;
    assert UpOk(H, n);
    if n in K {
      var i :| 0 <= i < |K| && K[i] == n;
    } else if n in pk[at + 2..] {
      var j :| 0 <= j < |pk[at + 2..]| && pk[at + 2..][j] == n;
      assert KidsOk(H, G, p) && KidOk(H, G, p, j + at + 2, pk[j + at + 2]);
      assert H'[p].kids[j + at + 1] == n;
    } else if H[n].parent == p {
      assert H'[n].parent == H[n].parent && H'[n].position == H[n].position <= at;
    } else {
      MergedOther(H, H', G, G', root, s, left, right, p, at, H[n].parent);
    }
  }

  lemma MergedApart(G: Spans, G': Spans, left: Node, right: Node)
    requires left in G && right in G && left != right && AllApart(G) && G' == MergedSpans(G, left, right)
    requires forall n {:trigger G[n]} :: n in G ==> G[n].lo <= G[n].hi
    requires G[left].h == G[right].h && G[left].hi + 1 == G[right].lo
    ensures AllApart(G')
  {
    forall x, y | x in G' && y in G' ensures ApartOk(G', x, y) {
      assert ApartOk(G, x, y);
      assert ApartOk(G, x, left) && ApartOk(G, x, right) && ApartOk(G, y, left) && ApartOk(G, y, right);
    }
  }

  lemma MergedSized(H: Heap, H': Heap, G: Spans, G': Spans, root: Node?, s: seq<Entry>, cap: nat, pend: Node?,
                    left: Node, right: Node, p: Node?, at: int)
    requires Setting(H, H', G, G', root, s, left, right, p, at)
    requires root in H && root != right && Sized(H, G, root, cap) && AllFilled(H, pend)
    requires pend == null || pend == left || pend == right
    requires |PairVals(H, left, right, p, at)| <= cap && H[left].maxCount == cap
    ensures H'.Keys == G'.Keys && root in G' && Sized(H', G', root, cap) && AllFilled(H', p)
  {
    hide AllKids, AllTiled, AllUp;
    forall n | n in H' ensures SizeOk(H', G', root, cap, n) && Filled(H', p, n) {
      assert SizeOk(H, G, root, cap, n) && Filled(H, pend, n);
      if n !in {left, p} {
        MergedOther(H, H', G, G', root, s, left, right, p, at, n);
      } else if n == p {
        assert |H'[p].vals| == |H[p].vals| - 1;
      }
    }
  }

  /** merge_nodes keeps the tree and what it holds; the parent may be left without values. */
  lemma MergeKeepsTree(H: Heap, H': Heap, G: Spans, G': Spans, root: Node?, s: seq<Entry>, cap: nat, pend: Node?,
                       left: Node, right: Node, p: Node?, at: int)
    requires Tree(H, G, root, s, cap, pend) && (pend == null || pend == left || pend == right)
    requires Merged(H, H', left, right, p, at) && G' == MergedSpans(G, left, right)
    requires |PairVals(H, left, right, p, at)| <= cap
    ensures Tree(H', G', root, s, cap, p)
    ensures G[left].h == G[right].h && G[left].hi + 1 == G[right].lo
  {
    hide InnerRow, LeafRow, AllKids, AllUp, AllApart, AllFilled;
    PairLinks(H, G, root, left, right, p, at);
    assert TiledNode(H, G, s, left) && TiledNode(H, G, s, right) && TiledNode(H, G, s, p);
    assert SizeOk(H, G, root, cap, p) && SizeOk(H, G, root, cap, left) && SizeOk(H, G, root, cap, right);
    JointRow(H, G, s, left, right, p, at);
    MergeTilesAndLinks(H, H', G, G', root, s, left, right, p, at);
    SpansSane(H, G, s);
    MergedApart(G, G', left, right);
    MergedSized(H, H', G, G', root, s, cap, pend, left, right, p, at);
  }

  lemma MergeTilesAndLinks(H: Heap, H': Heap, G: Spans, G': Spans, root: Node?, s: seq<Entry>,
                           left: Node, right: Node, p: Node?, at: int)
    requires Setting(H, H', G, G', root, s, left, right, p, at)
    ensures H'.Keys == G'.Keys && AllTiled(H', G', s) && AllKids(H', G') && AllUp(H', root)
  {
    hide TiledNode, KidsOk, UpOk;
    MergedTiled(H, H', G, G', root, s, left, right, p, at);
    MergedSideKids(H, H', G, G', root, s, left, right, p, at);
    forall n | n in H' && n !in {left, p} ensures TiledNode(H', G', s, n) && KidsOk(H', G', n) {
      MergedOtherTiled(H, H', G, G', root, s, left, right, p, at, n);
      MergedOtherKids(H, H', G, G', root, s, left, right, p, at, n);
    }
    forall n | n in H' && n != root ensures UpOk(H', n) {
      MergedUp(H, H', G, G', root, s, left, right, p, at, n);
    }
  }
}
