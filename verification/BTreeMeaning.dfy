/** What the B-tree invariant says without its ghost stretches: the in-order walk of the nodes is the
    sequence, the checks of verify hold, and the height is at most logarithmic. */
module BTreeMeaning {
  import opened BTreeNode
  import opened BTreeShape
  import opened BTreeSearch

  // ---- The in-order walk ----

  /** The values below a node in order, reading only nodes and children. */
  ghost function InOrder(H: Heap, n: Node?, h: nat): seq<Entry>
    decreases h, 1, 0
  {
    if n !in H then []
    else if H[n].leaf || h == 0 then H[n].vals
    else Between(H, H[n].vals, H[n].kids, h - 1, 0)
  }

  /** The children and delimiters of a row from child i on. */
  ghost function Between(H: Heap, vals: seq<Entry>, kids: seq<Node?>, h: nat, i: nat): seq<Entry>
    decreases h, 2, |kids| - i
  {
    if i >= |kids| then []
    else InOrder(H, kids[i], h) + (if i < |vals| then [vals[i]] else []) + Between(H, vals, kids, h, i + 1)
  }

  /** The walk below a node is the stretch the invariant gives it; below the root, the whole sequence. */
  lemma {:induction false} WalkIsStretch(H: Heap, G: Spans, root: Node?, s: seq<Entry>, cap: nat, pend: Node?, n: Node?)
    requires Tree(H, G, root, s, cap, pend) && n in H
    ensures 0 <= G[n].lo <= G[n].hi <= |s| && InOrder(H, n, G[n].h) == s[G[n].lo..G[n].hi]
    ensures n == root ==> InOrder(H, n, G[n].h) == s
    decreases G[n].h, 1, 0
  {
    hide AllUp, AllApart, AllFilled;
    assert TiledNode(H, G, s, n) && SizeOk(H, G, root, cap, n);
    if !H[n].leaf {
      BetweenIsStretch(H, G, root, s, cap, pend, n, 0);
    }
  }

  lemma {:induction false} BetweenIsStretch(H: Heap, G: Spans, root: Node?, s: seq<Entry>, cap: nat, pend: Node?,
                                            n: Node?, i: nat)
    requires Tree(H, G, root, s, cap, pend) && n in H && !H[n].leaf && i < |H[n].kids| && G[n].h > 0
    ensures H[n].kids[i] in G && 0 <= G[H[n].kids[i]].lo <= G[n].hi <= |s|
    ensures Between(H, H[n].vals, H[n].kids, G[n].h - 1, i) == s[G[H[n].kids[i]].lo..G[n].hi]
    decreases G[n].h, 0, |H[n].kids| - i
  {
    hide AllUp, AllApart, AllFilled, Sized;
    assert TiledNode(H, G, s, n) && KidsOk(H, G, n);
    var v, k := H[n].vals, H[n].kids;
    var c := k[i];
    assert KidOk(H, G, n, i, c);
    WalkIsStretch(H, G, root, s, cap, pend, c);
    if i < |v| {
      assert Glue(G, s, k[i], v[i], k[i + 1]);
      BetweenIsStretch(H, G, root, s, cap, pend, n, i + 1);
      JoinStretches(s, G[c].lo, G[c].hi, G[n].hi);
    } else {
      assert Between(H, v, k, G[n].h - 1, i + 1) == [];
    }
  }

  lemma JoinStretches(s: seq<Entry>, lo: int, m: int, hi: int)
    requires 0 <= lo <= m < hi <= |s|
    ensures s[lo..m] + [s[m]] + s[m + 1..hi] == s[lo..hi]
  {}

  // ---- The checks of verify ----

  /** What internal_verify asserts of one node, given the delimiters lo and hi around it if any. */
  ghost predicate NodeVerified(H: Heap, n: Node?, lo: seq<Entry>, hi: seq<Entry>) {
    && n in H && 1 <= |H[n].vals| <= H[n].maxCount
    && (forall e {:trigger e in lo} :: e in lo ==> e.key <= H[n].vals[0].key)
    && (forall e {:trigger e in hi} :: e in hi ==> H[n].vals[|H[n].vals| - 1].key <= e.key)
    && Ascending(H[n].vals)
    && (H[n].leaf || |H[n].kids| == |H[n].vals| + 1)
    && forall i {:trigger H[n].kids[i]} :: 0 <= i < |H[n].kids| ==>
         H[n].kids[i] in H && H[H[n].kids[i]].parent == n && H[H[n].kids[i]].position == i
  }

  /** internal_verify on n and everything below it. */
  ghost predicate Verified(H: Heap, n: Node?, h: nat, lo: seq<Entry>, hi: seq<Entry>)
    decreases h
  {
    && NodeVerified(H, n, lo, hi)
    && (h > 0 ==> !H[n].leaf && forall i {:trigger H[n].kids[i]} :: 0 <= i < |H[n].kids| ==>
         Verified(H, H[n].kids[i], h - 1, if i == 0 then lo else [H[n].vals[i - 1]], if i == |H[n].vals| then hi
             else [H[n].vals[i]]))
    && (h == 0 ==> H[n].leaf)
  }

  /** Where in the sequence a node's value i is. */
  lemma ValueAt(H: Heap, G: Spans, root: Node?, s: seq<Entry>, cap: nat, pend: Node?, n: Node?, i: nat)
    requires Tree(H, G, root, s, cap, pend) && n in H && i < |H[n].vals|
    ensures var m := At(G, G[n].lo, H[n].leaf, H[n].kids, i); 0 <= G[n].lo <= m < G[n].hi <= |s| && H[n].vals[i] == s[m]
  {
    hide AllUp, AllApart, AllFilled, Sized, AllKids;
    assert TiledNode(H, G, s, n);
    CutRow(G, s, G[n].lo, G[n].hi, H[n].leaf, H[n].vals, H[n].kids, i);
  }

  /** Every check of verify holds of a sorted tree, on every node; so does its count, by WalkIsStretch. */
  lemma {:induction false} VerifyHolds(H: Heap, G: Spans, root: Node?, s: seq<Entry>, cap: nat, n: Node?,
                                       lo: seq<Entry>, hi: seq<Entry>)
    requires Tree(H, G, root, s, cap, null) && Ascending(s) && n in H
    requires |lo| <= 1 && |hi| <= 1
    requires forall e {:trigger e in lo} :: e in lo ==> 0 < G[n].lo <= |s| && e == s[G[n].lo - 1]
    requires forall e {:trigger e in hi} :: e in hi ==> 0 <= G[n].hi < |s| && e == s[G[n].hi]
    ensures Verified(H, n, G[n].h, lo, hi)
    decreases G[n].h
  {
    hide AllUp, AllApart, AllTiled;
    assert SizeOk(H, G, root, cap, n) && Filled(H, null, n) && KidsOk(H, G, n);
    NodeChecks(H, G, root, s, cap, n, lo, hi);
    if !H[n].leaf {
      forall i {:trigger H[n].kids[i]} | 0 <= i < |H[n].kids|
        ensures Verified(H, H[n].kids[i], G[n].h - 1, if i == 0 then lo
            else [H[n].vals[i - 1]], if i == |H[n].vals| then hi else [H[n].vals[i]])
      {
        assert KidOk(H, G, n, i, H[n].kids[i]);
        ChildEnds(H, G, root, s, cap, n, i);
        VerifyHolds(H, G, root, s, cap, H[n].kids[i], if i == 0 then lo
            else [H[n].vals[i - 1]], if i == |H[n].vals| then hi else [H[n].vals[i]]);
      }
    }
  }

  lemma NodeChecks(H: Heap, G: Spans, root: Node?, s: seq<Entry>, cap: nat, n: Node?, lo: seq<Entry>, hi: seq<Entry>)
    requires Tree(H, G, root, s, cap, null) && Ascending(s) && n in H
    requires forall e {:trigger e in lo} :: e in lo ==> 0 < G[n].lo <= |s| && e == s[G[n].lo - 1]
    requires forall e {:trigger e in hi} :: e in hi ==> 0 <= G[n].hi < |s| && e == s[G[n].hi]
    ensures NodeVerified(H, n, lo, hi)
  {
    hide AllUp, AllApart;
    assert SizeOk(H, G, root, cap, n) && Filled(H, null, n) && KidsOk(H, G, n) && TiledNode(H, G, s, n);
    var v := H[n].vals;
    ValueAt(H, G, root, s, cap, null, n, 0);
    ValueAt(H, G, root, s, cap, null, n, |v| - 1);
    forall i {:trigger H[n].kids[i]} | 0 <= i < |H[n].kids|
      ensures H[n].kids[i] in H && H[H[n].kids[i]].parent == n && H[H[n].kids[i]].position == i
    {
      assert KidOk(H, G, n, i, H[n].kids[i]);
    }
    forall i, j {:trigger v[i], v[j]} | 0 <= i < j < |v| ensures v[i].key <= v[j].key {
      ValueAt(H, G, root, s, cap, null, n, i);
      ValueAt(H, G, root, s, cap, null, n, j);
      if !H[n].leaf { RowOrder(G, s, G[n].lo, G[n].hi, v, H[n].kids, i, j); }
    }
  }

  /** The delimiters around a child are the sequence's neighbours of its stretch. */
  lemma ChildEnds(H: Heap, G: Spans, root: Node?, s: seq<Entry>, cap: nat, n: Node?, i: nat)
    requires Tree(H, G, root, s, cap, null) && n in H && !H[n].leaf && i < |H[n].kids|
    ensures var c := H[n].kids[i];
      && |H[n].kids| == |H[n].vals| + 1 && c in G
      && (if i == 0 then G[c].lo == G[n].lo else 0 < G[c].lo <= |s| && H[n].vals[i - 1] == s[G[c].lo - 1])
      && (if i == |H[n].vals| then G[c].hi == G[n].hi else 0 <= G[c].hi < |s| && H[n].vals[i] == s[G[c].hi])
  {
    hide AllUp, AllApart, AllFilled, Sized, AllKids;
    assert TiledNode(H, G, s, n);
    var v, k := H[n].vals, H[n].kids;
    if i > 0 { assert Glue(G, s, k[i - 1], v[i - 1], k[i]); }
    if i < |v| { assert Glue(G, s, k[i], v[i], k[i + 1]); }
  }

  // ---- Height ----

  /** Following parents from n reaches the root in exactly d steps. */
  ghost predicate Rises(H: Heap, n: Node?, root: Node?, d: nat)
    decreases d
  {
    if d == 0 then n == root else n in H && n != root && Rises(H, H[n].parent, root, d - 1)
  }

  /** All leaves are equally far from the root. */
  lemma {:induction false} LeavesEquallyDeep(H: Heap, G: Spans, root: Node?, s: seq<Entry>, cap: nat, pend: Node?,
                                             n: Node?)
    requires Tree(H, G, root, s, cap, pend) && n in H
    ensures G[n].h <= G[root].h && Rises(H, n, root, G[root].h - G[n].h)
    ensures H[n].leaf ==> Rises(H, n, root, G[root].h)
    decreases G[root].h - G[n].h
  {
    hide AllTiled, AllApart, AllFilled;
    assert SizeOk(H, G, root, cap, n);
    if n != root {
      assert UpOk(H, n) && KidsOk(H, G, H[n].parent) && KidOk(H, G, H[n].parent, H[n].position, n);
      assert SizeOk(H, G, root, cap, H[n].parent);
      LeavesEquallyDeep(H, G, root, s, cap, pend, H[n].parent);
    }
  }

  ghost function Pow2(h: nat): (r: nat)
    ensures r >= 1
  {
    if h == 0 then 1 else 2 * Pow2(h - 1)
  }

  /** A node h levels above the leaves holds at least 2^(h+1) - 1 values. */
  lemma {:induction false} TallIsFull(H: Heap, G: Spans, root: Node?, s: seq<Entry>, cap: nat, n: Node?)
    requires Tree(H, G, root, s, cap, null) && n in H
    ensures G[n].hi - G[n].lo >= Pow2(G[n].h + 1) - 1
    decreases G[n].h
  {
    hide AllUp, AllApart;
    assert SizeOk(H, G, root, cap, n) && Filled(H, null, n) && KidsOk(H, G, n) && TiledNode(H, G, s, n);
    if !H[n].leaf {
      var k := H[n].kids;
      assert KidOk(H, G, n, 0, k[0]) && KidOk(H, G, n, 1, k[1]) && Glue(G, s, k[0], H[n].vals[0], k[1]);
      TallIsFull(H, G, root, s, cap, k[0]);
      TallIsFull(H, G, root, s, cap, k[1]);
    }
  }
}
