/** Adding a value to a leaf, taking one out of a leaf, and exchanging two values: the changes to the
    in-order sequence itself, with every span moved to match. */
module BTreeEdit {
  import opened BTreeNode
  import opened BTreeShape
  import opened BTreeResplit

  ghost function InsertAt(s: seq<Entry>, g: int, x: Entry): seq<Entry>
    requires 0 <= g <= |s|
  {
    s[..g] + [x] + s[g..]
  }

  ghost function RemoveAt(s: seq<Entry>, g: int): seq<Entry>
    requires 0 <= g < |s|
  {
    s[..g] + s[g + 1..]
  }

  // ---- Insertion ----

  ghost function Pushed(sp: Span, g: int): Span {
    Span(if sp.lo > g then sp.lo + 1 else sp.lo, if sp.hi >= g then sp.hi + 1 else sp.hi, sp.h)
  }

  ghost function PushedSpans(G: Spans, g: int): Spans {
    map n | n in G :: Pushed(G[n], g)
  }

  ghost function LeafInserted(H: Heap, n: Node?, i: nat, x: Entry): Heap
    requires n in H && i <= |H[n].vals|
  {
    H[n := H[n].(vals := H[n].vals[..i] + [x] + H[n].vals[i..])]
  }

  lemma InsertedTiled(H: Heap, H': Heap, G: Spans, G': Spans, s: seq<Entry>, n: Node?, i: nat, x: Entry, m: Node?)
    requires H.Keys == G.Keys && AllTiled(H, G, s) && AllApart(G) && n in H && H[n].leaf && i <= |H[n].vals|
    requires forall c {:trigger G[c]} :: c in G && H[c].leaf ==> G[c].h == 0
    requires H' == LeafInserted(H, n, i, x) && 0 <= G[n].lo + i <= |s| && G' == PushedSpans(G, G[n].lo + i) && m in H
    ensures TiledNode(H', G', InsertAt(s, G[n].lo + i, x), m)
  {
    var g := G[n].lo + i;
    var s' := InsertAt(s, g, x);
    assert TiledNode(H, G, s, m) && TiledNode(H, G, s, n);
    if H[m].leaf {
      assert ApartOk(G, m, n);
      InsertedLeafRow(s, s', G[m], G'[m], H[m].vals, n == m, i, x, G[n]);
    } else {
      InsertedInnerRow(G, G', s, s', G[m].lo, G[m].hi, H[m].vals, H[m].kids, g, x);
    }
  }

  lemma {:induction false} InsertedLeafRow(s: seq<Entry>, s': seq<Entry>, sp: Span, sp': Span, vals: seq<Entry>,
                                           here: bool, i: nat, x: Entry, at: Span)
    requires LeafRow(s, sp.lo, sp.hi, vals) && 0 <= at.lo + i <= at.hi <= |s|
    requires s' == InsertAt(s, at.lo + i, x) && sp' == Pushed(sp, at.lo + i)
    requires if here then sp == at && i <= |vals| else sp.hi < at.lo || at.hi < sp.lo
    ensures LeafRow(s', sp'.lo, sp'.hi, if here then vals[..i] + [x] + vals[i..] else vals)
  {
    if here {
      InsertedInside(s, sp.lo, sp.hi, at.lo + i, x);
      assert vals[..i] == s[sp.lo..sp.hi][..i] == s[sp.lo..sp.lo + i];
      assert vals[i..] == s[sp.lo..sp.hi][i..] == s[sp.lo + i..sp.hi];
    } else {
      assert s'[sp'.lo..sp'.hi] == s[sp.lo..sp.hi];
    }
  }

  lemma {:induction false} InsertedInside(s: seq<Entry>, lo: int, hi: int, g: int, x: Entry)
    requires 0 <= lo <= g <= hi <= |s|
    ensures InsertAt(s, g, x)[lo..hi + 1] == s[lo..g] + [x] + s[g..hi]
  {
    var a, b := InsertAt(s, g, x)[lo..hi + 1], s[lo..g] + [x] + s[g..hi];
    forall k | 0 <= k < |a| ensures a[k] == b[k] {
      assert a[k] == InsertAt(s, g, x)[lo + k];
      if k < g - lo { assert b[k] == s[lo..g][k]; }
      if k > g - lo { assert b[k] == s[g..hi][k - (g - lo) - 1]; }
    }
  }

  lemma InsertedInnerRow(G: Spans, G': Spans, s: seq<Entry>, s': seq<Entry>, lo: int, hi: int,
                         v: seq<Entry>, k: seq<Node?>, g: int, x: Entry)
    requires InnerRow(G, s, lo, hi, v, k) && 0 <= g <= |s| && s' == InsertAt(s, g, x) && G' == PushedSpans(G, g)
    ensures InnerRow(G', s', Pushed(Span(lo, hi, 0), g).lo, Pushed(Span(lo, hi, 0), g).hi, v, k)
  {
    forall i | 0 <= i < |v| ensures Glue(G', s', k[i], v[i], k[i + 1]) { assert Glue(G, s, k[i], v[i], k[i + 1]); }
  }

  /** insert_value on a leaf keeps the tree, which then holds the longer sequence. */
  lemma InsertKeepsTree(H: Heap, H': Heap, G: Spans, G': Spans, root: Node?, s: seq<Entry>, cap: nat, pend: Node?,
                        n: Node?, i: nat, x: Entry)
    requires Tree(H, G, root, s, cap, pend) && (pend == null || pend == n)
    requires n in H && H[n].leaf && i <= |H[n].vals| < H[n].maxCount
    requires H' == LeafInserted(H, n, i, x) && G' == PushedSpans(G, G[n].lo + i)
    ensures 0 <= G[n].lo + i <= G[n].hi <= |s|
    ensures Tree(H', G', root, InsertAt(s, G[n].lo + i, x), cap, null)
  {
    hide InnerRow, AllKids, AllUp, AllFilled, Sized;
    assert TiledNode(H, G, s, n) && G[n].hi == G[n].lo + |H[n].vals| && 0 <= G[n].lo <= G[n].hi <= |s|;
    LeavesLow(H, G, root, cap);
    forall m | m in H' ensures TiledNode(H', G', InsertAt(s, G[n].lo + i, x), m) {
      InsertedTiled(H, H', G, G', s, n, i, x, m);
    }
    CountsOk(H, G, root, cap, pend);
    ValuesOnly(H, H', G, G', root, cap, null);
    SpansSane(H, G, s);
    forall a, b | a in G' && b in G' ensures ApartOk(G', a, b) { assert ApartOk(G, a, b); }
  }

  lemma LeavesLow(H: Heap, G: Spans, root: Node?, cap: nat)
    requires H.Keys == G.Keys && root in G && Sized(H, G, root, cap)
    ensures forall c {:trigger G[c]} :: c in G && H[c].leaf ==> G[c].h == 0
  {
    forall c {:trigger G[c]} | c in G && H[c].leaf ensures G[c].h == 0 { assert SizeOk(H, G, root, cap, c); }
  }

  /** Only values changed, and no node overflowed: the links, sizes and heights are as before. */
  lemma ValuesOnly(H: Heap, H': Heap, G: Spans, G': Spans, root: Node?, cap: nat, pend': Node?)
    requires H.Keys == G.Keys && root in H && Sized(H, G, root, cap) && AllKids(H, G) && AllUp(H, root)
    requires H'.Keys == H.Keys && G'.Keys == G.Keys
    requires forall c {:trigger G'[c]} :: c in G ==> G'[c].h == G[c].h
    requires forall m {:trigger H'[m]} :: m in H ==> H'[m] == H[m].(vals := H'[m].vals)
    requires forall m {:trigger H'[m]} :: m in H ==> |H'[m].vals| <= H[m].maxCount && (m != pend' ==> |H'[m].vals| >= 1)
    ensures Sized(H', G', root, cap) && AllKids(H', G') && AllUp(H', root) && AllFilled(H', pend')
  {
    forall m | m in H' ensures SizeOk(H', G', root, cap, m) && Filled(H', pend', m) {
      assert SizeOk(H, G, root, cap, m);
    }
    forall m | m in H' ensures KidsOk(H', G', m) {
      assert KidsOk(H, G, m);
      forall j {:trigger H'[m].kids[j]} | 0 <= j < |H'[m].kids| ensures KidOk(H', G', m, j, H'[m].kids[j]) {
        assert KidOk(H, G, m, j, H[m].kids[j]);
      }
    }
    forall m | m in H' && m != root ensures UpOk(H', m) { assert UpOk(H, m); }
  }

  /** Every node fits, and all but pend hold a value. */
  lemma CountsOk(H: Heap, G: Spans, root: Node?, cap: nat, pend: Node?)
    requires H.Keys == G.Keys && root in H && Sized(H, G, root, cap) && AllFilled(H, pend)
    ensures forall m {:trigger H[m]} :: m in H ==> |H[m].vals| <= H[m].maxCount && (m != pend ==> |H[m].vals| >= 1)
    ensures null !in H
  {
    forall m {:trigger H[m]} | m in H ensures |H[m].vals| <= H[m].maxCount && (m != pend ==> |H[m].vals| >= 1) {
      assert SizeOk(H, G, root, cap, m) && Filled(H, pend, m);
    }
  }

  // ---- Removal ----

  ghost function Pulled(sp: Span, g: int): Span {
    Span(if sp.lo > g then sp.lo - 1 else sp.lo, if sp.hi > g then sp.hi - 1 else sp.hi, sp.h)
  }

  ghost function PulledSpans(G: Spans, g: int): Spans {
    map n | n in G :: Pulled(G[n], g)
  }

  ghost function LeafRemoved(H: Heap, n: Node?, i: nat): Heap
    requires n in H && i < |H[n].vals|
  {
    H[n := H[n].(vals := H[n].vals[..i] + H[n].vals[i + 1..])]
  }

  /** The last leaf below a node ends where the node does. */
  lemma LastLeaf(H: Heap, G: Spans, root: Node?, s: seq<Entry>, cap: nat, a: Node?) returns (l: Node?)
    requires H.Keys == G.Keys && root in H && Sized(H, G, root, cap) && AllTiled(H, G, s) && AllKids(H, G) && a in H
    ensures l in H && H[l].leaf && G[l].hi == G[a].hi && G[l].h == 0
    decreases G[a].h
  {
    assert SizeOk(H, G, root, cap, a) && TiledNode(H, G, s, a) && KidsOk(H, G, a);
    if H[a].leaf {
      l := a;
    } else {
      var c := H[a].kids[|H[a].vals|];
      assert KidOk(H, G, a, |H[a].vals|, c);
      l := LastLeaf(H, G, root, s, cap, c);
    }
  }

  /** No delimiter sits at an index held by a leaf. */
  lemma NotInLeaf(H: Heap, G: Spans, root: Node?, s: seq<Entry>, cap: nat, n: Node?, g: int, a: Node?)
    requires H.Keys == G.Keys && root in H && Sized(H, G, root, cap) && AllTiled(H, G, s)
    requires AllKids(H, G) && AllApart(G)
    requires n in H && H[n].leaf && G[n].lo <= g < G[n].hi && a in H
    ensures G[a].hi != g
  {
    var l := LastLeaf(H, G, root, s, cap, a);
    assert ApartOk(G, l, n) && SizeOk(H, G, root, cap, n) && TiledNode(H, G, s, l);
  }

  lemma RemovedLeafRow(s: seq<Entry>, s': seq<Entry>, sp: Span, sp': Span, vals: seq<Entry>, here: bool, i: nat,
                       at: Span)
    requires LeafRow(s, sp.lo, sp.hi, vals) && 0 <= at.lo + i < at.hi <= |s|
    requires s' == RemoveAt(s, at.lo + i) && sp' == Pulled(sp, at.lo + i)
    requires if here then sp == at && i < |vals| else sp.hi < at.lo || at.hi < sp.lo
    ensures LeafRow(s', sp'.lo, sp'.hi, if here then vals[..i] + vals[i + 1..] else vals)
  {
    if here {
      var g := at.lo + i;
      assert vals[..i] == s[sp.lo..g] && vals[i + 1..] == s[g + 1..sp.hi];
      assert s'[sp'.lo..sp'.hi] == s[sp.lo..g] + s[g + 1..sp.hi];
    } else {
      assert s'[sp'.lo..sp'.hi] == s[sp.lo..sp.hi];
    }
  }

  lemma RemovedInnerRow(G: Spans, G': Spans, s: seq<Entry>, s': seq<Entry>, lo: int, hi: int,
                        v: seq<Entry>, k: seq<Node?>, g: int)
    requires InnerRow(G, s, lo, hi, v, k) && 0 <= g < |s| && s' == RemoveAt(s, g) && G' == PulledSpans(G, g)
    requires forall i {:trigger k[i]} :: 0 <= i < |k| ==> k[i] in G && G[k[i]].hi != g
    ensures InnerRow(G', s', Pulled(Span(lo, hi, 0), g).lo, Pulled(Span(lo, hi, 0), g).hi, v, k)
  {
    forall i | 0 <= i < |v| ensures Glue(G', s', k[i], v[i], k[i + 1]) { assert Glue(G, s, k[i], v[i], k[i + 1]); }
  }

  lemma ApartAt(G: Spans, m: Node?, n: Node?)
    requires AllApart(G) && m in G && n in G
    ensures ApartOk(G, m, n)
  {}

  lemma RemovedTiled(H: Heap, H': Heap, G: Spans, G': Spans, root: Node?, s: seq<Entry>, cap: nat, n: Node?, i: nat,
                     m: Node?)
    requires H.Keys == G.Keys && root in H && Sized(H, G, root, cap) && AllTiled(H, G, s)
    requires AllKids(H, G) && AllApart(G)
    requires n in H && H[n].leaf && i < |H[n].vals| && m in H
    requires H' == LeafRemoved(H, n, i) && G' == PulledSpans(G, G[n].lo + i)
    requires 0 <= G[n].lo + i < G[n].hi <= |s|
    ensures TiledNode(H', G', RemoveAt(s, G[n].lo + i), m)
  {
    hide InnerRow, AllApart, AllFilled, AllUp;
    var g := G[n].lo + i;
    assert TiledNode(H, G, s, m) && TiledNode(H, G, s, n) && SizeOk(H, G, root, cap, m) && SizeOk(H, G, root, cap, n);
    if H[m].leaf {
      assert ApartOk(G, m, n) by { ApartAt(G, m, n); }
      RemovedLeafRow(s, RemoveAt(s, g), G[m], G'[m], H[m].vals, n == m, i, G[n]);
    } else {
      assert KidsOk(H, G, m);
      forall j {:trigger H[m].kids[j]} | 0 <= j < |H[m].kids| ensures H[m].kids[j] in G && G[H[m].kids[j]].hi != g {
        assert KidOk(H, G, m, j, H[m].kids[j]);
        NotInLeaf(H, G, root, s, cap, n, g, H[m].kids[j]);
      }
      RemovedInnerRow(G, G', s, RemoveAt(s, g), G[m].lo, G[m].hi, H[m].vals, H[m].kids, g);
    }
  }

  /** remove_value on a leaf keeps the tree, which then holds the shorter sequence; the leaf may be empty. */
  lemma RemoveKeepsTree(H: Heap, H': Heap, G: Spans, G': Spans, root: Node?, s: seq<Entry>, cap: nat, n: Node?, i: nat)
    requires Tree(H, G, root, s, cap, null) && n in H && H[n].leaf && i < |H[n].vals|
    requires H' == LeafRemoved(H, n, i) && G' == PulledSpans(G, G[n].lo + i)
    ensures 0 <= G[n].lo + i < G[n].hi <= |s|
    ensures Tree(H', G', root, RemoveAt(s, G[n].lo + i), cap, n)
  {
    hide InnerRow, AllKids, AllUp, AllFilled, Sized;
    assert TiledNode(H, G, s, n) && G[n].hi == G[n].lo + |H[n].vals| && 0 <= G[n].lo <= G[n].hi <= |s|;
    forall m | m in H' ensures TiledNode(H', G', RemoveAt(s, G[n].lo + i), m) {
      RemovedTiled(H, H', G, G', root, s, cap, n, i, m);
    }
    CountsOk(H, G, root, cap, null);
    ValuesOnly(H, H', G, G', root, cap, n);
    SpansSane(H, G, s);
    forall a, b | a in G' && b in G' ensures ApartOk(G', a, b) {
      assert ApartOk(G, a, b);
      RemovedApart(H, G, root, s, cap, n, G[n].lo + i, a, b);
    }
  }

  /** Spans of one level stay separated: none ends or begins between the removed index and its neighbour. */
  lemma RemovedApart(H: Heap, G: Spans, root: Node?, s: seq<Entry>, cap: nat, n: Node?, g: int, a: Node?, b: Node?)
    requires H.Keys == G.Keys && root in H && Sized(H, G, root, cap) && AllTiled(H, G, s)
    requires AllKids(H, G) && AllApart(G)
    requires n in H && H[n].leaf && G[n].lo <= g < G[n].hi && a in H && b in H
    ensures G[a].hi < G[b].lo ==> Pulled(G[a], g).hi < Pulled(G[b], g).lo
    ensures G[b].hi < G[a].lo ==> Pulled(G[b], g).hi < Pulled(G[a], g).lo
  {
    NotInLeaf(H, G, root, s, cap, n, g, a);
    NotInLeaf(H, G, root, s, cap, n, g, b);
  }

  // ---- Exchanging a delimiter with a leaf value ----

  /** The ancestor of a at height h spans at least what a does. */
  lemma AncestorAt(H: Heap, G: Spans, root: Node?, s: seq<Entry>, cap: nat, a: Node?, h: nat) returns (x: Node?)
    requires H.Keys == G.Keys && root in H && Sized(H, G, root, cap) && AllTiled(H, G, s)
    requires AllKids(H, G) && AllUp(H, root)
    requires a in H && G[a].h <= h <= G[root].h
    ensures x in H && G[x].h == h && G[x].lo <= G[a].lo && G[a].hi <= G[x].hi
    decreases h - G[a].h
  {
    if G[a].h == h {
      x := a;
    } else {
      assert UpOk(H, a);
      var p := H[a].parent;
      assert KidsOk(H, G, p) && TiledNode(H, G, s, p) && KidOk(H, G, p, H[a].position, H[p].kids[H[a].position]);
      x := AncestorAt(H, G, root, s, cap, p, h);
    }
  }

  /** A delimiter's index determines its node and position. */
  lemma DelimiterUnique(H: Heap, G: Spans, root: Node?, s: seq<Entry>, cap: nat, n: Node?, j: nat, m: Node?, k: nat)
    requires H.Keys == G.Keys && root in H && Sized(H, G, root, cap) && AllTiled(H, G, s)
    requires AllKids(H, G) && AllUp(H, root) && AllApart(G)
    requires n in H && !H[n].leaf && j < |H[n].vals| && m in H && !H[m].leaf && k < |H[m].vals|
    requires j < |H[n].kids| && H[n].kids[j] in G && k < |H[m].kids| && H[m].kids[k] in G
    requires G[H[n].kids[j]].hi == G[H[m].kids[k]].hi
    ensures n == m && j == k
  {
    assert TiledNode(H, G, s, n) && TiledNode(H, G, s, m);
    assert Glue(G, s, H[n].kids[j], H[n].vals[j], H[n].kids[j + 1]);
    assert Glue(G, s, H[m].kids[k], H[m].vals[k], H[m].kids[k + 1]);
    if G[n].h < G[m].h {
      Higher(H, G, root, s, cap, m, k, n, G[H[n].kids[j]].hi);
    } else if G[m].h < G[n].h {
      Higher(H, G, root, s, cap, n, j, m, G[H[n].kids[j]].hi);
    } else {
      assert ApartOk(G, n, m);
      if j < k { RowOrder(G, s, G[n].lo, G[n].hi, H[n].vals, H[n].kids, j, k); }
      if k < j { RowOrder(G, s, G[n].lo, G[n].hi, H[n].vals, H[n].kids, k, j); }
    }
  }

  /** A lower node cannot hold both the index of a higher delimiter's left neighbour and the next one. */
  lemma Higher(H: Heap, G: Spans, root: Node?, s: seq<Entry>, cap: nat, n: Node?, j: nat, m: Node?, g: int)
    requires H.Keys == G.Keys && root in H && Sized(H, G, root, cap) && AllTiled(H, G, s)
    requires AllKids(H, G) && AllUp(H, root) && AllApart(G)
    requires n in H && j < |H[n].kids| && H[n].kids[j] in G && G[H[n].kids[j]].hi == g
    requires m in H && G[m].h < G[n].h
    ensures !(G[m].lo <= g < G[m].hi)
  {
    var c := H[n].kids[j];
    assert KidsOk(H, G, n) && KidOk(H, G, n, j, c) && TiledNode(H, G, s, c);
    assert SizeOk(H, G, root, cap, n);
    var x := AncestorAt(H, G, root, s, cap, m, G[c].h);
    assert ApartOk(G, x, c);
  }

  ghost function Swapped(s: seq<Entry>, f: int, g: int): seq<Entry>
    requires 0 <= f < |s| && 0 <= g < |s|
  {
    s[g := s[f]][f := s[g]]
  }

  ghost function Exchanged(H: Heap, n: Node?, j: nat, l: Node?, i: nat): Heap
    requires n in H && l in H && n != l && j < |H[n].vals| && i < |H[l].vals|
  {
    H[n := H[n].(vals := H[n].vals[j := H[l].vals[i]])][l := H[l].(vals := H[l].vals[i := H[n].vals[j]])]
  }

  /** The facts an exchange of delimiter j of n with value i of leaf l may use. */
  ghost predicate ExchangeSetting(H: Heap, G: Spans, root: Node?, s: seq<Entry>, cap: nat, n: Node?, j: nat,
                                  l: Node?, i: nat) {
    && H.Keys == G.Keys && root in H && Sized(H, G, root, cap) && AllTiled(H, G, s) && AllKids(H, G) &&
        AllUp(H, root) && AllApart(G)
    && n in H && !H[n].leaf && j < |H[n].vals| && j < |H[n].kids| && H[n].kids[j] in G
    && l in H && H[l].leaf && i < |H[l].vals|
    && 0 <= G[l].lo && G[l].lo + i < G[l].hi <= |s| && 0 <= G[H[n].kids[j]].hi < |s|
    && H[n].vals[j] == s[G[H[n].kids[j]].hi] && H[l].vals[i] == s[G[l].lo + i]
  }

  lemma ExchangedTiled(H: Heap, G: Spans, root: Node?, s: seq<Entry>, cap: nat, n: Node?, j: nat, l: Node?, i: nat,
                       m: Node?)
    requires ExchangeSetting(H, G, root, s, cap, n, j, l, i) && m in H
    ensures TiledNode(Exchanged(H, n, j, l, i), G, Swapped(s, G[l].lo + i, G[H[n].kids[j]].hi), m)
  {
    if H[m].leaf {
      ExchangedLeaf(H, G, root, s, cap, n, j, l, i, m);
    } else {
      ExchangedInner(H, G, root, s, cap, n, j, l, i, m);
    }
  }

  lemma ExchangedLeaf(H: Heap, G: Spans, root: Node?, s: seq<Entry>, cap: nat, n: Node?, j: nat, l: Node?, i: nat,
                      m: Node?)
    requires ExchangeSetting(H, G, root, s, cap, n, j, l, i) && m in H && H[m].leaf
    ensures TiledNode(Exchanged(H, n, j, l, i), G, Swapped(s, G[l].lo + i, G[H[n].kids[j]].hi), m)
  {
    hide InnerRow, AllKids, AllUp;
    var f, g := G[l].lo + i, G[H[n].kids[j]].hi;
    assert TiledNode(H, G, s, m) && ApartOk(G, m, l);
    assert SizeOk(H, G, root, cap, m) && SizeOk(H, G, root, cap, l);
    if G[m].lo <= g < G[m].hi { NotInLeaf(H, G, root, s, cap, m, g, H[n].kids[j]); }
    var H' := Exchanged(H, n, j, l, i);
    assert H'[m].vals == Swapped(s, f, g)[G[m].lo..G[m].hi];
  }

  lemma ExchangedInner(H: Heap, G: Spans, root: Node?, s: seq<Entry>, cap: nat, n: Node?, j: nat, l: Node?, i: nat,
                       m: Node?)
    requires ExchangeSetting(H, G, root, s, cap, n, j, l, i) && m in H && !H[m].leaf
    ensures TiledNode(Exchanged(H, n, j, l, i), G, Swapped(s, G[l].lo + i, G[H[n].kids[j]].hi), m)
  {
    hide AllUp, AllKids, AllApart, Sized, Exchanged;
    var f, g := G[l].lo + i, G[H[n].kids[j]].hi;
    var v, k := H[m].vals, H[m].kids;
    var v' := if m == n then v[j := s[f]] else v;
    assert TiledNode(H, G, s, m);
    NotInLeaf(H, G, root, s, cap, l, f, H[n].kids[j]);
    forall q | 0 <= q < |v'| ensures Glue(G, Swapped(s, f, g), k[q], v'[q], k[q + 1]) {
      assert Glue(G, s, k[q], v[q], k[q + 1]);
      NotInLeaf(H, G, root, s, cap, l, f, k[q]);
      if G[k[q]].hi == g { DelimiterUnique(H, G, root, s, cap, n, j, m, q); }
    }
    ExchangedRow(H, n, j, l, i, m);
  }

  lemma ExchangedRow(H: Heap, n: Node?, j: nat, l: Node?, i: nat, m: Node?)
    requires n in H && l in H && n != l && j < |H[n].vals| && i < |H[l].vals| && m in H && m != l
    ensures var H' := Exchanged(H, n, j, l, i);
      m in H' && H'[m].leaf == H[m].leaf && H'[m].kids == H[m].kids
      && H'[m].vals == if m == n then H[n].vals[j := H[l].vals[i]] else H[m].vals
  {}

  /** value_swap between an internal node and a leaf keeps the tree, which then holds the exchanged sequence. */
  lemma ExchangeKeepsTree(H: Heap, G: Spans, root: Node?, s: seq<Entry>, cap: nat, n: Node?, j: nat, l: Node?, i: nat)
    requires Tree(H, G, root, s, cap, null) && ExchangeSetting(H, G, root, s, cap, n, j, l, i)
    ensures Tree(Exchanged(H, n, j, l, i), G, root, Swapped(s, G[l].lo + i, G[H[n].kids[j]].hi), cap, null)
  {
    var H' := Exchanged(H, n, j, l, i);
    var s' := Swapped(s, G[l].lo + i, G[H[n].kids[j]].hi);
    hide InnerRow, LeafRow, AllApart, AllKids, AllUp, AllFilled, Sized, ExchangeSetting, Exchanged, Swapped, TiledNode;
    forall m | m in H' ensures TiledNode(H', G, s', m) { ExchangedTiled(H, G, root, s, cap, n, j, l, i, m); }
    CountsOk(H, G, root, cap, null);
    ExchangedCounts(H, n, j, l, i);
    ValuesOnly(H, H', G, G, root, cap, null);
  }

  lemma ExchangedCounts(H: Heap, n: Node?, j: nat, l: Node?, i: nat)
    requires n in H && l in H && n != l && j < |H[n].vals| && i < |H[l].vals|
    ensures var H' := Exchanged(H, n, j, l, i);
      && H'.Keys == H.Keys
      && (forall m {:trigger H'[m]} :: m in H ==> H'[m] == H[m].(vals := H'[m].vals) && |H'[m].vals| == |H[m].vals|)
  {}
}
