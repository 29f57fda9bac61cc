/** Growing and shrinking the tree at the root. */
module BTreeRoot {
  import opened BTreeNode
  import opened BTreeShape
  import opened BTreeResplit
  import opened BTreeEdit

  /** A leaf root r becomes the only child of a new internal root q. */
  ghost predicate LeafRaised(H: Heap, H': Heap, r: Node, q: Node, cap: nat) {
    && r in H && H[r].leaf && q !in H && H'.Keys == H.Keys + {q}
    && H'[r] == H[r].(parent := q, position := 0)
    && H'[q] == Rec(false, cap, H'[q].position, H'[q].parent, [], [r])
    && forall n {:trigger H'[n]} :: n in H && n != r ==> H'[n] == H[n]
  }

  lemma RaiseLeafKeepsTree(H: Heap, H': Heap, G: Spans, r: Node, q: Node, s: seq<Entry>, cap: nat)
    requires Tree(H, G, r, s, cap, null) && LeafRaised(H, H', r, q, cap) && H[r].maxCount == cap && cap >= 1
    ensures Tree(H', G[q := Span(0, |s|, 1)], q, s, cap, q)
    ensures H.Keys == {r}
  {
    var G' := G[q := Span(0, |s|, 1)];
    assert H.Keys == {r} by {
      forall n | n in H ensures n == r { assert SizeOk(H, G, r, cap, n) && SizeOk(H, G, r, cap, r); }
    }
    assert TiledNode(H, G, s, r) && SizeOk(H, G, r, cap, r) && Filled(H, null, r);
    forall n | n in H'
      ensures TiledNode(H', G', s, n) && KidsOk(H', G', n) && SizeOk(H', G', q, cap, n) && Filled(H', q, n)
    {
      if n == r { assert KidsOk(H, G, r); }
    }
    forall n | n in H' && n != q ensures UpOk(H', n) {}
  }

  /** An internal root r hands everything it holds to a new node q and keeps q as its only child. */
  ghost predicate InnerRaised(H: Heap, H': Heap, r: Node, q: Node, cap: nat) {
    && r in H && !H[r].leaf && q !in H && H'.Keys == H.Keys + {q}
    && H'[r] == H[r].(vals := [], kids := [q])
    && H'[q] == Rec(false, cap, 0, r, H[r].vals, H[r].kids)
    && (forall i {:trigger H[r].kids[i]} :: 0 <= i < |H[r].kids| ==>
          H[r].kids[i] in H && H'[H[r].kids[i]] == H[H[r].kids[i]].(parent := q))
    && forall n {:trigger H'[n]} :: n in H && n != r && n !in H[r].kids ==> H'[n] == H[n]
  }

  ghost function RaisedSpans(G: Spans, r: Node, q: Node): Spans
    requires r in G
  {
    G[q := G[r]][r := G[r].(h := G[r].h + 1)]
  }

  lemma RaiseInnerKeepsTree(H: Heap, H': Heap, G: Spans, r: Node, q: Node, s: seq<Entry>, cap: nat)
    requires Tree(H, G, r, s, cap, null) && InnerRaised(H, H', r, q, cap)
    ensures Tree(H', RaisedSpans(G, r, q), r, s, cap, r)
  {
    hide AllTiled, AllKids, AllUp, AllFilled, Sized, AllApart;
    RaisedTilesAndKids(H, H', G, r, q, s, cap);
    RaisedSized(H, H', G, r, q, s, cap);
    RaisedLinks(H, H', G, r, q, cap);
    SpansSane(H, G, s);
    RaisedApart(H, G, r, q, cap);
  }

  lemma RaisedTilesAndKids(H: Heap, H': Heap, G: Spans, r: Node, q: Node, s: seq<Entry>, cap: nat)
    requires Tree(H, G, r, s, cap, null) && InnerRaised(H, H', r, q, cap)
    ensures var G' := RaisedSpans(G, r, q); H'.Keys == G'.Keys && AllTiled(H', G', s) && AllKids(H', G')
  {
    hide TiledNode, KidsOk, AllUp, Sized, AllFilled, AllApart;
    var G' := RaisedSpans(G, r, q);
    forall n | n in H' ensures TiledNode(H', G', s, n) && KidsOk(H', G', n) { RaisedNode(H, H', G, r, q, s, cap, n); }
  }

  lemma RaisedSized(H: Heap, H': Heap, G: Spans, r: Node, q: Node, s: seq<Entry>, cap: nat)
    requires Tree(H, G, r, s, cap, null) && InnerRaised(H, H', r, q, cap)
    ensures var G' := RaisedSpans(G, r, q); H'.Keys == G'.Keys && Sized(H', G', r, cap) && AllFilled(H', r)
  {
    hide AllTiled, AllKids, AllUp, SizeOk, Filled, AllApart;
    var G' := RaisedSpans(G, r, q);
    RaisedCounts(H, H', G, r, q, s, cap, r);
    forall n | n in H' ensures SizeOk(H', G', r, cap, n) && Filled(H', r, n) {
      RaisedCounts(H, H', G, r, q, s, cap, n);
    }
  }

  lemma RaisedLinks(H: Heap, H': Heap, G: Spans, r: Node, q: Node, cap: nat)
    requires H.Keys == G.Keys && AllUp(H, r) && AllKids(H, G) && InnerRaised(H, H', r, q, cap)
    ensures AllUp(H', r)
  {
    hide AllKids, UpOk;
    forall n | n in H' && n != r ensures UpOk(H', n) { RaisedUp(H, H', G, r, q, cap, n); }
  }

  lemma RaisedApart(H: Heap, G: Spans, r: Node, q: Node, cap: nat)
    requires H.Keys == G.Keys && r in H && Sized(H, G, r, cap) && AllApart(G) && q !in H
    requires forall n {:trigger G[n]} :: n in G ==> G[n].lo <= G[n].hi
    ensures AllApart(RaisedSpans(G, r, q))
  {
    var G' := RaisedSpans(G, r, q);
    forall a, b | a in G' && b in G' ensures ApartOk(G', a, b) {
      assert ApartOk(G, if a == q then r else a, if b == q then r else b);
      HighestAlone(H, G, r, cap, a);
      HighestAlone(H, G, r, cap, b);
    }
  }

  lemma HighestAlone(H: Heap, G: Spans, r: Node?, cap: nat, n: Node?)
    requires H.Keys == G.Keys && r in H && Sized(H, G, r, cap)
    ensures n in H && n != r ==> G[n].h < G[r].h
  {
    if n in H { assert SizeOk(H, G, r, cap, n); }
  }

  /** Every child in a row points at the row's node. */
  lemma KidsBelow(H: Heap, G: Spans, n: Node?)
    requires H.Keys == G.Keys && AllKids(H, G) && n in H
    ensures forall c {:trigger c in H[n].kids} :: c in H[n].kids ==> c in H && H[c].parent == n && G[c].h + 1 == G[n].h
  {
    assert KidsOk(H, G, n);
  }

  lemma RaisedSame(H: Heap, H': Heap, r: Node, q: Node, cap: nat, n: Node?)
    requires InnerRaised(H, H', r, q, cap) && n in H && n != r
    ensures H'[n].leaf == H[n].leaf && H'[n].vals == H[n].vals && H'[n].kids == H[n].kids
    ensures H'[n].maxCount == H[n].maxCount && H'[n].position == H[n].position
    ensures H'[n].parent == if n in H[r].kids then q else H[n].parent
  {
    if n in H[r].kids { var i :| 0 <= i < |H[r].kids| && H[r].kids[i] == n; }
  }

  lemma RaisedNode(H: Heap, H': Heap, G: Spans, r: Node, q: Node, s: seq<Entry>, cap: nat, n: Node?)
    requires H.Keys == G.Keys && r in H && AllTiled(H, G, s) && AllKids(H, G) && Sized(H, G, r, cap)
    requires G[r].lo == 0 && G[r].hi == |s|
    requires InnerRaised(H, H', r, q, cap) && n in H'
    ensures var G' := RaisedSpans(G, r, q); H'.Keys == G'.Keys && TiledNode(H', G', s, n) && KidsOk(H', G', n)
  {
    var G' := RaisedSpans(G, r, q);
    var o := if n == q then r else n;
    assert TiledNode(H, G, s, o) && KidsOk(H, G, o) && SizeOk(H, G, r, cap, o);
    if n != r {
      forall i {:trigger H[o].kids[i]} | 0 <= i < |H[o].kids|
        ensures H[o].kids[i] in G' && G'[H[o].kids[i]] == G[H[o].kids[i]] && KidOk(H', G', n, i, H[o].kids[i])
      {
        RaisedKid(H, H', G, r, q, s, cap, n, i);
      }
      RowFrame(G, G', s, G[o].lo, G[o].hi, H[o].leaf, H[o].vals, H[o].kids);
      if n != q { RaisedSame(H, H', r, q, cap, n); }
    }
  }

  lemma RaisedKid(H: Heap, H': Heap, G: Spans, r: Node, q: Node, s: seq<Entry>, cap: nat, n: Node?, i: nat)
    requires H.Keys == G.Keys && r in H && AllKids(H, G) && Sized(H, G, r, cap)
    requires InnerRaised(H, H', r, q, cap) && n in H' && n != r
    requires i < |H[if n == q then r else n].kids|
    ensures var c := H[if n == q then r else n].kids[i]; var G' := RaisedSpans(G, r, q);
      c in G && c in G' && n in G' && G'[c] == G[c] && KidOk(H', G', n, i, c)
  {
    var o := if n == q then r else n;
    var c := H[o].kids[i];
    assert KidsOk(H, G, o) && KidOk(H, G, o, i, c) && SizeOk(H, G, r, cap, o);
    KidsBelow(H, G, r);
    RaisedSame(H, H', r, q, cap, c);
  }

  lemma RaisedCounts(H: Heap, H': Heap, G: Spans, r: Node, q: Node, s: seq<Entry>, cap: nat, n: Node?)
    requires Tree(H, G, r, s, cap, null) && InnerRaised(H, H', r, q, cap) && n in H'
    ensures var G' := RaisedSpans(G, r, q);
      H'.Keys == G'.Keys && SizeOk(H', G', r, cap, n) && Filled(H', r, n) && null !in H'
  {
    hide AllTiled, AllKids, AllUp, AllApart;
    var o := if n == q then r else n;
    assert SizeOk(H, G, r, cap, o) && Filled(H, null, o) && SizeOk(H, G, r, cap, r);
    if n in H && n != r { RaisedSame(H, H', r, q, cap, n); }
  }

  lemma RaisedUp(H: Heap, H': Heap, G: Spans, r: Node, q: Node, cap: nat, n: Node?)
    requires H.Keys == G.Keys && AllUp(H, r) && AllKids(H, G) && n in H' && n != r
    requires InnerRaised(H, H', r, q, cap)
    ensures UpOk(H', n)
  {
    if n != q {
      assert UpOk(H, n);
      RaisedSame(H, H', r, q, cap, n);
      if n in H[r].kids {
        var j :| 0 <= j < |H[r].kids| && H[r].kids[j] == n;
        assert KidsOk(H, G, r) && KidOk(H, G, r, j, n);
      } else {
        assert H[n].parent != r;
        RaisedSame(H, H', r, q, cap, H[n].parent);
      }
    }
  }

  /** The only child of an empty root spans everything, one level down. */
  lemma OnlyChild(H: Heap, G: Spans, r: Node, c: Node?, s: seq<Entry>, cap: nat)
    requires Tree(H, G, r, s, cap, r) && !H[r].leaf && H[r].vals == [] && |H[r].kids| == 1 && H[r].kids[0] == c
    ensures c in H && c != r && H[c].parent == r && H[c].position == 0 && G[c].h + 1 == G[r].h
    ensures G[c].lo == 0 && G[c].hi == |s|
  {
    assert TiledNode(H, G, s, r) && KidsOk(H, G, r) && KidOk(H, G, r, 0, c);
  }

  lemma OnlyChildHighest(H: Heap, G: Spans, r: Node, c: Node?, s: seq<Entry>, cap: nat, n: Node?)
    requires Tree(H, G, r, s, cap, r) && !H[r].leaf && H[r].vals == [] && |H[r].kids| == 1 && H[r].kids[0] == c
    requires c in H && n in H
    ensures n == r || n == c || G[n].h < G[c].h
  {
    hide AllTiled, AllApart, AllFilled;
    assert KidsOk(H, G, r) && KidOk(H, G, r, 0, c);
    if n != r {
      assert UpOk(H, n) && KidsOk(H, G, H[n].parent) && KidOk(H, G, H[n].parent, H[n].position, n);
      assert SizeOk(H, G, r, cap, H[n].parent);
    }
  }

  /** An internal root left without values takes over everything its only child c holds, and c goes. */
  ghost predicate Dropped(H: Heap, H': Heap, r: Node, c: Node) {
    && r in H && c in H && r != c && !H[r].leaf && !H[c].leaf && H[r].vals == [] && H[r].kids == [c]
    && H'.Keys == H.Keys - {c}
    && H'[r] == H[r].(vals := H[c].vals, kids := H[c].kids)
    && (forall i {:trigger H[c].kids[i]} :: 0 <= i < |H[c].kids| ==>
          H[c].kids[i] in H' && H'[H[c].kids[i]] == H[H[c].kids[i]].(parent := r))
    && forall n {:trigger H'[n]} :: n in H' && n != r && n !in H[c].kids ==> H'[n] == H[n]
  }

  ghost function DroppedSpans(G: Spans, r: Node, c: Node): Spans
    requires c in G
  {
    (G - {c})[r := G[c]]
  }

  lemma DroppedSame(H: Heap, H': Heap, r: Node, c: Node, n: Node?)
    requires Dropped(H, H', r, c) && n in H' && n != r
    ensures n in H && H'[n].leaf == H[n].leaf && H'[n].vals == H[n].vals && H'[n].kids == H[n].kids
    ensures H'[n].maxCount == H[n].maxCount && H'[n].position == H[n].position
    ensures H'[n].parent == if n in H[c].kids then r else H[n].parent
  {
    if n in H[c].kids { var i :| 0 <= i < |H[c].kids| && H[c].kids[i] == n; }
  }

  lemma DropInnerKeepsTree(H: Heap, H': Heap, G: Spans, r: Node, c: Node, s: seq<Entry>, cap: nat)
    requires Tree(H, G, r, s, cap, r) && Dropped(H, H', r, c)
    ensures Tree(H', DroppedSpans(G, r, c), r, s, cap, null)
  {
    hide AllTiled, AllKids, AllUp, AllFilled, Sized, AllApart;
    OnlyChild(H, G, r, c, s, cap);
    DroppedTilesAndKids(H, H', G, r, c, s, cap);
    DroppedSized(H, H', G, r, c, s, cap);
    DroppedLinks(H, H', G, r, c);
    DroppedApart(H, H', G, r, c, s, cap);
  }

  lemma DroppedTilesAndKids(H: Heap, H': Heap, G: Spans, r: Node, c: Node, s: seq<Entry>, cap: nat)
    requires Tree(H, G, r, s, cap, r) && Dropped(H, H', r, c)
    ensures var G' := DroppedSpans(G, r, c); H'.Keys == G'.Keys && AllTiled(H', G', s) && AllKids(H', G')
  {
    hide TiledNode, KidsOk, AllUp, Sized, AllFilled, AllApart;
    var G' := DroppedSpans(G, r, c);
    forall n | n in H' ensures TiledNode(H', G', s, n) && KidsOk(H', G', n) { DroppedNode(H, H', G, r, c, s, cap, n); }
  }

  lemma DroppedNode(H: Heap, H': Heap, G: Spans, r: Node, c: Node, s: seq<Entry>, cap: nat, n: Node?)
    requires Tree(H, G, r, s, cap, r) && Dropped(H, H', r, c) && n in H'
    ensures var G' := DroppedSpans(G, r, c); n in G' && TiledNode(H', G', s, n) && KidsOk(H', G', n)
  {
    hide InnerRow, LeafRow, AllUp, AllFilled, AllApart, Sized;
    var G' := DroppedSpans(G, r, c);
    var o := if n == r then c else n;
    OnlyChild(H, G, r, c, s, cap);
    assert TiledNode(H, G, s, o) && KidsOk(H, G, o);
    forall i {:trigger H[o].kids[i]} | 0 <= i < |H[o].kids|
      ensures H[o].kids[i] in G' && G'[H[o].kids[i]] == G[H[o].kids[i]] && KidOk(H', G', n, i, H[o].kids[i])
    {
      DroppedKid(H, H', G, r, c, s, cap, n, i);
    }
    RowFrame(G, G', s, G[o].lo, G[o].hi, H[o].leaf, H[o].vals, H[o].kids);
    if n != r { DroppedSame(H, H', r, c, n); }
  }

  lemma DroppedKid(H: Heap, H': Heap, G: Spans, r: Node, c: Node, s: seq<Entry>, cap: nat, n: Node?, i: nat)
    requires Tree(H, G, r, s, cap, r) && Dropped(H, H', r, c) && n in H'
    requires i < |H[if n == r then c else n].kids|
    ensures var k := H[if n == r then c else n].kids[i]; var G' := DroppedSpans(G, r, c);
      k in G && k in G' && n in G' && G'[k] == G[k] && KidOk(H', G', n, i, k)
  {
    hide AllTiled, AllUp, AllFilled, AllApart;
    var o := if n == r then c else n;
    var k := H[o].kids[i];
    OnlyChild(H, G, r, c, s, cap);
    assert KidsOk(H, G, o) && KidOk(H, G, o, i, k) && SizeOk(H, G, r, cap, o);
    KidsBelow(H, G, c);
    DroppedSame(H, H', r, c, k);
  }

  lemma DroppedSized(H: Heap, H': Heap, G: Spans, r: Node, c: Node, s: seq<Entry>, cap: nat)
    requires Tree(H, G, r, s, cap, r) && Dropped(H, H', r, c)
    ensures var G' := DroppedSpans(G, r, c); H'.Keys == G'.Keys && Sized(H', G', r, cap) && AllFilled(H', null)
  {
    hide AllTiled, AllKids, AllUp, AllApart;
    var G' := DroppedSpans(G, r, c);
    OnlyChild(H, G, r, c, s, cap);
    assert SizeOk(H, G, r, cap, c) && SizeOk(H, G, r, cap, r) && Filled(H, r, c);
    forall n | n in H' ensures SizeOk(H', G', r, cap, n) && Filled(H', null, n) {
      assert SizeOk(H, G, r, cap, n) && Filled(H, r, n);
      if n != r {
        DroppedSame(H, H', r, c, n);
        OnlyChildHighest(H, G, r, c, s, cap, n);
      }
    }
  }

  lemma DroppedLinks(H: Heap, H': Heap, G: Spans, r: Node, c: Node)
    requires H.Keys == G.Keys && AllUp(H, r) && AllKids(H, G) && Dropped(H, H', r, c)
    ensures AllUp(H', r)
  {
    hide AllKids;
    KidsBelow(H, G, c);
    forall n | n in H' && n != r ensures UpOk(H', n) {
      assert UpOk(H, n);
      DroppedSame(H, H', r, c, n);
      if n !in H[c].kids && H[n].parent != r { DroppedSame(H, H', r, c, H[n].parent); }
    }
  }

  lemma DroppedApart(H: Heap, H': Heap, G: Spans, r: Node, c: Node, s: seq<Entry>, cap: nat)
    requires Tree(H, G, r, s, cap, r) && Dropped(H, H', r, c)
    ensures AllApart(DroppedSpans(G, r, c))
  {
    hide AllTiled, AllKids, AllUp, AllFilled, Sized;
    var G' := DroppedSpans(G, r, c);
    forall a, b | a in G' && b in G' ensures ApartOk(G', a, b) {
      assert ApartOk(G, if a == r then c else a, if b == r then c else b);
    }
  }
}
