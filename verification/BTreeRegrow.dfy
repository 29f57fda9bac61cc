/** Changes at the root and in one leaf, from the objects to the heap. */
module BTreeRegrow {
  import opened BTreeNode
  import opened BTreeShape
  import opened BTreeEdit
  import opened BTreeRoot
  import opened BTreeObjects

  // ---- Swapping two nodes ----

  /** What swap may assume: the two nodes hold VA, KA and VB, KB. */
  ghost predicate Swappable(a: Node, b: Node, VA: seq<Entry>, KA: seq<Node?>, kas: set<Node>,
                            VB: seq<Entry>, KB: seq<Node?>, kbs: set<Node>)
    reads a, b
  {
    && a != b && a.leaf == b.leaf && a.Shape() && b.Shape() && a.count <= b.maxCount && b.count <= a.maxCount
    && a.Vals() == VA && a.Row() == KA && a.Kids() == kas && b.Vals() == VB && b.Row() == KB && b.Kids() == kbs
    && null !in KA && null !in KB && kas !! kbs
  }

  /** The rows have changed places, and every child knows its new parent. */
  ghost predicate SwappedRows(a: Node, b: Node, VA: seq<Entry>, KA: seq<Node?>, VB: seq<Entry>, KB: seq<Node?>)
    reads a, b, set c: Node | c in KA :: c, set c: Node | c in KB :: c
  {
    && a.Shape() && b.Shape() && a.Vals() == VB && a.Row() == KB && b.Vals() == VA && b.Row() == KA
    && (forall c: Node {:trigger c in KB} :: c in KB ==> c.parent == a)
    && (forall c: Node {:trigger c in KA} :: c in KA ==> c.parent == b)
  }

  /** swap, row by row. */
  method SwapRows(a: Node, b: Node, ghost VA: seq<Entry>, ghost KA: seq<Node?>, ghost kas: set<Node>,
                  ghost VB: seq<Entry>, ghost KB: seq<Node?>, ghost kbs: set<Node>)
    requires Swappable(a, b, VA, KA, kas, VB, KB, kbs)
    modifies a`values, a`count, a`children, b`values, b`count, b`children, kas`parent, kbs`parent
    ensures SwappedRows(a, b, VA, KA, VB, KB)
  {
    RowCells(a);
    RowCells(b);
    a.Swap(b);
    assert a.Vals() == VB && b.Vals() == VA;
    assert a.Row() == KB && b.Row() == KA;
  }

  lemma RowCells(n: Node)
    requires n.Shape() && null !in n.Row()
    ensures !n.leaf ==> forall k {:trigger n.children[k]} :: 0 <= k <= n.count ==> n.children[k] != null
  {
    forall k {:trigger n.children[k]} | 0 <= k <= n.count && !n.leaf ensures n.children[k] != null {
      assert n.Row()[k] in n.Row();
    }
  }

  // ---- A new root above the old one ----

  /** The steps that put a new internal root over the leaf root r. */
  method RaiseLeaf(r: Node, cap: nat, ghost ns: set<Node>, ghost F: map<Node?, Fields>) returns (q: Node)
    requires r in ns && r.leaf && r.Shape() && Recorded(ns, F)
    modifies ns`position, ns`count, ns`parent, ns`values, ns`children
    ensures fresh(q) && !q.leaf && q.maxCount == cap && q.Shape() && q.Vals() == [] && q.Row() == [r]
    ensures q.parent == old(r.parent) && q.rightmost == old(r.parent) && q.size == old(r.parent.count)
    ensures r.parent == q && r.position == 0 && RowsKept(ns, F, {}) && LinksKept(ns, F, {r}, {r})
  {
    q := new Node.Internal(r.parent, cap);
    q.rightmost := r.parent;
    q.size := r.parent.count;
    q.SetChild(0, r);
    forall n {:trigger F[n]} | n in ns
      ensures n in F && n.values == F[n].values && n.children == F[n].children && n.count == F[n].count
    {
      assert n in F;
    }
    forall n {:trigger F[n]} | n in ns
      ensures n in F && (n !in {r} ==> n.parent == F[n].parent) && (n !in {r} ==> n.position == F[n].position)
    {
      assert n in F;
    }
  }

  lemma RaisedLeafHeap(r: Node, q: Node, cap: nat, ns: set<Node>, F: map<Node?, Fields>, H: Heap)
    requires Shows(ns, F, H) && RowsKept(ns, F, {}) && LinksKept(ns, F, {r}, {r}) && r in ns && r.leaf && q !in ns
    requires !q.leaf && q.maxCount == cap && q.Vals() == [] && q.Row() == [r] && r.parent == q && r.position == 0
    ensures LeafRaised(H, Snap(ns + {q}), r, q, cap)
  {
    hide LiveRec;
    var H' := Snap(ns + {q});
    RecKept(r, ns, F, H, {}, {r}, {r});
    forall n {:trigger H'[n]} | n in H && n != r ensures H'[n] == H[n] { AllKept(n, ns, F, H, {}, {r}, {r}); }
  }

  /** The rows of r and q after the steps that move what an internal root r holds into the new node q. */
  ghost predicate RaisedRows(r: Node, q: Node, cap: nat, V: seq<Entry>, K: seq<Node?>)
    reads r, q, set c: Node | c in K :: c
  {
    && r.Shape() && q.Shape() && !q.leaf && q.maxCount == cap && r.Vals() == [] && r.Row() == [q] && q.Vals() == V &&
        q.Row() == K
    && q.parent == r && q.position == 0 && forall c: Node {:trigger c in K} :: c in K ==> c.parent == q
  }

  method RaiseInner(r: Node, cap: nat, ghost ns: set<Node>, ghost V: seq<Entry>, ghost K: seq<Node?>,
                    ghost ks: set<Node>,
                    ghost F: map<Node?, Fields>) returns (q: Node)
    requires r in ns && !r.leaf && r.Shape() && r.maxCount == cap >= 1 && r.Vals() == V
    requires r.Row() == K && null !in K && r.Kids() == ks
    requires ks <= ns && r !in ks && Recorded(ns, F)
    modifies ns`position, ns`count, ns`parent, ns`values, ns`children
    ensures fresh(q) && RaisedRows(r, q, cap, V, K)
    ensures RowsKept(ns, F, {r}) && LinksKept(ns, F, ks, {}) && r.parent == old(r.parent)
  {
    q := new Node.Internal(r.parent, cap);
    q.SetChild(0, q);
    assert q.Row() == [q] && q.Kids() == {q} && q.Vals() == [];
    assert Swappable(q, r, [], [q], {q}, V, K, ks);
    hide Swappable, Node.Kids;
    SwapRows(q, r, [], [q], {q}, V, K, ks);
    assert q in [q];
    forall n {:trigger F[n]} | n in ns && n !in {r}
      ensures n in F && n.values == F[n].values && n.children == F[n].children && n.count == F[n].count
    {
      assert n in F;
    }
    forall n {:trigger F[n]} | n in ns ensures n in F && (n !in ks ==> n.parent == F[n].parent) &&
        n.position == F[n].position {
      assert n in F;
    }
  }

  lemma RaisedInnerHeap(r: Node, q: Node, cap: nat, ns: set<Node>, ks: set<Node>, F: map<Node?, Fields>, H: Heap)
    requires Shows(ns, F, H) && RowsKept(ns, F, {r}) && LinksKept(ns, F, ks, {}) && r in ns
    requires !r.leaf && q !in ns && r !in ks
    requires r in H && RaisedRows(r, q, cap, H[r].vals, H[r].kids) && ks <= ns
    requires forall c {:trigger c in H[r].kids} :: c in H[r].kids ==> c in ks
    requires forall c {:trigger c in ks} :: c in ks ==> c in H[r].kids
    ensures InnerRaised(H, Snap(ns + {q}), r, q, cap)
  {
    hide LiveRec;
    var H', K := Snap(ns + {q}), H[r].kids;
    RecKept(r, ns, F, H, {r}, ks, {});
    forall i {:trigger K[i]} | 0 <= i < |K| ensures K[i] in H && H'[K[i]] == H[K[i]].(parent := q) {
      assert K[i] in K;
      RecKept(K[i], ns, F, H, {r}, ks, {});
    }
    forall n {:trigger H'[n]} | n in H && n != r && n !in K ensures H'[n] == H[n] { AllKept(n, ns, F, H, {r}, ks, {}); }
  }

  // ---- The only child takes the root's place ----

  /** The rows of r after the steps that move what its only child held into it. */
  ghost predicate DroppedRows(r: Node, V: seq<Entry>, K: seq<Node?>)
    reads r, set c: Node | c in K :: c
  {
    r.Shape() && r.Vals() == V && r.Row() == K && forall c: Node {:trigger c in K} :: c in K ==> c.parent == r
  }

  method DropInner(r: Node, c: Node, ghost ns: set<Node>, ghost V: seq<Entry>, ghost K: seq<Node?>, ghost ks: set<Node>,
                   ghost F: map<Node?, Fields>)
    requires r in ns && c in ns && r != c && !r.leaf && !c.leaf && r.Shape() && c.Shape()
    requires r.Vals() == [] && r.Row() == [c]
    requires c.Vals() == V && c.Row() == K && null !in K && c.Kids() == ks && c.count <= r.maxCount
    requires r.count <= c.maxCount
    requires ks <= ns && r !in ks && c !in ks && Recorded(ns, F)
    modifies ns`position, ns`count, ns`parent, ns`values, ns`children
    ensures DroppedRows(r, V, K)
    ensures RowsKept(ns, F, {r, c}) && LinksKept(ns, F, ks + {c}, {}) && r.parent == old(r.parent)
  {
    OnlyKid(r, c);
    assert Swappable(c, r, V, K, ks, [], [c], {c});
    hide Swappable, Node.Kids;
    SwapRows(c, r, V, K, ks, [], [c], {c});
    forall n {:trigger F[n]} | n in ns && n !in {r, c}
      ensures n in F && n.values == F[n].values && n.children == F[n].children && n.count == F[n].count
    {
      assert n in F;
    }
    forall n {:trigger F[n]} | n in ns
      ensures n in F && (n !in ks + {c} ==> n.parent == F[n].parent) && n.position == F[n].position
    {
      assert n in F;
    }
  }

  lemma OnlyKid(r: Node, c: Node)
    requires r.Shape() && r.Row() == [c]
    ensures r.Kids() == {c}
  {
    assert |r.Row()| == 1 && r.children[0] == r.Row()[0];
  }

  lemma DroppedHeap(r: Node, c: Node, ns: set<Node>, ks: set<Node>, F: map<Node?, Fields>, H: Heap)
    requires Shows(ns, F, H) && RowsKept(ns, F, {r, c}) && LinksKept(ns, F, ks + {c}, {}) && r in ns
    requires c in ns && r != c
    requires r in H && c in H && !H[r].leaf && !H[c].leaf && H[r].vals == [] && H[r].kids == [c]
    requires DroppedRows(r, H[c].vals, H[c].kids) && r !in ks && c !in ks && ks <= ns
    requires forall k {:trigger k in H[c].kids} :: k in H[c].kids ==> k in ks
    requires forall k {:trigger k in ks} :: k in ks ==> k in H[c].kids
    ensures Dropped(H, Snap(ns - {c}), r, c)
  {
    hide LiveRec;
    var H', K := Snap(ns - {c}), H[c].kids;
    RecKept(r, ns, F, H, {r, c}, ks + {c}, {});
    forall i {:trigger K[i]} | 0 <= i < |K| ensures K[i] in H' && H'[K[i]] == H[K[i]].(parent := r) {
      assert K[i] in K;
      RecKept(K[i], ns, F, H, {r, c}, ks + {c}, {});
    }
    forall n {:trigger H'[n]} | n in H' && n != r && n !in K ensures H'[n] == H[n] {
      AllKept(n, ns, F, H, {r, c}, ks + {c}, {});
    }
  }

  // ---- One leaf ----

  method InsertIntoLeaf(n: Node, i: nat, x: Entry, ghost ns: set<Node>, ghost V: seq<Entry>, ghost F: map<Node?,
                        Fields>)
    requires n in ns && n.leaf && n.Shape() && i <= n.count < n.maxCount && n.Vals() == V && Recorded(ns, F)
    modifies ns`position, ns`count, ns`parent, ns`values, ns`children
    ensures n.Shape() && n.Vals() == V[..i] + [x] + V[i..]
    ensures RowsKept(ns, F, {n}) && LinksKept(ns, F, {}, {})
  {
    assert n.Kids() == {};
    hide Node.Kids;
    n.InsertValue(i, x);
    forall m {:trigger F[m]} | m in ns && m !in {n}
      ensures m in F && m.values == F[m].values && m.children == F[m].children && m.count == F[m].count
    {
      assert m in F;
    }
    forall m {:trigger F[m]} | m in ns ensures m in F && m.parent == F[m].parent && m.position == F[m].position {
      assert m in F;
    }
  }

  method RemoveFromLeaf(n: Node, i: nat, ghost ns: set<Node>, ghost V: seq<Entry>, ghost F: map<Node?, Fields>)
    requires n in ns && n.leaf && n.Shape() && i < n.count && n.Vals() == V && Recorded(ns, F)
    modifies ns`position, ns`count, ns`parent, ns`values, ns`children
    ensures n.Shape() && n.Vals() == V[..i] + V[i + 1..]
    ensures RowsKept(ns, F, {n}) && LinksKept(ns, F, {}, {})
  {
    assert n.Kids() == {};
    hide Node.Kids;
    n.RemoveValue(i);
    forall m {:trigger F[m]} | m in ns && m !in {n}
      ensures m in F && m.values == F[m].values && m.children == F[m].children && m.count == F[m].count
    {
      assert m in F;
    }
    forall m {:trigger F[m]} | m in ns ensures m in F && m.parent == F[m].parent && m.position == F[m].position {
      assert m in F;
    }
  }

  lemma InsertedHeap(n: Node, i: nat, x: Entry, ns: set<Node>, F: map<Node?, Fields>, H: Heap)
    requires Shows(ns, F, H) && RowsKept(ns, F, {n}) && LinksKept(ns, F, {}, {}) && n in ns && n.leaf && n in H
    requires i <= |H[n].vals| && n.Vals() == H[n].vals[..i] + [x] + H[n].vals[i..]
    ensures Snap(ns) == LeafInserted(H, n, i, x)
  {
    OneLeaf(n, ns, F, H);
  }

  lemma RemovedHeap(n: Node, i: nat, ns: set<Node>, F: map<Node?, Fields>, H: Heap)
    requires Shows(ns, F, H) && RowsKept(ns, F, {n}) && LinksKept(ns, F, {}, {}) && n in ns && n.leaf && n in H
    requires i < |H[n].vals| && n.Vals() == H[n].vals[..i] + H[n].vals[i + 1..]
    ensures Snap(ns) == LeafRemoved(H, n, i)
  {
    OneLeaf(n, ns, F, H);
  }

  lemma OneLeaf(n: Node, ns: set<Node>, F: map<Node?, Fields>, H: Heap)
    requires Shows(ns, F, H) && RowsKept(ns, F, {n}) && LinksKept(ns, F, {}, {}) && n in ns && n.leaf
    ensures n in H && Snap(ns) == H[n := H[n].(vals := n.Vals())]
  {
    RecKept(n, ns, F, H, {n}, {}, {});
    assert n.Row() == [] && H[n].kids == [];
    hide LiveRec;
    SameKeys(ns, H);
    forall m {:trigger Snap(ns)[m]} | m in H &&
        m != n ensures Snap(ns)[m] == H[m] { AllKept(m, ns, F, H, {n}, {}, {}); }
    HeapUpdate(H, Snap(ns), n, RecOf(n));
  }

  /** Two heaps that differ in one node. */
  lemma HeapUpdate(H: Heap, H': Heap, n: Node?, r: Rec)
    requires H.Keys == H'.Keys && n in H && H'[n] == r
    requires forall m {:trigger H'[m]} :: m in H && m != n ==> H'[m] == H[m]
    ensures H' == H[n := r]
  {}

  /** value_swap between a leaf and an internal node. */
  method SwapValue(l: Node, i: nat, n: Node, j: nat, ghost ns: set<Node>, ghost F: map<Node?, Fields>)
    requires l in ns && n in ns && l != n && l.Shape() && n.Shape() && i < l.count && j < n.count && Recorded(ns, F)
    modifies ns`position, ns`count, ns`parent, ns`values, ns`children
    ensures l.Shape() && n.Shape() && l.count == F[l].count && n.count == F[n].count
    ensures l.children == F[l].children && n.children == F[n].children
    ensures n.Vals() == old(n.Vals())[j := old(l.Vals())[i]] && l.Vals() == old(l.Vals())[i := old(n.Vals())[j]]
    ensures RowsKept(ns, F, {l, n}) && LinksKept(ns, F, {}, {})
  {
    l.ValueSwap(i, n, j);
    forall m {:trigger F[m]} | m in ns && m !in {l, n}
      ensures m in F && m.values == F[m].values && m.children == F[m].children && m.count == F[m].count
    {
      assert m in F;
    }
    forall m {:trigger F[m]} | m in ns ensures m in F && m.parent == F[m].parent && m.position == F[m].position {
      assert m in F;
    }
  }

  lemma ExchangedHeap(l: Node, i: nat, n: Node, j: nat, ns: set<Node>, F: map<Node?, Fields>, H: Heap)
    requires Shows(ns, F, H) && RowsKept(ns, F, {l, n}) && LinksKept(ns, F, {}, {}) && l in ns && n in ns && l != n
    requires l.count == F[l].count && n.count == F[n].count && l.children == F[l].children
    requires n.children == F[n].children
    requires l in H && n in H && i < |H[l].vals| && j < |H[n].vals|
    requires n.Vals() == H[n].vals[j := H[l].vals[i]] && l.Vals() == H[l].vals[i := H[n].vals[j]]
    ensures Snap(ns) == Exchanged(H, n, j, l, i)
  {
    RecKept(l, ns, F, H, {l, n}, {}, {});
    RecKept(n, ns, F, H, {l, n}, {}, {});
    assert l.Row() == H[l].kids && n.Row() == H[n].kids;
    assert RecOf(l) == H[l].(vals := l.Vals()) && RecOf(n) == H[n].(vals := n.Vals());
    hide LiveRec;
    SameKeys(ns, H);
    forall m {:trigger Snap(ns)[m]} | m in H &&
        m !in {l, n} ensures Snap(ns)[m] == H[m] { AllKept(m, ns, F, H, {l, n}, {}, {}); }
    HeapUpdateTwo(H, Snap(ns), n, RecOf(n), l, RecOf(l));
  }

  lemma HeapUpdateTwo(H: Heap, H': Heap, n: Node?, r: Rec, l: Node?, t: Rec)
    requires H.Keys == H'.Keys && n in H && H'[n] == r && l in H && H'[l] == t && l != n
    requires forall m {:trigger H'[m]} :: m in H && m !in {l, n} ==> H'[m] == H[m]
    ensures H' == H[n := r][l := t]
  {}
}
