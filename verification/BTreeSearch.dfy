/** Searching one node (src/btree/btree.h, the four search types of btree_node). */
module BTreeSearch {
  import opened BTreeNode

  /** Which search a node uses. The compare-to kinds have a three-way comparison and report exact matches;
      the C++ code packs that report into bit 30 of the position. */
  datatype SearchType = LinearPlain | LinearCompareTo | BinaryPlain | BinaryCompareTo {
    predicate CompareTo() {
      LinearCompareTo? || BinaryCompareTo?
    }
  }

  /** Whether e lies before the bound of k: its lower bound, or with `upper` its upper bound. */
  predicate Before(e: Entry, k: real, upper: bool) {
    if upper then e.key <= k else e.key < k
  }

  ghost predicate Ascending(v: seq<Entry>) {
    forall i, j {:trigger v[i], v[j]} :: 0 <= i < j < |v| ==> v[i].key <= v[j].key
  }

  /** p is the bound: exactly the values before p lie before it. */
  ghost predicate Bound(v: seq<Entry>, k: real, upper: bool, p: int) {
    0 <= p <= |v| && forall i {:trigger v[i]} :: 0 <= i < |v| ==> (Before(v[i], k, upper) <==> i < p)
  }

  /** There is one answer, whichever search finds it. */
  lemma OneBound(v: seq<Entry>, k: real, upper: bool, p: int, q: int)
    requires Bound(v, k, upper, p) && Bound(v, k, upper, q)
    ensures p == q
  {
    assert p < |v| ==> !Before(v[p], k, upper);
    assert q < |v| ==> !Before(v[q], k, upper);
  }

  /** linear_search_plain_compare; `upper` is the upper bound adapter. */
  method LinearSearch(n: Node, k: real, upper: bool) returns (p: nat)
    requires n.Shape() && Ascending(n.Vals())
    ensures Bound(n.Vals(), k, upper, p)
  {
    var s, e := 0, n.count;
    while s < e
      invariant 0 <= s <= e
      invariant forall i {:trigger n.values[i]} :: 0 <= i < s ==> Before(n.values[i], k, upper)
    {
      if !Before(n.values[s], k, upper) {
        break;
      }
      s := s + 1;
    }
    p := s;
    assert p < n.count ==> n.Vals()[p] == n.values[p];
  }

  /** linear_search_compare_to. */
  method LinearSearchCompareTo(n: Node, k: real) returns (p: nat, exact: bool)
    requires n.Shape() && Ascending(n.Vals())
    ensures Bound(n.Vals(), k, false, p)
    ensures exact <==> p < n.count && n.values[p].key == k
  {
    var s, e := 0, n.count;
    while s < e
      invariant 0 <= s <= e
      invariant forall i {:trigger n.values[i]} :: 0 <= i < s ==> Before(n.values[i], k, false)
    {
      if n.values[s].key == k {
        assert n.Vals()[s] == n.values[s];
        return s, true;
      } else if n.values[s].key > k {
        break;
      }
      s := s + 1;
    }
    assert s < n.count ==> n.Vals()[s] == n.values[s];
    return s, false;
  }

  /** binary_search_plain_compare. */
  method BinarySearch(n: Node, k: real, upper: bool) returns (p: nat)
    requires n.Shape() && Ascending(n.Vals())
    ensures Bound(n.Vals(), k, upper, p)
  {
    var s, e := 0, n.count;
    ghost var v := n.Vals();
    while s != e
      invariant 0 <= s <= e <= n.count
      invariant forall i {:trigger v[i]} :: 0 <= i < s ==> Before(v[i], k, upper)
      invariant forall i {:trigger v[i]} :: e <= i < n.count ==> !Before(v[i], k, upper)
      decreases e - s
    {
      var mid := (s + e) / 2;
      assert v[mid] == n.values[mid];
      if Before(n.values[mid], k, upper) {
        s := mid + 1;
      } else {
        e := mid;
      }
    }
    p := s;
  }

  /** binary_search_compare_to on values s to e: on a match it goes on searching for the first one. */
  method BinarySearchCompareTo(n: Node, k: real, s0: nat, e0: nat) returns (p: nat, exact: bool)
    requires n.Shape() && Ascending(n.Vals()) && s0 <= e0 <= n.count
    requires forall i {:trigger n.Vals()[i]} :: 0 <= i < s0 ==> n.Vals()[i].key < k
    requires forall i {:trigger n.Vals()[i]} :: e0 <= i < n.count ==> n.Vals()[i].key >= k
    ensures Bound(n.Vals(), k, false, p) && s0 <= p <= e0
    ensures exact <==> p < e0 && n.values[p].key == k
    decreases e0 - s0
  {
    var s, e := s0, e0;
    ghost var v := n.Vals();
    while s != e
      invariant s0 <= s <= e <= e0
      invariant forall i {:trigger v[i]} :: 0 <= i < s ==> v[i].key < k
      invariant forall i {:trigger v[i]} :: e <= i < n.count ==> v[i].key >= k
      invariant e < e0 ==> v[e].key > k
      decreases e - s
    {
      var mid := (s + e) / 2;
      assert v[mid] == n.values[mid];
      if n.values[mid].key < k {
        s := mid + 1;
      } else if n.values[mid].key > k {
        e := mid;
      } else {
        var q, _ := BinarySearchCompareTo(n, k, s, mid);
        assert v[q] == n.values[q];
        return q, true;
      }
    }
    assert s < n.count ==> v[s] == n.values[s];
    return s, false;
  }

  /** lower_bound of a node. */
  method NodeLowerBound(n: Node, k: real, search: SearchType) returns (p: nat, exact: bool)
    requires n.Shape() && Ascending(n.Vals())
    ensures Bound(n.Vals(), k, false, p)
    ensures exact <==> search.CompareTo() && p < n.count && n.values[p].key == k
  {
    exact := false;
    match search {
      case LinearPlain => p := LinearSearch(n, k, false);
      case LinearCompareTo => p, exact := LinearSearchCompareTo(n, k);
      case BinaryPlain => p := BinarySearch(n, k, false);
      case BinaryCompareTo => p, exact := BinarySearchCompareTo(n, k, 0, n.count);
    }
  }

  /** upper_bound of a node: the compare-to kinds fall back to the plain linear search. */
  method NodeUpperBound(n: Node, k: real, search: SearchType) returns (p: nat)
    requires n.Shape() && Ascending(n.Vals())
    ensures Bound(n.Vals(), k, true, p)
  {
    if search == BinaryPlain {
      p := BinarySearch(n, k, true);
    } else {
      p := LinearSearch(n, k, true);
    }
  }
}
