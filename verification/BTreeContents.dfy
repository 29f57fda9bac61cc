/** What a sorted in-order sequence means as a map, and what insertion and erasure do to that map. */
module BTreeContents {
  import opened BTreeNode
  import opened BTreeSearch
  import E = BTreeEdit

  ghost predicate Sorted(s: seq<Entry>) {
    forall i, j {:trigger s[i], s[j]} :: 0 <= i < j < |s| ==> s[i].key < s[j].key
  }

  ghost predicate HasKey(s: seq<Entry>, k: real) {
    exists i {:trigger s[i]} :: 0 <= i < |s| && s[i].key == k
  }

  /** The map a sorted sequence stands for. */
  ghost function AsMap(s: seq<Entry>): map<real, int>
    requires Sorted(s)
  {
    map i {:trigger s[i]} | 0 <= i < |s| :: s[i].key := s[i].data
  }

  lemma Lookup(s: seq<Entry>, k: real)
    requires Sorted(s)
    ensures k in AsMap(s) <==> HasKey(s, k)
    ensures forall i {:trigger s[i]} :: 0 <= i < |s| ==> s[i].key in AsMap(s) && AsMap(s)[s[i].key] == s[i].data
  {}

  /** A key found at g is there, and g is its bound. */
  lemma PresentKey(s: seq<Entry>, k: real, g: int)
    requires Sorted(s) && 0 <= g < |s| && s[g].key == k
    ensures HasKey(s, k) && k in AsMap(s) && Bound(s, k, false, g)
  {}

  /** A key between two neighbours has its bound between them. */
  lemma FitsBetween(s: seq<Entry>, k: real, g: int)
    requires Sorted(s) && 0 <= g <= |s| && (g > 0 ==> s[g - 1].key < k) && (g < |s| ==> k < s[g].key)
    ensures Bound(s, k, false, g) && (g < |s| ==> s[g].key != k)
  {
    forall i {:trigger s[i]} | 0 <= i < |s| ensures s[i].key < k <==> i < g {
      assert i < g - 1 ==> s[i].key < s[g - 1].key;
      assert g < i ==> s[g].key < s[i].key;
    }
  }

  /** A key not found at its bound is nowhere. */
  lemma AbsentKey(s: seq<Entry>, k: real, g: int)
    requires Sorted(s) && Bound(s, k, false, g) && (g < |s| ==> s[g].key != k)
    ensures !HasKey(s, k)
  {
    forall i {:trigger s[i]} | 0 <= i < |s| ensures s[i].key != k { assert g < i ==> s[g].key < s[i].key; }
  }

  /** The longer sequence, cell by cell. */
  lemma Inserted(s: seq<Entry>, g: int, x: Entry, i: int)
    requires 0 <= g <= |s| && 0 <= i <= |s|
    ensures |E.InsertAt(s, g, x)| == |s| + 1
    ensures E.InsertAt(s, g, x)[i] == if i < g then s[i] else if i == g then x else s[i - 1]
  {}

  lemma InsertSorted(s: seq<Entry>, g: int, x: Entry)
    requires Sorted(s) && Bound(s, x.key, false, g) && (g < |s| ==> s[g].key != x.key)
    ensures Sorted(E.InsertAt(s, g, x))
    ensures forall i {:trigger s[i]} :: 0 <= i < |s| ==> s[i].key != x.key
  {
    forall i {:trigger s[i]} | 0 <= i < |s| ensures s[i].key != x.key { assert g < i ==> s[g].key < s[i].key; }
    var t := E.InsertAt(s, g, x);
    forall i, j {:trigger t[i], t[j]} | 0 <= i < j < |t| ensures t[i].key < t[j].key {
      Inserted(s, g, x, i);
      Inserted(s, g, x, j);
      hide E.InsertAt;
    }
  }

  lemma Member(s: seq<Entry>, i: int)
    requires Sorted(s) && 0 <= i < |s|
    ensures s[i].key in AsMap(s) && AsMap(s)[s[i].key] == s[i].data
  {}

  lemma Holder(s: seq<Entry>, k: real) returns (i: int)
    requires Sorted(s) && k in AsMap(s)
    ensures 0 <= i < |s| && s[i].key == k && AsMap(s)[k] == s[i].data
  {
    i :| 0 <= i < |s| && s[i].key == k;
  }

  /** At the bound of an absent key, the sequence stays sorted and the map gains that key. */
  lemma InsertIntoMap(s: seq<Entry>, g: int, x: Entry)
    requires Sorted(s) && Bound(s, x.key, false, g) && (g < |s| ==> s[g].key != x.key)
    ensures !HasKey(s, x.key) && x.key !in AsMap(s)
    ensures Sorted(E.InsertAt(s, g, x)) && AsMap(E.InsertAt(s, g, x)) == AsMap(s)[x.key := x.data]
  {
    InsertSorted(s, g, x);
    Lookup(s, x.key);
    var t := E.InsertAt(s, g, x);
    hide Sorted, E.InsertAt, AsMap, Bound, HasKey;
    Inserted(s, g, x, g);
    Member(t, g);
    forall k | k in AsMap(s) && k != x.key ensures k in AsMap(t) && AsMap(t)[k] == AsMap(s)[k] {
      var i := Holder(s, k);
      Inserted(s, g, x, if i < g then i else i + 1);
      Member(t, if i < g then i else i + 1);
    }
    forall k | k in AsMap(t) && k != x.key ensures k in AsMap(s) {
      var i := Holder(t, k);
      Inserted(s, g, x, i);
      if i != g { Member(s, if i < g then i else i - 1); }
    }
    WithKey(AsMap(s), AsMap(t), x.key, x.data);
  }

  lemma WithKey<K, V>(m: map<K, V>, r: map<K, V>, x: K, v: V)
    requires forall k :: k in m && k != x ==> k in r && r[k] == m[k]
    requires x in r && r[x] == v && forall k :: k in r && k != x ==> k in m
    ensures r == m[x := v]
  {}

  lemma RemoveSorted(s: seq<Entry>, g: int)
    requires Sorted(s) && 0 <= g < |s|
    ensures Sorted(E.RemoveAt(s, g)) && |E.RemoveAt(s, g)| == |s| - 1
    ensures forall i {:trigger s[i]} :: 0 <= i < |s| && i != g ==> s[i].key != s[g].key
  {
    forall i {:trigger s[i]} | 0 <= i < |s| && i != g ensures s[i].key != s[g].key {}
    var t := E.RemoveAt(s, g);
    forall i, j {:trigger t[i], t[j]} | 0 <= i < j < |t| ensures t[i].key < t[j].key {
      assert t[i] == s[if i < g then i else i + 1] && t[j] == s[if j < g then j else j + 1];
    }
  }

  /** The shorter sequence, cell by cell. */
  lemma Removed(s: seq<Entry>, g: int, i: int)
    requires 0 <= g < |s| && 0 <= i < |s| - 1
    ensures |E.RemoveAt(s, g)| == |s| - 1 && E.RemoveAt(s, g)[i] == s[if i < g then i else i + 1]
  {}

  /** Without the value at g, the sequence stays sorted and the map loses that key. */
  lemma RemoveFromMap(s: seq<Entry>, g: int)
    requires Sorted(s) && 0 <= g < |s|
    ensures Sorted(E.RemoveAt(s, g)) && AsMap(E.RemoveAt(s, g)) == AsMap(s) - {s[g].key}
  {
    RemoveSorted(s, g);
    var t, x := E.RemoveAt(s, g), s[g].key;
    hide Sorted, E.RemoveAt, AsMap;
    forall k | k in AsMap(s) && k != x ensures k in AsMap(t) && AsMap(t)[k] == AsMap(s)[k] {
      var i := Holder(s, k);
      Removed(s, g, if i < g then i else i - 1);
      Member(t, if i < g then i else i - 1);
    }
    forall k | k in AsMap(t) ensures k in AsMap(s) && k != x {
      var i := Holder(t, k);
      Removed(s, g, i);
      Member(s, if i < g then i else i + 1);
    }
    WithoutKey(AsMap(s), AsMap(t), x);
  }

  lemma WithoutKey<K, V>(m: map<K, V>, r: map<K, V>, x: K)
    requires forall k :: k in m && k != x ==> k in r && r[k] == m[k]
    requires forall k :: k in r ==> k in m && k != x
    ensures r == m - {x}
  {}
}
