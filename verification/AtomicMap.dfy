/** AtomicMap (src/common/atomic.h): a B-tree behind a lock, against a plain map. */
module AtomicMap {
  import opened Collections
  import opened BTreeNode
  import opened BTreeSteps
  import opened BTreeIter
  import opened BTreeSearch
  import C = BTreeContents
  import E = BTreeEdit
  import B = BTree

  /** The operations a client can issue, and what it can be told. */
  datatype Op = Lookup(k: real) | Put(k: real, v: int) | Erase(k: real) | PutNoClobber(k: real, v: int) | Size
  datatype Answer = Done | Found(r: Option<int>) | Value(v: int) | Count(n: int)

  /** One operation on a plain map: insertion only if absent. */
  ghost function Step(m: map<real, int>, op: Op): (map<real, int>, Answer) {
    match op
    case Lookup(k) => (m, Found(if k in m then Some(m[k]) else None))
    case Put(k, v) => (if k in m then m else m[k := v], Done)
    case Erase(k) => (m - {k}, Done)
    case PutNoClobber(k, v) => (if k in m then m else m[k := v], Value(if k in m then m[k] else v))
    case Size => (m, Count(|m|))
  }

  /** A whole run on a plain map. */
  ghost function Run(m: map<real, int>, ops: seq<Op>): (map<real, int>, seq<Answer>) {
    if ops == [] then (m, []) else
      var (m1, answers) := Run(m, ops[..|ops| - 1]);
      var (m2, answer) := Step(m1, ops[|ops| - 1]);
      (m2, answers + [answer])
  }

  /** A sorted sequence holds as many keys as values. */
  lemma {:induction false} KeysCounted(s: seq<Entry>)
    requires C.Sorted(s)
    ensures |C.AsMap(s)| == |s|
    decreases |s|
  {
    if s == [] {
      assert C.AsMap(s) == map[];
    } else {
      hide C.AsMap, C.Sorted;
      var g := |s| - 1;
      C.RemoveSorted(s, g);
      C.RemoveFromMap(s, g);
      C.Member(s, g);
      KeysCounted(E.RemoveAt(s, g));
      assert C.AsMap(s) == C.AsMap(E.RemoveAt(s, g))[s[g].key := s[g].data];
    }
  }

  class AtomicMap {
    const tree: B.BTree

    ghost predicate Valid()
      reads this, tree, tree.nodes
    {
      tree.Valid()
    }

    /** The map this object stands for. */
    ghost function Contents(): map<real, int>
      reads this, tree, tree.nodes
      requires Valid()
    {
      C.AsMap(tree.elems)
    }

    constructor (capacity: nat, search: SearchType)
      requires capacity >= 3
      ensures Valid() && fresh(tree) && tree.nodes == {} && Contents() == map[]
    {
      tree := new B.BTree(capacity, search);
    }

    /** Lookup. */
    method Lookup(k: real) returns (r: Option<int>)
      requires Valid()
      ensures r == if k in Contents() then Some(Contents()[k]) else None
    {
      hide Struct, Stands, C.AsMap, C.HasKey;
      var n, position, g := tree.FindUnique(k);
      var last, lastPosition := tree.End();
      C.Lookup(tree.elems, k);
      if n != null { tree.Same(n, position, g, last, lastPosition, |tree.elems|); }
      if n == last && position == lastPosition {
        return None;
      }
      tree.Shows(n, position, g);
      C.Member(tree.elems, g);
      return Some(n.values[position].data);
    }

    /** Put: like std::map::insert, it does not replace a value. */
    method Put(k: real, v: int)
      requires Valid()
      modifies tree, tree.nodes
      ensures Valid() && fresh(tree.nodes - old(tree.nodes))
      ensures Contents() == if k in old(Contents()) then old(Contents()) else old(Contents())[k := v]
    {
      var n, position, inserted, g := tree.InsertUnique(Entry(k, v));
    }

    /** Erase. */
    method Erase(k: real)
      requires Valid()
      modifies tree, tree.nodes
      ensures Valid() && fresh(tree.nodes - old(tree.nodes))
      ensures Contents() == old(Contents()) - {k}
    {
      var erased := tree.EraseUnique(k);
    }

    /** PutNoClobber: the value k has afterwards. */
    method PutNoClobber(k: real, v: int) returns (r: int)
      requires Valid()
      modifies tree, tree.nodes
      ensures Valid() && fresh(tree.nodes - old(tree.nodes))
      ensures Contents() == if k in old(Contents()) then old(Contents()) else old(Contents())[k := v]
      ensures k in Contents() && r == Contents()[k]
    {
      hide Struct, Stands, C.AsMap;
      var lookup := Lookup(k);
      if lookup.Some? {
        return lookup.value;
      }
      var n, position, inserted, g := tree.InsertUnique(Entry(k, v));
      return v;
    }

    /** Size. */
    method Size() returns (size: int)
      requires Valid()
      ensures size == |Contents()|
    {
      size := tree.Size();
      KeysCounted(tree.elems);
    }

    /** Any run of operations answers as a plain map does and leaves what a plain map would. */
    method Perform(ops: seq<Op>) returns (answers: seq<Answer>)
      requires Valid()
      modifies tree, tree.nodes
      ensures Valid() && fresh(tree.nodes - old(tree.nodes))
      ensures (Contents(), answers) == Run(old(Contents()), ops)
    {
      hide C.AsMap, Struct;
      answers := [];
      for i := 0 to |ops|
        invariant Valid() && fresh(tree.nodes - old(tree.nodes))
        invariant (Contents(), answers) == Run(old(Contents()), ops[..i])
      {
        assert ops[..i + 1][..i] == ops[..i];
        var answer: Answer;
        match ops[i] {
          case Lookup(k) => var r := Lookup(k); answer := Found(r);
          case Put(k, v) => Put(k, v); answer := Done;
          case Erase(k) => Erase(k); answer := Done;
          case PutNoClobber(k, v) => var r := PutNoClobber(k, v); answer := Value(r);
          case Size => var n := Size(); answer := Count(n);
        }
        answers := answers + [answer];
      }
      assert ops[..|ops|] == ops;
    }
  }
}
