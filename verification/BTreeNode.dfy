/** One node of the B-tree (src/btree/btree.h, class btree_node): the operations that shift, move and
    swap values and children in place, each proved against what it does to the value and child rows. */
module BTreeNode {

  /** A stored pair. Keys are compared only; every countable strict weak order maps into the reals, so a
      real stands for the equivalence class of a key under the comparator. The data is only copied. */
  datatype Entry = Entry(key: real, data: int)

  /** The default-constructed value that split inserts as a placeholder. */
  const BLANK := Entry(0.0, 0)

  // Rows cut at another place, cell by cell and as a whole. In each lemma v and w are the two rows before,
  // v' and w' afterwards, and d is the delimiter between them.

  lemma FillGap<T>(a: seq<T>, blank: T, x: T, b: seq<T>)
    ensures (a + [blank] + b)[|a| := x] == a + [x] + b
  {}

  lemma ValuesLater<T>(v: seq<T>, c: nat, d: T, w: seq<T>, m: nat, t: nat, v': seq<T>, w': seq<T>)
    requires c <= |v| && 1 <= t <= m <= |w| && c + t <= |v'| && m <= |w'|
    requires forall k {:trigger v'[k]} ::
        0 <= k < c + t ==> v'[k] == if k < c then v[k] else if k == c then d else w[k - c - 1]
    requires forall k {:trigger w'[k]} :: 0 <= k < m - t ==> w'[k] == w[k + t]
    ensures var J := v[..c] + [d] + w[..m];
      v'[..c + t] == J[..c + t] && J[c + t] == w[t - 1] && w'[..m - t] == J[c + t + 1..]
  {}

  lemma ChildrenLater<T>(v: seq<T>, c: nat, w: seq<T>, m: nat, t: nat, v': seq<T>, w': seq<T>)
    requires c <= |v| && 1 <= t <= m <= |w| && c + t <= |v'| && m <= |w'|
    requires forall k {:trigger v'[k]} :: 0 <= k < c + t ==> v'[k] == if k < c then v[k] else w[k - c]
    requires forall k {:trigger w'[k]} :: 0 <= k < m - t ==> w'[k] == w[k + t]
    ensures var J := v[..c] + w[..m]; v'[..c + t] == J[..c + t] && w'[..m - t] == J[c + t..]
  {}

  lemma ValuesEarlier<T>(v: seq<T>, c: nat, d: T, w: seq<T>, m: nat, t: nat, v': seq<T>, w': seq<T>)
    requires 1 <= t <= c <= |v| && m <= |w| && c <= |v'| && m + t <= |w'|
    requires forall k {:trigger v'[k]} :: 0 <= k < c - t ==> v'[k] == v[k]
    requires forall k {:trigger w'[k]} :: 0 <= k < m + t ==>
      w'[k] == if k < t - 1 then v[c - t + 1 + k] else if k == t - 1 then d else w[k - t]
    ensures var J := v[..c] + [d] + w[..m];
      v'[..c - t] == J[..c - t] && J[c - t] == v[c - t] && w'[..m + t] == J[c - t + 1..]
  {}

  lemma ChildrenEarlier<T>(v: seq<T>, c: nat, w: seq<T>, m: nat, t: nat, v': seq<T>, w': seq<T>)
    requires 1 <= t <= c <= |v| && m <= |w| && c <= |v'| && m + t <= |w'|
    requires forall k {:trigger v'[k]} :: 0 <= k < c - t ==> v'[k] == v[k]
    requires forall k {:trigger w'[k]} :: 0 <= k < m + t ==> w'[k] == if k < t then v[c - t + k] else w[k - t]
    ensures var J := v[..c] + w[..m]; v'[..c - t] == J[..c - t] && w'[..m + t] == J[c - t..]
  {}

  /** A node. The two arrays are embedded in the C++ struct, so they are fixed-length rows owned by the
      node: `values` has maxCount cells and an internal node's `children` has maxCount + 1. Only the
      first `count` values and `count + 1` children are live. */
  class Node {
    const leaf: bool
    const maxCount: nat
    var position: int
    var count: nat
    var parent: Node
    var values: seq<Entry>
    var children: seq<Node?>
    // Used only while this node is the (internal) root.
    var rightmost: Node?
    var size: int

    /** init_leaf. */
    constructor Leaf(p: Node?, max: nat)
      ensures leaf && maxCount == max && count == 0 && position == 0
      ensures parent == (if p == null then this else p)
      ensures Shape()
    {
      leaf, maxCount, position, count := true, max, 0, 0;
      values := seq(max, _ => BLANK);
      children := [];
      rightmost, size := null, 0;
      if p == null { parent := this; } else { parent := p; }
    }

    /** init_internal. */
    constructor Internal(p: Node, max: nat)
      ensures !leaf && maxCount == max && count == 0 && position == 0
      ensures parent == p
      ensures Shape()
    {
      leaf, maxCount, position, count := false, max, 0, 0;
      values := seq(max, _ => BLANK);
      children := seq(max + 1, _ => null);
      rightmost, size := null, 0;
      parent := p;
    }

    ghost predicate Shape()
      reads this`values, this`children, this`count
    {
      && |values| == maxCount
      && |children| == (if leaf then 0 else maxCount + 1)
      && count <= maxCount
    }

    /** The live children point back at this node and know their position in it. */
    ghost predicate Linked()
      reads this`values, this`children, this`count, Kids()`parent, Kids()`position
      requires Shape()
    {
      !leaf ==> Linking(count)
    }

    ghost function Kids(): set<Node>
      reads this`children, this`count
    {
      set k: nat {:trigger children[k]} | k <= count && k < |children| && children[k] != null :: children[k]
    }

    /** The live values, in order. */
    ghost function Vals(): seq<Entry>
      reads this`values, this`count
    {
      if count <= |values| then values[..count] else values
    }

    /** The live children, in order; none in a leaf. */
    ghost function Row(): seq<Node?>
      reads this`children, this`count
    {
      if leaf then [] else if count < |children| then children[..count + 1] else children
    }

    /** value_swap: exchanges value i of this node with value j of x, which may be this node. */
    method ValueSwap(i: nat, x: Node, j: nat)
      requires i < |values| && j < |x.values|
      modifies this`values, x`values
      ensures x != this ==> values == old(values)[i := old(x.values[j])]
      ensures x != this ==> x.values == old(x.values)[j := old(values[i])]
      ensures x == this ==> values == old(values)[i := old(values[j])][j := old(values[i])]
    {
      var t := values[i];
      values := values[i := x.values[j]];
      x.values := x.values[j := t];
    }

    /** set_child: stores c and its back pointers. */
    method SetChild(i: nat, c: Node)
      requires i < |children|
      modifies this`children, c`parent, c`position
      ensures children == old(children)[i := c]
      ensures c.parent == this && c.position == i
    {
      children := children[i := c];
      c.parent := this;
      c.position := i;
    }

    /** insert_value: opens a gap at i in the values and, in an internal node, at i + 1 in the children. */
    method InsertValue(i: nat, x: Entry)
      requires Shape() && i <= count < maxCount
      requires Linked() && this !in Kids()
      modifies this`values, this`count, this`children, Kids()`position
      ensures Shape() && count == old(count) + 1
      ensures Vals() == old(Vals()[..i]) + [x] + old(Vals()[i..])
      ensures !leaf ==> Row() == old(Row()[..i + 1]) + [null] + old(Row()[i + 1..])
      ensures !leaf ==> forall k {:trigger children[k]} :: 0 <= k <= count && k != i + 1 ==>
        children[k] != null && children[k].parent == this && children[k].position == k
    {
      ghost var v, k := Vals(), Row();
      ShiftValuesRight(i, x);
      assert values[..count + 1] == v[..i] + [x] + v[i..];
      if !leaf {
        ShiftChildrenRight(i);
        assert children[..count + 2] == k[..i + 1] + [null] + k[i + 1..];
      }
      count := count + 1;
    }

    /** First loop of insert_value: x enters at count and is swapped down to i. */
    method ShiftValuesRight(i: nat, x: Entry)
      requires |values| == maxCount && i <= count < maxCount
      modifies this`values
      ensures |values| == |old(values)|
      ensures forall k {:trigger values[k]} :: 0 <= k < |values| ==>
        values[k] == if k < i || k > count then old(values)[k] else if k == i then x else old(values)[k - 1]
    {
      ghost var was := values;
      values := values[count := x];
      var j := count;
      while j > i
        invariant i <= j <= count
        invariant |values| == |was|
        invariant forall k {:trigger values[k]} :: 0 <= k < |values| ==>
          values[k] == if k < j || k > count then was[k] else if k == j then x else was[k - 1]
      {
        ValueSwap(j, this, j - 1);
        j := j - 1;
      }
    }

    /** Second loop of insert_value: children after i move one place right. */
    method ShiftChildrenRight(i: nat)
      requires Shape() && !leaf && i <= count < maxCount
      requires Linked() && this !in Kids()
      modifies this`children, Kids()`position
      ensures |children| == |old(children)|
      ensures forall k {:trigger children[k]} :: 0 <= k < |children| ==>
        children[k] == if k <= i || k > count + 1 then old(children)[k] else if k == i + 1 then null
            else old(children)[k - 1]
      ensures forall k :: 0 <= k <= count + 1 && k != i + 1 ==> children[k] != null && children[k].position == k
    {
      ghost var was := children;
      var j := count + 1;
      while j > i + 1
        invariant i + 1 <= j <= count + 1
        invariant |children| == |was|
        invariant forall k {:trigger children[k]} :: 0 <= k < |children| ==>
          children[k] == if j < k <= count + 1 then was[k - 1] else was[k]
        invariant forall k :: 0 <= k <= count ==> was[k] != null && was[k].position == if k < j then k else k + 1
      {
        children := children[j := children[j - 1]];
        children[j].position := j;
        j := j - 1;
      }
      children := children[i + 1 := null];
    }

    /** remove_value: closes the gap left by value i and, in an internal node, by child i + 1. */
    method RemoveValue(i: nat)
      requires Shape() && i < count
      requires Linked() && this !in Kids()
      modifies this`values, this`count, this`children, Kids()`position
      ensures Shape() && count == old(count) - 1
      ensures Vals() == old(Vals()[..i]) + old(Vals()[i + 1..])
      ensures !leaf ==> Row() == old(Row()[..i + 1]) + old(Row()[i + 2..])
      ensures Linked()
    {
      ghost var v, k := Vals(), Row();
      if !leaf {
        ShiftChildrenLeft(i);
        assert children[..count] == k[..i + 1] + k[i + 2..];
      }
      count := count - 1;
      ShiftValuesLeft(i);
      assert values[..count] == v[..i] + v[i + 1..];
    }

    /** First loop of remove_value: children after i + 1 move one place left. */
    method ShiftChildrenLeft(i: nat)
      requires Shape() && !leaf && i < count
      requires Linked() && this !in Kids()
      modifies this`children, Kids()`position
      ensures |children| == |old(children)|
      ensures forall k {:trigger children[k]} :: 0 <= k < count ==>
        children[k] == if k <= i then old(children)[k] else old(children)[k + 1]
      ensures forall k :: 0 <= k < count ==> children[k] != null && children[k].position == k
    {
      ghost var was := children;
      var j := i + 1;
      while j < count
        invariant i + 1 <= j <= count
        invariant |children| == |was|
        invariant forall k {:trigger children[k]} ::
            0 <= k < |children| ==> children[k] == if i < k < j then was[k + 1] else was[k]
        invariant forall k :: 0 <= k <= count && k != i + 1 ==>
          was[k] != null && was[k].position == if i < k <= j then k - 1 else k
      {
        children := children[j := children[j + 1]];
        children[j].position := j;
        j := j + 1;
      }
      children := children[count := null];
    }

    /** Second loop of remove_value: the removed value is swapped up to cell count. */
    method ShiftValuesLeft(i: nat)
      requires |values| == maxCount && i <= count < maxCount
      modifies this`values
      ensures |values| == |old(values)|
      ensures forall k {:trigger values[k]} ::
          0 <= k < count ==> values[k] == if k < i then old(values)[k] else old(values)[k + 1]
    {
      ghost var was := values;
      var j := i;
      while j < count
        invariant i <= j <= count
        invariant |values| == |was|
        invariant forall k {:trigger values[k]} ::
            0 <= k < |values| && k != j ==> values[k] == if i <= k < j then was[k + 1] else was[k]
      {
        ValueSwap(j, this, j + 1);
        j := j + 1;
      }
    }

    /** What a rebalance or merge may assume of two neighbouring children of one parent. */
    ghost predicate Neighbours(right: Node)
      reads this, right, parent, Kids(), right.Kids()
    {
      && this != right && parent != this && parent != right && right.parent == parent
      && leaf == right.leaf && maxCount == right.maxCount
      && Shape() && right.Shape() && parent.Shape() && !parent.leaf
      && 0 <= position < parent.count && right.position == position + 1
      && Linked() && right.Linked()
      && Kids() !! {this, right, parent} && right.Kids() !! {this, right, parent}
    }

    /** The loop that rebalance, split and merge share: n values of src, from `from` on, change places with
        n cells of this node, from `at` on. */
    method SwapRow(at: nat, src: Node, from: nat, n: nat)
      requires src != this && at + n <= |values| && from + n <= |src.values|
      modifies this`values, src`values
      ensures |values| == |old(values)| && |src.values| == |old(src.values)|
      ensures forall k {:trigger values[k]} :: 0 <= k < |values| ==>
        values[k] == if at <= k < at + n then old(src.values)[k - at + from] else old(values)[k]
      ensures forall k :: 0 <= k < |src.values| && !(from <= k < from + n) ==> src.values[k] == old(src.values)[k]
    {
      var i := 0;
      while i < n
        invariant 0 <= i <= n
        invariant |values| == |old(values)| && |src.values| == |old(src.values)|
        invariant forall k {:trigger values[k]} :: 0 <= k < |values| ==>
          values[k] == if at <= k < at + i then old(src.values)[k - at + from] else old(values)[k]
        invariant forall k :: 0 <= k < |src.values| && !(from <= k < from + i) ==> src.values[k] == old(src.values)[k]
      {
        ValueSwap(at + i, src, from + i);
        i := i + 1;
      }
    }

    /** The other shared loop: set_child for n children of src, from `from` on, at this node's `at` on. */
    method TakeChildren(at: nat, src: Node, from: nat, n: nat, clear: bool, ghost moved: set<Node>)
      requires src != this && at + n <= |children| && from + n <= |src.children|
      requires forall k :: from <= k < from + n ==> src.children[k] != null && src.children[k] in moved
      requires forall j, k :: from <= j < k < from + n ==> src.children[j] != src.children[k]
      modifies this`children, src`children
      modifies moved`parent, moved`position
      ensures |children| == |old(children)| && |src.children| == |old(src.children)|
      ensures forall k {:trigger children[k]} :: 0 <= k < |children| ==>
        children[k] == if at <= k < at + n then old(src.children)[k - at + from] else old(children)[k]
      ensures forall k :: 0 <= k < |src.children| && !(clear && from <= k < from + n) ==>
        src.children[k] == old(src.children)[k]
      ensures !clear ==> src.children == old(src.children)
      ensures forall k :: from <= k < from + n ==>
        old(src.children)[k].parent == this && old(src.children)[k].position == k - from + at
    {
      ghost var row := src.children;
      ghost var mine := children;
      var i := 0;
      while i < n
        invariant 0 <= i <= n
        invariant |children| == |mine| && |src.children| == |row|
        invariant forall k {:trigger children[k]} :: 0 <= k < |children| ==>
          children[k] == if at <= k < at + i then row[k - at + from] else mine[k]
        invariant forall k :: 0 <= k < |src.children| && !(clear && from <= k < from + i) ==>
          src.children[k] == row[k]
        invariant forall k :: from <= k < from + i ==> row[k].parent == this && row[k].position == k - from + at
      {
        SetChild(at + i, src.children[from + i]);
        if clear { src.children := src.children[from + i := null]; }
        i := i + 1;
      }
    }

    /** The values of this node and its right neighbour with their delimiter between them. */
    ghost function JointVals(right: Node): seq<Entry>
      reads this, right, parent
      requires 0 <= position < |parent.values|
    {
      Vals() + [parent.values[position]] + right.Vals()
    }

    /** The children of this node and its right neighbour. */
    ghost function JointRow(right: Node): seq<Node?>
      reads this, right
    {
      Row() + right.Row()
    }

    /** rebalance_right_to_left: the delimiter and the first toMove - 1 values of the right sibling join
        this node, value toMove - 1 becomes the delimiter, and toMove children follow their values. In
        other words the joint row of the two siblings is cut toMove values later than before. */
    method RebalanceRightToLeft(src: Node, toMove: nat)
      requires Neighbours(src)
      requires src.count >= count && 1 <= toMove <= src.count && count + toMove <= maxCount
      modifies this`values, this`count, this`children, src`values, src`count, src`children, parent`values
      modifies src.Kids()`parent, src.Kids()`position
      ensures Shape() && src.Shape()
      ensures count == old(count) + toMove && src.count == old(src.count) - toMove
      ensures Vals() == old(JointVals(src))[..count] && src.Vals() == old(JointVals(src))[count + 1..]
      ensures parent.values == old(parent.values)[position := old(JointVals(src))[count]]
      ensures !leaf ==> Row() == old(JointRow(src))[..count + 1]
      ensures !leaf ==> src.Row() == old(JointRow(src))[count + 1..]
      ensures Linked() && src.Linked()
    {
      hide JointVals, JointRow, Kids, Linking;
      CutValuesLater(src, toMove);
      if !leaf { CutChildrenLater(src, toMove); }
      count := count + toMove;
      src.count := src.count - toMove;
    }

    /** The value half of rebalance_right_to_left, on the joint row. */
    method CutValuesLater(src: Node, toMove: nat)
      requires this != src && this != parent && src != parent && 0 <= position < |parent.values|
      requires 1 <= toMove <= src.count <= |src.values| && count + toMove <= |values|
      modifies this`values, src`values, parent`values
      ensures |values| == |old(values)| && |src.values| == |old(src.values)|
      ensures values[..count + toMove] == old(JointVals(src))[..count + toMove]
      ensures src.values[..src.count - toMove] == old(JointVals(src))[count + toMove + 1..]
      ensures parent.values == old(parent.values)[position := old(JointVals(src))[count + toMove]]
      ensures JointRow(src) == old(JointRow(src))
    {
      ghost var v, d, w := values, parent.values[position], src.values;
      MoveValuesLeft(src, toMove);
      ValuesLater(v, count, d, w, src.count, toMove, values, src.values);
    }

    /** The child half of rebalance_right_to_left, on the joint row. */
    method CutChildrenLater(src: Node, toMove: nat)
      requires this != src && !leaf && !src.leaf && Shape() && src.Shape()
      requires Linked() && src.Linked() && this !in src.Kids() && src !in src.Kids()
      requires 1 <= toMove <= src.count && count + toMove <= maxCount
      modifies this`children, src`children, src.Kids()`parent, src.Kids()`position
      ensures |children| == |old(children)| && |src.children| == |old(src.children)|
      ensures children[..count + toMove + 1] == old(JointRow(src))[..count + toMove + 1]
      ensures src.children[..src.count - toMove + 1] == old(JointRow(src))[count + toMove + 1..]
      ensures Linking(count + toMove) && src.Linking(src.count - toMove)
    {
      ghost var k1, k2 := children, src.children;
      MoveChildrenLeft(src, toMove);
      ChildrenLater(k1, count + 1, k2, src.count + 1, toMove, children, src.children);
    }

    /** The value half of rebalance_right_to_left. */
    method MoveValuesLeft(src: Node, toMove: nat)
      requires this != src && this != parent && src != parent && 0 <= position < |parent.values|
      requires 1 <= toMove <= src.count <= |src.values| && count + toMove <= |values|
      modifies this`values, src`values, parent`values
      ensures |values| == |old(values)| && |src.values| == |old(src.values)|
      ensures forall k {:trigger values[k]} :: 0 <= k < count + toMove ==>
        values[k] == if k < count then old(values)[k]
                     else if k == count then old(parent.values)[position]
                     else old(src.values)[k - count - 1]
      ensures parent.values == old(parent.values)[position := old(src.values)[toMove - 1]]
      ensures forall k {:trigger src.values[k]} :: 0 <= k < src.count - toMove ==>
        src.values[k] == old(src.values)[k + toMove]
    {
      ghost var v, w := values, src.values;
      ValueSwap(count, parent, position);
      parent.ValueSwap(position, src, toMove - 1);
      assert src.values == w[toMove - 1 := v[count]];
      SwapRow(count + 1, src, 0, toMove - 1);
      ghost var u := src.values;
      assert forall k {:trigger u[k]} :: toMove <= k < src.count ==> u[k] == w[k];
      src.ShiftValuesDown(toMove);
    }

    /** The child half of rebalance_right_to_left. */
    method MoveChildrenLeft(src: Node, toMove: nat)
      requires this != src && !leaf && !src.leaf && Shape() && src.Shape()
      requires Linked() && src.Linked() && this !in src.Kids() && src !in src.Kids()
      requires 1 <= toMove <= src.count && count + toMove <= maxCount
      modifies this`children, src`children, src.Kids()`parent, src.Kids()`position
      ensures |children| == |old(children)| && |src.children| == |old(src.children)|
      ensures forall k {:trigger children[k]} :: 0 <= k < count + toMove + 1 ==>
        children[k] == if k < count + 1 then old(children)[k] else old(src.children)[k - count - 1]
      ensures forall k {:trigger src.children[k]} :: 0 <= k < src.count - toMove + 1 ==>
        src.children[k] == old(src.children)[k + toMove]
      ensures Linking(count + toMove) && src.Linking(src.count - toMove)
    {
      ghost var stay := set k | toMove <= k <= src.count :: src.children[k];
      hide Linked, Linking, Kids;
      TakeFirst(src, toMove, stay);
      src.ShiftChildrenDown(toMove, stay);
      IsLinking(count + toMove);
      src.IsLinking(src.count - toMove);
    }

    /** The first toMove children of src come over. */
    method TakeFirst(src: Node, toMove: nat, ghost stay: set<Node>)
      requires this != src && !leaf && !src.leaf && Shape() && src.Shape()
      requires Linked() && src.Linked() && this !in src.Kids() && src !in src.Kids()
      requires 1 <= toMove <= src.count && count + toMove <= maxCount
      requires stay == set k | toMove <= k <= src.count :: src.children[k]
      modifies this`children, src`children, src.Kids()`parent, src.Kids()`position
      ensures |children| == |old(children)| && src.children == old(src.children)
      ensures forall k {:trigger children[k]} :: 0 <= k < count + toMove + 1 ==>
        children[k] == if k < count + 1 then old(children)[k] else src.children[k - count - 1]
      ensures forall k {:trigger children[k]} :: 0 <= k < count + toMove + 1 ==>
        children[k] != null && children[k].parent == this && children[k].position == k && children[k] !in stay
      ensures forall k {:trigger src.children[k]} :: toMove <= k <= src.count ==>
        src.children[k] != null && src.children[k] != src && src.children[k].parent == src &&
            src.children[k].position == k
    {
      hide Linked, Kids;
      ghost var k1, k2 := children, src.children;
      LinkedKids();
      src.LinkedKids();
      ghost var moved := set k | 0 <= k < toMove :: k2[k];
      assert forall k {:trigger k1[k]} :: 0 <= k <= count ==> k1[k] !in moved + stay;
      TakeChildren(1 + count, src, 0, toMove, false, moved);
      assert src.children == k2;
    }

    /** What Linked says, child by child. */
    lemma LinkedKids()
      requires Shape() && !leaf && Linked()
      ensures forall k {:trigger children[k]} :: 0 <= k <= count ==>
        children[k] != null && children[k] in Kids() && children[k].parent == this && children[k].position == k
    {}

    lemma IsLinking(last: nat)
      requires last < |children|
      requires forall k {:trigger children[k]} :: 0 <= k <= last ==>
        children[k] != null && children[k].parent == this && children[k].position == k
      ensures Linking(last)
    {}

    /** The first last + 1 children point back at this node and know their position in it. */
    ghost predicate Linking(last: nat)
      reads this`children
      reads (set k: nat {:trigger children[k]} | k <= last && k < |children| && children[k] != null ::
          children[k])`parent
      reads (set k: nat {:trigger children[k]} | k <= last && k < |children| && children[k] != null ::
          children[k])`position
    {
      last < |children| && forall k {:trigger children[k]} :: 0 <= k <= last ==>
        children[k] != null && children[k].parent == this && children[k].position == k
    }

    /** The shift of a rebalance's right node: values from toMove on move to the front. */
    method ShiftValuesDown(toMove: nat)
      requires 1 <= toMove <= count <= |values|
      modifies this`values
      ensures |values| == |old(values)|
      ensures forall k {:trigger values[k]} :: 0 <= k < count - toMove ==> values[k] == old(values)[k + toMove]
    {
      ghost var was := values;
      var i := toMove;
      while i < count
        invariant toMove <= i <= count
        invariant |values| == |was|
        invariant forall k {:trigger values[k]} :: 0 <= k < i - toMove ==> values[k] == was[k + toMove]
        invariant forall k {:trigger values[k]} :: i <= k < count ==> values[k] == was[k]
      {
        ValueSwap(i - toMove, this, i);
        i := i + 1;
      }
    }

    /** The same shift for the children, which learn their new positions. */
    method ShiftChildrenDown(toMove: nat, ghost stay: set<Node>)
      requires Shape() && !leaf && 1 <= toMove <= count
      requires forall k :: toMove <= k <= count ==>
        children[k] != null && children[k] in stay && children[k] != this && children[k].position == k &&
            children[k].parent == this
      modifies this`children, stay`parent, stay`position
      ensures |children| == |old(children)|
      ensures forall k {:trigger children[k]} :: 0 <= k <= count - toMove ==>
        children[k] == old(children)[k + toMove] && children[k].parent == this && children[k].position == k
    {
      ghost var was := children;
      var i := 0;
      while i <= count - toMove
        invariant 0 <= i <= count - toMove + 1
        invariant |children| == |was|
        invariant forall k {:trigger children[k]} :: 0 <= k < i && k < toMove ==> children[k] == was[k + toMove]
        invariant forall k {:trigger children[k]} :: i + toMove <= k <= count ==> children[k] == was[k]
        invariant forall k {:trigger was[k]} :: toMove <= k <= count ==>
          was[k] != null && was[k].parent == this && was[k].position == if k < i + toMove then k - toMove else k
        invariant forall k {:trigger children[k]} :: 0 <= k < i ==> children[k] == was[k + toMove]
      {
        SetChild(i, children[i + toMove]);
        children := children[i + toMove := null];
        i := i + 1;
      }
    }

    /** rebalance_left_to_right: the delimiter and the last toMove - 1 values of this node join the right
        sibling, the value before them becomes the delimiter, and toMove children follow their values. In
        other words the joint row of the two siblings is cut toMove values earlier than before. */
    method RebalanceLeftToRight(dest: Node, toMove: nat)
      requires Neighbours(dest)
      requires count >= dest.count && 1 <= toMove <= count && dest.count + toMove <= maxCount
      modifies this`values, this`count, this`children, dest`values, dest`count, dest`children, parent`values
      modifies Kids()`parent, Kids()`position, dest.Kids()`parent, dest.Kids()`position
      ensures Shape() && dest.Shape()
      ensures count == old(count) - toMove && dest.count == old(dest.count) + toMove
      ensures Vals() == old(JointVals(dest))[..count] && dest.Vals() == old(JointVals(dest))[count + 1..]
      ensures parent.values == old(parent.values)[position := old(JointVals(dest))[count]]
      ensures !leaf ==> Row() == old(JointRow(dest))[..count + 1]
      ensures !leaf ==> dest.Row() == old(JointRow(dest))[count + 1..]
      ensures Linked() && dest.Linked()
    {
      hide JointVals, JointRow, Kids, Linking;
      CutValuesEarlier(dest, toMove);
      if !leaf { CutChildrenEarlier(dest, toMove); }
      count := count - toMove;
      dest.count := dest.count + toMove;
    }

    /** The value half of rebalance_left_to_right, on the joint row. */
    method CutValuesEarlier(dest: Node, toMove: nat)
      requires this != dest && this != parent && dest != parent && 0 <= position < |parent.values|
      requires 1 <= toMove <= count <= |values| && dest.count + toMove <= |dest.values|
      modifies this`values, dest`values, parent`values
      ensures |values| == |old(values)| && |dest.values| == |old(dest.values)|
      ensures values[..count - toMove] == old(JointVals(dest))[..count - toMove]
      ensures dest.values[..dest.count + toMove] == old(JointVals(dest))[count - toMove + 1..]
      ensures parent.values == old(parent.values)[position := old(JointVals(dest))[count - toMove]]
      ensures JointRow(dest) == old(JointRow(dest))
    {
      ghost var v, d, w := values, parent.values[position], dest.values;
      MoveValuesRight(dest, toMove);
      ValuesEarlier(v, count, d, w, dest.count, toMove, values, dest.values);
    }

    /** The child half of rebalance_left_to_right, on the joint row. */
    method CutChildrenEarlier(dest: Node, toMove: nat)
      requires this != dest && !leaf && !dest.leaf && Shape() && dest.Shape()
      requires Linked() && dest.Linked() && dest !in Kids() && this !in Kids()
      requires dest !in dest.Kids() && this !in dest.Kids()
      requires 1 <= toMove <= count && dest.count + toMove <= dest.maxCount
      modifies this`children, dest`children
      modifies Kids()`parent, Kids()`position, dest.Kids()`parent, dest.Kids()`position
      ensures |children| == |old(children)| && |dest.children| == |old(dest.children)|
      ensures children[..count - toMove + 1] == old(JointRow(dest))[..count - toMove + 1]
      ensures dest.children[..dest.count + toMove + 1] == old(JointRow(dest))[count - toMove + 1..]
      ensures Linking(count - toMove) && dest.Linking(dest.count + toMove)
    {
      ghost var k1, k2 := children, dest.children;
      MoveChildrenRight(dest, toMove);
      ChildrenEarlier(k1, count + 1, k2, dest.count + 1, toMove, children, dest.children);
    }

    /** The value half of rebalance_left_to_right. */
    method MoveValuesRight(dest: Node, toMove: nat)
      requires this != dest && this != parent && dest != parent && 0 <= position < |parent.values|
      requires 1 <= toMove <= count <= |values| && dest.count + toMove <= |dest.values|
      modifies this`values, dest`values, parent`values
      ensures |values| == |old(values)| && |dest.values| == |old(dest.values)|
      ensures forall k {:trigger values[k]} :: 0 <= k < count - toMove ==> values[k] == old(values)[k]
      ensures parent.values == old(parent.values)[position := old(values)[count - toMove]]
      ensures forall k {:trigger dest.values[k]} :: 0 <= k < dest.count + toMove ==>
        dest.values[k] == if k < toMove - 1 then old(values)[count - toMove + 1 + k]
                          else if k == toMove - 1 then old(parent.values)[position]
                          else old(dest.values)[k - toMove]
    {
      dest.ShiftValuesUp(toMove);
      dest.ValueSwap(toMove - 1, parent, position);
      parent.ValueSwap(position, this, count - toMove);
      dest.SwapRow(0, this, count - toMove + 1, toMove - 1);
    }

    /** The child half of rebalance_left_to_right. */
    method MoveChildrenRight(dest: Node, toMove: nat)
      requires this != dest && !leaf && !dest.leaf && Shape() && dest.Shape()
      requires Linked() && dest.Linked() && dest !in Kids() && this !in Kids()
      requires dest !in dest.Kids() && this !in dest.Kids()
      requires 1 <= toMove <= count && dest.count + toMove <= dest.maxCount
      modifies this`children, dest`children
      modifies Kids()`parent, Kids()`position, dest.Kids()`parent, dest.Kids()`position
      ensures |children| == |old(children)| && |dest.children| == |old(dest.children)|
      ensures forall k {:trigger children[k]} :: 0 <= k < count - toMove + 1 ==> children[k] == old(children)[k]
      ensures forall k {:trigger dest.children[k]} :: 0 <= k < dest.count + toMove + 1 ==>
        dest.children[k] == if k < toMove then old(children)[count - toMove + 1 + k] else old(dest.children)[k - toMove]
      ensures Linking(count - toMove) && dest.Linking(dest.count + toMove)
    {
      dest.ShiftChildrenUp(toMove);
      dest.TakeChildren(0, this, count - toMove + 1, toMove, true, set k | count - toMove + 1 <= k <= count ::
          children[k]);
    }

    /** Makes room for toMove values at the front, from the last value down. */
    method ShiftValuesUp(toMove: nat)
      requires 1 <= toMove && count + toMove <= |values|
      modifies this`values
      ensures |values| == |old(values)|
      ensures forall k {:trigger values[k]} :: toMove <= k < count + toMove ==> values[k] == old(values)[k - toMove]
    {
      ghost var was := values;
      var i := count;
      while i > 0
        invariant 0 <= i <= count
        invariant |values| == |was|
        invariant forall k {:trigger values[k]} :: i + toMove <= k < count + toMove ==> values[k] == was[k - toMove]
        invariant forall k {:trigger values[k]} :: 0 <= k < i ==> values[k] == was[k]
      {
        i := i - 1;
        ValueSwap(i, this, i + toMove);
      }
    }

    /** The same shift for the children, which learn their new positions. */
    method ShiftChildrenUp(toMove: nat)
      requires Shape() && !leaf && 1 <= toMove && count + toMove <= maxCount
      requires Linked() && this !in Kids()
      modifies this`children, Kids()`parent, Kids()`position
      ensures |children| == |old(children)|
      ensures forall k {:trigger children[k]} :: toMove <= k <= count + toMove ==>
        children[k] == old(children)[k - toMove] && children[k] != null
      ensures forall k {:trigger old(children)[k]} :: 0 <= k <= count ==>
        old(children)[k].parent == this && old(children)[k].position == k + toMove
    {
      ghost var was := children;
      var i := count + 1;
      while i > 0
        invariant 0 <= i <= count + 1
        invariant |children| == |was|
        invariant forall k {:trigger children[k]} ::
            i + toMove <= k <= count + toMove ==> children[k] == was[k - toMove]
        invariant forall k {:trigger children[k]} :: 0 <= k < i ==> children[k] == was[k]
        invariant forall k {:trigger was[k]} :: 0 <= k <= count ==>
          was[k] != null && was[k].parent == this && was[k].position == if k < i then k else k + toMove
      {
        i := i - 1;
        SetChild(i + toMove, children[i]);
        children := children[i := null];
      }
    }

    /** merge: the delimiter and everything in the right sibling join this node, and the parent loses the
        delimiter and the sibling. */
    method Merge(src: Node)
      requires Neighbours(src) && parent.Linked() && parent !in parent.Kids()
      requires (Kids() + src.Kids()) !! parent.Kids()
      requires parent.children[position] == this && parent.children[position + 1] == src
      requires count + 1 + src.count <= maxCount
      modifies this`values, this`count, this`children, src`values, src`count, src`children
      modifies parent`values, parent`count, parent`children
      modifies src.Kids()`parent, src.Kids()`position, parent.Kids()`position
      ensures Shape() && parent.Shape() && position == old(position)
      ensures count == old(count) + 1 + old(src.count) && parent.count == old(parent.count) - 1
      ensures Vals() == old(JointVals(src)) && Row() == old(JointRow(src))
      ensures parent.Vals() == old(parent.Vals()[..position]) + old(parent.Vals()[position + 1..])
      ensures parent.Row() == old(parent.Row()[..position + 1]) + old(parent.Row()[position + 2..])
      ensures Linked() && parent.Linked()
    {
      hide JointVals, JointRow, Kids, Vals, Row;
      AbsorbUnder(src);
      ghost var p, ks := position, parent.Kids();
      if !leaf { LinkedKids(); }
      assert !leaf ==> forall k {:trigger children[k]} :: 0 <= k <= count ==> children[k] !in ks;
      parent.RowAt(p);
      parent.RemoveValue(position);
      parent.RowAt(p);
    }

    lemma RowAt(k: nat)
      requires Shape() && !leaf && k <= count
      ensures k < |Row()| && Row()[k] == children[k]
    {}

    /** merge, up to the removal from the parent, which keeps its children and all other values. */
    method AbsorbUnder(src: Node)
      requires Neighbours(src) && parent.Linked() && parent !in parent.Kids()
      requires (Kids() + src.Kids()) !! parent.Kids()
      requires parent.children[position] == this && parent.children[position + 1] == src
      requires count + 1 + src.count <= maxCount
      modifies this`values, this`count, this`children, src`values, src`count, src`children, parent`values
      modifies src.Kids()`parent, src.Kids()`position
      ensures Shape() && parent.Shape() && position == old(position)
      ensures count == old(count) + 1 + old(src.count)
      ensures Vals() == old(JointVals(src)) && Row() == old(JointRow(src))
      ensures parent.Vals()[..position] == old(parent.Vals()[..position])
      ensures parent.Vals()[position + 1..] == old(parent.Vals()[position + 1..])
      ensures Linked() && parent.Linked() && Kids() !! parent.Kids()
    {
      hide JointVals, JointRow;
      ghost var p, v, ks := position, parent.Vals(), Kids() + src.Kids();
      ghost var row := JointRow(src);
      KidsOfJoint(src);
      Absorb(src);
      assert parent.Linked();
      assert parent.Vals()[..p] == v[..p] && parent.Vals()[p + 1..] == v[p + 1..];
      KidsOfRow(row, ks);
    }

    lemma KidsOfJoint(src: Node)
      requires Neighbours(src)
      ensures forall c {:trigger c in JointRow(src)} :: c in JointRow(src) && c != null ==> c in Kids() + src.Kids()
    {}

    lemma KidsOfRow(row: seq<Node?>, ks: set<Node>)
      requires Shape() && (if leaf then row == [] else Row() == row) && forall c {:trigger c in row} ::
          c in row && c != null ==> c in ks
      ensures Kids() <= ks
    {
      forall k: nat | !leaf && k <= count && children[k] != null ensures children[k] in ks {
        RowAt(k);
        assert children[k] in row;
      }
    }

    /** merge, up to the removal from the parent. */
    method Absorb(src: Node)
      requires Neighbours(src)
      requires count + 1 + src.count <= maxCount
      modifies this`values, this`count, this`children, src`values, src`count, src`children, parent`values
      modifies src.Kids()`parent, src.Kids()`position
      ensures Shape() && src.Shape() && |parent.values| == |old(parent.values)|
      ensures count == old(count) + 1 + old(src.count) && src.count == 0
      ensures Vals() == old(JointVals(src)) && Row() == old(JointRow(src))
      ensures forall k {:trigger parent.values[k]} :: 0 <= k < |parent.values| && k != position ==>
        parent.values[k] == old(parent.values)[k]
      ensures Linked()
    {
      MergeValues(src);
      if !leaf { MergeChildren(src); }
      count := 1 + count + src.count;
      src.count := 0;
    }

    /** The value half of merge. */
    method MergeValues(src: Node)
      requires this != src && this != parent && src != parent && 0 <= position < |parent.values|
      requires count + 1 + src.count <= |values| && src.count <= |src.values|
      modifies this`values, src`values, parent`values
      ensures |values| == |old(values)| && |src.values| == |old(src.values)| && |parent.values| == |old(parent.values)|
      ensures values[..count + 1 + src.count] == old(JointVals(src)) && JointRow(src) == old(JointRow(src))
      ensures forall k {:trigger parent.values[k]} :: 0 <= k < |parent.values| && k != position ==>
        parent.values[k] == old(parent.values)[k]
    {
      ghost var V := JointVals(src);
      ValueSwap(count, parent, position);
      SwapRow(1 + count, src, 0, src.count);
      assert values[..count + 1 + src.count] == V;
    }

    /** The child half of merge. */
    method MergeChildren(src: Node)
      requires this != src && !leaf && !src.leaf && Shape() && src.Shape()
      requires Linked() && src.Linked() && this !in src.Kids() && src !in src.Kids()
      requires count + 1 + src.count <= maxCount
      modifies this`children, src`children, src.Kids()`parent, src.Kids()`position
      ensures |children| == |old(children)| && |src.children| == |old(src.children)|
      ensures children[..count + 2 + src.count] == old(JointRow(src))
      ensures Linking(count + 1 + src.count)
    {
      ghost var K := Row() + src.Row();
      TakeChildren(1 + count, src, 0, src.count + 1, true, src.Kids());
      assert children[..count + 2 + src.count] == K;
    }

    /** How many values split sends right: all but one when inserting at the front, none when inserting at
        the back, half otherwise. */
    function SplitCount(insertPosition: nat): nat
      reads this
    {
      if insertPosition == 0 then (if count == 0 then 0 else count - 1)
      else if insertPosition == maxCount then 0
      else count / 2
    }

    /** How many values a split leaves on each side of the delimiter: none on the left for an insertion at the
        beginning, none on the right for one at the end, and otherwise as many on both sides, or one more on the
        right. */
    lemma SplitShares(insertPosition: nat)
      requires count >= 1
      ensures var right := SplitCount(insertPosition);
        && right < count
        && var left := count - 1 - right;
           if insertPosition == 0 then left == 0
           else if insertPosition == maxCount then right == 0
           else left == right || left + 1 == right
    {}

    /** split: the upper values and children go to dest, the largest value left goes to the parent between
        the two nodes, and dest becomes the parent's next child. */
    method Split(dest: Node, insertPosition: nat)
      requires Shape() && dest.Shape() && parent.Shape() && !parent.leaf
      requires this != dest && this != parent && dest != parent
      requires leaf == dest.leaf && maxCount == dest.maxCount && dest.count == 0
      requires count - SplitCount(insertPosition) >= 1
      requires Linked() && parent.Linked() && Kids() !! {this, dest, parent} && parent.Kids() !! {dest, parent}
      requires 0 <= position <= parent.count < parent.maxCount && parent.children[position] == this
      modifies this`values, this`count, this`children, dest`values, dest`count, dest`children
      modifies dest`parent, dest`position, parent`values, parent`count, parent`children
      modifies Kids()`parent, Kids()`position, parent.Kids()`position
      ensures Shape() && dest.Shape() && parent.Shape() && position == old(position)
      ensures dest.count == old(SplitCount(insertPosition)) && count == old(count) - dest.count - 1
      ensures parent.count == old(parent.count) + 1
      ensures Vals() == old(Vals())[..count] && dest.Vals() == old(Vals())[count + 1..]
      ensures parent.Vals() == old(parent.Vals()[..position]) + [old(Vals())[count]] + old(parent.Vals()[position..])
      ensures parent.Row() == old(parent.Row()[..position + 1]) + [dest] + old(parent.Row()[position + 1..])
      ensures !leaf ==> Row() == old(Row())[..count + 1] && dest.Row() == old(Row())[count + 1..]
      ensures Linked() && dest.Linked() && parent.Linked()
    {
      hide Linking, Kids, Vals, Row, SplitCount;
      ghost var k, mine, c := Row(), Kids(), children;
      if !leaf {
        LiveChildren(children, 0, count + 1);
        KidsAre();
      }
      SplitUpper(dest, insertPosition);
      if leaf {
        NoRow();
      } else {
        assert k == c[..count + 1 + dest.count + 1];
        ghost var row := parent.children;
        parent.LinkedKids();
        assert forall x {:trigger x in mine} :: x in mine ==> x.parent == this by { assert children == c; }
        assert forall j {:trigger row[j]} :: 0 <= j <= parent.count ==> row[j] !in mine;
        SplitChildren(dest, mine);
        parent.IsLinking(parent.count);
      }
    }

    /** The live children, as a stretch of a longer row. */
    lemma LiveChildren(row: seq<Node?>, at: nat, n: nat)
      requires !leaf && count + 1 == n <= |children| && at + n <= |row|
      requires forall k {:trigger children[k]} :: 0 <= k < n ==> children[k] == row[at + k]
      ensures Row() == row[at..at + n]
    {}

    lemma NoRow()
      requires leaf && Shape()
      ensures Linked()
    {}

    /** split, up to the move of the children. */
    method SplitUpper(dest: Node, insertPosition: nat)
      requires Shape() && dest.Shape() && parent.Shape() && !parent.leaf
      requires this != dest && this != parent && dest != parent
      requires leaf == dest.leaf && maxCount == dest.maxCount && dest.count == 0
      requires count - SplitCount(insertPosition) >= 1
      requires Linked() && parent.Linked() && Kids() !! {this, dest, parent} && parent.Kids() !! {dest, parent}
      requires 0 <= position <= parent.count < parent.maxCount && parent.children[position] == this
      modifies this`values, this`count, dest`values, dest`count
      modifies dest`parent, dest`position, parent`values, parent`count, parent`children, parent.Kids()`position
      ensures Shape() && dest.Shape() && parent.Shape() && position == old(position)
      ensures dest.count == old(SplitCount(insertPosition)) && count == old(count) - dest.count - 1
      ensures parent.count == old(parent.count) + 1
      ensures Vals() == old(Vals())[..count] && dest.Vals() == old(Vals())[count + 1..]
      ensures parent.Vals() == old(parent.Vals()[..position]) + [old(Vals())[count]] + old(parent.Vals()[position..])
      ensures parent.Row() == old(parent.Row()[..position + 1]) + [dest] + old(parent.Row()[position + 1..])
      ensures parent.Linked()
      ensures children == old(children)
      ensures !leaf ==> forall k {:trigger children[k]} :: 0 <= k <= count + 1 + dest.count ==>
        children[k] != null && children[k] in old(Kids()) && children[k] !in {this, dest, parent} &&
            children[k].parent == this && children[k].position == k
    {
      hide Linking, Kids, Vals, Row, SplitCount;
      ghost var v := Vals();
      if !leaf { ChildrenApart(dest); }
      SplitValues(dest, insertPosition);
      SplitParent(dest);
      assert dest.Vals() == v[count + 1..];
    }

    /** The children before a split: none is one of the three nodes or a child of the parent. */
    lemma ChildrenApart(dest: Node)
      requires Shape() && !leaf && Linked() && parent.Shape() && !parent.leaf && parent.Linked() && this != parent
      requires Kids() !! {this, dest, parent}
      ensures forall k {:trigger children[k]} :: 0 <= k <= count ==>
        && children[k] != null && children[k] in Kids() && children[k] !in {this, dest, parent} &&
            children[k] !in parent.Kids()
        && children[k].parent == this && children[k].position == k
    {
      LinkedKids();
      parent.KidsParent();
    }

    lemma KidsAre()
      ensures forall x {:trigger x in Kids()} :: x in Kids() ==> exists k {:trigger children[k]} ::
          0 <= k <= count && k < |children| && children[k] == x
    {}

    lemma KidsParent()
      requires Shape() && !leaf && Linked()
      ensures forall c {:trigger c in Kids()} :: c in Kids() ==> c.parent == this
    {}

    /** The part of split that moves children to the new node. */
    method SplitChildren(dest: Node, ghost mine: set<Node>)
      requires this != dest && !leaf && !dest.leaf && Shape() && dest.Shape()
      requires count + 1 + dest.count <= maxCount && maxCount == dest.maxCount
      requires forall k {:trigger children[k]} :: 0 <= k <= count + 1 + dest.count ==>
        && children[k] != null && children[k] in mine && children[k] !in {this, dest}
        && children[k].parent == this && children[k].position == k
      modifies this`children, dest`children, mine`parent, mine`position
      ensures |children| == |old(children)| && |dest.children| == |old(dest.children)|
      ensures Row() == old(children[..count + 1 + dest.count + 1])[..count + 1]
      ensures dest.Row() == old(children[..count + 1 + dest.count + 1])[count + 1..]
      ensures Linked() && dest.Linked()
    {
      hide Row, Linking;
      ghost var k := children[..count + 1 + dest.count + 1];
      ghost var moved := set k | count + 1 <= k < count + 2 + dest.count :: children[k];
      dest.TakeTail(this, count + 1, dest.count + 1, moved);
      LiveChildren(k, 0, count + 1);
      dest.LiveChildren(k, count + 1, dest.count + 1);
      assert k[..count + 1] == k[0..count + 1] && k[count + 1..] == k[count + 1..count + 1 + dest.count + 1];
      IsLinking(count);
      dest.IsLinking(dest.count);
    }

    /** n children of src from `from` on become the first children of this node; those before stay with src. */
    method TakeTail(src: Node, from: nat, n: nat, ghost moved: set<Node>)
      requires src != this && n <= |children| && from + n <= |src.children|
      requires forall k {:trigger src.children[k]} :: 0 <= k < from + n ==>
        && src.children[k] != null && src.children[k] != this && src.children[k] != src &&
            src.children[k].parent == src && src.children[k].position == k
      requires forall c {:trigger c in moved} :: c in moved ==> exists k {:trigger src.children[k]} ::
          from <= k < from + n && src.children[k] == c
      requires forall k {:trigger src.children[k]} :: from <= k < from + n ==> src.children[k] in moved
      modifies this`children, src`children, moved`parent, moved`position
      ensures |children| == |old(children)| && |src.children| == |old(src.children)|
      ensures forall k {:trigger children[k]} :: 0 <= k < n ==>
        children[k] != null && children[k] == old(src.children)[from + k] && children[k].parent == this &&
            children[k].position == k
      ensures forall k {:trigger src.children[k]} :: 0 <= k < from ==>
        src.children[k] != null && src.children[k] == old(src.children)[k] && src.children[k].parent == src &&
            src.children[k].position == k
    {
      ghost var row := src.children;
      assert forall k {:trigger row[k]} :: 0 <= k < from ==> row[k] !in moved;
      TakeChildren(0, src, from, n, true, moved);
      forall k {:trigger children[k]} | 0 <= k < n
        ensures children[k] != null && children[k] == row[from + k] && children[k].parent == this
        ensures children[k].position == k
      {
        var j := from + k;
        assert row[j].parent == this;
      }
      assert forall k {:trigger src.children[k]} :: 0 <= k < from ==> src.children[k] == row[k];
    }

    /** The part of split that moves values between the two halves and sets their counts. */
    method SplitValues(dest: Node, insertPosition: nat)
      requires this != dest && count <= |values| && |values| <= |dest.values|
      requires count - SplitCount(insertPosition) >= 1
      modifies this`values, this`count, dest`values, dest`count
      ensures |values| == |old(values)| && |dest.values| == |old(dest.values)|
      ensures dest.count == old(SplitCount(insertPosition)) && count == old(count) - dest.count - 1
      ensures count < |values| && count < |old(Vals())| && values[count] == old(Vals())[count]
      ensures Vals() == old(Vals())[..count] && dest.Vals() == old(Vals())[count + 1..]
    {
      ghost var v := Vals();
      dest.count := SplitCount(insertPosition);
      count := count - dest.count;
      dest.SwapRow(0, this, count, dest.count);
      count := count - 1;
      assert Vals() == v[..count] && dest.Vals() == v[count + 1..];
    }

    /** The part of split that hands the delimiter and dest to the parent. */
    method SplitParent(dest: Node)
      requires this != dest && this != parent && dest != parent && count < |values|
      requires parent.Shape() && !parent.leaf && parent.Linked() && parent.Kids() !! {dest, parent}
      requires 0 <= position <= parent.count < parent.maxCount && parent.children[position] == this
      modifies this`values, parent`values, parent`count, parent`children
      modifies dest`parent, dest`position, parent.Kids()`position
      ensures parent.Shape() && |values| == |old(values)|
      ensures Vals() == old(Vals())
      ensures parent.count == old(parent.count) + 1 && position == old(position)
      ensures parent.Vals() == old(parent.Vals()[..position]) + [old(values)[count]] + old(parent.Vals()[position..])
      ensures parent.Row() == old(parent.Row()[..position + 1]) + [dest] + old(parent.Row()[position + 1..])
      ensures parent.Linked()
    {
      hide Kids, Linking;
      ghost var p, v, k, x, mine := position, parent.Vals(), parent.Row(), values[count], Vals();
      ghost var ks := parent.Kids();
      parent.OpenGap(position, this);
      FillGap(v[..p], BLANK, x, v[p..]);
      FillGap(k[..p + 1], null, dest, k[p + 1..]);
      ghost var v1, k1 := parent.Vals(), parent.Row();
      ValueSwap(count, parent, position);
      assert Vals() == mine && parent.Vals() == v1[p := x];
      parent.SetChild(position + 1, dest);
      assert parent.Row() == k1[p + 1 := dest];
      parent.IsLinking(parent.count);
    }

    /** A blank value before child `at`'s right neighbour, and a gap for a child behind child `at`. */
    method OpenGap(at: nat, c: Node)
      requires Shape() && !leaf && Linked() && this !in Kids() && at <= count < maxCount && children[at] == c
      modifies this`values, this`count, this`children, Kids()`position
      ensures Shape() && count == old(count) + 1 && at + 1 <= count && at < |Vals()|
      ensures Vals() == old(Vals()[..at]) + [BLANK] + old(Vals()[at..])
      ensures Row() == old(Row()[..at + 1]) + [null] + old(Row()[at + 1..])
      ensures forall j {:trigger children[j]} :: 0 <= j <= count && j != at + 1 ==>
        children[j] != null && children[j] in old(Kids()) && children[j].parent == this && children[j].position == j
      ensures c.position == at
    {
      hide Kids, Linking;
      ghost var ks, k := Kids(), Row();
      LinkedKids();
      assert forall j {:trigger k[j]} :: 0 <= j < |k| ==> k[j] == children[j] && k[j] in ks;
      InsertValue(at, BLANK);
      ghost var r := Row();
      assert r[at] == c;
      forall j {:trigger children[j]} | 0 <= j <= count && j != at + 1 ensures children[j] in ks {
        assert children[j] == r[j] == if j <= at then k[j] else k[j - 1];
      }
    }

    /** swap: the two nodes exchange values, children and counts; each child learns its new parent. */
    method Swap(x: Node)
      requires this != x && leaf == x.leaf && Shape() && x.Shape()
      requires count <= x.maxCount && x.count <= maxCount
      requires !leaf ==> (forall k :: 0 <= k <= count ==> children[k] != null)
      requires !leaf ==> (forall k :: 0 <= k <= x.count ==> x.children[k] != null)
      requires Kids() !! x.Kids()
      modifies this`values, this`count, this`children, x`values, x`count, x`children
      modifies Kids()`parent, x.Kids()`parent
      ensures Shape() && x.Shape()
      ensures count == old(x.count) && x.count == old(count)
      ensures forall k {:trigger values[k]} :: 0 <= k < count ==> values[k] == old(x.values)[k]
      ensures forall k {:trigger x.values[k]} :: 0 <= k < x.count ==> x.values[k] == old(values)[k]
      ensures !leaf ==> forall k {:trigger children[k]} :: 0 <= k <= count ==> children[k] == old(x.children)[k]
      ensures !leaf ==> forall k {:trigger x.children[k]} :: 0 <= k <= x.count ==> x.children[k] == old(children)[k]
      ensures !leaf ==> forall k {:trigger children[k]} ::
          0 <= k <= count ==> children[k] != null && children[k].parent == this
      ensures !leaf ==> forall k {:trigger x.children[k]} ::
          0 <= k <= x.count ==> x.children[k] != null && x.children[k].parent == x
    {
      var n := if count > x.count then count else x.count;
      SwapValues(x, n);
      if !leaf { SwapChildren(x, n); }
      count, x.count := x.count, count;
    }

    /** The value half of swap. */
    method SwapValues(x: Node, n: nat)
      requires this != x && n <= |values| && n <= |x.values|
      modifies this`values, x`values
      ensures |values| == |old(values)| && |x.values| == |old(x.values)|
      ensures forall k {:trigger values[k]} :: 0 <= k < n ==> values[k] == old(x.values)[k]
      ensures forall k {:trigger x.values[k]} :: 0 <= k < n ==> x.values[k] == old(values)[k]
    {
      ghost var mine, theirs := values, x.values;
      var i := 0;
      while i < n
        invariant 0 <= i <= n
        invariant |values| == |mine| && |x.values| == |theirs|
        invariant forall k {:trigger values[k]} :: 0 <= k < n ==> values[k] == if k < i then theirs[k] else mine[k]
        invariant forall k {:trigger x.values[k]} :: 0 <= k < n ==> x.values[k] == if k < i then mine[k] else theirs[k]
      {
        ValueSwap(i, x, i);
        i := i + 1;
      }
    }

    /** The child half of swap: exchange the pointers, then give every live child its new parent. */
    method SwapChildren(x: Node, n: nat)
      requires this != x && !leaf && !x.leaf && Shape() && x.Shape()
      requires count <= n && x.count <= n && n <= maxCount && n <= x.maxCount
      requires forall k :: 0 <= k <= count ==> children[k] != null
      requires forall k :: 0 <= k <= x.count ==> x.children[k] != null
      requires Kids() !! x.Kids()
      modifies this`children, x`children, Kids()`parent, x.Kids()`parent
      ensures |children| == |old(children)| && |x.children| == |old(x.children)|
      ensures forall k {:trigger children[k]} :: 0 <= k <= x.count ==>
        children[k] == old(x.children)[k] && children[k] != null && children[k].parent == this
      ensures forall k {:trigger x.children[k]} :: 0 <= k <= count ==>
        x.children[k] == old(children)[k] && x.children[k] != null && x.children[k].parent == x
    {
      ghost var mine, theirs := children, x.children;
      var i := 0;
      while i <= n
        invariant 0 <= i <= n + 1
        invariant |children| == |mine| && |x.children| == |theirs|
        invariant forall k {:trigger children[k]} :: 0 <= k <= n ==> children[k] == if k < i then theirs[k] else mine[k]
        invariant forall k {:trigger x.children[k]} ::
            0 <= k <= n ==> x.children[k] == if k < i then mine[k] else theirs[k]
        modifies this`children, x`children
      {
        var t := children[i];
        children := children[i := x.children[i]];
        x.children := x.children[i := t];
        i := i + 1;
      }
      x.AdoptChildren(count);
      AdoptChildren(x.count);
    }

    /** The parent-fixing loop of swap. */
    method AdoptChildren(last: nat)
      requires last < |children| && forall k :: 0 <= k <= last ==> children[k] != null
      modifies (set k | 0 <= k <= last :: children[k])`parent
      ensures forall k :: 0 <= k <= last ==> children[k].parent == this
    {
      var i := 0;
      while i <= last
        invariant 0 <= i <= last + 1
        invariant forall k :: 0 <= k < i ==> children[k].parent == this
      {
        children[i].parent := this;
        i := i + 1;
      }
    }
  }
}
