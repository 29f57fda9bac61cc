/** The growing ring buffer that requests wait in, one operation after the other (src/common/atomic.h, AtomicQueue). */
module AtomicQueue {
  import opened Numbers

  // ---- A ring ----

  /** How many elements lie from front to back in a ring of n. */
  function Dist(front: nat, back: nat, n: nat): nat
    requires front < n && back < n
  {
    if front <= back then back - front else back + n - front
  }

  function Wrap(x: nat, n: nat): nat
    requires x < 2 * n
  {
    if x < n then x else x - n
  }

  lemma ModIs(x: nat, n: nat)
    requires 0 < n && x < 2 * n
    ensures x % n == Wrap(x, n)
  {
    if x < n {
      SmallMod(x, n);
    } else {
      SmallMod(x - n, n);
      AddOnce(x - n, n);
    }
  }

  lemma AddOnce(x: nat, n: nat)
    requires 0 < n && x < n
    ensures (x + n) % n == x
  {
    var d := (x + n) / n - 1;
    assert n * d == n * ((x + n) / n) - n;
    assert n * d == x - (x + n) % n;
    NoMultipleBetween(n, d);
  }

  lemma NoMultipleBetween(n: nat, d: int)
    requires 0 - n < n * d < n
    ensures d == 0
  {}

  // ---- Sizes and offsets in 32 bits ----

  const FIRST_SIZE := 256
  const LAST_SIZE := 0x8000_0000

  /** The sizes that a ring goes through. */
  function SizeAfter(doublings: nat): (n: nat)
    ensures n >= FIRST_SIZE
  {
    if doublings == 0 then FIRST_SIZE else 2 * SizeAfter(doublings - 1)
  }

  /** A size that can occur: 256, doubled at most 23 times. */
  predicate IsSize(n: nat) {
    exists k :: 0 <= k <= 23 && n == SizeAfter(k)
  }

  lemma {:induction false} SizesUpTo(k: nat)
    requires k <= 23
    ensures FIRST_SIZE <= SizeAfter(k) <= LAST_SIZE && (SizeAfter(k) < LAST_SIZE <==> k < 23)
    ensures k < 23 ==> SizeAfter(k + 1) == 2 * SizeAfter(k) <= LAST_SIZE
    decreases 23 - k
  {
    if k < 23 {
      SizesUpTo(k + 1);
    } else {
      LastSize();
    }
  }

  lemma LastSize()
    ensures SizeAfter(23) == LAST_SIZE
  {
    assert SizeAfter(8) == 0x1_0000;
    assert SizeAfter(16) == 0x100_0000;
  }

  lemma SizeBounds(n: nat)
    requires IsSize(n)
    ensures FIRST_SIZE <= n <= LAST_SIZE
    ensures n < LAST_SIZE ==> IsSize(2 * n)
  {
    var k :| 0 <= k <= 23 && n == SizeAfter(k);
    SizesUpTo(k);
    if k < 23 { assert 2 * n == SizeAfter(k + 1); }
  }

  lemma FirstIsSize()
    ensures IsSize(FIRST_SIZE)
  {
    assert FIRST_SIZE == SizeAfter(0);
  }

  function Count32(front: uint32, back: uint32, n: uint32): uint32
    requires n > 0
  {
    (back + n - front) % U32 % n
  }

  function Offset32(front: uint32, i: uint32, n: uint32): uint32
    requires n > 0
  {
    (front + i) % U32 % n
  }

  function Twice32(n: uint32): uint32 {
    2 * n % U32
  }

  /** For the sizes that occur the 32-bit offsets are exact. */
  lemma OffsetIs(front: uint32, i: uint32, n: uint32)
    requires n <= LAST_SIZE && front < n && i <= n
    ensures Offset32(front, i, n) == Wrap(front + i, n)
  {
    SmallMod(front + i, U32);
    ModIs(front + i, n);
  }

  lemma CountIs(front: uint32, back: uint32, n: uint32)
    requires n <= LAST_SIZE && front < n && back < n
    ensures Count32(front, back, n) == Dist(front, back, n)
  {
    SmallMod(back + n - front, U32);
    ModIs(back + n - front, n);
  }

  /** A ring can be doubled exactly below the last size; there the new size would be 0. */
  lemma DoublesBelowLast(n: uint32)
    requires IsSize(n)
    ensures Twice32(n) == 2 * n <==> n < LAST_SIZE
    ensures Twice32(LAST_SIZE) == 0
  {
    SizeBounds(n);
  }

  // ---- What a ring holds ----

  function Slice<T>(q: seq<T>, front: nat, back: nat, n: nat): (s: seq<T>)
    requires n <= |q| && front < n && back < n
    ensures |s| == Dist(front, back, n)
    ensures forall i {:trigger s[i]} :: 0 <= i < |s| ==> s[i] == q[Wrap(front + i, n)]
  {
    seq(Dist(front, back, n), i requires 0 <= i < Dist(front, back, n) => q[Wrap(front + i, n)])
  }

  predicate RingOk<T>(q: seq<T>, front: nat, back: nat, n: nat) {
    2 <= n <= |q| && front < n && back < n
  }

  /** Putting an element behind the last in a ring that is not full. */
  lemma SlicePush<T>(q: seq<T>, front: nat, back: nat, n: nat, x: T)
    requires RingOk(q, front, back, n) && Wrap(back + 1, n) != front
    ensures Slice(q[back := x], front, Wrap(back + 1, n), n) == Slice(q, front, back, n) + [x]
  {}

  lemma SlicePop<T>(q: seq<T>, front: nat, back: nat, n: nat)
    requires RingOk(q, front, back, n) && front != back
    ensures [q[front]] + Slice(q, Wrap(front + 1, n), back, n) == Slice(q, front, back, n)
  {
    var s, t := Slice(q, front, back, n), Slice(q, Wrap(front + 1, n), back, n);
    assert |t| + 1 == |s|;
    forall i | 0 <= i < |t| ensures t[i] == s[i + 1] {}
  }

  /** Elements copied to the upper half of a ring of twice the size. */
  lemma SliceGrow<T>(q: seq<T>, r: seq<T>, front: nat, back: nat, n: nat)
    requires RingOk(q, front, back, n) && |r| >= 2 * n
    requires forall j {:trigger r[j]} :: n <= j < n + Dist(front, back, n) ==> r[j] == q[Wrap(front + j - n, n)]
    ensures var d := Dist(front, back, n); n + d < 2 * n && Slice(r, n, n + d, 2 * n) == Slice(q, front, back, n)
  {
    var d := Dist(front, back, n);
    var s, t := Slice(q, front, back, n), Slice(r, n, n + d, 2 * n);
    forall i | 0 <= i < d ensures t[i] == s[i] {
      var j := n + i;
      assert t[i] == r[j] && r[j] == q[Wrap(front + j - n, n)];
    }
  }

  /** vector::resize. */
  function Resized<T>(q: seq<T>, n: nat, filler: T): seq<T> {
    if n <= |q| then q[..n] else q + seq(n - |q|, _ => filler)
  }

  lemma ResizedIs<T>(q: seq<T>, n: nat, filler: T)
    ensures n >= |q| ==> |Resized(q, n, filler)| == n && Resized(q, n, filler)[..|q|] == q
    ensures n == 0 ==> Resized(q, n, filler) == []
  {}

  // ---- The queue ----

  class AtomicQueue<T> {
    const zero: T
    var queue: seq<T>
    var size: uint32
    var front: uint32
    var back: uint32

    ghost predicate Valid()
      reads this
    {
      |queue| == size && RingOk(queue, front, back, size) && IsSize(size)
    }

    ghost function Contents(): seq<T>
      reads this
      requires Valid()
    {
      Slice(queue, front, back, size)
    }

    constructor (zero: T)
      ensures Valid() && Contents() == [] && size == FIRST_SIZE
    {
      FirstIsSize();
      this.zero := zero;
      queue, size, front, back := seq(FIRST_SIZE, _ => zero), FIRST_SIZE, 0, 0;
    }

    method Size() returns (n: nat)
      requires Valid()
      ensures n == |Contents()|
    {
      SizeBounds(size);
      CountIs(front, back, size);
      n := Count32(front, back, size);
    }

    method Empty() returns (b: bool)
      requires Valid()
      ensures b <==> Contents() == []
    {
      b := front == back;
    }

    /** Moves the elements to the upper half of a ring of twice the size. At the last size the new one is 0, and the
        first element moved is written out of bounds: there the result is false. */
    method Grow() returns (inBounds: bool)
      requires Valid()
      modifies this
      ensures inBounds <==> old(size) < LAST_SIZE || old(Contents()) == []
      ensures old(size) < LAST_SIZE ==> Valid() && size == 2 * old(size) && Contents() == old(Contents())
      ensures old(size) == LAST_SIZE ==> queue == [] && size == if inBounds then 0 else LAST_SIZE
    {
      hide Slice, IsSize, Resized, Offset32, Count32;
      SizeBounds(size);
      DoublesBelowLast(size);
      CountIs(front, back, size);
      SliceSize(queue, front, back, size);
      ResizedIs(queue, Twice32(size), zero);
      var count := Count32(front, back, size);
      ghost var was := queue;
      queue := Resized(queue, Twice32(size), zero);
      inBounds := MoveUp(count, was);
      if inBounds {
        if size < LAST_SIZE {
          SliceGrow(was, queue, front, back, size);
        }
        front := size;
        back := (size + count) % U32;
        size := Twice32(size);
      }
    }

    /** Copies the elements behind the old ring, as long as every access is in bounds. */
    method MoveUp(count: uint32, ghost was: seq<T>) returns (inBounds: bool)
      requires 0 < size <= LAST_SIZE && front < size && count < size == |was|
      requires queue == [] || (|queue| == 2 * size && queue[..size] == was)
      modifies this`queue
      ensures |queue| == |old(queue)| && (inBounds <==> queue != [] || count == 0)
      ensures queue != [] ==>
          forall j {:trigger queue[j]} :: size <= j < size + count ==> queue[j] == was[Wrap(front + j - size, size)]
    {
      hide Offset32;
      for i := 0 to count
        invariant |queue| == |old(queue)| && (queue == [] ==> i == 0)
        invariant queue != [] ==> queue[..size] == was
        invariant queue != [] ==>
            forall j {:trigger queue[j]} :: size <= j < size + i ==> queue[j] == was[Wrap(front + j - size, size)]
      {
        OffsetIs(front, i, size);
        if size + i >= |queue| {
          return false;
        }
        assert queue[Offset32(front, i, size)] == was[Wrap(front + i, size)];
        queue := queue[size + i := queue[Offset32(front, i, size)]];
      }
      return true;
    }

    /** Appends the item. Only a ring that is full with 2^31 - 1 elements cannot grow: then all is lost. */
    method Push(item: T) returns (inBounds: bool)
      requires Valid()
      modifies this
      ensures inBounds <==> |old(Contents())| < LAST_SIZE - 1
      ensures inBounds ==> Valid() && Contents() == old(Contents()) + [item]
      ensures inBounds ==> size == if |old(Contents())| + 1 == old(size) then 2 * old(size) else old(size)
      ensures !inBounds ==> queue == [] && size == LAST_SIZE
    {
      hide Slice, IsSize, Offset32, RingOk;
      SizeBounds(size);
      Ends();
      if front == Offset32(back, 1, size) {
        var grown := Grow();
        if !grown {
          return false;
        }
      }
      Place(item);
      return true;
    }

    /** The ring is full exactly when the offset after the back is the front. */
    lemma Ends()
      requires Valid()
      ensures size > 0 && (front == Offset32(back, 1, size) <==> |Contents()| == size - 1) && |Contents()| < size
    {
      hide Slice, IsSize, Offset32;
      SizeBounds(size);
      OffsetIs(back, 1, size);
      SliceSize(queue, front, back, size);
    }

    /** Puts the item at the back of a ring that is not full. */
    method Place(item: T)
      requires Valid() && |Contents()| < size - 1
      modifies this`queue, this`back
      ensures Valid() && Contents() == old(Contents()) + [item]
    {
      hide Slice, IsSize, Offset32;
      SizeBounds(size);
      OffsetIs(back, 1, size);
      SliceSize(queue, front, back, size);
      SlicePush(queue, front, back, size, item);
      queue := queue[back := item];
      back := Offset32(back, 1, size);
    }

    method Pop() returns (ok: bool, result: T)
      requires Valid()
      modifies this`front
      ensures Valid() && (ok <==> old(Contents()) != [])
      ensures ok ==> old(Contents()) == [result] + Contents()
      ensures !ok ==> Contents() == old(Contents())
    {
      hide Slice, IsSize, Offset32, Count32;
      SizeBounds(size);
      SliceSize(queue, front, back, size);
      ok, result := front != back, zero;
      if ok {
        SlicePop(queue, front, back, size);
        OffsetIs(front, 1, size);
        result := queue[front];
        front := Offset32(front, 1, size);
      }
    }

    method Front() returns (ok: bool, result: T)
      requires Valid()
      ensures ok <==> Contents() != []
      ensures ok ==> result == Contents()[0]
    {
      ok, result := front != back, zero;
      if ok {
        result := queue[front];
      }
    }
  }

  /** A ring of n holds at most n - 1 elements, and is empty only when its ends meet. */
  lemma SliceSize<T>(q: seq<T>, front: nat, back: nat, n: nat)
    requires RingOk(q, front, back, n)
    ensures |Slice(q, front, back, n)| < n
    ensures Slice(q, front, back, n) == [] <==> front == back
    ensures |Slice(q, front, back, n)| == n - 1 <==> Wrap(back + 1, n) == front
  {}
}
