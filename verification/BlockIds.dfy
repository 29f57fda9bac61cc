/** Block ids: which machines and calls get the same one (src/machine/machine.h, GetGUID, and the callers that double
    it, as src/fs/calvinfs.cc does). */
module BlockIds {
  import opened Numbers
  import opened Metadata

  const FIRST_GUID: nat := 1000
  const HALF: nat := 0x8000_0000_0000_0000

  /** Machine::GetGUID on one of `size` machines. The counter may wrap; the number it stands for does not. */
  class Machine {
    const machineId: uint64
    const size: uint64
    var nextGuid: uint64
    ghost var number: nat

    ghost predicate Valid()
      reads this
    {
      nextGuid == number % U64
    }

    constructor (id: uint64, clusterSize: uint64)
      ensures Valid() && machineId == id && size == clusterSize && number == FIRST_GUID
    {
      machineId, size, nextGuid, number := id, clusterSize, FIRST_GUID, FIRST_GUID;
    }

    method GetGUID() returns (guid: uint64)
      requires Valid()
      modifies this`nextGuid, this`number
      ensures Valid() && number == old(number) + 1 && guid == Guid(machineId, size, old(number))
    {
      CounterWraps(machineId, size, number);
      NextMod(number);
      guid := (1 + machineId + size * nextGuid) % U64;
      nextGuid := (nextGuid + 1) % U64;
      number := number + 1;
    }
  }

  lemma NextMod(n: nat)
    ensures (n % U64 + 1) % U64 == (n + 1) % U64
  {}

  function Unwrapped(machine: nat, size: nat, n: nat): nat {
    1 + machine + size * n
  }

  function Guid(machine: nat, size: nat, n: nat): uint64 {
    Unwrapped(machine, size, n) % U64
  }

  /** The block id of a block; odd ids mark large blocks. */
  function BlockId(guid: uint64, large: bool): uint64 {
    (guid * 2 + if large then 1 else 0) % U64
  }

  function IdOf(machine: nat, size: nat, n: nat, large: bool): uint64 {
    BlockId(Guid(machine, size, n), large)
  }

  /** The 64-bit counter may wrap: the n-th call gets the same id all the same. */
  lemma CounterWraps(machine: nat, size: nat, n: nat)
    ensures Guid(machine, size, n % U64) == Guid(machine, size, n)
  {
    var q := n / U64;
    assert size * n == size * (n % U64) + (size * q) * U64 by { Distribute(size, n % U64, q); }
    ModShift(Unwrapped(machine, size, n % U64), size * q, U64);
  }

  lemma Distribute(a: nat, r: nat, q: nat)
    ensures a * (q * U64 + r) == a * r + (a * q) * U64
  {}

  lemma ModShift(x: nat, k: nat, m: nat)
    requires m > 0
    ensures (x + k * m) % m == x % m
  {
    var q, r := x / m, x % m;
    assert x + k * m == (q + k) * m + r by { assert (q + k) * m == q * m + k * m; }
    DivisionUnique(x + k * m, m, q + k, r);
  }

  lemma DivisionUnique(x: nat, m: nat, q: nat, r: nat)
    requires r < m && x == q * m + r
    ensures x / m == q && x % m == r
  {
    var d := x / m - q;
    assert (x / m) * m == q * m + d * m;
    assert d * m == r - x % m;
    NoMultipleBetween(d, m);
  }

  lemma NoMultipleBetween(d: int, m: nat)
    requires 0 - m < d * m < m
    ensures d == 0
  {}

  /** Doubling loses the top bit. */
  lemma IdIs(g: nat, large: bool)
    ensures BlockId(g % U64, large) == 2 * (g % HALF) + if large then 1 else 0
  {
    var h := g % U64;
    assert g == g / U64 * U64 + h;
    var bit := if h < HALF then 0 else 1;
    assert g == (2 * (g / U64) + bit) * HALF + (h - bit * HALF);
    DivisionUnique(g, HALF, 2 * (g / U64) + bit, h - bit * HALF);
  }

  /** Two ids are the same exactly when the blocks are of one kind and the unwrapped numbers agree in their low 63
      bits. */
  lemma SameIdWhen(a: nat, i: nat, x: bool, b: nat, j: nat, y: bool, size: nat)
    ensures IdOf(a, size, i, x) == IdOf(b, size, j, y)
      <==> x == y && Unwrapped(a, size, i) % HALF == Unwrapped(b, size, j) % HALF
  {
    IdIs(Unwrapped(a, size, i), x);
    IdIs(Unwrapped(b, size, j), y);
  }

  // ---- Uniqueness ----

  /** Whether machine a of size machines draws number i before its counter reaches end. */
  predicate Drawn(size: nat, end: nat, a: nat, i: nat) {
    a < size && FIRST_GUID <= i < end
  }

  /** No two calls of any of the machines, with counters up to end, get the same id. */
  ghost predicate AllDifferent(size: nat, end: nat) {
    forall a, i, x, b, j, y {:trigger IdOf(a, size, i, x), IdOf(b, size, j, y)} ::
      Drawn(size, end, a, i) && Drawn(size, end, b, j) && IdOf(a, size, i, x) == IdOf(b, size, j, y) ==>
          a == b && i == j && x == y
  }

  /** The machines draw as many numbers as the low 63 bits can tell apart. */
  predicate Fits(size: nat, end: nat)
    requires end >= FIRST_GUID
  {
    size * (end - FIRST_GUID) <= HALF
  }

  /** Ids are pairwise different if and only if all machines together draw no more than 2^63 numbers. */
  lemma DifferentIffFits(size: nat, end: nat)
    requires end >= FIRST_GUID
    ensures AllDifferent(size, end) <==> Fits(size, end)
  {
    if Fits(size, end) {
      forall a, i, x, b, j, y {:trigger IdOf(a, size, i, x), IdOf(b, size, j, y)} |
        Drawn(size, end, a, i) && Drawn(size, end, b, j) && IdOf(a, size, i, x) == IdOf(b, size, j, y)
        ensures a == b && i == j && x == y
      {
        FitsApart(size, end, a, i, x, b, j, y);
      }
    } else {
      var a, i := Twin(size, end);
      assert IdOf(a, size, i, false) == IdOf(0, size, FIRST_GUID, false);
    }
  }

  /** Past the bound the first id comes again. */
  lemma Twin(size: nat, end: nat) returns (a: nat, i: nat)
    requires end >= FIRST_GUID && !Fits(size, end)
    ensures Drawn(size, end, a, i) && Drawn(size, end, 0, FIRST_GUID) && (a != 0 || i > FIRST_GUID)
    ensures IdOf(a, size, i, false) == IdOf(0, size, FIRST_GUID, false)
  {
    NotZero(size, end - FIRST_GUID);
    a, i := HALF % size, FIRST_GUID + HALF / size;
    QuotientBelow(HALF, size, end - FIRST_GUID);
    assert Unwrapped(a, size, i) == Unwrapped(0, size, FIRST_GUID) + 1 * HALF by {
      assert size * i == size * FIRST_GUID + size * (HALF / size);
      assert HALF == size * (HALF / size) + HALF % size;
    }
    ModShift(Unwrapped(0, size, FIRST_GUID), 1, HALF);
    SameIdWhen(a, i, false, 0, FIRST_GUID, false, size);
    assert HALF == size * (HALF / size) + a;
  }

  lemma NotZero(m: nat, n: nat)
    requires m * n > 0
    ensures m > 0
  {}

  lemma QuotientBelow(x: nat, m: nat, n: nat)
    requires m > 0 && x < m * n
    ensures x / m < n
  {
    var q := x / m;
    assert x == m * q + x % m;
    if q >= n { Monotone(m, n, q); }
  }

  lemma NotBelow(m: nat, i: nat, a: nat, n: nat)
    requires a < m && m * i + a >= m * n
    ensures i >= n
  {
    if i < n { Monotone(m, i + 1, n); }
  }

  lemma Monotone(m: nat, p: nat, q: nat)
    requires p <= q
    ensures m * p <= m * q
  {}

  lemma InWindow(size: nat, end: nat, a: nat, i: nat)
    requires Drawn(size, end, a, i)
    ensures size * FIRST_GUID < Unwrapped(a, size, i) <= size * end
    ensures size * end == size * FIRST_GUID + size * (end - FIRST_GUID)
  {
    Monotone(size, FIRST_GUID, i);
    Monotone(size, i + 1, end);
    assert size * (i + 1) == size * i + size;
    Split(size, end);
  }

  lemma Split(size: nat, end: nat)
    requires end >= FIRST_GUID
    ensures size * end == size * FIRST_GUID + size * (end - FIRST_GUID)
  {
    assert end == FIRST_GUID + (end - FIRST_GUID);
  }

  lemma FitsApart(size: nat, end: nat, a: nat, i: nat, x: bool, b: nat, j: nat, y: bool)
    requires end >= FIRST_GUID && Fits(size, end) && Drawn(size, end, a, i) && Drawn(size, end, b, j)
    requires IdOf(a, size, i, x) == IdOf(b, size, j, y)
    ensures a == b && i == j && x == y
  {
    SameIdWhen(a, i, x, b, j, y, size);
    InWindow(size, end, a, i);
    InWindow(size, end, b, j);
    CloseAgree(Unwrapped(a, size, i), Unwrapped(b, size, j));
    QuotientsAgree(a, i, b, j, size);
  }

  lemma CloseAgree(g: nat, h: nat)
    requires g % HALF == h % HALF && 0 - HALF < g - h < HALF
    ensures g == h
  {}

  lemma QuotientsAgree(a: nat, i: nat, b: nat, j: nat, size: nat)
    requires a < size && b < size && a + size * i == b + size * j
    ensures a == b && i == j
  {
    DivisionUnique(a + size * i, size, i, a);
    DivisionUnique(b + size * j, size, j, b);
  }

  // ---- The id of the all-zero block ----

  /** No call gets the id 0, which stands for zeros that are not stored. */
  ghost predicate NoneZero(size: nat, end: nat) {
    forall a, i, x {:trigger IdOf(a, size, i, x)} :: Drawn(size, end, a, i) ==> IdOf(a, size, i, x) != 0
  }

  /** No multiple of 2^63 lies among the numbers drawn. */
  predicate SkipsMultiples(size: nat, end: nat) {
    size * end / HALF == size * FIRST_GUID / HALF
  }

  /** No id is zero if and only if no multiple of 2^63 is drawn. */
  lemma NoneZeroIffSkips(size: nat, end: nat)
    requires end >= FIRST_GUID
    ensures NoneZero(size, end) <==> SkipsMultiples(size, end)
  {
    var low, high := size * FIRST_GUID, size * end;
    Split(size, end);
    if SkipsMultiples(size, end) {
      forall a, i, x {:trigger IdOf(a, size, i, x)} | Drawn(size, end, a, i) ensures IdOf(a, size, i, x) != 0 {
        IdIs(Unwrapped(a, size, i), x);
        InWindow(size, end, a, i);
        BetweenMultiples(low, Unwrapped(a, size, i), high);
      }
    } else {
      var a, i := ZeroId(size, end);
      assert IdOf(a, size, i, false) == 0;
    }
  }

  lemma BetweenMultiples(low: nat, g: nat, high: nat)
    requires low < g <= high && low / HALF == high / HALF
    ensures g % HALF != 0
  {}

  /** A multiple of 2^63 among the numbers is drawn by some machine, and gives the id 0. */
  lemma ZeroId(size: nat, end: nat) returns (a: nat, i: nat)
    requires end >= FIRST_GUID && !SkipsMultiples(size, end)
    ensures Drawn(size, end, a, i) && IdOf(a, size, i, false) == 0
  {
    Split(size, end);
    var low, high := size * FIRST_GUID, size * end;
    Grows(low, high);
    NotZero(size, end);
    var m := high / HALF * HALF;
    a, i := (m - 1) % size, (m - 1) / size;
    assert m - 1 == size * i + a;
    QuotientBelow(m - 1, size, end);
    NotBelow(size, i, a, FIRST_GUID);
    DivisionUnique(m, HALF, high / HALF, 0);
    IdIs(m, false);
  }

  lemma Grows(low: nat, high: nat)
    requires low <= high && low / HALF != high / HALF
    ensures low < high / HALF * HALF <= high
  {}

  /** In a cluster of two, the first machine's first id comes again after 2^62 more calls. */
  lemma IdsRepeat()
    ensures IdOf(0, 2, FIRST_GUID, false) == IdOf(0, 2, FIRST_GUID + HALF / 2, false) == 4002
  {
    IdIs(Unwrapped(0, 2, FIRST_GUID), false);
    IdIs(Unwrapped(0, 2, FIRST_GUID + HALF / 2), false);
  }
}
