/** Appending to files from many machines at once: each call draws an id, puts its data under it and then runs an Append
    action (src/fs/calvinfs.cc, AppendStringToFile). A call whose id is never used for a file, or never used at all, may
    draw as well. */
module Appends {
  import opened Numbers
  import opened Paths
  import opened Metadata
  import opened FileBytes
  import opened BlockIds

  /** A call: the machine, its number among the machine's draws, and its arguments. */
  datatype Call = Call(machine: nat, number: nat, path: Path, data: seq<byte>)

  /** How many ids each machine has drawn, counted from 1000; the calls that have drawn one and have not put their
      block; those whose action has not run; and for history all calls, and the actions in their order. */
  datatype State = State(
    counters: seq<nat>,
    waiting: set<Call>,
    put: set<Call>,
    blocks: Blocks,
    store: Store,
    calls: set<Call>,
    acted: seq<(Path, seq<byte>)>)

  datatype Step = Draw(c: Call) | Put(c: Call) | Act(c: Call)

  function BlockOf(size: nat, c: Call): uint64 {
    IdOf(c.machine, size, c.number, |c.data| > 1024)
  }

  function ActionOf(size: nat, c: Call): Input
    requires |c.data| < U64
  {
    Append(c.path, [FilePart(|c.data|, BlockOf(size, c), 0)])
  }

  predicate Enabled(size: nat, s: State, step: Step) {
    |step.c.data| < U64
    && match step
       case Draw(c) => |s.counters| == size && c.machine < size && c.number == s.counters[c.machine]
       case Put(c) => c in s.waiting
       case Act(c) => c in s.put
  }

  function Do(size: nat, s: State, step: Step): State
    requires Enabled(size, s, step)
  {
    match step
    case Draw(c) =>
      s.(counters := s.counters[c.machine := c.number + 1], waiting := s.waiting + {c}, calls := s.calls + {c})
    case Put(c) =>
      s.(waiting := s.waiting - {c}, put := s.put + {c}, blocks := s.blocks[BlockOf(size, c) as int := c.data])
    case Act(c) =>
      s.(put := s.put - {c}, store := Apply(s.store, ActionOf(size, c)), acted := s.acted + [(c.path, c.data)])
  }

  /** Nothing drawn yet; every file's bytes are there. */
  ghost predicate Start(size: nat, s: State) {
    && s.counters == seq(size, _ => FIRST_GUID)
    && s.waiting == s.put == s.calls == {} && s.acted == []
    && forall p {:trigger s.store[p]} :: p in s.store ==> Stored(s.blocks, s.store[p].fileParts)
  }

  /** No block that is there at the start has an id that will be drawn; with no blocks this is so. */
  ghost predicate Unissued(size: nat, end: nat, blocks: Blocks) {
    forall a, i, x {:trigger IdOf(a, size, i, x)} :: Drawn(size, end, a, i) ==> IdOf(a, size, i, x) !in blocks
  }

  ghost predicate IsRun(size: nat, s: State, steps: seq<Step>)
    decreases |steps|
  {
    steps == [] || (Enabled(size, s, steps[0]) && IsRun(size, Do(size, s, steps[0]), steps[1..]))
  }

  ghost function After(size: nat, s: State, steps: seq<Step>): State
    requires IsRun(size, s, steps)
    decreases |steps|
  {
    if steps == [] then s else After(size, Do(size, s, steps[0]), steps[1..])
  }

  predicate Within(s: State, end: nat) {
    forall a {:trigger s.counters[a]} :: 0 <= a < |s.counters| ==> s.counters[a] <= end
  }

  /** What the actions have appended to a file, in their order. */
  function AppendedTo(acted: seq<(Path, seq<byte>)>, p: Path): seq<byte> {
    if acted == [] then [] else
      AppendedTo(acted[..|acted| - 1], p) + if acted[|acted| - 1].0 == p then acted[|acted| - 1].1 else []
  }

  /** A file reads as at the start, followed by what was appended to it; what is not a file is as at the start. */
  ghost predicate ReadsRight(s0: State, s: State, p: Path)
    requires p in s0.store && p in s.store
  {
    if s0.store[p].fileType == DATA then
      && Stored(s.blocks, s.store[p].fileParts)
      && Bytes(s.blocks, s.store[p].fileParts) == Data(Content(s0.blocks,
          s0.store[p].fileParts) + AppendedTo(s.acted, p))
      && s.store[p] == s0.store[p].(fileParts := s.store[p].fileParts)
    else
      Stored(s.blocks, s.store[p].fileParts) && s.store[p] == s0.store[p]
  }

  ghost predicate AllRead(s0: State, s: State) {
    s.store.Keys == s0.store.Keys && forall p {:trigger ReadsRight(s0, s, p)} :: p in s0.store ==> ReadsRight(s0, s, p)
  }

  // ---- The invariant ----

  /** Every block was there at the start or has been put by a call. */
  ghost predicate BlocksFrom(size: nat, s0: State, s: State) {
    forall id {:trigger id in s.blocks} :: id in s.blocks ==>
      id in s0.blocks || exists c :: c in s.calls - s.waiting && BlockOf(size, c) as int == id
  }

  /** Who has drawn what, and which blocks are there. */
  ghost predicate CallsOk(size: nat, s0: State, s: State) {
    && |s.counters| == size && s.waiting <= s.calls && s.put <= s.calls && s.waiting !! s.put
    && (forall a {:trigger s.counters[a]} :: 0 <= a < size ==> s.counters[a] >= FIRST_GUID)
    && (forall c {:trigger c in s.calls} :: c in s.calls ==>
          c.machine < size && FIRST_GUID <= c.number < s.counters[c.machine] && |c.data| < U64)
    && (forall c, d {:trigger c in s.calls, d in s.calls} ::
          c in s.calls && d in s.calls && c.machine == d.machine && c.number == d.number ==> c == d)
    && BlocksFrom(size, s0, s)
    && (forall c {:trigger c in s.put} ::
        c in s.put ==> BlockOf(size, c) in s.blocks && s.blocks[BlockOf(size, c)] == c.data)
  }

  /** The id of a block is odd exactly if it has more than 1024 bytes. */
  lemma OddIfLarge(size: nat, c: Call)
    ensures BlockOf(size, c) % 2 == 1 <==> |c.data| > 1024
  {
    IdIs(Unwrapped(c.machine, size, c.number), |c.data| > 1024);
  }

  /** The bound of the calls: ids are pairwise different and none is 0. */
  predicate Bounded(size: nat, end: nat) {
    end >= FIRST_GUID && Fits(size, end) && SkipsMultiples(size, end)
  }

  lemma DrawnBefore(size: nat, end: nat, s0: State, s: State, c: Call)
    requires CallsOk(size, s0, s) && Within(s, end) && c in s.calls
    ensures Drawn(size, end, c.machine, c.number)
  {
    assert s.counters[c.machine] <= end;
  }

  /** Within the bound, the id of a call about to put its block is not in the block store, and is not 0. */
  lemma NewIdIsFresh(size: nat, end: nat, s0: State, s: State, c: Call)
    requires CallsOk(size, s0, s) && Within(s, end) && Bounded(size, end) && Unissued(size, end, s0.blocks)
    requires Enabled(size, s, Put(c))
    ensures BlockOf(size, c) !in s.blocks && BlockOf(size, c) != 0
  {
    hide Fits, SkipsMultiples, Drawn;
    DifferentIffFits(size, end);
    NoneZeroIffSkips(size, end);
    DrawnBefore(size, end, s0, s, c);
    var id := BlockOf(size, c);
    assert id !in s0.blocks;
    forall d | d in s.calls - s.waiting ensures BlockOf(size, d) != id {
      DrawnBefore(size, end, s0, s, d);
    }
  }

  // ---- Steps ----

  lemma StepCalls(size: nat, end: nat, s0: State, s: State, step: Step)
    requires CallsOk(size, s0, s) && Enabled(size, s, step)
    requires step.Put? ==> BlockOf(size, step.c) !in s.blocks
    ensures CallsOk(size, s0, Do(size, s, step))
  {
    hide BlockOf, BlocksFrom;
    StepBlocks(size, s0, s, step);
  }

  lemma StepBlocks(size: nat, s0: State, s: State, step: Step)
    requires CallsOk(size, s0, s) && Enabled(size, s, step)
    ensures BlocksFrom(size, s0, Do(size, s, step))
  {
    hide BlockOf;
    var t := Do(size, s, step);
    forall id {:trigger id in t.blocks} | id in t.blocks
      ensures id in s0.blocks || exists c :: c in t.calls - t.waiting && BlockOf(size, c) as int == id
    {
      if id !in s0.blocks {
        if id in s.blocks {
          var d :| d in s.calls - s.waiting && BlockOf(size, d) as int == id;
          assert d in t.calls - t.waiting;
        } else {
          assert step.c in t.calls - t.waiting && BlockOf(size, step.c) as int == id;
        }
      }
    }
  }

  lemma PutReads(size: nat, s0: State, s: State, c: Call)
    requires AllRead(s0, s) && Enabled(size, s, Put(c)) && BlockOf(size, c) !in s.blocks
    ensures AllRead(s0, Do(size, s, Put(c)))
  {
    hide BlockOf, Bytes, Stored;
    var t := Do(size, s, Put(c));
    forall p {:trigger ReadsRight(s0, t, p)} | p in s0.store ensures ReadsRight(s0, t, p) {
      assert ReadsRight(s0, s, p);
      FreshBlockHarmless(s.blocks, BlockOf(size, c), c.data, s.store[p].fileParts);
    }
  }

  lemma AppendedMore(acted: seq<(Path, seq<byte>)>, last: (Path, seq<byte>), p: Path)
    ensures AppendedTo(acted + [last], p) == AppendedTo(acted, p) + if last.0 == p then last.1 else []
  {
    assert (acted + [last])[..|acted|] == acted;
  }

  /** What the action does: a file gets one more part. */
  lemma ActedStore(size: nat, s: State, c: Call)
    requires Enabled(size, s, Act(c))
    ensures var t, part := Do(size, s, Act(c)), FilePart(|c.data|, BlockOf(size, c), 0);
      t.store == if c.path in s.store && s.store[c.path].fileType == DATA
                 then s.store[c.path := s.store[c.path].(fileParts := s.store[c.path].fileParts + [part])] else s.store
  {
    hide BlockOf;
  }

  lemma ActReads(size: nat, s0: State, s: State, c: Call)
    requires AllRead(s0, s) && Enabled(size, s, Act(c)) && CallsOk(size, s0, s) && BlockOf(size, c) != 0
    ensures AllRead(s0, Do(size, s, Act(c)))
  {
    ActedStore(size, s, c);
    var t, id := Do(size, s, Act(c)), BlockOf(size, c);
    assert id in s.blocks && s.blocks[id] == c.data;
    hide BlockOf, Bytes, Stored, CallsOk, AppendedTo, Apply, Content;
    forall p {:trigger ReadsRight(s0, t, p)} | p in s0.store ensures ReadsRight(s0, t, p) {
      assert ReadsRight(s0, s, p);
      AppendedMore(s.acted, (c.path, c.data), p);
      ActedFile(s0, s, t, c, id, p);
    }
  }

  lemma ActedFile(s0: State, s: State, t: State, c: Call, id: int, p: Path)
    requires p in s0.store && p in s.store && ReadsRight(s0, s, p) && t.blocks == s.blocks
    requires 0 < id < U64 && |c.data| < U64 && id in s.blocks && s.blocks[id] == c.data
    requires t.store == if c.path in s.store && s.store[c.path].fileType == DATA
                        then
                          var e := s.store[c.path];
                          s.store[c.path := e.(fileParts := e.fileParts + [FilePart(|c.data|, id, 0)])]
                        else s.store
    requires AppendedTo(t.acted, p) == AppendedTo(s.acted, p) + if c.path == p then c.data else []
    ensures ReadsRight(s0, t, p)
  {
    hide Bytes, Stored, AppendedTo;
    if c.path == p && s.store[p].fileType == DATA {
      var old', more := Content(s0.blocks, s0.store[p].fileParts), AppendedTo(s.acted, p);
      AppendedReads(s.blocks, id, c.data, s.store[p].fileParts);
      ContentIs(s.blocks, s.store[p].fileParts);
      assert (old' + more) + c.data == old' + (more + c.data);
    } else {
      assert AppendedTo(s.acted, p) + [] == AppendedTo(s.acted, p);
    }
  }

  ghost predicate Inv(size: nat, s0: State, s: State) {
    CallsOk(size, s0, s) && AllRead(s0, s)
  }

  lemma StartInv(size: nat, s0: State)
    requires Start(size, s0)
    ensures Inv(size, s0, s0)
  {
    hide Bytes, Stored;
    forall p {:trigger ReadsRight(s0, s0, p)} | p in s0.store ensures ReadsRight(s0, s0, p) {
      var parts := s0.store[p].fileParts;
      StoredBytes(s0.blocks, parts);
      ContentIs(s0.blocks, parts);
      assert Content(s0.blocks, parts) + [] == Content(s0.blocks, parts);
      assert AppendedTo(s0.acted, p) == [];
    }
  }

  lemma StepInv(size: nat, end: nat, s0: State, s: State, step: Step)
    requires Inv(size, s0, s) && Enabled(size, s, step) && Within(s, end) && Bounded(size, end)
    requires Unissued(size, end, s0.blocks)
    ensures Inv(size, s0, Do(size, s, step))
  {
    hide CallsOk, AllRead, Bounded, Unissued, BlockOf, Within;
    match step
    case Draw(c) =>
      StepCalls(size, end, s0, s, step);
      SameReads(s0, s, Do(size, s, step));
    case Put(c) =>
      NewIdIsFresh(size, end, s0, s, c);
      StepCalls(size, end, s0, s, step);
      PutReads(size, s0, s, c);
    case Act(c) =>
      StepCalls(size, end, s0, s, step);
      PutIdNotZero(size, end, s0, s, c);
      ActReads(size, s0, s, c);
  }

  lemma SameReads(s0: State, s: State, t: State)
    requires AllRead(s0, s) && t.store == s.store && t.blocks == s.blocks && t.acted == s.acted
    ensures AllRead(s0, t)
  {
    forall p {:trigger ReadsRight(s0, t, p)} | p in s0.store ensures ReadsRight(s0, t, p) {
      assert ReadsRight(s0, s, p);
    }
  }

  lemma PutIdNotZero(size: nat, end: nat, s0: State, s: State, c: Call)
    requires CallsOk(size, s0, s) && Within(s, end) && Bounded(size, end) && c in s.put
    ensures BlockOf(size, c) != 0
  {
    hide Fits, SkipsMultiples, Drawn;
    NoneZeroIffSkips(size, end);
    DrawnBefore(size, end, s0, s, c);
  }

  /** Counters only grow. */
  lemma {:induction false} CountersGrow(size: nat, end: nat, s: State, steps: seq<Step>)
    requires IsRun(size, s, steps) && Within(After(size, s, steps), end)
    ensures Within(s, end)
    decreases |steps|
  {
    if steps != [] {
      hide BlockOf, ActionOf, Apply;
      var t := Do(size, s, steps[0]);
      CountersGrow(size, end, t, steps[1..]);
      forall a {:trigger s.counters[a]} | 0 <= a < |s.counters| ensures s.counters[a] <= end {
        assert s.counters[a] <= t.counters[a];
      }
    }
  }

  lemma {:induction false} RunInv(size: nat, end: nat, s0: State, s: State, steps: seq<Step>)
    requires Inv(size, s0, s) && IsRun(size, s, steps) && Within(After(size, s, steps), end)
    requires Bounded(size, end) && Unissued(size, end, s0.blocks)
    ensures Inv(size, s0, After(size, s, steps))
    decreases |steps|
  {
    if steps != [] {
      hide Inv, Do, Enabled, Within, Bounded, Unissued;
      CountersGrow(size, end, s, steps);
      StepInv(size, end, s0, s, steps[0]);
      RunInv(size, end, s0, Do(size, s, steps[0]), steps[1..]);
    }
  }

  /** In every interleaving of appends within the bound every id put is new, every file reads as its old bytes
      followed by what was appended to it in the order of the actions, and nothing else changes. */
  lemma AppendsNeverDisturb(size: nat, end: nat, s0: State, steps: seq<Step>)
    requires Start(size, s0) && IsRun(size, s0, steps) && Within(After(size, s0, steps), end)
    requires Bounded(size, end) && Unissued(size, end, s0.blocks)
    ensures AllRead(s0, After(size, s0, steps))
    ensures forall c :: Enabled(size, After(size, s0, steps), Put(c)) ==>
              BlockOf(size, c) !in After(size, s0, steps).blocks && BlockOf(size, c) != 0
  {
    hide Start, IsRun, After, Within, Bounded, Unissued, CallsOk, AllRead, BlockOf;
    StartInv(size, s0);
    RunInv(size, end, s0, s0, steps);
    var s := After(size, s0, steps);
    forall c | Enabled(size, s, Put(c)) ensures BlockOf(size, c) !in s.blocks && BlockOf(size, c) != 0 {
      NewIdIsFresh(size, end, s0, s, c);
    }
  }

  // ---- The bound is exact ----

  lemma {:induction false} RunConcat(size: nat, s: State, x: seq<Step>, y: seq<Step>)
    requires IsRun(size, s, x) && IsRun(size, After(size, s, x), y)
    ensures IsRun(size, s, x + y) && After(size, s, x + y) == After(size, After(size, s, x), y)
    decreases |x|
  {
    if x == [] {
      assert x + y == y;
    } else {
      hide Do, Enabled;
      assert (x + y)[0] == x[0] && (x + y)[1..] == x[1..] + y;
      RunConcat(size, Do(size, s, x[0]), x[1..], y);
    }
  }

  lemma OneStep(size: nat, s: State, step: Step)
    requires Enabled(size, s, step)
    ensures IsRun(size, s, [step]) && After(size, s, [step]) == Do(size, s, step)
  {
    hide Do, Enabled;
    assert [step][1..] == [];
    assert IsRun(size, Do(size, s, step), []);
  }

  /** One more step at the end of a run. */
  lemma Further(size: nat, s: State, x: seq<Step>, step: Step) returns (y: seq<Step>)
    requires IsRun(size, s, x) && Enabled(size, After(size, s, x), step)
    ensures IsRun(size, s, y) && After(size, s, y) == Do(size, After(size, s, x), step)
  {
    hide IsRun, After, Do, Enabled;
    OneStep(size, After(size, s, x), step);
    RunConcat(size, s, x, [step]);
    y := x + [step];
  }

  /** What drawing without using the ids changes. */
  ghost predicate OnlyDrew(s: State, t: State, a: nat, i: nat)
    requires a < |s.counters|
  {
    t.counters == s.counters[a := i] && t.blocks == s.blocks && t.store == s.store && t.acted == s.acted
  }

  lemma {:induction false} DrawUpTo(size: nat, s0: State, s: State, x: seq<Step>, a: nat, i: nat) returns (y: seq<Step>)
    requires IsRun(size, s0, x) && After(size, s0, x) == s
    requires |s.counters| == size && a < size && s.counters[a] <= i
    ensures IsRun(size, s0, y) && OnlyDrew(s, After(size, s0, y), a, i)
    decreases i - s.counters[a]
  {
    if s.counters[a] == i {
      y := x;
      assert s.counters[a := i] == s.counters;
    } else {
      hide IsRun, After;
      var c := Call(a, s.counters[a], "", []);
      var z := Further(size, s0, x, Draw(c));
      var t := Do(size, s, Draw(c));
      y := DrawUpTo(size, s0, t, z, a, i);
      assert t.counters[a := i] == s.counters[a := i];
    }
  }

  const PATH: Path := "/f"

  function EmptyFile(): MetadataEntry {
    MetadataEntry(Permissions(0, 0, ""), DATA, [], [])
  }

  /** A cluster with one empty file. */
  function OneFile(size: nat): State {
    State(seq(size, _ => FIRST_GUID), {}, {}, map[], map[PATH := EmptyFile()], {}, [])
  }

  lemma OneFileStarts(size: nat, end: nat)
    ensures Start(size, OneFile(size)) && Unissued(size, end, OneFile(size).blocks)
  {}

  /** A file of one part of length 1 to which [1] was appended, whose block is the zero block or holds [2]. */
  lemma Misread(size: nat, t: State, id: uint64)
    requires t.store == map[PATH := EmptyFile().(fileParts := [FilePart(1, id, 0)])] && t.acted == [(PATH, [1])]
    requires id == 0 || (id in t.blocks && t.blocks[id] == [2])
    ensures !AllRead(OneFile(size), t)
  {
    var parts := t.store[PATH].fileParts;
    OnePart(t.blocks, parts[0]);
    assert parts == [parts[0]];
    AppendedMore([], (PATH, [1]), PATH);
    assert [] + [(PATH, [1])] == [(PATH, [1 as byte])];
    assert AppendedTo(t.acted, PATH) == [1];
    assert Content(OneFile(size).blocks, OneFile(size).store[PATH].fileParts) == [];
    assert PartBytes(t.blocks, parts[0]).bytes[0] != 1;
    assert !ReadsRight(OneFile(size), t, PATH);
  }

  ghost predicate RunOk(size: nat, end: nat, s0: State, steps: seq<Step>) {
    Start(size, s0) && Unissued(size, end, s0.blocks) && IsRun(size, s0, steps) && Within(After(size, s0, steps), end)
    ==> AllRead(s0, After(size, s0, steps))
  }

  /** Every run in which no machine draws past end reads right, whatever the files and blocks at the start. */
  ghost predicate AlwaysReadsRight(size: nat, end: nat) {
    forall s0, steps {:trigger RunOk(size, end, s0, steps)} :: RunOk(size, end, s0, steps)
  }

  /** A call of machine a with number i: draw, put and act, after a run in which the machine had not drawn so far. */
  lemma Whole(size: nat, s0: State, x: seq<Step>, c: Call) returns (y: seq<Step>)
    requires IsRun(size, s0, x) && |c.data| < U64
    requires var s := After(size, s0, x); |s.counters| == size && c.machine < size && s.counters[c.machine] <= c.number
    ensures IsRun(size, s0, y)
    ensures var s, t := After(size, s0, x), After(size, s0, y);
      && t.counters == s.counters[c.machine := c.number + 1]
      && t.blocks == s.blocks[BlockOf(size, c) as int := c.data]
      && t.store == Apply(s.store, ActionOf(size, c)) && t.acted == s.acted + [(c.path, c.data)]
  {
    hide IsRun, After, BlockOf, ActionOf, Apply;
    var s := After(size, s0, x);
    y := DrawUpTo(size, s0, s, x, c.machine, c.number);
    assert s.counters[c.machine := c.number][c.machine := c.number + 1] == s.counters[c.machine := c.number + 1];
    y := Further(size, s0, y, Draw(c));
    y := Further(size, s0, y, Put(c));
    y := Further(size, s0, y, Act(c));
  }

  /** The same without the action. */
  lemma Half(size: nat, s0: State, x: seq<Step>, c: Call) returns (y: seq<Step>)
    requires IsRun(size, s0, x) && |c.data| < U64
    requires var s := After(size, s0, x); |s.counters| == size && c.machine < size && s.counters[c.machine] <= c.number
    ensures IsRun(size, s0, y)
    ensures var s, t := After(size, s0, x), After(size, s0, y);
      && t.counters == s.counters[c.machine := c.number + 1]
      && t.blocks == s.blocks[BlockOf(size, c) as int := c.data] && t.store == s.store && t.acted == s.acted
  {
    hide IsRun, After, BlockOf;
    var s := After(size, s0, x);
    y := DrawUpTo(size, s0, s, x, c.machine, c.number);
    assert s.counters[c.machine := c.number][c.machine := c.number + 1] == s.counters[c.machine := c.number + 1];
    y := Further(size, s0, y, Draw(c));
    y := Further(size, s0, y, Put(c));
  }

  lemma FirstAppend(size: nat, c: Call)
    requires c.path == PATH && |c.data| == 1
    ensures Apply(OneFile(size).store,
        ActionOf(size, c)) == map[PATH := EmptyFile().(fileParts := [FilePart(1, BlockOf(size, c), 0)])]
  {
    hide BlockOf;
    assert [] + [FilePart(1, BlockOf(size, c), 0)] == [FilePart(1, BlockOf(size, c), 0)];
  }

  /** When some number drawn gives the id 0, its file reads as zeros. */
  lemma ZeroMisread(size: nat, end: nat) returns (steps: seq<Step>)
    requires end >= FIRST_GUID && !SkipsMultiples(size, end)
    ensures !RunOk(size, end, OneFile(size), steps)
  {
    hide IsRun, After, AllRead, BlockOf, IdOf, SkipsMultiples, ActionOf, Apply, Start, Unissued;
    var a, i := ZeroId(size, end);
    var s0, c := OneFile(size), Call(a, i, PATH, [1]);
    OneFileStarts(size, end);
    assert IsRun(size, s0, []) && After(size, s0, []) == s0 by { NoSteps(size, s0); }
    steps := Whole(size, s0, [], c);
    FirstAppend(size, c);
    var t := After(size, s0, steps);
    assert BlockOf(size, c) == 0 by { BlockIs(size, c); }
    assert [] + [(PATH, [1 as byte])] == [(PATH, [1 as byte])];
    Misread(size, t, 0);
  }

  lemma NoSteps(size: nat, s: State)
    ensures IsRun(size, s, []) && After(size, s, []) == s
  {}

  lemma BlockIs(size: nat, c: Call)
    requires |c.data| <= 1024
    ensures BlockOf(size, c) == IdOf(c.machine, size, c.number, false)
  {}

  /** When two numbers drawn give one id, the second block overwrites the first file's. */
  lemma TwinMisread(size: nat, end: nat) returns (steps: seq<Step>)
    requires end >= FIRST_GUID && !Fits(size, end)
    ensures !RunOk(size, end, OneFile(size), steps)
  {
    hide IsRun, After, AllRead, BlockOf, IdOf, ActionOf, Apply, Start, Unissued, Fits;
    var a, i := Twin(size, end);
    var s0, c, d := OneFile(size), Call(0, FIRST_GUID, PATH, [1]), Call(a, i, PATH, [2]);
    OneFileStarts(size, end);
    NoSteps(size, s0);
    var first := Whole(size, s0, [], c);
    FirstAppend(size, c);
    BlockIs(size, c);
    BlockIs(size, d);
    steps := Half(size, s0, first, d);
    var t := After(size, s0, steps);
    assert [] + [(PATH, [1 as byte])] == [(PATH, [1 as byte])];
    Misread(size, t, BlockOf(size, c));
  }

  /** Appending is safe in every run of a cluster if and only if its machines stay within the bound. */
  lemma SafeIffBounded(size: nat, end: nat)
    requires end >= FIRST_GUID
    ensures AlwaysReadsRight(size, end) <==> Bounded(size, end)
  {
    hide Fits, SkipsMultiples, Start, Unissued, IsRun, After, Within, AllRead;
    if Bounded(size, end) {
      forall s0, steps {:trigger RunOk(size, end, s0, steps)} ensures RunOk(size, end, s0, steps) {
        if Start(size, s0) && Unissued(size, end, s0.blocks) && IsRun(size, s0, steps) &&
            Within(After(size, s0, steps), end) {
          AppendsNeverDisturb(size, end, s0, steps);
        }
      }
    } else if Fits(size, end) {
      var steps := ZeroMisread(size, end);
      assert !RunOk(size, end, OneFile(size), steps);
    } else {
      var steps := TwinMisread(size, end);
      assert !RunOk(size, end, OneFile(size), steps);
    }
  }
}
