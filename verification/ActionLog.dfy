/** Actions, blocks and the ordered log of blocks, and what replaying that log means (src_lowlatency/fs/block_log.h,
    src_lowlatency/proto/action.proto). The original system is the case with one origin and no fake actions. */
module ActionLog {
  import opened Numbers
  import opened Collections
  import opened Paths
  import opened Metadata
  import opened DistributedExecution

  datatype Client = Client(machine: nat, channel: string)

  datatype Action = Action(
    id: nat,
    input: Input,
    readset: seq<Path>,
    writeset: seq<Path>,
    client: Option<Client>,
    origin: nat,
    offset: nat,
    version: uint64,
    single: bool,
    involved: seq<nat>,
    fake: bool,
    generated: bool)

  /** In the log: a block id and how many versions the block takes. Read from it: a block id and its first version. */
  datatype Pair = Pair(first: nat, second: nat)

  datatype PairSequence = PairSequence(misc: nat, pairs: seq<Pair>)

  // ---- Machine integers ----

  function ToI32(x: int): int {
    (x + 0x8000_0000) % 0x1_0000_0000 - 0x8000_0000
  }

  function ToU64(x: int): uint64 {
    x % U64
  }

  /** Versions are kept in a C++ int on their way from the log to the action: what survives. */
  lemma IntKeepsVersion(v: uint64)
    ensures ToU64(ToI32(v)) == v <==> v < 0x8000_0000 || U64 - 0x8000_0000 <= v
  {}

  lemma ToI32Wraps(x: int, s: int)
    ensures ToI32(ToU64(ToI32(x)) + s) == ToI32(x + s)
  {
    var k := (x + 0x8000_0000) / 0x1_0000_0000;
    assert ToI32(x) == x - k * 0x1_0000_0000;
    var j := ToI32(x) / U64;
    assert ToU64(ToI32(x)) == ToI32(x) - j * U64;
    var d := k + j * 0x1_0000_0000;
    assert ToU64(ToI32(x)) + s == x + s - d * 0x1_0000_0000;
    ModShift(x + s + 0x8000_0000, d);
  }

  lemma ModShift(a: int, d: int)
    ensures (a - d * 0x1_0000_0000) % 0x1_0000_0000 == a % 0x1_0000_0000
  {}

  // ---- Blocks ----

  function Touches(owner: Path -> Participant, a: Action, p: Participant): bool {
    (exists i :: 0 <= i < |a.readset| && owner(a.readset[i]) == p) || (exists i ::
        0 <= i < |a.writeset| && owner(a.writeset[i]) == p)
  }

  /** Whether machine m replays action a from the log of a's origin. */
  predicate Replays(owner: Path -> Participant, m: nat, a: Action) {
    !a.fake && Touches(owner, a, Participant(m, a.origin))
  }

  function ReplaysOf(owner: Path -> Participant, m: nat): Action -> bool {
    (a: Action) => Replays(owner, m, a)
  }

  function Executed(block: seq<Action>): seq<Action> {
    Filter(block, (a: Action) => !a.fake)
  }

  /** The part of a block that goes to machine m. */
  function SubBatch(owner: Path -> Participant, m: nat, block: seq<Action>): seq<Action> {
    Filter(block, ReplaysOf(owner, m))
  }

  function ExecutedOf(block: nat -> seq<Action>): nat -> seq<Action> {
    (id: nat) => Executed(block(id))
  }

  function SubBatchOf(owner: Path -> Participant, m: nat, block: nat -> seq<Action>): nat -> seq<Action> {
    (id: nat) => SubBatch(owner, m, block(id))
  }

  /** A block as its machine stores it: fakes take no offset, and all get the origin. */
  function Stamp(queue: seq<Action>, origin: nat, k: nat): (r: seq<Action>)
    ensures |r| == |queue|
  {
    if queue == [] then [] else
      var a := queue[0].(origin := origin);
      [if a.fake then a else a.(offset := k)] + Stamp(queue[1..], origin, if a.fake then k else k + 1)
  }

  lemma {:induction false} StampConcat(q: seq<Action>, r: seq<Action>, origin: nat, k: nat)
    ensures Stamp(q + r, origin, k) == Stamp(q, origin, k) + Stamp(r, origin, k + |Executed(q)|)
  {
    if q == [] {
      assert q + r == r;
    } else {
      assert (q + r)[1..] == q[1..] + r;
      StampConcat(q[1..], r, origin, if q[0].fake then k else k + 1);
    }
  }

  /** Stamping changes nothing but the origin and, of an action that is not fake, the offset, which becomes the number
      of such actions before it. */
  lemma {:induction false} StampIs(queue: seq<Action>, origin: nat, k: nat, i: nat)
    requires i < |queue|
    ensures Stamp(queue, origin, k)[i] == queue[i].(origin := origin,
      offset := if queue[i].fake then queue[i].offset else k + |Executed(queue[..i])|)
  {
    if i > 0 {
      StampIs(queue[1..], origin, if queue[0].fake then k else k + 1, i - 1);
      assert queue[..i] == [queue[0]] + queue[1..][..i - 1];
      FilterHead(queue[0], queue[1..][..i - 1], (a: Action) => !a.fake);
    }
  }

  /** The executed actions of a stamped block carry the offsets k, k + 1, ... in order. */
  lemma {:induction false} StampNumbers(queue: seq<Action>, origin: nat, k: nat)
    ensures |Executed(Stamp(queue, origin, k))| == |Executed(queue)|
    ensures forall i ::
        0 <= i < |Executed(queue)| ==>
            Executed(Stamp(queue, origin, k))[i] == Executed(queue)[i].(origin := origin, offset := k + i)
  {
    if queue != [] {
      StampNumbers(queue[1..], origin, if queue[0].fake then k else k + 1);
    }
  }

  // ---- Replaying ----

  /** The pairs a sequence yields when the running version is the C++ int offset. */
  function PairsFrom(pairs: seq<Pair>, offset: int): seq<Pair> {
    if pairs == [] then [] else
      [Pair(pairs[0].first, ToU64(offset))] + PairsFrom(pairs[1..], ToI32(ToU64(offset) + pairs[0].second))
  }

  function AllPairs(log: seq<PairSequence>): seq<Pair> {
    if log == [] then [] else PairsFrom(log[0].pairs, ToI32(log[0].misc)) + AllPairs(log[1..])
  }

  lemma {:induction false} AllPairsConcat(l: seq<PairSequence>, r: seq<PairSequence>)
    ensures AllPairs(l + r) == AllPairs(l) + AllPairs(r)
  {
    if l == [] {
      assert l + r == r;
    } else {
      hide PairsFrom;
      AllPairsConcat(l[1..], r);
      HeadTail(l, r);
      Associate(PairsFrom(l[0].pairs, ToI32(l[0].misc)), AllPairs(l[1..]), AllPairs(r));
    }
  }

  function Versioned(a: Action, base: nat): Action {
    a.(version := (base + a.offset) % U64, offset := 0)
  }

  function Emit(sub: seq<Action>, base: nat): (r: seq<Action>)
    ensures |r| == |sub|
  {
    if sub == [] then [] else [Versioned(sub[0], base)] + Emit(sub[1..], base)
  }

  /** What the blocks of some pairs give, in their order. */
  function Replay(content: nat -> seq<Action>, pairs: seq<Pair>): seq<Action> {
    if pairs == [] then [] else Emit(content(pairs[0].first), pairs[0].second) + Replay(content, pairs[1..])
  }

  lemma {:induction false} ReplayConcat(content: nat -> seq<Action>, p: seq<Pair>, q: seq<Pair>)
    ensures Replay(content, p + q) == Replay(content, p) + Replay(content, q)
  {
    if p == [] {
      assert p + q == q;
    } else {
      hide Emit;
      ReplayConcat(content, p[1..], q);
      HeadTail(p, q);
      Associate(Emit(content(p[0].first), p[0].second), Replay(content, p[1..]), Replay(content, q));
    }
  }

  /** The whole log as one sequence of actions: what a machine that everything touches would replay. */
  function Whole(block: nat -> seq<Action>, log: seq<PairSequence>): seq<Action> {
    Replay(ExecutedOf(block), AllPairs(log))
  }

  function Shard(owner: Path -> Participant, m: nat, block: nat -> seq<Action>, log: seq<PairSequence>): seq<Action> {
    Replay(SubBatchOf(owner, m, block), AllPairs(log))
  }

  lemma EmitHead(a: Action, s: seq<Action>, base: nat)
    ensures Emit([a] + s, base) == [Versioned(a, base)] + Emit(s, base)
  {
    HeadTail([a], s);
  }

  lemma {:induction false} EmitFiltered(s: seq<Action>, base: nat, p: Action -> bool)
    requires forall a, b: nat {:trigger p(Versioned(a, b))} :: p(Versioned(a, b)) == p(a)
    ensures Emit(Filter(s, p), base) == Filter(Emit(s, base), p)
  {
    if s != [] {
      hide Versioned;
      EmitFiltered(s[1..], base, p);
      var a := s[0];
      assert p(Versioned(a, base)) == p(a);
      EmitHead(a, Filter(s[1..], p), base);
      FilterHead(Versioned(a, base), Emit(s[1..], base), p);
      assert Emit(s, base) == [Versioned(a, base)] + Emit(s[1..], base);
      if p(a) {
        assert Filter(s, p) == [a] + Filter(s[1..], p);
      } else {
        assert Filter(s, p) == Filter(s[1..], p);
      }
    }
  }

  lemma {:induction false} ReplayFiltered(owner: Path -> Participant, m: nat, block: nat -> seq<Action>,
                                          pairs: seq<Pair>)
    ensures Replay(SubBatchOf(owner, m, block), pairs)
         == Filter(Replay(ExecutedOf(block), pairs), ReplaysOf(owner, m))
  {
    if pairs != [] {
      hide Emit, Replays;
      var p := ReplaysOf(owner, m);
      var b := block(pairs[0].first);
      ReplayFiltered(owner, m, block, pairs[1..]);
      SubBatchIsFiltered(owner, m, b);
      forall a: Action, k: nat ensures p(Versioned(a, k)) == p(a) { ReplaysAlike(owner, m, a, k); }
      EmitFiltered(Executed(b), pairs[0].second, p);
      FilterConcat(Emit(Executed(b), pairs[0].second), Replay(ExecutedOf(block), pairs[1..]), p);
    }
  }

  lemma SubBatchIsFiltered(owner: Path -> Participant, m: nat, b: seq<Action>)
    ensures SubBatch(owner, m, b) == Filter(Executed(b), ReplaysOf(owner, m))
  {
    hide Touches;
    var p := ReplaysOf(owner, m);
    FilterFilter(b, (a: Action) => !a.fake, p, p);
  }

  lemma ReplaysAlike(owner: Path -> Participant, m: nat, a: Action, k: nat)
    ensures Replays(owner, m, Versioned(a, k)) == Replays(owner, m, a)
  {
    hide Touches;
    TouchesAlike(owner, a, k);
  }

  lemma TouchesAlike(owner: Path -> Participant, a: Action, k: nat)
    ensures forall p :: Touches(owner, Versioned(a, k), p) == Touches(owner, a, p)
  {}

  /** A shard replays exactly the log filtered to the actions that touch it, in log order. */
  lemma ShardIsFilteredLog(owner: Path -> Participant, m: nat, block: nat -> seq<Action>, log: seq<PairSequence>)
    ensures Shard(owner, m, block, log) == Filter(Whole(block, log), ReplaysOf(owner, m))
  {
    ReplayFiltered(owner, m, block, AllPairs(log));
  }

  // ---- Replaying changes nothing but version and offset ----

  /** The entries of some blocks, in order. */
  function Entries(content: nat -> seq<Action>, ids: seq<nat>): seq<Action> {
    if ids == [] then [] else content(ids[0]) + Entries(content, ids[1..])
  }

  lemma {:induction false} EntriesConcat(content: nat -> seq<Action>, p: seq<nat>, q: seq<nat>)
    ensures Entries(content, p + q) == Entries(content, p) + Entries(content, q)
  {
    if p == [] {
      assert p + q == q;
    } else {
      EntriesConcat(content, p[1..], q);
      HeadTail(p, q);
      Associate(content(p[0]), Entries(content, p[1..]), Entries(content, q));
    }
  }

  function Firsts(s: seq<Pair>): (r: seq<nat>)
    ensures |r| == |s| && forall i {:trigger r[i]} :: 0 <= i < |s| ==> r[i] == s[i].first
  {
    if s == [] then [] else [s[0].first] + Firsts(s[1..])
  }

  /** The blocks of a log, in its order. */
  function LogIds(log: seq<PairSequence>): seq<nat> {
    if log == [] then [] else Firsts(log[0].pairs) + LogIds(log[1..])
  }

  /** The executed actions of the blocks of a log, as the blocks have them, that machine m replays. */
  function EntriesFor(owner: Path -> Participant, m: nat, block: nat -> seq<Action>, log: seq<PairSequence>):
    seq<Action>
  {
    Filter(Entries(block, LogIds(log)), ReplaysOf(owner, m))
  }

  /** The actions of e in their order, each with some version in place of its offset. */
  predicate VersionsOf(r: seq<Action>, e: seq<Action>) {
    |r| == |e| && forall i {:trigger r[i]} :: 0 <= i < |r| ==> r[i] == e[i].(version := r[i].version, offset := 0)
  }

  lemma VersionsConcat(r: seq<Action>, e: seq<Action>, r': seq<Action>, e': seq<Action>)
    requires VersionsOf(r, e) && VersionsOf(r', e')
    ensures VersionsOf(r + r', e + e')
  {
    forall i {:trigger (r + r')[i]} | 0 <= i < |r + r'|
      ensures (r + r')[i] == (e + e')[i].(version := (r + r')[i].version, offset := 0)
    {
      if i < |r| {
        assert (r + r')[i] == r[i] && (e + e')[i] == e[i];
      } else {
        assert (r + r')[i] == r'[i - |r|] && (e + e')[i] == e'[i - |r|];
      }
    }
  }

  lemma {:induction false} EmitVersions(sub: seq<Action>, base: nat)
    ensures VersionsOf(Emit(sub, base), sub)
  {
    if sub != [] {
      EmitVersions(sub[1..], base);
      assert VersionsOf([Versioned(sub[0], base)], [sub[0]]);
      VersionsConcat([Versioned(sub[0], base)], [sub[0]], Emit(sub[1..], base), sub[1..]);
      assert [sub[0]] + sub[1..] == sub;
    }
  }

  lemma {:induction false} ReplayVersions(content: nat -> seq<Action>, pairs: seq<Pair>)
    ensures VersionsOf(Replay(content, pairs), Entries(content, Firsts(pairs)))
  {
    if pairs != [] {
      hide VersionsOf, Emit;
      var p := pairs[0];
      ReplayVersions(content, pairs[1..]);
      EmitVersions(content(p.first), p.second);
      VersionsConcat(Emit(content(p.first), p.second), content(p.first), Replay(content, pairs[1..]),
        Entries(content, Firsts(pairs[1..])));
      assert Firsts(pairs)[1..] == Firsts(pairs[1..]);
    }
  }

  lemma {:induction false} PairsFromIds(pairs: seq<Pair>, offset: int)
    ensures Firsts(PairsFrom(pairs, offset)) == Firsts(pairs)
  {
    if pairs != [] {
      hide ToI32, ToU64;
      var next := ToI32(ToU64(offset) + pairs[0].second);
      PairsFromIds(pairs[1..], next);
      PairsFromHead(pairs, offset);
      assert PairsFrom(pairs, offset)[1..] == PairsFrom(pairs[1..], next);
    }
  }

  lemma FirstsConcat(p: seq<Pair>, q: seq<Pair>)
    ensures Firsts(p + q) == Firsts(p) + Firsts(q)
  {}

  lemma {:induction false} AllPairsIds(log: seq<PairSequence>)
    ensures Firsts(AllPairs(log)) == LogIds(log)
  {
    if log != [] {
      hide Firsts, PairsFrom, ToI32;
      AllPairsIds(log[1..]);
      PairsFromIds(log[0].pairs, ToI32(log[0].misc));
      FirstsConcat(PairsFrom(log[0].pairs, ToI32(log[0].misc)), AllPairs(log[1..]));
    }
  }

  lemma {:induction false} EntriesFiltered(owner: Path -> Participant, m: nat, block: nat -> seq<Action>,
                                           ids: seq<nat>)
    ensures Entries(SubBatchOf(owner, m, block), ids) == Filter(Entries(block, ids), ReplaysOf(owner, m))
  {
    if ids != [] {
      hide Filter;
      EntriesFiltered(owner, m, block, ids[1..]);
      FilterConcat(block(ids[0]), Entries(block, ids[1..]), ReplaysOf(owner, m));
    } else {
      assert Entries(block, ids) == [];
    }
  }

  /** What a shard replays is what the blocks say, in their order, and of every action only version and offset are
      changed. */
  lemma ShardIsEntries(owner: Path -> Participant, m: nat, block: nat -> seq<Action>, log: seq<PairSequence>)
    ensures VersionsOf(Shard(owner, m, block, log), EntriesFor(owner, m, block, log))
  {
    hide VersionsOf, Replay, Entries, Firsts, AllPairs, Filter;
    ReplayVersions(SubBatchOf(owner, m, block), AllPairs(log));
    AllPairsIds(log);
    EntriesFiltered(owner, m, block, LogIds(log));
  }

  // ---- Versions ----

  /** Every pair counts the executed actions of its block, which are numbered from 0. */
  predicate PairOk(block: nat -> seq<Action>, p: Pair) {
    var e := Executed(block(p.first));
    p.second == |e| && forall i :: 0 <= i < |e| ==> e[i].offset == i
  }

  predicate PairsOk(block: nat -> seq<Action>, pairs: seq<Pair>) {
    forall i :: 0 <= i < |pairs| ==> PairOk(block, pairs[i])
  }

  function Count(pairs: seq<Pair>): nat {
    if pairs == [] then 0 else pairs[0].second + Count(pairs[1..])
  }

  /** The consensus leader numbers its sequences without gaps. */
  predicate Numbered(block: nat -> seq<Action>, log: seq<PairSequence>, base: nat) {
    log == [] || (PairsOk(block, log[0].pairs) && log[0].misc == base &&
        Numbered(block, log[1..], base + Count(log[0].pairs)))
  }

  function Total(log: seq<PairSequence>): nat {
    if log == [] then 0 else Count(log[0].pairs) + Total(log[1..])
  }

  /** The version survives the way from the log to the action. */
  predicate Kept(v: nat) {
    v < 0x8000_0000 || U64 - 0x8000_0000 <= v < U64
  }

  /** The first version of the block that holds the i-th action, when the pairs begin at v. */
  function StartIn(pairs: seq<Pair>, v: nat, i: nat): nat
    requires i < Count(pairs)
  {
    if i < pairs[0].second then v else StartIn(pairs[1..], v + pairs[0].second, i - pairs[0].second)
  }

  /** The same for a whole log. */
  function StartOf(log: seq<PairSequence>, base: nat, i: nat): nat
    requires i < Total(log)
  {
    var n := Count(log[0].pairs);
    if i < n then StartIn(log[0].pairs, base, i) else StartOf(log[1..], base + n, i - n)
  }

  lemma {:induction false} EmitAt(sub: seq<Action>, base: nat, i: nat)
    requires i < |sub|
    ensures Emit(sub, base)[i] == Versioned(sub[i], base)
  {
    hide Versioned;
    if i > 0 {
      EmitAt(sub[1..], base, i - 1);
    }
  }

  /** An action of a block that begins at v gets the right version if and only if v survives and 64 bits hold it. */
  lemma SurvivesIffKept(a: Action, v: nat)
    ensures Versioned(a, ToU64(ToI32(v))).version == v + a.offset <==> Kept(v) && v + a.offset < U64
  {
    if v < U64 {
      IntKeepsVersion(v);
    }
    hide ToU64, ToI32;
  }

  predicate VersionOk(a: Action, start: nat, place: nat) {
    a.version == place <==> Kept(start) && place < U64
  }

  /** The replay of pairs that begin at v has the right length, and its i-th action a version as said. */
  predicate RightAt(r: seq<Action>, pairs: seq<Pair>, v: nat, i: nat) {
    |r| == Count(pairs) && (i < |r| ==> VersionOk(r[i], StartIn(pairs, v, i), v + i))
  }

  lemma {:induction false} PairsAt(block: nat -> seq<Action>, pairs: seq<Pair>, v: nat, i: nat)
    requires PairsOk(block, pairs)
    ensures RightAt(Replay(ExecutedOf(block), PairsFrom(pairs, ToI32(v))), pairs, v, i)
    decreases |pairs|
  {
    hide *;
    if pairs == [] {
      NoPairs(block, v, i);
    } else {
      PairOkAt(block, pairs);
      var n := pairs[0].second;
      BlockAt(block, pairs[0], v, i);
      PairsHead(block, pairs, v);
      PairsAt(block, pairs[1..], v + n, if i < n then 0 else i - n);
      Joined(Emit(Executed(block(pairs[0].first)), ToU64(ToI32(v))),
        Replay(ExecutedOf(block), PairsFrom(pairs[1..], ToI32(v + n))), pairs, v, i);
    }
  }

  lemma NoPairs(block: nat -> seq<Action>, v: nat, i: nat)
    ensures RightAt(Replay(ExecutedOf(block), PairsFrom([], ToI32(v))), [], v, i)
  {}

  lemma Joined(x: seq<Action>, y: seq<Action>, pairs: seq<Pair>, v: nat, i: nat)
    requires pairs != [] && |x| == pairs[0].second && (i < |x| ==> VersionOk(x[i], v, v + i))
    requires RightAt(y, pairs[1..], v + pairs[0].second, if i < |x| then 0 else i - |x|)
    ensures RightAt(x + y, pairs, v, i)
  {
    hide VersionOk;
  }

  lemma BlockAt(block: nat -> seq<Action>, p: Pair, v: nat, i: nat)
    requires PairOk(block, p)
    ensures var x := Emit(Executed(block(p.first)), ToU64(ToI32(v)));
      |x| == p.second && (i < |x| ==> VersionOk(x[i], v, v + i))
  {
    hide Executed, Kept, ToU64, ToI32, Versioned, Emit;
    ghost var e := Executed(block(p.first));
    if i < |e| {
      EmitAt(e, ToU64(ToI32(v)), i);
      SurvivesIffKept(e[i], v);
    }
  }

  /** The first block of the pairs and the rest, whose version has passed through the int. */
  lemma PairsHead(block: nat -> seq<Action>, pairs: seq<Pair>, v: nat)
    requires pairs != []
    ensures Replay(ExecutedOf(block), PairsFrom(pairs, ToI32(v)))
         == Emit(Executed(block(pairs[0].first)), ToU64(ToI32(v)))
            + Replay(ExecutedOf(block), PairsFrom(pairs[1..], ToI32(v + pairs[0].second)))
  {
    hide PairsFrom, Executed, ExecutedOf, Replay, Emit, ToU64, ToI32;
    FirstPair(pairs, v);
    ExecutedAt(block, pairs[0].first);
    var rest := PairsFrom(pairs[1..], ToI32(v + pairs[0].second));
    ReplayHead(ExecutedOf(block), Pair(pairs[0].first, ToU64(ToI32(v))), rest);
  }

  lemma FirstPair(pairs: seq<Pair>, v: nat)
    requires pairs != []
    ensures PairsFrom(pairs, ToI32(v))
         == [Pair(pairs[0].first, ToU64(ToI32(v)))] + PairsFrom(pairs[1..], ToI32(v + pairs[0].second))
  {
    hide PairsFrom, ToU64, ToI32;
    PairsFromHead(pairs, ToI32(v));
    ToI32Wraps(v, pairs[0].second);
  }

  lemma PairsFromHead(pairs: seq<Pair>, offset: int)
    requires pairs != []
    ensures PairsFrom(pairs, offset)
         == [Pair(pairs[0].first, ToU64(offset))] + PairsFrom(pairs[1..], ToI32(ToU64(offset) + pairs[0].second))
  {
    hide ToU64, ToI32;
  }

  lemma ExecutedAt(block: nat -> seq<Action>, id: nat)
    ensures ExecutedOf(block)(id) == Executed(block(id))
  {}

  lemma ReplayHead(content: nat -> seq<Action>, p: Pair, rest: seq<Pair>)
    ensures Replay(content, [p] + rest) == Emit(content(p.first), p.second) + Replay(content, rest)
  {
    assert ([p] + rest)[1..] == rest;
  }

  lemma PairOkAt(block: nat -> seq<Action>, pairs: seq<Pair>)
    requires PairsOk(block, pairs) && pairs != []
    ensures PairOk(block, pairs[0]) && PairsOk(block, pairs[1..])
  {}

  predicate LogRightAt(r: seq<Action>, log: seq<PairSequence>, base: nat, i: nat) {
    |r| == Total(log) && (i < |r| ==> VersionOk(r[i], StartOf(log, base, i), base + i))
  }

  /** An action's version is its place in the whole log, counted from the base, if and only if the first version of its
      block survives the int and the place fits 64 bits. */
  lemma VersionIsPlace(block: nat -> seq<Action>, log: seq<PairSequence>, base: nat, i: nat)
    requires Numbered(block, log, base)
    ensures |Whole(block, log)| == Total(log)
    ensures i < Total(log) ==>
        (Whole(block, log)[i].version == base + i <==> Kept(StartOf(log, base, i)) && base + i < U64)
  {
    hide Whole, Total, StartOf, Kept;
    PlaceInLog(block, log, base, i);
  }

  lemma {:induction false} PlaceInLog(block: nat -> seq<Action>, log: seq<PairSequence>, base: nat, i: nat)
    requires Numbered(block, log, base)
    ensures LogRightAt(Whole(block, log), log, base, i)
    decreases |log|
  {
    hide *;
    if log == [] {
      NoLog(block, base, i);
    } else {
      LogHead(block, log, base);
      var n := Count(log[0].pairs);
      PairsAt(block, log[0].pairs, base, i);
      PlaceInLog(block, log[1..], base + n, if i < n then 0 else i - n);
      WholeHead(block, log, base);
      var head := Replay(ExecutedOf(block), PairsFrom(log[0].pairs, ToI32(base)));
      LogJoined(head, Whole(block, log[1..]), log, base, i);
    }
  }

  lemma NoLog(block: nat -> seq<Action>, base: nat, i: nat)
    ensures LogRightAt(Whole(block, []), [], base, i)
  {}

  lemma LogJoined(x: seq<Action>, y: seq<Action>, log: seq<PairSequence>, base: nat, i: nat)
    requires log != [] && RightAt(x, log[0].pairs, base, i)
    requires var n := Count(log[0].pairs); LogRightAt(y, log[1..], base + n, if i < n then 0 else i - n)
    ensures LogRightAt(x + y, log, base, i)
  {
    hide VersionOk, StartIn, Count;
  }

  lemma LogHead(block: nat -> seq<Action>, log: seq<PairSequence>, base: nat)
    requires Numbered(block, log, base) && log != []
    ensures PairsOk(block, log[0].pairs) && Numbered(block, log[1..], base + Count(log[0].pairs))
    ensures AllPairs(log) == PairsFrom(log[0].pairs, ToI32(base)) + AllPairs(log[1..])
  {}

  lemma WholeHead(block: nat -> seq<Action>, log: seq<PairSequence>, base: nat)
    requires log != [] && AllPairs(log) == PairsFrom(log[0].pairs, ToI32(base)) + AllPairs(log[1..])
    ensures Whole(block, log)
         == Replay(ExecutedOf(block), PairsFrom(log[0].pairs, ToI32(base))) + Whole(block, log[1..])
  {
    hide Replay, PairsFrom, AllPairs, ToI32, ExecutedOf;
    ReplayConcat(ExecutedOf(block), PairsFrom(log[0].pairs, ToI32(base)), AllPairs(log[1..]));
  }

  predicate Counts(s: seq<Action>, base: nat) {
    forall i :: 0 <= i < |s| ==> s[i].version == base + i
  }

  /** Every block that has an action begins at a version that survives, and no version passes 64 bits. */
  ghost predicate AllKept(log: seq<PairSequence>, base: nat) {
    && (Total(log) == 0 || base + Total(log) <= U64)
    && forall i: nat {:trigger StartOf(log, base, i)} :: i < Total(log) ==> Kept(StartOf(log, base, i))
  }

  /** The replayed log counts its versions from the base if and only if all blocks begin where versions survive. */
  lemma VersionIsLogIndex(block: nat -> seq<Action>, log: seq<PairSequence>, base: nat)
    requires Numbered(block, log, base)
    ensures |Whole(block, log)| == Total(log)
    ensures Counts(Whole(block, log), base) <==> AllKept(log, base)
  {
    hide Numbered, Whole, Total, StartOf, Kept;
    VersionIsPlace(block, log, base, 0);
    var whole := Whole(block, log);
    forall i: nat | i < |whole|
      ensures whole[i].version == base + i <==> Kept(StartOf(log, base, i)) && base + i < U64
    {
      VersionIsPlace(block, log, base, i);
    }
    if Counts(whole, base) && whole != [] {
      assert whole[|whole| - 1].version == base + (|whole| - 1);
    }
  }

  // ---- A log whose versions are lost ----

  /** An action that is nothing but a place in its block. */
  function Numbering(offset: nat): Action {
    Action(0, Lookup(""), [], [], None, 0, offset, 0, true, [], false, false)
  }

  /** Block 1 has 2^31 - 1 actions and block 2 has one. */
  function LongBlock(id: nat): seq<Action> {
    if id == 1 then seq(0x7fff_ffff, i requires 0 <= i < 0x7fff_ffff => Numbering(i))
    else if id == 2 then [Numbering(0)] else []
  }

  const LONG_LOG := [PairSequence(1, [Pair(1, 0x7fff_ffff), Pair(2, 1)])]

  lemma LongBlockOk(p: Pair)
    requires p in LONG_LOG[0].pairs
    ensures PairOk(LongBlock, p)
  {
    FilterAll(LongBlock(p.first), (a: Action) => !a.fake);
    hide Filter;
  }

  lemma LongLog()
    ensures Numbered(LongBlock, LONG_LOG, 1) && Total(LONG_LOG) == 0x8000_0000
    ensures StartOf(LONG_LOG, 1, 0x7fff_ffff) == 0x8000_0000
  {
    hide PairOk, LongBlock;
    var pairs := LONG_LOG[0].pairs;
    LongBlockOk(pairs[0]);
    LongBlockOk(pairs[1]);
    assert pairs[1..] == [Pair(2, 1)] && pairs[1..][1..] == [] && LONG_LOG[1..] == [];
  }

  /** Numbered from 1, as consensus does, a log of 2^31 actions in two blocks gives the last one another version. */
  lemma VersionLost()
    ensures Numbered(LongBlock, LONG_LOG, 1) && |Whole(LongBlock, LONG_LOG)| == 0x8000_0000
    ensures Whole(LongBlock, LONG_LOG)[0x7fff_ffff].version != 0x8000_0000
    ensures !Counts(Whole(LongBlock, LONG_LOG), 1)
  {
    hide Numbered, Whole, Total, StartOf, LongBlock, LONG_LOG;
    LongLog();
    VersionIsPlace(LongBlock, LONG_LOG, 1, 0x7fff_ffff);
  }
}
