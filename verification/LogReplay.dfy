/** A machine replays the ordered log of blocks: sequences arrive from consensus in order, the parts of blocks arrive
    in any order, and actions come out (SequenceSource and ActionSource in src/fs/block_log.h). */
module LogReplay {
  import opened Numbers
  import opened Paths
  import opened Collections
  import opened ActionLog
  import opened DistributedExecution

  /** The pairs of the sequences, each with its version. */
  class SequenceSource {
    var source: seq<PairSequence>
    var current: Option<PairSequence>
    var index: nat
    var offset: int

    predicate Valid()
      reads this
    {
      current.Some? ==> index < |current.value.pairs|
    }

    ghost function Rest(): seq<Pair>
      reads this
      requires Valid()
    {
      (if current.None? then [] else PairsFrom(current.value.pairs[index..], offset)) + AllPairs(source)
    }

    constructor ()
      ensures Valid() && Rest() == []
    {
      source, current, index, offset := [], None, 0, 0;
    }

    /** The remote log has another sequence. */
    method Deliver(s: PairSequence)
      requires Valid()
      modifies this`source
      ensures Valid() && Rest() == old(Rest()) + AllPairs([s])
    {
      hide PairsFrom;
      ghost var now := if current.None? then [] else PairsFrom(current.value.pairs[index..], offset);
      AllPairsConcat(source, [s]);
      source := source + [s];
      Associate(now, old(AllPairs(source)), AllPairs([s]));
    }

    /** Takes sequences until one has pairs. */
    method NextSequence()
      requires Valid()
      modifies this
      ensures Valid() && Rest() == old(Rest()) && (current.None? ==> Rest() == [])
    {
      while current.None? && source != []
        invariant Valid() && Rest() == old(Rest())
        decreases |source|
      {
        current, source := Some(source[0]), source[1..];
        if |current.value.pairs| == 0 {
          current := None;
        } else {
          index, offset := 0, ToI32(current.value.misc);
          assert current.value.pairs[0..] == current.value.pairs;
        }
      }
    }

    method Get() returns (p: Option<Pair>)
      requires Valid()
      modifies this
      ensures Valid()
      ensures p.None? ==> old(Rest()) == [] && Rest() == []
      ensures p.Some? ==> old(Rest()) == [p.value] + Rest()
    {
      hide AllPairs, ToI32, ToU64;
      NextSequence();
      if current.None? {
        return None;
      }
      ghost var was, k := current.value.pairs, index;
      ghost var more := PairsFrom(was[k + 1..], ToI32(ToU64(offset) + was[k].second));
      assert was[k..][1..] == was[k + 1..];
      assert Rest() == [Pair(was[k].first, ToU64(offset))] + more + AllPairs(source);
      Associate([Pair(was[k].first, ToU64(offset))], more, AllPairs(source));
      p := Some(Pair(current.value.pairs[index].first, ToU64(offset)));
      offset := ToI32(ToU64(offset) + current.value.pairs[index].second);
      index := index + 1;
      if index == |current.value.pairs| {
        current := None;
        assert was[k + 1..] == [];
      }
      assert Rest() == more + AllPairs(source);
    }
  }

  // ---- The order of a batch ----

  function Reversed(s: seq<Action>): (r: seq<Action>)
    ensures |r| == |s|
    ensures forall i {:trigger r[i]} :: 0 <= i < |s| ==> r[i] == s[|s| - 1 - i]
  {
    if s == [] then [] else [s[|s| - 1]] + Reversed(s[..|s| - 1])
  }

  lemma ReversedTwice(s: seq<Action>)
    ensures Reversed(Reversed(s)) == s
  {}

  /** SwapElements from the ends inwards. */
  method Reverse(batch: seq<Action>) returns (r: seq<Action>)
    ensures r == Reversed(batch)
  {
    r := batch;
    var n := |batch|;
    for i := 0 to n / 2
      invariant |r| == n
      invariant forall k {:trigger r[k]} ::
          0 <= k < n ==> r[k] == if k < i || n - 1 - k < i then batch[n - 1 - k] else batch[k]
    {
      r := r[i := r[n - 1 - i]][n - 1 - i := r[i]];
    }
  }

  // ---- The actions ----

  function Ids(ps: seq<Pair>): set<nat> {
    set p | p in ps :: p.first
  }

  predicate Distinct(ps: seq<Pair>) {
    ps == [] || (ps[0].first != 0 && ps[0].first !in Ids(ps[1..]) && Distinct(ps[1..]))
  }

  lemma {:induction false} DistinctConcat(p: seq<Pair>, q: seq<Pair>)
    requires Distinct(p) && Distinct(q) && Ids(p) !! Ids(q)
    ensures Distinct(p + q) && Ids(p + q) == Ids(p) + Ids(q)
  {
    if p == [] {
      assert p + q == q;
    } else {
      HeadTail(p, q);
      IdsHead(p);
      IdsHead(p + q);
      DistinctConcat(p[1..], q);
    }
  }

  lemma IdsHead(p: seq<Pair>)
    requires p != []
    ensures Ids(p) == {p[0].first} + Ids(p[1..])
  {
    assert p == [p[0]] + p[1..];
  }

  /** The block log of one machine, with the state of its only action source. While have is set the source points
      at the batch in the map. */
  class BlockLogApp {
    const sequence: SequenceSource
    var subbatches: map<nat, seq<Action>>
    var subbatchId: nat
    var have: bool
    var subbatchVersion: nat

    ghost const content: nat -> seq<Action>
    ghost var arrived: set<nat>
    ghost var delivered: seq<PairSequence>
    ghost var emitted: seq<Action>

    /** The pairs whose blocks are not finished. */
    ghost function Todo(): seq<Pair>
      reads this, sequence
      requires sequence.Valid()
    {
      if subbatchId == 0 then sequence.Rest() else [Pair(subbatchId, subbatchVersion)] + sequence.Rest()
    }

    ghost function Remaining(): seq<Action>
      reads this, sequence
      requires sequence.Valid()
    {
      if have && subbatchId in subbatches
      then Emit(Reversed(subbatches[subbatchId]), subbatchVersion) + Replay(content, sequence.Rest())
      else Replay(content, Todo())
    }

    ghost predicate BatchesOk()
      reads this
    {
      && (have ==> subbatchId != 0 && subbatchId in subbatches && subbatches[subbatchId] != [])
      && (forall id :: id in subbatches ==> (have && id == subbatchId) || subbatches[id] == content(id))
    }

    /** A part of a block is here exactly when it has arrived, until its actions are out. */
    ghost predicate ArrivalsOk()
      reads this, sequence
      requires sequence.Valid()
    {
      && Distinct(Todo())
      && Ids(Todo()) <= Ids(AllPairs(delivered))
      && (forall id :: id in subbatches ==> id in arrived)
      && (forall id {:trigger id in subbatches} {:trigger id in arrived} ::
            id in arrived && (id in Ids(Todo()) || id !in Ids(AllPairs(delivered))) ==> id in subbatches)
    }

    /** What has come out and what will come out is the log, replayed. */
    ghost predicate Valid()
      reads this, sequence
    {
      && sequence.Valid() && BatchesOk() && ArrivalsOk()
      && emitted + Remaining() == Replay(content, AllPairs(delivered))
    }

    constructor (ghost content: nat -> seq<Action>)
      ensures Valid() && fresh(sequence) && this.content == content
      ensures emitted == [] && delivered == [] && arrived == {}
    {
      sequence := new SequenceSource();
      subbatches, subbatchId, have, subbatchVersion := map[], 0, false, 0;
      this.content := content;
      arrived, delivered, emitted := {}, [], [];
    }

    /** Another sequence comes out of consensus; a block is appended once. */
    method Deliver(s: PairSequence)
      requires Valid()
      requires Distinct(AllPairs([s])) && Ids(AllPairs([s])) !! Ids(AllPairs(delivered))
      modifies sequence, this`delivered
      ensures Valid() && delivered == old(delivered) + [s]
      ensures arrived == old(arrived) && emitted == old(emitted)
    {
      hide PairsFrom, AllPairs, Replay, Emit, Distinct, Ids, Reversed;
      ghost var news, todo, rest := AllPairs([s]), Todo(), sequence.Rest();
      ghost var more := Replay(content, news);
      AllPairsConcat(delivered, [s]);
      ReplayConcat(content, AllPairs(delivered), news);
      ReplayConcat(content, rest, news);
      ReplayConcat(content, todo, news);
      DistinctConcat(todo, news);
      IdsConcat(AllPairs(delivered), news);
      Associate([Pair(subbatchId, subbatchVersion)], rest, news);
      if have {
        Associate(Emit(Reversed(subbatches[subbatchId]), subbatchVersion), Replay(content, rest), more);
      }
      Associate(emitted, Remaining(), more);
      sequence.Deliver(s);
      delivered := delivered + [s];
      assert Todo() == todo + news;
      assert Remaining() == old(Remaining()) + more;
    }

    /** SUBBATCH: this machine's part of a block, whenever it comes. */
    method HandleSubBatch(id: nat, batch: seq<Action>)
      requires Valid() && id !in arrived && batch == content(id)
      modifies this`subbatches, this`arrived
      ensures Valid() && arrived == old(arrived) + {id}
      ensures delivered == old(delivered) && emitted == old(emitted)
    {
      hide AllPairs, Replay, Emit, Reversed, Ids, Distinct, PairsFrom;
      subbatches := subbatches[id := batch];
      arrived := arrived + {id};
    }

    /** The next block's id and first version, if the log has one. */
    method NextBlock() returns (ok: bool)
      requires Valid() && subbatchId == 0
      modifies this`subbatchId, this`subbatchVersion, sequence
      ensures Valid() && (ok <==> subbatchId != 0) && (ok <==> old(Todo()) != [])
      ensures Todo() == old(Todo())
    {
      hide PairsFrom, AllPairs, Replay, Emit, Reversed;
      var p := sequence.Get();
      ok := p.Some?;
      if ok {
        subbatchId, subbatchVersion := p.value.first, p.value.second;
      }
    }

    /** A block of which this machine has no part is thrown away. */
    method DropEmpty()
      requires Valid() && subbatchId != 0 && subbatchId in subbatches && subbatches[subbatchId] == []
      modifies this`subbatches, this`subbatchId
      ensures Valid() && |Todo()| == |old(Todo())| - 1
    {
      hide PairsFrom, AllPairs, Reversed, Ids, Distinct, Replay, Emit;
      TodoTail();
      ReplayHead(content, Pair(subbatchId, subbatchVersion), sequence.Rest());
      EmitEmpty(subbatchVersion);
      subbatches := subbatches - {subbatchId};
      subbatchId := 0;
    }

    /** The next block's part is put in reverse, so that its actions can be released from the end. */
    method Take()
      requires Valid() && subbatchId != 0 && !have && subbatchId in subbatches && subbatches[subbatchId] != []
      modifies this`subbatches, this`have
      ensures Valid() && have
    {
      hide PairsFrom, AllPairs, Emit, Ids, Distinct, Reversed;
      ReversedTwice(subbatches[subbatchId]);
      ReplayHead(content, Pair(subbatchId, subbatchVersion), sequence.Rest());
      var r := Reverse(subbatches[subbatchId]);
      ReversedSome(subbatches[subbatchId]);
      subbatches := subbatches[subbatchId := r];
      have := true;
    }

    method ReleaseLast() returns (a: Action)
      requires Valid() && have
      modifies this`subbatches, this`subbatchId, this`have, this`emitted
      ensures Valid() && emitted == old(emitted) + [a]
    {
      hide PairsFrom, AllPairs, Replay, Emit, Reversed, Ids, Distinct, Versioned;
      var batch := subbatches[subbatchId];
      ghost var rest, more := Replay(content, sequence.Rest()), Emit(Reversed(batch[..|batch| - 1]), subbatchVersion);
      a := Versioned(batch[|batch| - 1], subbatchVersion);
      EmitReleased(batch, subbatchVersion);
      TodoTail();
      assert Remaining() == [a] + more + rest;
      AssociateThree(emitted, [a], more, rest);
      subbatches := subbatches[subbatchId := batch[..|batch| - 1]];
      if |subbatches[subbatchId]| == 0 {
        EmitNothing(subbatches[subbatchId], subbatchVersion);
        subbatches := subbatches - {subbatchId};
        have, subbatchId := false, 0;
      }
      emitted := emitted + [a];
      assert Remaining() == more + rest;
    }

    lemma TodoTail()
      requires sequence.Valid() && Distinct(Todo()) && subbatchId != 0
      ensures Ids(Todo()) == {subbatchId} + Ids(sequence.Rest())
      ensures subbatchId !in Ids(sequence.Rest()) && Distinct(sequence.Rest())
    {
      IdsHead(Todo());
      assert Todo()[1..] == sequence.Rest();
    }

    /** The next action, or nothing: then everything delivered is out, or the part of the next block has not come. */
    method Get() returns (a: Option<Action>)
      requires Valid()
      modifies this`subbatches, this`subbatchId, this`have, this`subbatchVersion, this`emitted, sequence
      ensures Valid() && delivered == old(delivered) && arrived == old(arrived)
      ensures a.Some? ==> emitted == old(emitted) + [a.value]
      ensures a.None? ==> emitted == old(emitted)
      ensures a.None? && Todo() == [] ==> emitted == Replay(content, AllPairs(delivered))
      ensures a.None? && Todo() != [] ==> Todo()[0].first !in arrived
    {
      hide PairsFrom, AllPairs, Replay, Emit, Reversed, Distinct, Ids;
      var ok := FindBatch();
      if !ok {
        AllOut();
        return None;
      }
      var r := ReleaseLast();
      a := Some(r);
    }

    lemma AllOut()
      requires Valid() && !have
      ensures Todo() == [] ==> emitted == Replay(content, AllPairs(delivered))
    {
      hide PairsFrom, AllPairs, Emit, Reversed, Distinct;
    }

    /** Goes on to the next block with a part here that is not empty, if nothing is missing before it. */
    method FindBatch() returns (ok: bool)
      requires Valid()
      modifies this`subbatches, this`subbatchId, this`have, this`subbatchVersion, sequence
      ensures Valid() && delivered == old(delivered) && arrived == old(arrived) && emitted == old(emitted)
      ensures ok ==> have
      ensures !ok ==> !have
      ensures !ok && Todo() != [] ==> Todo()[0].first !in arrived
    {
      hide PairsFrom, AllPairs, Emit, Reversed, Distinct, Replay;
      while true
        invariant Valid() && delivered == old(delivered) && arrived == old(arrived) && emitted == old(emitted)
        decreases |Todo()|
      {
        if subbatchId == 0 {
          ok := NextBlock();
          if !ok {
            return false;
          }
        }
        if have {
          return true;
        }
        if subbatchId !in subbatches {
          IdsHead(Todo());
          return false;
        }
        if subbatches[subbatchId] == [] {
          DropEmpty();
        } else {
          Take();
          return true;
        }
      }
    }
  }

  lemma ReversedSome(s: seq<Action>)
    ensures Reversed(s) == [] <==> s == []
  {}

  lemma EmitEmpty(base: nat)
    ensures Emit([], base) == []
  {}

  lemma EmitNothing(s: seq<Action>, base: nat)
    requires s == []
    ensures Emit(Reversed(s), base) == []
  {}

  lemma AssociateThree<T>(a: seq<T>, b: seq<T>, c: seq<T>, d: seq<T>)
    ensures a + (b + c + d) == (a + b) + (c + d)
  {}

  lemma EmitReleased(batch: seq<Action>, base: nat)
    requires batch != []
    ensures Emit(Reversed(batch), base)
         == [Versioned(batch[|batch| - 1], base)] + Emit(Reversed(batch[..|batch| - 1]), base)
  {
    EmitHead(batch[|batch| - 1], Reversed(batch[..|batch| - 1]), base);
  }

  /** What machine m has emitted is the beginning of the log filtered to what it replays. */
  lemma EmittedIsPrefix(app: BlockLogApp, owner: Path -> Participant, m: nat, block: nat -> seq<Action>)
    requires app.Valid() && app.content == SubBatchOf(owner, m, block)
    ensures app.emitted <= Filter(Whole(block, app.delivered), ReplaysOf(owner, m))
  {
    hide AllPairs, Replay, Emit, Distinct, Ids;
    ShardIsFilteredLog(owner, m, block, app.delivered);
  }

  /** What machine m has emitted is the beginning of what the logged blocks have for it: the k-th action emitted is the
      k-th of their executed actions that touch m, with the offset cleared and another version, and nothing else of it
      is changed. When nothing is left all of them are out. */
  lemma EmittedEntries(app: BlockLogApp, owner: Path -> Participant, m: nat, block: nat -> seq<Action>)
    requires app.Valid() && app.content == SubBatchOf(owner, m, block)
    ensures var mine := EntriesFor(owner, m, block, app.delivered);
      && |app.emitted| <= |mine|
      && (forall k {:trigger app.emitted[k]} :: 0 <= k < |app.emitted| ==>
            app.emitted[k] == mine[k].(version := app.emitted[k].version, offset := 0))
      && (!app.have && app.Todo() == [] ==> |app.emitted| == |mine|)
  {
    hide AllPairs, Replay, Emit, Distinct, Ids, EntriesFor, Reversed;
    ShardIsEntries(owner, m, block, app.delivered);
    var shard := Shard(owner, m, block, app.delivered);
    forall k {:trigger app.emitted[k]} | 0 <= k < |app.emitted|
      ensures app.emitted[k] == shard[k]
    {
      assert shard == app.emitted + app.Remaining();
    }
    if !app.have && app.Todo() == [] {
      app.AllOut();
    }
  }

  /** Where in a sequence the k-th element that passes the filter stands. */
  function Place(s: seq<Action>, p: Action -> bool, k: nat): (i: nat)
    requires k < |Filter(s, p)|
    ensures i < |s| && s[i] == Filter(s, p)[k] && |Filter(s[..i], p)| == k
  {
    hide Filter;
    FilterAt(s, p);
    if p(s[0]) && k == 0 then 0 else
      var i := Place(s[1..], p, if p(s[0]) then k - 1 else k);
      FilterAt(s[..i + 1], p);
      assert s[..i + 1][1..] == s[1..][..i];
      i + 1
  }

  lemma FilterAt(s: seq<Action>, p: Action -> bool)
    ensures s != [] ==> Filter(s, p) == (if p(s[0]) then [s[0]] else []) + Filter(s[1..], p)
  {}

  /** The k-th action a machine emits is the k-th of the whole log that it replays, and its version is its place there,
      counted from the base, if and only if the first version of its block survives the int and the place fits 64
      bits. */
  lemma EmittedVersions(app: BlockLogApp, owner: Path -> Participant, m: nat, block: nat -> seq<Action>, base: nat,
                        k: nat)
    requires app.Valid() && app.content == SubBatchOf(owner, m, block)
    requires Numbered(block, app.delivered, base) && k < |app.emitted|
    ensures var whole := Whole(block, app.delivered);
      && k < |Filter(whole, ReplaysOf(owner, m))| && |whole| == Total(app.delivered)
      && var i := Place(whole, ReplaysOf(owner, m), k);
         && app.emitted[k] == whole[i]
         && (app.emitted[k].version == base + i <==> Kept(StartOf(app.delivered, base, i)) && base + i < U64)
  {
    hide Whole, AllPairs, Replay, Emit, Distinct, Ids, Numbered, Filter, SubBatchOf, ReplaysOf, StartOf, Total, Kept;
    EmittedIsPrefix(app, owner, m, block);
    VersionIsPlace(block, app.delivered, base, 0);
    VersionIsPlace(block, app.delivered, base, Place(Whole(block, app.delivered), ReplaysOf(owner, m), k));
  }

  /** While all blocks begin where versions survive, every machine gives every action its place in the one log. */
  lemma EmittedCount(app: BlockLogApp, owner: Path -> Participant, m: nat, block: nat -> seq<Action>, base: nat)
    requires app.Valid() && app.content == SubBatchOf(owner, m, block)
    requires Numbered(block, app.delivered, base) && AllKept(app.delivered, base)
    ensures forall a :: a in app.emitted ==>
              base <= a.version < base + |Whole(block, app.delivered)| &&
                  Whole(block, app.delivered)[a.version - base] == a
  {
    hide Whole, AllPairs, Replay, Emit, Distinct, Ids, Numbered, Filter, SubBatchOf, ReplaysOf, StartOf, Total, Kept;
    var whole := Whole(block, app.delivered);
    forall a | a in app.emitted ensures base <= a.version < base + |whole| && whole[a.version - base] == a {
      var k :| 0 <= k < |app.emitted| && app.emitted[k] == a;
      EmittedVersions(app, owner, m, block, base, k);
      assert Kept(StartOf(app.delivered, base, Place(whole, ReplaysOf(owner, m), k)));
    }
  }

  lemma IdsConcat(p: seq<Pair>, q: seq<Pair>)
    ensures Ids(p + q) == Ids(p) + Ids(q)
  {}
}
