/** The low-latency block log: how actions are routed to a replica's log, batched, split among shards, and copied from
    replica 0's log into the logs of the other replicas (src_lowlatency/fs/metadata_store.cc,
    src_lowlatency/fs/block_log.h). */
module LowLatency {
  import opened Paths
  import opened Metadata
  import opened DistributedExecution
  import opened Collections
  import opened ActionLog
  import LogReplay

  type Owner = Path -> Participant

  // ---- Routing ----

  /** The replicas that master what the action reads or writes. */
  function Masters(owner: Owner, a: Action): set<nat> {
    (set i | 0 <= i < |a.writeset| :: owner(a.writeset[i]).origin) + (set i | 0 <= i < |a.readset| ::
        owner(a.readset[i]).origin)
  }

  /** The sets in an action are those that GetRWSets gives its request. */
  predicate Declares(a: Action) {
    Runs(a.input) && a.readset == GetRWSets(a.input).value.readSet && a.writeset == GetRWSets(a.input).value.writeSet
  }

  predicate Cross(a: Action) {
    !a.single
  }

  predicate Involves(r: nat, a: Action) {
    r in a.involved
  }

  predicate Ascending(s: seq<nat>) {
    forall i, j :: 0 <= i < j < |s| ==> s[i] < s[j]
  }

  /** What routing writes into an action: the replicas involved, and that it is fake if it crosses replicas and
      replica 0, whose log orders it, is not one of them. */
  predicate Routed(owner: Owner, a: Action) {
    && (set r | r in a.involved) == Masters(owner, a) && Ascending(a.involved) && a.involved != []
    && (a.single <==> |a.involved| == 1)
  }

  predicate Fresh(owner: Owner, a: Action) {
    Routed(owner, a) && !a.generated && (a.fake <==> Cross(a) && !Involves(0, a))
  }

  /** The replica in whose log an action is ordered first. */
  function Home(a: Action): nat
    requires a.involved != []
  {
    if Cross(a) then 0 else a.involved[0]
  }

  lemma SameSet(s: seq<nat>, t: set<nat>)
    requires (set r | r in s) == t && Ascending(s)
    ensures |s| == |t|
  {
    if s == [] {
      assert t == {};
    } else {
      var n := |s| - 1;
      assert s == s[..n] + [s[n]];
      assert t == (set r | r in s[..n]) + {s[n]};
      SameSet(s[..n], set r | r in s[..n]);
    }
  }

  function Least(t: set<nat>): (m: nat)
    requires t != {}
    ensures m in t && forall x :: x in t ==> m <= x
  {
    LeastExists(t);
    var m :| m in t && forall x :: x in t ==> m <= x;
    m
  }

  lemma LeastExists(t: set<nat>)
    requires t != {}
    ensures exists m :: m in t && forall x :: x in t ==> m <= x
  {
    var x :| x in t;
    LeastBelow(t, x);
  }

  lemma {:induction false} LeastBelow(t: set<nat>, x: nat)
    requires x in t
    ensures exists m :: m in t && forall y :: y in t ==> m <= y
    decreases x
  {
    if y :| y in t && y < x {
      LeastBelow(t, y);
    }
  }

  /** The replicas involved, in the set's order. */
  method ListReplicas(replicas: set<nat>) returns (s: seq<nat>)
    ensures (set r | r in s) == replicas && Ascending(s) && |s| == |replicas|
  {
    s := [];
    var left := replicas;
    while left != {}
      invariant left <= replicas && (set r | r in s) == replicas - left
      invariant Ascending(s)
      invariant forall x, r :: x in left && r in s ==> r < x
      decreases left
    {
      hide Ascending;
      var r := Least(left);
      AppendLarger(s, r);
      assert replicas - (left - {r}) == (replicas - left) + {r};
      s := s + [r];
      left := left - {r};
    }
    SameSet(s, replicas);
  }

  method Involved(owner: Owner, action: Action) returns (replicas: set<nat>)
    ensures replicas == Masters(owner, action)
  {
    replicas := {};
    for i := 0 to |action.writeset|
      invariant replicas == set j | 0 <= j < i :: owner(action.writeset[j]).origin
    {
      replicas := replicas + {owner(action.writeset[i]).origin};
    }
    for i := 0 to |action.readset|
      invariant replicas == (set j | 0 <= j < |action.writeset| :: owner(action.writeset[j]).origin)
                          + set j | 0 <= j < i :: owner(action.readset[j]).origin
    {
      replicas := replicas + {owner(action.readset[i]).origin};
    }
  }

  /** Chooses the machine whose block log gets the action: this machine, or a random one of the home replica. */
  method GetMachineForReplica(owner: Owner, machineId: nat, perReplica: nat, random: nat,
                              action: Action) returns (machine: nat, routed: Action)
    requires perReplica > 0
    requires action.readset != [] || action.writeset != []
    requires action.involved == [] && !action.fake && !action.generated
    ensures Fresh(owner, routed) && machine / perReplica == Home(routed)
    ensures machine == if machineId / perReplica == Home(routed) && !routed.fake then machineId
                       else Home(routed) * perReplica + random % perReplica
    ensures routed == action.(single := routed.single, involved := routed.involved, fake := routed.fake)
  {
    var replica := machineId / perReplica;
    var replicas := Involved(owner, action);
    SomeMaster(owner, action);
    var list := ListReplicas(replicas);
    routed := action.(single := |replicas| == 1, involved := list);
    RoutedIs(owner, action, routed);
    hide Masters, Routed;
    var lowest := routed.involved[0];
    DivideBack(lowest, perReplica, random);
    DivideBack(0, perReplica, random);
    LowestIsZero(list);
    if |replicas| == 1 {
      machine := if lowest == replica then machineId else lowest * perReplica + random % perReplica;
    } else if lowest != 0 {
      routed := routed.(fake := true);
      machine := random % perReplica;
    } else {
      machine := if replica == 0 then machineId else random % perReplica;
    }
  }

  lemma LowestIsZero(s: seq<nat>)
    requires Ascending(s) && s != []
    ensures 0 in s <==> s[0] == 0
  {}

  lemma RoutedIs(owner: Owner, a: Action, b: Action)
    requires Masters(owner, a) != {} && b == a.(single := |b.involved| == 1, involved := b.involved)
    requires (set r | r in b.involved) == Masters(owner, a) && Ascending(b.involved)
    ensures Routed(owner, b) && Routed(owner, b.(fake := true)) && b.involved != []
  {
    assert Masters(owner, b) == Masters(owner, a) == Masters(owner, b.(fake := true));
    assert b.involved != [];
  }

  lemma SomeMaster(owner: Owner, a: Action)
    requires a.readset != [] || a.writeset != []
    ensures Masters(owner, a) != {}
  {
    if a.readset != [] { assert owner(a.readset[0]).origin in Masters(owner, a); }
    if a.writeset != [] { assert owner(a.writeset[0]).origin in Masters(owner, a); }
  }

  lemma AppendLarger(s: seq<nat>, r: nat)
    requires Ascending(s) && forall x :: x in s ==> x < r
    ensures Ascending(s + [r]) && (set x | x in s + [r]) == (set x | x in s) + {r}
  {
    forall i, j | 0 <= i < j < |s + [r]| ensures (s + [r])[i] < (s + [r])[j] {
      if j == |s| { assert s[i] in s; }
    }
  }

  lemma DivideBack(r: nat, n: nat, random: nat)
    requires n > 0
    ensures (r * n + random % n) / n == r
  {
    var x := r * n + random % n;
    var q := x / n;
    var d := q - r;
    assert d * n == random % n - x % n by { assert x == q * n + x % n; }
    Multiples(d, n);
  }

  lemma Multiples(d: int, n: int)
    requires n > 0
    ensures d == 0 || d * n >= n || d * n <= -n
  {}

  // ---- Splitting a block ----

  function At(subbatches: map<nat, seq<Action>>, m: nat): seq<Action> {
    if m in subbatches then subbatches[m] else []
  }

  /** The machines of the sub-batches that get an action. */
  method Recipients(owner: Owner, a: Action) returns (recipients: set<nat>)
    requires !a.fake
    ensures forall m: nat :: m in recipients <==> Replays(owner, m, a)
  {
    recipients := {};
    for i := 0 to |a.readset|
      invariant forall m: nat :: m in recipients <==> exists j ::
          0 <= j < i && owner(a.readset[j]) == Participant(m, a.origin)
    {
      if owner(a.readset[i]).origin == a.origin {
        recipients := recipients + {owner(a.readset[i]).machine};
      }
    }
    ghost var readers := recipients;
    for i := 0 to |a.writeset|
      invariant forall m: nat :: m in recipients <==> m in readers || exists j ::
          0 <= j < i && owner(a.writeset[j]) == Participant(m, a.origin)
    {
      if owner(a.writeset[i]).origin == a.origin {
        recipients := recipients + {owner(a.writeset[i]).machine};
      }
    }
  }

  /** Adds an action to the sub-batches of its recipients. */
  method AddTo(was: map<nat, seq<Action>>, recipients: set<nat>, a: Action) returns (subbatches: map<nat, seq<Action>>)
    ensures forall m: nat :: At(subbatches, m) == At(was, m) + if m in recipients then [a] else []
  {
    subbatches := was;
    var left := recipients;
    while left != {}
      invariant left <= recipients
      invariant forall m: nat :: At(subbatches, m) == At(was, m) + if m in recipients - left then [a] else []
      decreases left
    {
      var m :| m in left;
      subbatches := subbatches[m := At(subbatches, m) + [a]];
      left := left - {m};
    }
  }

  /** BATCH: every machine of the replica gets the part of the block that it replays, in the block's order. */
  method SplitBatch(owner: Owner, batch: seq<Action>) returns (subbatches: map<nat, seq<Action>>)
    ensures forall m: nat :: At(subbatches, m) == SubBatch(owner, m, batch)
  {
    subbatches := map[];
    for i := 0 to |batch|
      invariant forall m: nat :: At(subbatches, m) == SubBatch(owner, m, batch[..i])
    {
      hide At, Replays, Filter;
      forall m: nat ensures SubBatch(owner, m, batch[..i + 1])
                         == SubBatch(owner, m, batch[..i]) + if Replays(owner, m, batch[i]) then [batch[i]] else [] {
        FilterOneMore(batch, i, ReplaysOf(owner, m));
      }
      if batch[i].fake {
        FakeNotReplayed(owner, batch[i]);
        continue;
      }
      var recipients := Recipients(owner, batch[i]);
      subbatches := AddTo(subbatches, recipients, batch[i]);
    }
    assert batch[..|batch|] == batch;
  }

  lemma FakeNotReplayed(owner: Owner, a: Action)
    requires a.fake
    ensures forall m: nat :: !Replays(owner, m, a)
  {}

  // ---- Copying cross-replica actions ----

  predicate NeedsCopy(r: nat, a: Action) {
    Cross(a) && !a.generated && Involves(r, a)
  }

  function NeedsCopyOf(r: nat): Action -> bool {
    (a: Action) => NeedsCopy(r, a)
  }

  /** The actions of a block of another replica that replica r must order too. */
  function Copies(r: nat, block: seq<Action>): seq<Action> {
    Filter(block, NeedsCopyOf(r))
  }

  /** BATCH from another replica: what FAKEACTIONBATCH carries to the head node. */
  method CopiesFor(r: nat, batch: seq<Action>) returns (fakes: seq<Action>)
    ensures fakes == Copies(r, batch)
  {
    fakes := [];
    for i := 0 to |batch|
      invariant fakes == Copies(r, batch[..i])
    {
      FilterOneMore(batch, i, NeedsCopyOf(r));
      if !batch[i].single && !batch[i].generated {
        var j := 0;
        while j < |batch[i].involved| && batch[i].involved[j] != r
          invariant 0 <= j <= |batch[i].involved| && r !in batch[i].involved[..j]
        {
          j := j + 1;
        }
        if j < |batch[i].involved| {
          fakes := fakes + [batch[i]];
        }
      }
    }
    assert batch[..|batch|] == batch;
  }

  function Regenerated(a: Action): Action {
    a.(client := if a.fake then a.client else None, fake := false, generated := true)
  }

  function AllRegenerated(s: seq<Action>): (r: seq<Action>)
    ensures |r| == |s| && forall i {:trigger r[i]} :: 0 <= i < |s| ==> r[i] == Regenerated(s[i])
  {
    if s == [] then [] else [Regenerated(s[0])] + AllRegenerated(s[1..])
  }

  lemma {:induction false} AllRegeneratedConcat(s: seq<Action>, t: seq<Action>)
    ensures AllRegenerated(s + t) == AllRegenerated(s) + AllRegenerated(t)
  {}

  function AtOf(m: map<nat, seq<Action>>): nat -> seq<Action> {
    (id: nat) => At(m, id)
  }

  predicate NoRepeats(ids: seq<nat>) {
    forall i, j :: 0 <= i < j < |ids| ==> ids[i] != ids[j]
  }

  /** One machine's queue of requests, and at a head node the copies received. */
  class BlockLogApp {
    const replica: nat
    var queue: seq<Action>
    var fakebatches: map<nat, seq<Action>>

    constructor (replica: nat)
      ensures this.replica == replica && queue == [] && fakebatches == map[]
    {
      this.replica, queue, fakebatches := replica, [], map[];
    }

    method Append(a: Action)
      modifies this`queue
      ensures queue == old(queue) + [a.(origin := replica)]
    {
      queue := queue + [a.(origin := replica)];
    }

    /** Once an epoch: the first count requests become a block; offset is how many versions it takes. */
    method MakeBatch(count: nat) returns (batch: seq<Action>, offset: nat)
      requires count <= |queue|
      modifies this`queue
      ensures batch == Stamp(old(queue[..count]), replica, 0) && offset == |Executed(batch)|
      ensures queue == old(queue[count..])
    {
      batch, offset := [], 0;
      ghost var taken := queue[..count];
      for i := 0 to count
        invariant i <= count && queue == old(queue[i..])
        invariant batch == Stamp(taken[..i], replica, 0) && offset == |Executed(taken[..i])|
      {
        hide Stamp, Executed;
        var a := queue[0];
        queue := queue[1..];
        StampOneMore(taken, i, replica);
        if !a.fake {
          a, offset := a.(offset := offset), offset + 1;
        }
        a := a.(origin := replica);
        batch := batch + [a];
      }
      assert taken[..count] == taken;
      StampNumbers(taken, replica, 0);
    }

    /** FAKEACTIONBATCH. */
    method HandleFakeActionBatch(id: nat, batch: seq<Action>)
      modifies this`fakebatches
      ensures fakebatches == old(fakebatches)[id := batch]
    {
      fakebatches := fakebatches[id := batch];
    }

    /** APPEND_MULTIREPLICA_ACTIONS on a remote sequence, from its pair number `from` on, with what came of the
        pairs before. It goes on as long as the next pair's copies are here; where they are not the handler polls,
        and its next turn begins there. When all pairs are done the copies become a new block of this replica, in
        the remote order. */
    method AppendMultireplicaActions(sequence: seq<Pair>, from: nat, collected: seq<Action>)
      returns (next: nat, news: seq<Action>, batch: seq<Action>)
      requires from <= |sequence| && forall a :: a in collected ==> !a.fake
      modifies this`fakebatches
      ensures from <= next <= |sequence| && (next < |sequence| ==> sequence[next].first !in fakebatches)
      ensures news == collected + AllRegenerated(Entries(AtOf(old(fakebatches)), Firsts(sequence)[from..next]))
      ensures forall a :: a in news ==> !a.fake
      ensures fakebatches == Unused(old(fakebatches), Firsts(sequence)[from..next])
      ensures forall id {:trigger id in fakebatches} :: id in fakebatches <==>
        id in old(fakebatches) && (old(fakebatches)[id] == [] || id !in Firsts(sequence)[from..next])
      ensures batch == if next == |sequence| then Stamp(news, replica, 0) else []
    {
      next, news := TakeCopies(sequence, from, collected);
      AllReal(collected, Entries(AtOf(old(fakebatches)), Firsts(sequence)[from..next]));
      batch := [];
      if next < |sequence| {
        return;
      }
      for i := 0 to |news|
        invariant batch == Stamp(news[..i], replica, 0)
        invariant |Executed(news[..i])| == i
        invariant fakebatches == Unused(old(fakebatches), Firsts(sequence)[from..next])
      {
        hide Stamp, Executed, Entries;
        StampOneMore(news, i, replica);
        batch := batch + [news[i].(offset := i, origin := replica)];
      }
      assert news[..|news|] == news;
    }

    method TakeCopies(sequence: seq<Pair>, from: nat, collected: seq<Action>) returns (next: nat, news: seq<Action>)
      requires from <= |sequence|
      modifies this`fakebatches
      ensures from <= next <= |sequence| && (next < |sequence| ==> sequence[next].first !in fakebatches)
      ensures news == collected + AllRegenerated(Entries(AtOf(old(fakebatches)), Firsts(sequence)[from..next]))
      ensures fakebatches == Unused(old(fakebatches), Firsts(sequence)[from..next])
    {
      hide Entries, AllRegenerated, Unused, At;
      ghost var was, ids := fakebatches, Firsts(sequence)[from..];
      next, news := from, collected;
      NothingTaken(was);
      while next < |sequence| && sequence[next].first in fakebatches
        invariant from <= next <= |sequence|
        invariant news == collected + AllRegenerated(Entries(AtOf(was), ids[..next - from]))
        invariant fakebatches == Unused(was, ids[..next - from])
      {
        ghost var k := next - from;
        assert sequence[next].first == ids[k];
        UnusedOneMore(was, ids, k);
        EntriesOneMore(AtOf(was), ids, k);
        var renewed := TakeBatch(sequence[next].first);
        AllRegeneratedConcat(Entries(AtOf(was), ids[..k]), At(was, ids[k]));
        Associate(collected, AllRegenerated(Entries(AtOf(was), ids[..k])), renewed);
        news := news + renewed;
        next := next + 1;
      }
      assert ids[..next - from] == Firsts(sequence)[from..next];
    }

    /** The copies of one block, which are removed unless there are none. */
    method TakeBatch(id: nat) returns (renewed: seq<Action>)
      requires id in fakebatches
      modifies this`fakebatches
      ensures renewed == AllRegenerated(old(fakebatches)[id])
      ensures fakebatches == if old(fakebatches)[id] == [] then old(fakebatches) else old(fakebatches) - {id}
    {
      var fakes := fakebatches[id];
      if fakes == [] {
        return [];
      }
      renewed := RegenerateBatch(fakes);
      fakebatches := fakebatches - {id};
    }
  }

  lemma AllReal(s: seq<Action>, t: seq<Action>)
    requires forall a :: a in s ==> !a.fake
    ensures forall a :: a in s + AllRegenerated(t) ==> !a.fake
  {
    assert forall i {:trigger AllRegenerated(t)[i]} :: 0 <= i < |t| ==> AllRegenerated(t)[i] == Regenerated(t[i]);
  }

  lemma NothingTaken(m: map<nat, seq<Action>>)
    ensures Entries(AtOf(m), []) == [] && AllRegenerated([]) == [] && Unused(m, []) == m
  {}

  lemma UnusedOneMore(m: map<nat, seq<Action>>, ids: seq<nat>, k: nat)
    requires k < |ids| && ids[k] in Unused(m, ids[..k])
    ensures ids[k] in m && Unused(m, ids[..k])[ids[k]] == m[ids[k]] == At(m, ids[k])
    ensures Unused(m, ids[..k + 1]) == if m[ids[k]] == [] then Unused(m, ids[..k]) else Unused(m, ids[..k]) - {ids[k]}
  {
    assert ids[..k + 1] == ids[..k] + [ids[k]];
  }

  /** The batches left when those of ids have been used; empty ones are never removed. */
  function Unused(m: map<nat, seq<Action>>, ids: seq<nat>): map<nat, seq<Action>> {
    map id | id in m && (m[id] == [] || id !in ids) :: m[id]
  }

  lemma EntriesOneMore(content: nat -> seq<Action>, ids: seq<nat>, i: nat)
    requires i < |ids|
    ensures Entries(content, ids[..i + 1]) == Entries(content, ids[..i]) + content(ids[i])
  {
    assert ids[..i + 1] == ids[..i] + [ids[i]];
    EntriesConcat(content, ids[..i], [ids[i]]);
    assert Entries(content, [ids[i]]) == content(ids[i]);
  }

  lemma StampOneMore(q: seq<Action>, i: nat, origin: nat)
    requires i < |q|
    ensures var k, a := |Executed(q[..i])|, q[i].(origin := origin);
      && Stamp(q[..i + 1], origin, 0) == Stamp(q[..i], origin, 0) + [if a.fake then a else a.(offset := k)]
      && |Executed(q[..i + 1])| == if a.fake then k else k + 1
  {
    assert q[..i + 1] == q[..i] + [q[i]];
    StampConcat(q[..i], [q[i]], origin, 0);
    FilterOneMore(q, i, (a: Action) => !a.fake);
  }

  /** SwapElements, then ReleaseLast until the batch is empty. */
  method RegenerateBatch(batch: seq<Action>) returns (renewed: seq<Action>)
    ensures renewed == AllRegenerated(batch)
  {
    var fakes := LogReplay.Reverse(batch);
    var n := |fakes|;
    renewed := [];
    for j := 0 to n
      invariant fakes == LogReplay.Reversed(batch)[..n - j]
      invariant renewed == AllRegenerated(batch[..j])
    {
      var a := fakes[|fakes| - 1];
      fakes := fakes[..|fakes| - 1];
      if !a.fake {
        a := a.(client := None);
      } else {
        a := a.(fake := false);
      }
      a := a.(generated := true);
      assert batch[..j + 1] == batch[..j] + [batch[j]];
      renewed := renewed + [a];
    }
    assert batch[..n] == batch;
  }
}
