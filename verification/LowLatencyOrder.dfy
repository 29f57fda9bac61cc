/** One log per replica, and one order: the low-latency block logs as a system of replicas that exchange messages in any
    order. Consensus within a replica is a log that appends what its leader proposes; the leader gets the sequences of
    each other replica in that replica's order (src_lowlatency/fs/block_log.h). */
module LowLatencyOrder {
  import opened Paths
  import opened Collections
  import opened ActionLog
  import opened LowLatency
  import opened TotalOrder

  datatype Cluster = Cluster(owner: Owner, replicas: nat)

  datatype Block = Block(home: nat, submit: bool, entries: seq<Action>)

  datatype Message = BatchTo(id: nat, to: nat) | SubmitOf(id: nat) | FakesTo(id: nat, to: nat, entries: seq<Action>)

  /** The head node of a replica: the blocks it will propose, its own log as sequences of blocks, how many sequences
      of each replica it has taken, the copies it has, and all the sequences it has logged, with their origins. */
  datatype Replica = Replica(pending: seq<nat>, log: seq<seq<nat>>, taken: seq<nat>, fakes: map<nat, seq<Action>>,
      all: seq<(nat, seq<nat>)>)

  /** For history: the block in which each action was first stored. */
  datatype State = State(blocks: map<nat, Block>, replicas: seq<Replica>, flying: set<Message>, first: map<nat, nat>)

  function Init(c: Cluster): State {
    State(map[], seq(c.replicas, i => Replica([], [], seq(c.replicas, j => 0), map[], [])), {}, map[])
  }

  // ---- Steps ----

  datatype Step =
    | Store(r: nat, id: nat, queue: seq<Action>)
    | Batch(m: Message)
    | Submit(m: Message)
    | Fakes(m: Message)
    | Propose(r: nat)
    | Remote(r: nat, from: nat, id: nat)

  function ToAll(c: Cluster, id: nat): set<Message> {
    set q | 0 <= q < c.replicas :: BatchTo(id, q)
  }

  predicate Shaped(c: Cluster, s: State) {
    |s.replicas| == c.replicas && forall r {:trigger s.replicas[r]} ::
        0 <= r < c.replicas ==> |s.replicas[r].taken| == c.replicas
  }

  /** Requests routed to replica r, not seen before. */
  ghost predicate NewRequests(c: Cluster, s: State, r: nat, queue: seq<Action>) {
    && (forall a :: a in queue ==> Fresh(c.owner, a) && Home(a) == r && a.id !in s.first)
    && forall x :: Occ(queue, IdIs(x)) <= 1
  }

  function NextSequence(c: Cluster, s: State, r: nat, from: nat): seq<nat>
    requires Shaped(c, s) && r < c.replicas && from < c.replicas
  {
    var k := s.replicas[r].taken[from];
    if k < |s.replicas[from].log| then s.replicas[from].log[k] else []
  }

  ghost predicate Enabled(c: Cluster, s: State, step: Step)
    requires Shaped(c, s)
  {
    match step
    case Store(r, id, queue) => r < c.replicas && id !in s.blocks && NewRequests(c, s, r, queue)
    case Batch(m) => m.BatchTo? && m in s.flying && m.to < c.replicas && m.id in s.blocks
    case Submit(m) => m.SubmitOf? && m in s.flying && m.id in s.blocks && s.blocks[m.id].home < c.replicas
    case Fakes(m) => m.FakesTo? && m in s.flying && m.to < c.replicas
    case Propose(r) => r < c.replicas && s.replicas[r].pending != []
    case Remote(r, from, id) =>
      && r < c.replicas && from < c.replicas && r != from && id !in s.blocks
      && s.replicas[r].taken[from] < |s.replicas[from].log|
      && forall b :: b in NextSequence(c, s, r, from) ==> b in s.replicas[r].fakes
  }

  /** The block that replica r makes from a sequence of another one; nothing if no action needs a copy. */
  function NewBlock(c: Cluster, s: State, r: nat, from: nat): seq<Action>
    requires Shaped(c, s) && r < c.replicas && from < c.replicas
  {
    Stamp(AllRegenerated(Entries(AtOf(s.replicas[r].fakes), NextSequence(c, s, r, from))), r, 0)
  }

  function DoBatch(c: Cluster, s: State, m: Message): State
    requires m.BatchTo? && m.id in s.blocks
  {
    var b := s.blocks[m.id];
    var out := if b.home == m.to then (if b.submit then {SubmitOf(m.id)} else {})
        else {FakesTo(m.id, m.to, Copies(m.to, b.entries))};
    s.(flying := s.flying - {m} + out)
  }

  function Taken(c: Cluster, s: State, r: nat, from: nat): Replica
    requires Shaped(c, s) && r < c.replicas && from < c.replicas
  {
    var me, ids := s.replicas[r], NextSequence(c, s, r, from);
    me.(taken := me.taken[from := me.taken[from] + 1], all := me.all + [(from, ids)], fakes := Unused(me.fakes, ids))
  }

  ghost function Do(c: Cluster, s: State, step: Step): State
    requires Shaped(c, s) && Enabled(c, s, step)
  {
    match step
    case Store(r, id, queue) =>
      s.(blocks := s.blocks[id := Block(r, true, Stamp(queue, r, 0))], flying := s.flying + ToAll(c, id),
         first := s.first + map a | a in queue :: a.id := id)
    case Batch(m) => DoBatch(c, s, m)
    case Submit(m) =>
      var r := s.blocks[m.id].home;
      var me := s.replicas[r];
      s.(flying := s.flying - {m}, replicas := s.replicas[r := me.(pending := me.pending + [m.id])])
    case Fakes(m) =>
      var me := s.replicas[m.to];
      s.(flying := s.flying - {m}, replicas := s.replicas[m.to := me.(fakes := me.fakes[m.id := m.entries])])
    case Propose(r) =>
      var me := s.replicas[r];
      s.(replicas := s.replicas[r := me.(pending := [], log := me.log + [me.pending],
          all := me.all + [(r, me.pending)])])
    case Remote(r, from, id) =>
      var entries, me := NewBlock(c, s, r, from), Taken(c, s, r, from);
      if entries == [] then s.(replicas := s.replicas[r := me])
      else s.(blocks := s.blocks[id := Block(r, false, entries)], flying := s.flying + ToAll(c, id),
              replicas := s.replicas[r := me.(pending := me.pending + [id])])
  }

  // ---- What the logs say ----

  /** The request in an action, without what logging it adds. */
  function Request(a: Action): Action {
    a.(client := None, origin := 0, offset := 0, version := 0, fake := false, generated := false)
  }

  function Requests(s: seq<Action>): (r: seq<Action>)
    ensures |r| == |s| && forall i {:trigger r[i]} :: 0 <= i < |s| ==> r[i] == Request(s[i])
  {
    if s == [] then [] else [Request(s[0])] + Requests(s[1..])
  }

  function Flatten(log: seq<seq<nat>>): seq<nat> {
    if log == [] then [] else Flatten(log[..|log| - 1]) + log[|log| - 1]
  }

  function Content(s: State): nat -> seq<Action> {
    (id: nat) => if id in s.blocks then s.blocks[id].entries else []
  }

  /** The blocks in r's log or about to be. */
  function Placed(me: Replica): seq<nat> {
    Flatten(me.log) + me.pending
  }

  /** The requests that r's log orders for execution. */
  function LogOf(s: State, r: nat): seq<Action>
    requires r < |s.replicas|
  {
    Requests(Executed(Entries(Content(s), Flatten(s.replicas[r].log))))
  }

  /** The cross-replica requests in the first k sequences of replica 0. */
  function SharedUpTo(s: State, k: nat): seq<Action>
    requires |s.replicas| > 0
  {
    Requests(Crosses(Entries(Content(s),
        Flatten(if k <= |s.replicas[0].log| then s.replicas[0].log[..k] else s.replicas[0].log))))
  }

  function Shared(s: State): seq<Action>
    requires |s.replicas| > 0
  {
    SharedUpTo(s, |s.replicas[0].log|)
  }

  function Logs(s: State): seq<seq<Action>> {
    seq(|s.replicas|, r requires 0 <= r < |s.replicas| => LogOf(s, r))
  }

  // ---- The invariant ----

  ghost predicate BlockOk(c: Cluster, s: State, id: nat)
    requires id in s.blocks
  {
    var b := s.blocks[id];
    && b.home < c.replicas
    && (forall a :: a in b.entries ==> Routed(c.owner, a) && a.origin == b.home)
    && (b.submit ==>
          && (forall a ::
              a in b.entries ==> Fresh(c.owner, a) && Home(a) == b.home && a.id in s.first && s.first[a.id] == id)
          && forall x :: Occ(b.entries, IdIs(x)) <= 1)
    && (!b.submit ==> b.home > 0 && forall a ::
        a in b.entries ==> a.generated && Cross(a) && !a.fake && Involves(b.home, a))
  }

  ghost predicate BlocksOk(c: Cluster, s: State) {
    && (forall id {:trigger s.blocks[id]} :: id in s.blocks ==> BlockOk(c, s, id))
    && forall x {:trigger s.first[x]} :: x in s.first ==> s.first[x] in s.blocks
  }

  ghost predicate PlacedOk(s: State, r: nat)
    requires r < |s.replicas|
  {
    && NoRepeats(Placed(s.replicas[r]))
    && forall id {:trigger id in s.blocks} :: id in Placed(s.replicas[r]) ==> id in s.blocks && s.blocks[id].home == r
  }

  ghost predicate MessageOk(c: Cluster, s: State, m: Message)
    requires Shaped(c, s)
  {
    && m.id in s.blocks && s.blocks[m.id].home < c.replicas
    && var b := s.blocks[m.id];
       match m
       case BatchTo(id, to) =>
         to < c.replicas && (to == b.home && b.submit ==> id !in Placed(s.replicas[to]) && SubmitOf(id) !in s.flying)
       case SubmitOf(id) => b.submit && id !in Placed(s.replicas[b.home])
       case FakesTo(_, to, entries) => to < c.replicas && to != b.home && entries == Copies(to, b.entries)
  }

  ghost predicate MessagesOk(c: Cluster, s: State)
    requires Shaped(c, s)
  {
    forall m {:trigger m in s.flying} :: m in s.flying ==> MessageOk(c, s, m)
  }

  ghost predicate FakesOk(s: State, r: nat)
    requires r < |s.replicas|
  {
    var fakes := s.replicas[r].fakes;
    forall id {:trigger id in fakes} ::
        id in fakes ==> id in s.blocks && s.blocks[id].home != r && fakes[id] == Copies(r, s.blocks[id].entries)
  }

  /** The cross-replica actions that r's log orders are those of replica 0's log that involve r, as far as r has
      taken them and in replica 0's order. */
  ghost predicate SharedOk(c: Cluster, s: State, r: nat)
    requires Shaped(c, s) && r < c.replicas
  {
    r > 0 ==>
        Requests(Crosses(Entries(Content(s), Placed(s.replicas[r])))) == For(r, SharedUpTo(s, s.replicas[r].taken[0]))
  }

  function PartOf(all: seq<(nat, seq<nat>)>, origin: nat): seq<seq<nat>> {
    if all == [] then [] else PartOf(all[..|all| - 1], origin) + if all[|all| - 1].0 == origin then
        [all[|all| - 1].1] else []
  }

  /** What r logs of each replica is a prefix of that replica's log, and all of its own. */
  ghost predicate MirrorOk(c: Cluster, s: State, r: nat)
    requires Shaped(c, s) && r < c.replicas
  {
    forall q {:trigger s.replicas[q]} :: 0 <= q < c.replicas ==>
      var k := if q == r then |s.replicas[q].log| else s.replicas[r].taken[q];
      k <= |s.replicas[q].log| && PartOf(s.replicas[r].all, q) == s.replicas[q].log[..k]
  }

  ghost predicate Inv(c: Cluster, s: State) {
    && Shaped(c, s) && BlocksOk(c, s) && MessagesOk(c, s)
    && forall r {:trigger s.replicas[r]} ::
        0 <= r < c.replicas ==> PlacedOk(s, r) && FakesOk(s, r) && SharedOk(c, s, r) && MirrorOk(c, s, r)
  }

  // ---- Requests and filters ----

  lemma {:induction false} RequestsFilter(s: seq<Action>, p: Action -> bool, q: Action -> bool)
    requires forall a {:trigger p(a)} :: q(Request(a)) == p(a)
    ensures Filter(Requests(s), q) == Requests(Filter(s, p))
  {
    if s != [] {
      hide Request;
      var a := s[0];
      RequestsFilter(s[1..], p, q);
      assert q(Request(a)) == p(a);
      FilterHead(Request(a), Requests(s[1..]), q);
      FilterHead(a, s[1..], p);
      assert s == [a] + s[1..];
      RequestsConcat([a], Filter(s[1..], p));
      assert Requests([a]) == [Request(a)];
      assert Requests(s) == [Request(a)] + Requests(s[1..]);
    }
  }

  lemma RequestsConcat(s: seq<Action>, t: seq<Action>)
    ensures Requests(s + t) == Requests(s) + Requests(t)
  {
    hide Request;
  }

  lemma RequestsPrefix(s: seq<Action>, t: seq<Action>)
    requires s <= t
    ensures Requests(s) <= Requests(t)
  {
    hide Request;
  }

  /** An entry comes from one of the blocks. */
  lemma {:induction false} EntryOf(content: nat -> seq<Action>, ids: seq<nat>, a: Action) returns (id: nat)
    requires a in Entries(content, ids)
    ensures id in ids && a in content(id)
  {
    if a in content(ids[0]) {
      id := ids[0];
    } else {
      id := EntryOf(content, ids[1..], a);
    }
  }

  lemma EntriesPrefix(content: nat -> seq<Action>, p: seq<nat>, q: seq<nat>)
    requires p <= q
    ensures Entries(content, p) <= Entries(content, q)
  {
    assert q == p + q[|p|..];
    EntriesConcat(content, p, q[|p|..]);
  }

  lemma {:induction false} FlattenPrefix(log: seq<seq<nat>>, k: nat)
    requires k <= |log|
    ensures Flatten(log[..k]) <= Flatten(log)
    decreases |log| - k
  {
    if k < |log| {
      assert log[..k + 1][..k] == log[..k];
      FlattenPrefix(log, k + 1);
    } else {
      assert log[..k] == log;
    }
  }

  // ---- What the invariant says of the entries ----

  ghost predicate AllHome(s: State, r: nat, ids: seq<nat>) {
    forall id {:trigger id in s.blocks} :: id in ids ==> id in s.blocks && s.blocks[id].home == r
  }

  /** An action in r's log: first ordered there, or copied there because it involves r. */
  ghost predicate Belongs(c: Cluster, r: nat, a: Action) {
    && Routed(c.owner, a) && a.origin == r
    && if a.generated then r > 0 && Cross(a) && !a.fake && Involves(r, a) else Fresh(c.owner, a) && Home(a) == r
  }

  lemma EntriesBelong(c: Cluster, s: State, r: nat, ids: seq<nat>)
    requires BlocksOk(c, s) && AllHome(s, r, ids)
    ensures forall a :: a in Entries(Content(s), ids) ==> Belongs(c, r, a)
  {
    hide Entries, Routed;
    forall a | a in Entries(Content(s), ids) ensures Belongs(c, r, a) {
      var id := EntryOf(Content(s), ids, a);
      assert BlockOk(c, s, id) by { var b := s.blocks[id]; }
    }
  }

  lemma LogHome(c: Cluster, s: State, r: nat, k: nat)
    requires Inv(c, s) && r < c.replicas && k <= |s.replicas[r].log|
    ensures AllHome(s, r, Flatten(s.replicas[r].log[..k]))
    ensures AllHome(s, r, Flatten(s.replicas[r].log)) && AllHome(s, r, Placed(s.replicas[r]))
  {
    hide BlocksOk, MessagesOk, FakesOk, SharedOk, MirrorOk, Flatten, NoRepeats;
    FlattenPrefix(s.replicas[r].log, k);
    assert PlacedOk(s, r);
  }

  /** In r > 0 nothing is fake; in 0 exactly what does not involve 0. */
  lemma BelongsFacts(c: Cluster, r: nat, a: Action)
    requires Belongs(c, r, a)
    ensures r > 0 ==> !a.fake
    ensures r == 0 ==> (a.fake <==> Cross(a) && !Involves(0, a)) && !a.generated
    ensures !a.fake ==> Involves(r, a) && (!Cross(a) ==> a.involved == [r] && !a.generated)
  {
    hide Routed;
    if !a.generated && !Cross(a) {
      assert |a.involved| == 1 by { InvolvedOne(c, a); }
    }
  }

  lemma InvolvedOne(c: Cluster, a: Action)
    requires Routed(c.owner, a)
    ensures a.involved != [] && (!Cross(a) ==> |a.involved| == 1)
  {}

  lemma ExecutedLogOk(c: Cluster, s: State, r: nat)
    requires Inv(c, s) && r < c.replicas
    ensures LogOk(r, LogOf(s, r))
  {
    hide BlocksOk, MessagesOk, PlacedOk, FakesOk, SharedOk, MirrorOk, Entries, AllHome, Belongs, Shaped, Filter;
    ShapedAt(c, s, r);
    var ids := Flatten(s.replicas[r].log);
    var e := Entries(Content(s), ids);
    LogHome(c, s, r, 0);
    EntriesBelong(c, s, r, ids);
    FilterHolds(e, (a: Action) => !a.fake);
    forall b | b in LogOf(s, r) ensures Involves(r, b) && (!Cross(b) ==> b.involved == [r]) {
      var i :| 0 <= i < |LogOf(s, r)| && LogOf(s, r)[i] == b;
      var a := Executed(e)[i];
      assert a in Executed(e);
      BelongsFacts(c, r, a);
    }
  }

  /** The cross-replica requests that replica 0 executes are those of its log that involve it. */
  lemma CrossesOfZero(c: Cluster, s: State)
    requires Inv(c, s) && c.replicas > 0
    ensures |s.replicas| == c.replicas && Crosses(LogOf(s, 0)) == For(0, Shared(s))
  {
    hide BlocksOk, MessagesOk, PlacedOk, FakesOk, SharedOk, MirrorOk, Entries, AllHome, Belongs, Shaped, Filter,
        Flatten, Request;
    ShapedAt(c, s, 0);
    var me := s.replicas[0];
    var ids := Flatten(me.log);
    var e := Entries(Content(s), ids);
    LogHome(c, s, 0, 0);
    EntriesBelong(c, s, 0, ids);
    forall a | a in e ensures a.fake <==> Cross(a) && !Involves(0, a) { BelongsFacts(c, 0, a); }
    RequestCross();
    RequestsFilter(Executed(e), CrossOf(), CrossOf());
    var both := (a: Action) => Cross(a) && Involves(0, a);
    FilterFilter(e, (a: Action) => !a.fake, CrossOf(), both);
    FilterFilter(e, CrossOf(), InvolvesOf(0), both);
    RequestInvolves(0);
    RequestsFilter(Crosses(e), InvolvesOf(0), InvolvesOf(0));
    assert me.log[..|me.log|] == me.log;
  }

  lemma CrossesOfOther(c: Cluster, s: State, r: nat)
    requires Inv(c, s) && 0 < r < c.replicas
    ensures |s.replicas| == c.replicas
    ensures Requests(Crosses(Entries(Content(s), Flatten(s.replicas[r].log)))) == Crosses(LogOf(s, r))
  {
    hide BlocksOk, MessagesOk, PlacedOk, FakesOk, SharedOk, MirrorOk, Entries, AllHome, Belongs, Shaped, Filter,
        Flatten, Request;
    ShapedAt(c, s, r);
    var ids := Flatten(s.replicas[r].log);
    var e := Entries(Content(s), ids);
    LogHome(c, s, r, 0);
    EntriesBelong(c, s, r, ids);
    forall a | a in e ensures !a.fake { BelongsFacts(c, r, a); }
    RequestCross();
    FilterAll(e, (a: Action) => !a.fake);
    RequestsFilter(e, CrossOf(), CrossOf());
  }

  lemma CrossesFor(c: Cluster, s: State, r: nat)
    requires Inv(c, s) && r < c.replicas
    ensures Crosses(LogOf(s, r)) <= For(r, Shared(s))
    ensures r == 0 || (s.replicas[r].pending == [] && s.replicas[r].taken[0] == |s.replicas[0].log|) ==>
        Crosses(LogOf(s, r)) == For(r, Shared(s))
  {
    hide BlocksOk, MessagesOk, PlacedOk, FakesOk, MirrorOk, Entries, LogOf, Filter, Flatten, Requests;
    if r == 0 {
      CrossesOfZero(c, s);
    } else {
      CrossesOfOther(c, s, r);
      var me := s.replicas[r];
      assert SharedOk(c, s, r);
      hide Inv, SharedUpTo;
      var ids := Flatten(me.log);
      if me.pending == [] { assert Placed(me) == ids; }
      EntriesPrefix(Content(s), ids, Placed(me));
      FilterPrefix(Entries(Content(s), ids), Entries(Content(s), Placed(me)), CrossOf());
      RequestsPrefix(Crosses(Entries(Content(s), ids)), Crosses(Entries(Content(s), Placed(me))));
      SharedGrows(s, me.taken[0]);
      FilterPrefix(SharedUpTo(s, me.taken[0]), Shared(s), InvolvesOf(r));
    }
  }

  lemma ShapedAt(c: Cluster, s: State, r: nat)
    requires Shaped(c, s) && r < c.replicas
    ensures |s.replicas| == c.replicas && |s.replicas[r].taken| == c.replicas
  {}

  lemma RequestCross()
    ensures forall a {:trigger CrossOf()(a)} :: CrossOf()(Request(a)) == CrossOf()(a)
  {}

  lemma RequestInvolves(r: nat)
    ensures forall a {:trigger InvolvesOf(r)(a)} :: InvolvesOf(r)(Request(a)) == InvolvesOf(r)(a)
  {}

  lemma SharedGrows(s: State, k: nat)
    requires |s.replicas| > 0
    ensures SharedUpTo(s, k) <= Shared(s)
  {
    hide Entries, Flatten, Request, Filter;
    var log := s.replicas[0].log;
    var j := if k <= |log| then k else |log|;
    assert log[..|log|] == log;
    FlattenPrefix(log, j);
    EntriesPrefix(Content(s), Flatten(log[..j]), Flatten(log));
    FilterPrefix(Entries(Content(s), Flatten(log[..j])), Entries(Content(s), Flatten(log)), CrossOf());
    RequestsPrefix(Crosses(Entries(Content(s), Flatten(log[..j]))), Crosses(Entries(Content(s), Flatten(log))));
  }

  /** The logs of every reachable state can be woven. */
  lemma LogsFit(c: Cluster, s: State)
    requires Inv(c, s) && c.replicas > 0
    ensures Fits(Shared(s), Logs(s))
  {
    hide BlocksOk, MessagesOk, PlacedOk, FakesOk, SharedOk, MirrorOk, Entries, Filter, Flatten, Request, LogOf;
    forall r {:trigger Logs(s)[r]} | 0 <= r < |Logs(s)| ensures LogOk(r, Logs(s)[r]) &&
        Crosses(Logs(s)[r]) <= For(r, Shared(s)) {
      ExecutedLogOk(c, s, r);
      CrossesFor(c, s, r);
    }
    var e := Entries(Content(s), Flatten(s.replicas[0].log[..|s.replicas[0].log|]));
    FilterHolds(e, CrossOf());
    RequestCross();
    forall b | b in Shared(s) ensures Cross(b) {
      var i :| 0 <= i < |Shared(s)| && Shared(s)[i] == b;
      assert Crosses(e)[i] in Crosses(e);
      assert CrossOf()(Crosses(e)[i]);
    }
  }

  // ---- Nothing is ordered twice ----

  /** A request that stays in one replica and is executed, or any request first stored in replica 0. */
  function Own(r: nat): Action -> bool {
    (a: Action) => !a.generated && (r == 0 || (!a.fake && !Cross(a)))
  }

  lemma {:induction false} OccAtMost(s: seq<Action>, p: Action -> bool, q: Action -> bool)
    ensures Occ(Filter(s, p), q) <= Occ(s, q)
  {
    if s != [] {
      OccAtMost(s[1..], p, q);
      FilterHead(s[0], s[1..], p);
      OccConcat([s[0]], Filter(s[1..], p), q);
      assert s == [s[0]] + s[1..];
      OccConcat([s[0]], s[1..], q);
    }
  }

  lemma {:induction false} OccApart(s: seq<Action>, p: Action -> bool, q: Action -> bool, x: Action -> bool)
    requires forall a :: a in s ==> !(p(a) && q(a))
    ensures Occ(Filter(s, p), x) + Occ(Filter(s, q), x) <= Occ(s, x)
  {
    if s != [] {
      assert s[0] in s;
      assert s == [s[0]] + s[1..];
      OccApart(s[1..], p, q, x);
      FilterHead(s[0], s[1..], p);
      FilterHead(s[0], s[1..], q);
      OccConcat([s[0]], Filter(s[1..], p), x);
      OccConcat([s[0]], Filter(s[1..], q), x);
      OccConcat([s[0]], s[1..], x);
    }
  }

  lemma OccRequests(s: seq<Action>, x: nat)
    ensures Occ(Requests(s), IdIs(x)) == Occ(s, IdIs(x))
  {
    forall a {:trigger IdIs(x)(a)} ensures IdIs(x)(Request(a)) == IdIs(x)(a) {}
    RequestsFilter(s, IdIs(x), IdIs(x));
  }

  /** Own requests of one block. */
  lemma BlockOcc(c: Cluster, s: State, r: nat, id: nat, x: nat)
    requires BlocksOk(c, s) && id in s.blocks && s.blocks[id].home == r
    ensures Occ(Filter(Content(s)(id), Own(r)), IdIs(x)) <= if x in s.first && s.first[x] == id then 1 else 0
  {
    hide Routed;
    var b := s.blocks[id];
    assert BlockOk(c, s, id);
    if b.submit {
      if x in s.first && s.first[x] == id {
        OccAtMost(b.entries, Own(r), IdIs(x));
      } else {
        FilterHolds(b.entries, Own(r));
        FilterNone(Filter(b.entries, Own(r)), IdIs(x));
      }
    } else {
      FilterNone(b.entries, Own(r));
      OccNone(IdIs(x));
    }
  }

  lemma {:induction false} EntriesOcc(c: Cluster, s: State, r: nat, ids: seq<nat>, x: nat)
    requires BlocksOk(c, s) && AllHome(s, r, ids) && NoRepeats(ids)
    ensures Occ(Filter(Entries(Content(s), ids), Own(r)), IdIs(x)) <= if x in s.first && s.first[x] in ids then 1 else 0
  {
    if ids != [] {
      hide BlocksOk, Own, Filter;
      var head, tail := Content(s)(ids[0]), Entries(Content(s), ids[1..]);
      assert ids[0] in ids && ids == [ids[0]] + ids[1..];
      EntriesOcc(c, s, r, ids[1..], x);
      BlockOcc(c, s, r, ids[0], x);
      FilterConcat(head, tail, Own(r));
      OccConcat(Filter(head, Own(r)), Filter(tail, Own(r)), IdIs(x));
    } else {
      OccNone(IdIs(x));
    }
  }

  lemma LogRepeatsNot(c: Cluster, s: State, r: nat)
    requires Inv(c, s) && r < c.replicas
    ensures NoRepeats(Flatten(s.replicas[r].log))
  {
    hide BlocksOk, MessagesOk, FakesOk, SharedOk, MirrorOk, Flatten;
    assert PlacedOk(s, r);
    var p, f := Placed(s.replicas[r]), Flatten(s.replicas[r].log);
    forall i, j | 0 <= i < j < |f| ensures f[i] != f[j] { assert p[i] == f[i] && p[j] == f[j]; }
  }

  /** Where request x was first ordered, if anywhere. */
  ghost predicate FirstAt(s: State, x: nat, r: nat)
    requires r < |s.replicas|
  {
    x in s.first && s.first[x] in Flatten(s.replicas[r].log)
  }

  lemma OneHome(c: Cluster, s: State, x: nat, r: nat, q: nat)
    requires Inv(c, s) && r < c.replicas && q < c.replicas && FirstAt(s, x, r) && FirstAt(s, x, q)
    ensures r == q
  {
    hide BlocksOk, MessagesOk, PlacedOk, FakesOk, SharedOk, MirrorOk, Flatten;
    LogHome(c, s, r, 0);
    LogHome(c, s, q, 0);
    assert s.first[x] in s.blocks;
  }

  /** The requests that stay in r, as often as they are ordered by r. */
  lemma SinglesOcc(c: Cluster, s: State, r: nat, x: nat)
    requires Inv(c, s) && r < c.replicas
    ensures Occ(Singles(LogOf(s, r)), IdIs(x)) + (if r == 0 then Occ(Shared(s), IdIs(x))
        else 0) <= if FirstAt(s, x, r) then 1 else 0
  {
    hide BlocksOk, MessagesOk, PlacedOk, FakesOk, SharedOk, MirrorOk, Entries, Flatten, Filter, Request, Belongs,
        AllHome, NoRepeats, Occ;
    ShapedAt(c, s, r);
    var ids := Flatten(s.replicas[r].log);
    var e := Entries(Content(s), ids);
    LogHome(c, s, r, 0);
    LogRepeatsNot(c, s, r);
    EntriesOcc(c, s, r, ids, x);
    EntriesBelong(c, s, r, ids);
    var here := (a: Action) => !a.fake && !Cross(a);
    var single := (a: Action) => !Cross(a);
    FilterFilter(e, (a: Action) => !a.fake, single, here);
    forall a {:trigger single(a)} ensures single(Request(a)) == single(a) { SingleRequest(a); }
    RequestsFilter(Executed(e), single, single);
    OccRequests(Filter(e, here), x);
    forall a | a in e ensures (here(a) ==> Own(r)(a)) && (r == 0 ==> Own(r)(a)) { BelongsFacts(c, r, a); }
    if r == 0 {
      FilterAll(e, Own(r));
      OccApart(e, CrossOf(), here, IdIs(x));
      OccRequests(Crosses(e), x);
      assert s.replicas[0].log[..|s.replicas[0].log|] == s.replicas[0].log;
    } else {
      FilterFilter(e, Own(r), here, here);
      OccAtMost(Filter(e, Own(r)), here, IdIs(x));
    }
  }

  lemma SingleRequest(a: Action)
    ensures Cross(Request(a)) == Cross(a)
  {}

  lemma {:induction false} SinglesBound(c: Cluster, s: State, n: nat, x: nat)
    requires Inv(c, s) && 0 < n <= c.replicas
    ensures SinglesIn(Logs(s)[..n], IdIs(x)) + Occ(Shared(s), IdIs(x)) <= 1
    ensures SinglesIn(Logs(s)[..n], IdIs(x)) + Occ(Shared(s), IdIs(x)) == 1 ==> exists r ::
        0 <= r < n && FirstAt(s, x, r)
  {
    hide Inv, LogOf, FirstAt, Shared, Singles, Occ;
    assert |s.replicas| == c.replicas by { assert Shaped(c, s) by { InvShaped(c, s); } }
    var logs := Logs(s)[..n];
    assert logs[..n - 1] == Logs(s)[..n - 1] && logs[n - 1] == LogOf(s, n - 1);
    SinglesOcc(c, s, n - 1, x);
    if n > 1 {
      SinglesBound(c, s, n - 1, x);
      if SinglesIn(logs[..n - 1], IdIs(x)) + Occ(Shared(s), IdIs(x)) == 1 {
        var r :| 0 <= r < n - 1 && FirstAt(s, x, r);
        if FirstAt(s, x, n - 1) { OneHome(c, s, x, r, n - 1); }
      }
    } else {
      assert SinglesIn([], IdIs(x)) == 0;
      assert logs[..0] == [];
    }
  }

  lemma InvShaped(c: Cluster, s: State)
    requires Inv(c, s)
    ensures Shaped(c, s)
  {}

  // ---- One order ----

  ghost function WholeOrder(s: State): seq<Action>
    requires |s.replicas| > 0
  {
    Weave(Shared(s), Logs(s))
  }

  /** In every reachable state one order of all requests, none twice, extends every replica's log: each log is a prefix
      of the order's part that involves its replica. */
  lemma OneTotalOrder(c: Cluster, s: State)
    requires Inv(c, s) && c.replicas > 0
    ensures |s.replicas| == c.replicas
    ensures forall r :: 0 <= r < c.replicas ==> LogOf(s, r) <= For(r, WholeOrder(s))
    ensures forall x :: Occ(WholeOrder(s), IdIs(x)) <= 1
  {
    hide Inv, LogOf, Shared, Weave, For, Occ, Fits;
    InvShaped(c, s);
    LogsFit(c, s);
    forall r | 0 <= r < c.replicas ensures LogOf(s, r) <= For(r, WholeOrder(s)) {
      LogsArePrefixes(Shared(s), Logs(s), r);
    }
    forall x ensures Occ(WholeOrder(s), IdIs(x)) <= 1 {
      WeaveOcc(Shared(s), Logs(s), IdIs(x));
      assert Logs(s)[..c.replicas] == Logs(s);
      SinglesBound(c, s, c.replicas, x);
    }
  }

  lemma PrefixBefore(s: seq<Action>, t: seq<Action>, x: nat, y: nat)
    requires s <= t && Before(s, x, y)
    ensures Before(t, x, y)
  {
    var i, j :| 0 <= i < j < |s| && s[i].id == x && s[j].id == y;
    assert t[i].id == x && t[j].id == y;
  }

  /** No two replicas order two requests differently. */
  lemma NeverOpposite(c: Cluster, s: State, r: nat, q: nat, x: nat, y: nat)
    requires Inv(c, s) && r < c.replicas && q < c.replicas
    requires Before(LogOf(s, r), x, y)
    ensures !Before(LogOf(s, q), y, x)
  {
    hide Inv, LogOf, Before, Occ, WholeOrder;
    OneTotalOrder(c, s);
    var t := WholeOrder(s);
    PrefixBefore(LogOf(s, r), For(r, t), x, y);
    FilterBefore(t, InvolvesOf(r), x, y);
    NotBoth(t, x, y);
    if Before(LogOf(s, q), y, x) {
      PrefixBefore(LogOf(s, q), For(q, t), y, x);
      FilterBefore(t, InvolvesOf(q), y, x);
    }
  }
}
