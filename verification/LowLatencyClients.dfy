/** What the clients of the low-latency system submitted is what its logs execute, and who answers them: a copy of a
    request that another replica answers has lost its client, and no other entry has (src_lowlatency/fs/block_log.h). */
module LowLatencyClients {
  import opened Collections
  import opened ActionLog
  import opened LowLatency
  import opened TotalOrder
  import opened LowLatencyOrder
  import opened LowLatencySteps
  import opened LowLatencyDelivery

  /** The requests that the blocks of a run were stored with. */
  function Submitted(steps: seq<Step>): set<Action> {
    if steps == [] then {} else ByStep(steps[0]) + Submitted(steps[1..])
  }

  function ByStep(step: Step): set<Action> {
    if step.Store? then set a | a in step.queue else {}
  }

  /** Replica 0 answers what involves it; all replicas involved answer what does not. */
  function ClientAt(r: nat, q: Action): Option<Client> {
    if Cross(q) && r > 0 && Involves(0, q) then None else q.client
  }

  /** What an entry of replica r's blocks has of its request, whose place in the block is at offset. */
  predicate From(r: nat, q: Action, a: Action) {
    if Cross(q) && r > 0
    then a == q.(client := ClientAt(r, q), origin := r, offset := a.offset, fake := false, generated := true)
    else a == q.(origin := r, offset := a.offset)
  }

  /** Executed entries are numbered from 0. */
  predicate OffsetsOk(entries: seq<Action>) {
    var e := Executed(entries);
    forall i {:trigger e[i]} :: 0 <= i < |e| ==> e[i].offset == i
  }

  ghost predicate BlockFrom(s: State, subs: set<Action>, id: nat)
    requires id in s.blocks
  {
    var b := s.blocks[id];
    && OffsetsOk(b.entries)
    && forall a :: a in b.entries ==> exists q :: q in subs && From(b.home, q, a)
  }

  ghost predicate SubmitStored(s: State, q: Action) {
    && q.id in s.first
    && exists id, a ::
        id in s.blocks && s.blocks[id].submit && a in s.blocks[id].entries &&
        a == q.(origin := a.origin, offset := a.offset)
  }

  predicate IdsOnce(subs: set<Action>) {
    forall q, q' :: q in subs && q' in subs && q.id == q'.id ==> q == q'
  }

  ghost predicate AllStored(c: Cluster, s: State, subs: set<Action>) {
    forall q {:trigger q in subs} :: q in subs ==> SubmitStored(s, q) && Fresh(c.owner, q)
  }

  ghost predicate AllFrom(s: State, subs: set<Action>) {
    forall id {:trigger BlockFrom(s, subs, id)} :: id in s.blocks ==> BlockFrom(s, subs, id)
  }

  ghost predicate ClientsOk(c: Cluster, s: State, subs: set<Action>) {
    AllStored(c, s, subs) && IdsOnce(subs) && AllFrom(s, subs)
  }

  lemma InitClients(c: Cluster)
    ensures ClientsOk(c, Init(c), {})
  {}

  // ---- Steps ----

  /** Blocks that are there stay, and so does where their entries come from. */
  lemma KeptFrom(s: State, t: State, subs: set<Action>, more: set<Action>, id: nat)
    requires id in s.blocks && id in t.blocks && t.blocks[id] == s.blocks[id] && BlockFrom(s, subs, id)
    ensures BlockFrom(t, subs + more, id)
  {
    hide OffsetsOk, From;
    forall a | a in t.blocks[id].entries ensures exists q :: q in subs + more && From(t.blocks[id].home, q, a) {
      var q :| q in subs && From(t.blocks[id].home, q, a);
      assert q in subs + more;
    }
  }

  lemma KeptStored(s: State, t: State, q: Action)
    requires Grows(s, t) && SubmitStored(s, q)
    ensures SubmitStored(t, q)
  {
    var id, a :| id in s.blocks && s.blocks[id].submit && a in s.blocks[id].entries &&
        a == q.(origin := a.origin, offset := a.offset);
    assert t.blocks[id] == s.blocks[id];
    assert t.first[q.id] == s.first[q.id];
  }

  /** A step that adds no block. */
  lemma SameClients(c: Cluster, s: State, t: State, subs: set<Action>)
    requires ClientsOk(c, s, subs) && t.blocks == s.blocks && t.first == s.first && |t.replicas| == |s.replicas|
    ensures ClientsOk(c, t, subs)
  {
    hide BlockFrom, SubmitStored, Fresh, IdsOnce;
    forall id {:trigger BlockFrom(t, subs, id)} | id in t.blocks ensures BlockFrom(t, subs, id) {
      assert BlockFrom(s, subs, id);
      KeptFrom(s, t, subs, {}, id);
      assert subs + {} == subs;
    }
    AllKept(c, s, t, subs);
  }

  lemma AllKept(c: Cluster, s: State, t: State, subs: set<Action>)
    requires AllStored(c, s, subs) && Grows(s, t)
    ensures AllStored(c, t, subs)
  {
    hide SubmitStored, Fresh, Grows;
    forall q {:trigger q in subs} | q in subs ensures SubmitStored(t, q) && Fresh(c.owner, q) {
      assert SubmitStored(s, q);
      KeptStored(s, t, q);
    }
  }

  lemma StampedOffsets(queue: seq<Action>, r: nat)
    ensures OffsetsOk(Stamp(queue, r, 0))
  {
    StampNumbers(queue, r, 0);
    hide Executed, Stamp;
  }

  lemma StoreFrom(c: Cluster, s: State, r: nat, id: nat, queue: seq<Action>)
    requires Shaped(c, s) && Enabled(c, s, Store(r, id, queue))
    ensures var t := Do(c, s, Store(r, id, queue));
      && BlockFrom(t, ByStep(Store(r, id, queue)), id)
      && forall q :: q in queue ==> SubmitStored(t, q)
  {
    hide Stamp, OffsetsOk, Fresh, Occ, From, Home;
    var t, b := Do(c, s, Store(r, id, queue)), Stamp(queue, r, 0);
    StampedOffsets(queue, r);
    forall a | a in b ensures exists q :: q in ByStep(Store(r, id, queue)) && From(r, q, a) {
      var i :| 0 <= i < |b| && b[i] == a;
      assert queue[i] in queue;
      StampedFrom(c, queue, r, i);
    }
    forall q | q in queue ensures SubmitStored(t, q) {
      var i :| 0 <= i < |queue| && queue[i] == q;
      StampedFrom(c, queue, r, i);
      assert b[i] in t.blocks[id].entries && t.blocks[id].submit;
    }
  }

  lemma StampedFrom(c: Cluster, queue: seq<Action>, r: nat, i: nat)
    requires i < |queue| && Fresh(c.owner, queue[i]) && Home(queue[i]) == r
    ensures var q, a := queue[i], Stamp(queue, r, 0)[i];
      From(r, q, a) && a == q.(origin := a.origin, offset := a.offset)
  {
    hide Stamp, Routed;
    StampIs(queue, r, 0, i);
  }

  lemma {:induction false} OnceById(queue: seq<Action>, a: Action, b: Action)
    requires a in queue && b in queue && a.id == b.id && Occ(queue, IdIs(a.id)) <= 1
    ensures a == b
  {
    hide IdIs;
    var f := Filter(queue, IdIs(a.id));
    FilterHolds(queue, IdIs(a.id));
    IdIsItself(a);
    IdIsItself(b);
    assert a in f && b in f;
    assert f[0] == a && f[0] == b;
  }

  lemma IdIsItself(a: Action)
    ensures IdIs(a.id)(a)
  {}

  lemma StoreClients(c: Cluster, s: State, subs: set<Action>, r: nat, id: nat, queue: seq<Action>)
    requires Inv(c, s) && Enabled(c, s, Store(r, id, queue)) && ClientsOk(c, s, subs)
    ensures ClientsOk(c, Do(c, s, Store(r, id, queue)), subs + ByStep(Store(r, id, queue)))
  {
    hide BlockFrom, SubmitStored, Inv, Stamp, From, OffsetsOk, Occ, Fresh, Home, AllFrom;
    InvShaped(c, s);
    var t, news := Do(c, s, Store(r, id, queue)), ByStep(Store(r, id, queue));
    StoreFrom(c, s, r, id, queue);
    StoreGrows(c, s, r, id, queue);
    StoreAllFrom(s, t, subs, news, id);
    AllKept(c, s, t, subs);
    forall q {:trigger q in subs + news} | q in subs + news ensures SubmitStored(t, q) && Fresh(c.owner, q) {}
    forall q, q' | q in subs + news && q' in subs + news && q.id == q'.id ensures q == q' {
      if q in queue && q' in queue { OnceById(queue, q, q'); }
      if q in subs { StoredFirst(s, q); }
      if q' in subs { StoredFirst(s, q'); }
    }
  }

  lemma StoreAllFrom(s: State, t: State, subs: set<Action>, news: set<Action>, id: nat)
    requires AllFrom(s, subs) && Grows(s, t) && t.blocks.Keys == s.blocks.Keys + {id} && id in t.blocks
    requires BlockFrom(t, news, id)
    ensures AllFrom(t, subs + news)
  {
    hide BlockFrom;
    forall b {:trigger BlockFrom(t, subs + news, b)} | b in t.blocks ensures BlockFrom(t, subs + news, b) {
      if b == id {
        KeptFrom(t, t, news, subs, id);
        assert news + subs == subs + news;
      } else {
        assert BlockFrom(s, subs, b);
        KeptFrom(s, t, subs, news, b);
      }
    }
  }

  lemma StoredFirst(s: State, q: Action)
    ensures SubmitStored(s, q) ==> q.id in s.first
  {}

  lemma StoreGrows(c: Cluster, s: State, r: nat, id: nat, queue: seq<Action>)
    requires Shaped(c, s) && Enabled(c, s, Store(r, id, queue))
    ensures var t := Do(c, s, Store(r, id, queue));
      Grows(s, t) && t.blocks == s.blocks[id := Block(r, true, Stamp(queue, r, 0))]
  {
    hide Stamp;
  }

  /** A copy is made of an entry of replica 0, as its client stored it. */
  lemma CopyFrom(c: Cluster, s: State, subs: set<Action>, id: nat, x: Action, a: Action, r: nat)
    requires ClientsOk(c, s, subs) && id in s.blocks && x in s.blocks[id].entries && s.blocks[id].home == 0 && r > 0
    requires Cross(x) && a == Regenerated(x).(origin := r, offset := a.offset)
    ensures exists q :: q in subs && From(r, q, a)
  {
    hide Routed, OffsetsOk;
    assert BlockFrom(s, subs, id);
    var q :| q in subs && From(0, q, x);
    assert SubmitStored(s, q) && Fresh(c.owner, q);
    assert From(r, q, a);
  }

  lemma RemoteFrom(c: Cluster, s: State, subs: set<Action>, r: nat, from: nat, id: nat)
    requires Inv(c, s) && Enabled(c, s, Remote(r, from, id)) && ClientsOk(c, s, subs)
    requires NewBlock(c, s, r, from) != []
    ensures BlockFrom(Do(c, s, Remote(r, from, id)), subs, id)
  {
    hide Inv, Stamp, AllRegenerated, Filter, Entries, ClientsOk, OffsetsOk, From, Taken, NextSequence, Content, Cross;
    InvShaped(c, s);
    NewBlockOk(c, s, r, from, id);
    NewBlockIs(c, s, r, from, id);
    NextHome(c, s, r, from);
    var ids := NextSequence(c, s, r, from);
    var e := Entries(Content(s), ids);
    var x := Copies(r, e);
    var y, z := AllRegenerated(x), NewBlock(c, s, r, from);
    StampedOffsets(y, r);
    StampedIs(y, r, 0);
    FilterHolds(e, NeedsCopyOf(r));
    forall a | a in z ensures exists q :: q in subs && From(r, q, a) {
      var i :| 0 <= i < |z| && z[i] == a;
      assert y[i] == Regenerated(x[i]) && x[i] in x;
      var b := EntryOf(Content(s), ids, x[i]);
      ContentAt(s, b);
      CopyFrom(c, s, subs, b, x[i], a, r);
    }
  }

  lemma ContentAt(s: State, id: nat)
    ensures Content(s)(id) == if id in s.blocks then s.blocks[id].entries else []
  {}

  lemma RemoteClients(c: Cluster, s: State, subs: set<Action>, r: nat, from: nat, id: nat)
    requires Inv(c, s) && Enabled(c, s, Remote(r, from, id)) && ClientsOk(c, s, subs)
    ensures ClientsOk(c, Do(c, s, Remote(r, from, id)), subs)
  {
    hide BlockFrom, SubmitStored, Inv, NewBlock, Taken, NextSequence, Fresh, ClientsOk;
    InvShaped(c, s);
    var t := Do(c, s, Remote(r, from, id));
    if NewBlock(c, s, r, from) == [] {
      SameClients(c, s, t, subs);
    } else {
      RemoteFrom(c, s, subs, r, from, id);
      MoreClients(c, s, t, subs, id);
    }
  }

  lemma MoreClients(c: Cluster, s: State, t: State, subs: set<Action>, id: nat)
    requires ClientsOk(c, s, subs) && Grows(s, t) && t.blocks.Keys == s.blocks.Keys + {id}
    requires id in t.blocks && BlockFrom(t, subs, id)
    ensures ClientsOk(c, t, subs)
  {
    hide BlockFrom, SubmitStored, Fresh, IdsOnce, AllStored;
    AllKept(c, s, t, subs);
    forall b {:trigger BlockFrom(t, subs, b)} | b in t.blocks ensures BlockFrom(t, subs, b) {
      if b != id {
        assert BlockFrom(s, subs, b);
        KeptFrom(s, t, subs, {}, b);
        assert subs + {} == subs;
      }
    }
  }

  lemma StepClients(c: Cluster, s: State, subs: set<Action>, step: Step)
    requires Inv(c, s) && Enabled(c, s, step) && ClientsOk(c, s, subs)
    ensures ClientsOk(c, Do(c, s, step), subs + ByStep(step))
  {
    hide Inv, ClientsOk, Taken, NewBlock, Copies, Stamp, NewRequests;
    InvShaped(c, s);
    assert subs + {} == subs;
    match step
    case Store(r, id, queue) => StoreClients(c, s, subs, r, id, queue);
    case Remote(r, from, id) => RemoteClients(c, s, subs, r, from, id);
    case _ => SameClients(c, s, Do(c, s, step), subs);
  }

  lemma {:induction false} RunClients(c: Cluster, s: State, subs: set<Action>, steps: seq<Step>)
    requires IsRun(c, s, steps) && Inv(c, s) && ClientsOk(c, s, subs)
    ensures Inv(c, Reached(c, s, steps)) && ClientsOk(c, Reached(c, s, steps), subs + Submitted(steps))
    decreases |steps|
  {
    if steps != [] {
      hide Inv, Do, Enabled, ClientsOk, ByStep;
      StepInv(c, s, steps[0]);
      StepClients(c, s, subs, steps[0]);
      RunClients(c, Do(c, s, steps[0]), subs + ByStep(steps[0]), steps[1..]);
      Associate3(subs, ByStep(steps[0]), Submitted(steps[1..]));
    } else {
      assert subs + {} == subs;
    }
  }

  lemma Associate3<T>(a: set<T>, b: set<T>, c: set<T>)
    ensures a + b + c == a + (b + c)
  {}

  // ---- What the logs execute ----

  /** The entries that replica r's log executes. */
  function ExecutedBy(s: State, r: nat): seq<Action>
    requires r < |s.replicas|
  {
    Executed(Entries(Content(s), Flatten(s.replicas[r].log)))
  }

  lemma ExecutedFrom(c: Cluster, s: State, subs: set<Action>, r: nat, a: Action)
    requires Inv(c, s) && ClientsOk(c, s, subs) && r < c.replicas && |s.replicas| == c.replicas
    requires a in ExecutedBy(s, r)
    ensures !a.fake && Involves(r, a) && exists q :: q in subs && From(r, q, a)
  {
    hide Inv, BlockFrom, SubmitStored, Entries, Flatten, Fresh, From, Belongs, Content, AllHome, Filter;
    InvBlocks(c, s);
    var ids := Flatten(s.replicas[r].log);
    FilterHolds(Entries(Content(s), ids), (b: Action) => !b.fake);
    LogHome(c, s, r, 0);
    EntriesBelong(c, s, r, ids);
    BelongsFacts(c, r, a);
    var id := EntryOf(Content(s), ids, a);
    ContentAt(s, id);
    HomeAt(s, r, ids, id);
    assert BlockFrom(s, subs, id);
    BlockEntry(s, subs, id, a);
  }

  lemma InvBlocks(c: Cluster, s: State)
    requires Inv(c, s)
    ensures BlocksOk(c, s)
  {}

  lemma HomeAt(s: State, r: nat, ids: seq<nat>, id: nat)
    requires AllHome(s, r, ids) && id in ids
    ensures id in s.blocks && s.blocks[id].home == r
  {}

  lemma BlockEntry(s: State, subs: set<Action>, id: nat, a: Action)
    requires id in s.blocks && BlockFrom(s, subs, id) && a in s.blocks[id].entries
    ensures exists q :: q in subs && From(s.blocks[id].home, q, a)
  {}

  /** In every run, an entry that replica r's log executes is the one request submitted with its id, unchanged but for
      its origin and offset, and if it crosses replicas and r is not 0 for being a copy that is not fake; its client
      is there unless the request crosses replicas, involves replica 0 and r is another one. */
  lemma ClientsKept(c: Cluster, steps: seq<Step>, r: nat, a: Action)
    requires IsRun(c, Init(c), steps) && r < c.replicas
    requires var s := Reached(c, Init(c), steps); |s.replicas| == c.replicas && a in ExecutedBy(s, r)
    ensures exists q :: q in Submitted(steps) && q.id == a.id
    ensures forall q :: q in Submitted(steps) && q.id == a.id ==>
      && a.client == (if Cross(q) && r > 0 && Involves(0, q) then None else q.client)
      && a == q.(client := a.client, origin := r, offset := a.offset, fake := false, generated := Cross(q) && r > 0)
  {
    hide Inv, IsRun, Reached, ExecutedBy, SubmitStored, BlockFrom;
    InitInv(c);
    InitClients(c);
    RunClients(c, Init(c), {}, steps);
    assert {} + Submitted(steps) == Submitted(steps);
    var s := Reached(c, Init(c), steps);
    ExecutedFrom(c, s, Submitted(steps), r, a);
    var q :| q in Submitted(steps) && From(r, q, a);
    assert SubmitStored(s, q) && Fresh(c.owner, q);
    assert q.id == a.id;
  }

  /** In every run, the executed entries of each block are numbered from 0, as replaying takes for granted. */
  lemma OffsetsCount(c: Cluster, steps: seq<Step>, id: nat)
    requires IsRun(c, Init(c), steps) && id in Reached(c, Init(c), steps).blocks
    ensures var s := Reached(c, Init(c), steps);
      PairOk(Content(s), Pair(id, |Executed(s.blocks[id].entries)|))
  {
    hide Inv, IsRun, Reached, SubmitStored;
    InitInv(c);
    InitClients(c);
    RunClients(c, Init(c), {}, steps);
    var s := Reached(c, Init(c), steps);
    assert BlockFrom(s, {} + Submitted(steps), id);
  }

  /** Every replica that an owner names exists. */
  ghost predicate OwnersExist(c: Cluster) {
    forall x {:trigger c.owner(x)} :: c.owner(x).origin < c.replicas
  }

  /** At rest, the replicas that have an entry with a request's client to answer are: none if it has no client; the one
      that a request involves; replica 0 alone if it is one of several; all of them if it is not. */
  lemma AnsweredBy(c: Cluster, steps: seq<Step>, q: Action, r: nat)
    requires IsRun(c, Init(c), steps) && AtRest(c, Reached(c, Init(c), steps)) && q in Submitted(steps)
    requires r < c.replicas
    ensures var s := Reached(c, Init(c), steps);
      && |s.replicas| == c.replicas
      && ((exists a :: a in ExecutedBy(s, r) && a.id == q.id && a.client.Some?) <==>
            q.client.Some? && Involves(r, q) && (Cross(q) && Involves(0, q) ==> r == 0))
  {
    hide Inv, IsRun, Reached, ExecutedBy, SubmitStored, BlockFrom, AtRest, Fresh, AllCarried;
    InitInv(c);
    InitClients(c);
    InitCarried(c);
    RunClients(c, Init(c), {}, steps);
    RunCarried(c, Init(c), steps);
    assert {} + Submitted(steps) == Submitted(steps);
    var s, subs := Reached(c, Init(c), steps), Submitted(steps);
    InvShaped(c, s);
    assert SubmitStored(s, q);
    if a :| a in ExecutedBy(s, r) && a.id == q.id && a.client.Some? {
      ExecutedFrom(c, s, subs, r, a);
      ClientsKept(c, steps, r, a);
    }
    if q.client.Some? && Involves(r, q) && (Cross(q) && Involves(0, q) ==> r == 0) {
      var a := RequestExecuted(c, s, q, r);
      ClientsKept(c, steps, r, a);
      assert a in ExecutedBy(s, r) && a.id == q.id && a.client.Some?;
    }
  }

  lemma RequestExecuted(c: Cluster, s: State, q: Action, r: nat) returns (a: Action)
    requires Inv(c, s) && AllCarried(c, s) && AtRest(c, s) && SubmitStored(s, q) && r < c.replicas && Involves(r, q)
    requires |s.replicas| == c.replicas
    ensures a in ExecutedBy(s, r) && a.id == q.id
  {
    hide Inv, AllCarried, AtRest, Entries, Flatten, Content, Filter;
    var id, b :| id in s.blocks && s.blocks[id].submit && b in s.blocks[id].entries &&
        b == q.(origin := b.origin, offset := b.offset);
    assert Stored(s, b);
    EveryRequestLogged(c, s, b, r);
    var e := ExecutedBy(s, r);
    assert LogOf(s, r) == Requests(e);
    var i :| 0 <= i < |e| && Requests(e)[i] == Request(b);
    a := e[i];
    assert Request(a).id == a.id && Request(b).id == b.id;
  }

  /** So every client is answered: some replica executes its request with the client it came with. */
  lemma EveryClientAnswered(c: Cluster, steps: seq<Step>, q: Action) returns (r: nat)
    requires IsRun(c, Init(c), steps) && AtRest(c, Reached(c, Init(c), steps)) && q in Submitted(steps)
    requires OwnersExist(c)
    ensures r < c.replicas && |Reached(c, Init(c), steps).replicas| == c.replicas
    ensures q.client.Some? ==>
        exists a :: a in ExecutedBy(Reached(c, Init(c), steps), r) && a.id == q.id && a.client == q.client
  {
    hide Inv, IsRun, Reached, ExecutedBy, SubmitStored, BlockFrom, AtRest;
    InitInv(c);
    InitClients(c);
    RunClients(c, Init(c), {}, steps);
    assert {} + Submitted(steps) == Submitted(steps);
    var s := Reached(c, Init(c), steps);
    assert SubmitStored(s, q) && Fresh(c.owner, q);
    r := if Involves(0, q) then 0 else q.involved[0];
    assert Involves(r, q);
    InvolvedExists(c, q, r);
    AnsweredBy(c, steps, q, r);
    if q.client.Some? {
      InvolvedOne(c, q);
      var a :| a in ExecutedBy(s, r) && a.id == q.id && a.client.Some?;
      ClientsKept(c, steps, r, a);
    }
  }

  lemma InvolvedExists(c: Cluster, q: Action, r: nat)
    requires Routed(c.owner, q) && Involves(r, q) && OwnersExist(c)
    ensures r < c.replicas
  {
    assert r in (set x | x in q.involved);
    assert r in Masters(c.owner, q);
  }
}
