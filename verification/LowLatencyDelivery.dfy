/** Nothing is lost: when the low-latency log system has nothing left to do, every request stored is in the log of every
    replica it involves, and every log is its whole part of the total order. */
module LowLatencyDelivery {
  import opened Collections
  import opened ActionLog
  import opened LowLatency
  import opened TotalOrder
  import opened LowLatencyOrder
  import opened LowLatencySteps

  /** A stored block is on its way to its head node, or there. */
  ghost predicate Carried(c: Cluster, s: State, id: nat)
    requires Shaped(c, s)
  {
    id in s.blocks && s.blocks[id].submit && s.blocks[id].home < c.replicas ==>
      var home := s.blocks[id].home;
      BatchTo(id, home) in s.flying || SubmitOf(id) in s.flying || id in Placed(s.replicas[home])
  }

  ghost predicate AllCarried(c: Cluster, s: State)
    requires Shaped(c, s)
  {
    forall id {:trigger Carried(c, s, id)} :: Carried(c, s, id)
  }

  lemma InitCarried(c: Cluster)
    ensures AllCarried(c, Init(c))
  {}

  lemma StepCarried(c: Cluster, s: State, step: Step)
    requires Inv(c, s) && Enabled(c, s, step) && AllCarried(c, s)
    ensures Shaped(c, Do(c, s, step)) && AllCarried(c, Do(c, s, step))
  {
    hide BlocksOk, MessagesOk, PlacedOk, FakesOk, SharedOk, MirrorOk, Placed, NewBlock, Copies, NewRequests, Stamp,
        Enabled, Do;
    var t := Do(c, s, step);
    StepInv(c, s, step);
    StepPlaces(c, s, step);
    forall id {:trigger Carried(c, t, id)} ensures Carried(c, t, id) {
      assert Carried(c, s, id);
    }
  }

  /** What a step does to the blocks, messages and places that matter here. */
  lemma StepPlaces(c: Cluster, s: State, step: Step)
    requires Inv(c, s) && Enabled(c, s, step)
    ensures var t := Do(c, s, step);
      && Shaped(c, t)
      && (forall q, id {:trigger id in Placed(t.replicas[q])} ::
          0 <= q < c.replicas && id in Placed(s.replicas[q]) ==> id in Placed(t.replicas[q]))
      && (forall id {:trigger id in t.blocks} ::
          id in t.blocks && t.blocks[id].submit && t.blocks[id].home < c.replicas ==>
            var home := t.blocks[id].home;
            if id in s.blocks then
              && s.blocks[id] == t.blocks[id]
              && (BatchTo(id, home) in s.flying ==> BatchTo(id, home) in t.flying || SubmitOf(id) in t.flying)
              && (SubmitOf(id) in s.flying ==> SubmitOf(id) in t.flying || id in Placed(t.replicas[home]))
            else BatchTo(id, home) in t.flying)
  {
    hide BlocksOk, MessagesOk, PlacedOk, FakesOk, SharedOk, MirrorOk, Placed, NewBlock, Copies, NewRequests, Stamp,
        Taken, Unused, Flatten;
    match step
    case Store(r, id, queue) =>
    case Batch(m) =>
    case Submit(m) => SubmitPlaced(c, s, m);
    case Fakes(m) => PlacedIs(s.replicas[m.to], Do(c, s, step).replicas[m.to]);
    case Propose(r) => ProposePlaced(c, s, r);
    case Remote(r, from, id) => RemoteEffect(c, s, r, from, id);
  }

  lemma {:induction false} RunCarried(c: Cluster, s: State, steps: seq<Step>)
    requires IsRun(c, s, steps) && Inv(c, s) && AllCarried(c, s)
    ensures Inv(c, Reached(c, s, steps)) && AllCarried(c, Reached(c, s, steps))
    decreases |steps|
  {
    if steps != [] {
      hide Inv, Do, Enabled, AllCarried;
      StepInv(c, s, steps[0]);
      StepCarried(c, s, steps[0]);
      RunCarried(c, Do(c, s, steps[0]), steps[1..]);
    }
  }

  // ---- At rest ----

  /** No message is in flight, nothing waits for consensus and every sequence has been taken everywhere. */
  ghost predicate AtRest(c: Cluster, s: State) {
    && Shaped(c, s)
    && s.flying == {}
    && (forall r {:trigger s.replicas[r]} :: 0 <= r < c.replicas ==> s.replicas[r].pending == [])
    && (forall r, q {:trigger s.replicas[r], s.replicas[q]} :: 0 <= r < c.replicas && 0 <= q < c.replicas && q != r ==>
          s.replicas[r].taken[q] == |s.replicas[q].log|)
  }

  lemma RestCrosses(c: Cluster, s: State, r: nat)
    requires Inv(c, s) && AtRest(c, s) && r < c.replicas
    ensures Crosses(LogOf(s, r)) == For(r, Shared(s))
  {
    hide BlocksOk, MessagesOk, PlacedOk, FakesOk, SharedOk, MirrorOk, LogOf, Shared, For;
    assert s.replicas[0].log == s.replicas[0].log && s.replicas[r].pending == [];
    CrossesFor(c, s, r);
  }

  /** At rest every replica has logged all of the total order that involves it. */
  lemma LogsAreWhole(c: Cluster, s: State, r: nat)
    requires Inv(c, s) && AtRest(c, s) && r < c.replicas
    ensures |s.replicas| == c.replicas && LogOf(s, r) == For(r, WholeOrder(s))
  {
    hide Inv, LogOf, Shared, Weave, For, Fits;
    InvShaped(c, s);
    LogsFit(c, s);
    RestCrosses(c, s, r);
    LogsAreEqual(Shared(s), Logs(s), r);
  }

  ghost predicate Stored(s: State, a: Action) {
    exists id :: id in s.blocks && s.blocks[id].submit && a in s.blocks[id].entries
  }

  lemma StoredIsLogged(c: Cluster, s: State, a: Action)
    requires Inv(c, s) && AllCarried(c, s) && AtRest(c, s) && Stored(s, a)
    ensures |s.replicas| == c.replicas && Fresh(c.owner, a) && Home(a) < c.replicas
    ensures a in Entries(Content(s), Flatten(s.replicas[Home(a)].log))
  {
    hide MessagesOk, PlacedOk, FakesOk, SharedOk, MirrorOk, Placed, Routed, Flatten, Entries, Content;
    var id :| id in s.blocks && s.blocks[id].submit && a in s.blocks[id].entries;
    assert Carried(c, s, id);
    var home := s.blocks[id].home;
    assert BlockOk(c, s, id);
    assert s.replicas[home].pending == [];
    PlacedAtRest(s.replicas[home]);
    EntryIn(s, Flatten(s.replicas[home].log), id, a);
  }

  /** At rest every stored request is in the log of each replica it involves. */
  lemma EveryRequestLogged(c: Cluster, s: State, a: Action, r: nat)
    requires Inv(c, s) && AllCarried(c, s) && AtRest(c, s) && Stored(s, a) && r < c.replicas && Involves(r, a)
    ensures |s.replicas| == c.replicas && Request(a) in LogOf(s, r)
  {
    hide Inv, AllCarried, AtRest, Stored, Routed, Request, Flatten, Entries, Content, Filter, Requests;
    StoredIsLogged(c, s, a);
    var log := s.replicas[Home(a)].log;
    var e := Entries(Content(s), Flatten(log));
    if Cross(a) {
      assert log[..|log|] == log;
      SharedLogged(c, s, r, e, a);
    } else {
      InvolvedOne(c, a);
      FilterHolds(e, (b: Action) => !b.fake);
      InRequests(Executed(e), a);
    }
  }

  lemma SharedLogged(c: Cluster, s: State, r: nat, e: seq<Action>, a: Action)
    requires Inv(c, s) && AtRest(c, s) && r < c.replicas && |s.replicas| == c.replicas
    requires Shared(s) == Requests(Crosses(e))
    requires a in e && Cross(a) && Involves(r, a)
    ensures Request(a) in LogOf(s, r)
  {
    hide Inv, AtRest, LogOf, Shared, Request, Filter;
    FilterHolds(e, CrossOf());
    assert CrossOf()(a) && a in Crosses(e);
    InRequests(Crosses(e), a);
    RequestInvolves(r);
    assert InvolvesOf(r)(a);
    FilterHolds(Shared(s), InvolvesOf(r));
    RestCrosses(c, s, r);
    FilterHolds(LogOf(s, r), CrossOf());
  }

  lemma PlacedAtRest(me: Replica)
    requires me.pending == []
    ensures Placed(me) == Flatten(me.log)
  {}

  lemma {:induction false} EntryIn(s: State, ids: seq<nat>, id: nat, a: Action)
    requires id in ids && id in s.blocks && a in s.blocks[id].entries
    ensures a in Entries(Content(s), ids)
  {
    if ids[0] != id { EntryIn(s, ids[1..], id, a); }
  }

  lemma InRequests(s: seq<Action>, a: Action)
    requires a in s
    ensures Request(a) in Requests(s)
  {
    var i :| 0 <= i < |s| && s[i] == a;
    assert Requests(s)[i] == Request(a);
  }

  /** Every run that comes to rest has logged every request everywhere, in one order. */
  lemma RunsLoseNothing(c: Cluster, steps: seq<Step>)
    requires IsRun(c, Init(c), steps) && AtRest(c, Reached(c, Init(c), steps))
    ensures var s := Reached(c, Init(c), steps);
      && |s.replicas| == c.replicas
      && (forall r :: 0 <= r < c.replicas ==> LogOf(s, r) == For(r, WholeOrder(s)))
      && (forall r: nat, a {:trigger Stored(s, a), Involves(r, a)} ::
            r < c.replicas && Stored(s, a) && Involves(r, a) ==> Request(a) in LogOf(s, r))
  {
    hide Inv, LogOf, WholeOrder, Reached, IsRun, For, AllCarried, AtRest, Involves, Request, Stored;
    InitInv(c);
    InitCarried(c);
    RunCarried(c, Init(c), steps);
    var s := Reached(c, Init(c), steps);
    InvShaped(c, s);
    forall r | 0 <= r < c.replicas ensures LogOf(s, r) == For(r, WholeOrder(s)) { LogsAreWhole(c, s, r); }
    forall r: nat, a {:trigger Stored(s, a), Involves(r, a)} | r < c.replicas && Stored(s, a) &&
        Involves(r, a) ensures Request(a) in LogOf(s, r) {
      EveryRequestLogged(c, s, a, r);
    }
  }
}
