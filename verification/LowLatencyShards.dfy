/** What the machines of the low-latency system execute: each machine of each replica replays the logs that its replica
    mirrors, once per origin, and every such replay follows the one total order. */
module LowLatencyShards {
  import opened Paths
  import D = DistributedExecution
  import opened Collections
  import opened ActionLog
  import opened LowLatency
  import opened TotalOrder
  import opened LowLatencyOrder
  import opened LowLatencySteps
  import LogReplay

  function TouchesOf(owner: Owner, p: D.Participant): Action -> bool {
    (a: Action) => Touches(owner, a, p)
  }

  /** A request touches a participant only if it involves the participant's origin. */
  lemma TouchesInvolves(owner: Owner, a: Action, p: D.Participant)
    requires Routed(owner, a) && Touches(owner, a, p)
    ensures Involves(p.origin, a)
  {
    assert p.origin in Masters(owner, a);
    assert p.origin in (set r | r in a.involved);
  }

  ghost predicate AllRouted(owner: Owner, s: seq<Action>) {
    forall a :: a in s ==> Routed(owner, a)
  }

  lemma {:induction false} HeadsRouted(owner: Owner, logs: seq<seq<Action>>)
    requires forall r {:trigger logs[r]} :: 0 <= r < |logs| ==> AllRouted(owner, logs[r])
    ensures AllRouted(owner, Heads(logs))
  {
    if logs != [] {
      HeadsRouted(owner, logs[..|logs| - 1]);
      assert AllRouted(owner, logs[|logs| - 1]);
    }
  }

  lemma {:induction false} WeaveRouted(owner: Owner, shared: seq<Action>, logs: seq<seq<Action>>)
    requires AllRouted(owner, shared) && forall r {:trigger logs[r]} :: 0 <= r < |logs| ==> AllRouted(owner, logs[r])
    ensures AllRouted(owner, Weave(shared, logs))
    decreases shared
  {
    hide Routed;
    HeadsRouted(owner, logs);
    if shared != [] {
      var rest := Rest(logs, shared[0]);
      forall r {:trigger rest[r]} | 0 <= r < |rest| ensures AllRouted(owner, rest[r]) {
        assert AllRouted(owner, logs[r]);
      }
      WeaveRouted(owner, shared[1..], rest);
    }
  }

  lemma RequestsRouted(c: Cluster, r: nat, s: seq<Action>)
    requires forall a :: a in s ==> Belongs(c, r, a)
    ensures AllRouted(c.owner, Requests(s))
  {
    hide Routed, Request;
    forall b | b in Requests(s) ensures Routed(c.owner, b) {
      var i :| 0 <= i < |s| && Requests(s)[i] == b;
      assert s[i] in s;
      RequestTwice(s[i]);
      RoutedAlike(c, s[i], b);
    }
  }

  lemma RequestTwice(a: Action)
    ensures Request(Request(a)) == Request(a)
  {}

  lemma OrderRouted(c: Cluster, s: State)
    requires Inv(c, s) && c.replicas > 0
    ensures |s.replicas| == c.replicas && AllRouted(c.owner, WholeOrder(s))
  {
    hide BlocksOk, MessagesOk, PlacedOk, FakesOk, SharedOk, MirrorOk, AllHome, Belongs, Entries, Flatten, Filter,
        Requests, AllRouted;
    InvShaped(c, s);
    forall r {:trigger Logs(s)[r]} | 0 <= r < c.replicas ensures AllRouted(c.owner, Logs(s)[r]) {
      var e := Entries(Content(s), Flatten(s.replicas[r].log));
      LogHome(c, s, r, 0);
      EntriesBelong(c, s, r, Flatten(s.replicas[r].log));
      FilterHolds(e, (a: Action) => !a.fake);
      RequestsRouted(c, r, Executed(e));
    }
    var log := s.replicas[0].log;
    assert log[..|log|] == log;
    var e := Entries(Content(s), Flatten(log));
    LogHome(c, s, 0, 0);
    EntriesBelong(c, s, 0, Flatten(log));
    FilterHolds(e, CrossOf());
    RequestsRouted(c, 0, Crosses(e));
    WeaveRouted(c.owner, Shared(s), Logs(s));
  }

  /** What machine m replays of the sequences of origin o that replica r has logged so far. */
  function Replayed(c: Cluster, s: State, r: nat, p: D.Participant): seq<Action>
    requires r < |s.replicas|
  {
    SubBatch(c.owner, p.machine, Entries(Content(s), Flatten(PartOf(s.replicas[r].all, p.origin))))
  }

  lemma TouchesRequest(owner: Owner, p: D.Participant)
    ensures forall a {:trigger TouchesOf(owner, p)(a)} :: TouchesOf(owner, p)(Request(a)) == TouchesOf(owner, p)(a)
  {}

  /** A replay of a whole log is the log's part that touches the participant. */
  lemma ReplayOfLog(c: Cluster, s: State, p: D.Participant, ids: seq<nat>)
    requires BlocksOk(c, s) && AllHome(s, p.origin, ids)
    ensures Requests(SubBatch(c.owner, p.machine, Entries(Content(s), ids)))
         == Filter(Requests(Executed(Entries(Content(s), ids))), TouchesOf(c.owner, p))
  {
    hide BlocksOk, AllHome, Entries, Filter, Touches, Requests, Routed;
    var e := Entries(Content(s), ids);
    EntriesBelong(c, s, p.origin, ids);
    TouchesRequest(c.owner, p);
    RequestsFilter(Executed(e), TouchesOf(c.owner, p), TouchesOf(c.owner, p));
    FilterFilter(e, (a: Action) => !a.fake, TouchesOf(c.owner, p), ReplaysOf(c.owner, p.machine));
  }

  /** In every replica r, machine m replays of origin o's log a prefix of the one total order filtered to what touches
      m and o: participants of a distributed execution all follow one log. */
  lemma ReplaysFollowOrder(c: Cluster, s: State, r: nat, p: D.Participant)
    requires Inv(c, s) && r < c.replicas && p.origin < c.replicas
    ensures |s.replicas| == c.replicas && Requests(Replayed(c, s, r, p)) <= Filter(WholeOrder(s), TouchesOf(c.owner, p))
  {
    hide BlocksOk, MessagesOk, PlacedOk, FakesOk, SharedOk, Entries, Flatten, Filter, Requests, AllHome, Touches,
        WholeOrder, AllRouted, PartOf;
    var o, log, t := p.origin, s.replicas[p.origin].log, WholeOrder(s);
    assert MirrorOk(c, s, r);
    var k := if o == r then |log| else s.replicas[r].taken[o];
    assert k <= |log| && PartOf(s.replicas[r].all, o) == log[..k] by { assert s.replicas[o] == s.replicas[o]; }
    var ids := Flatten(log[..k]);
    LogHome(c, s, o, k);
    ReplayOfLog(c, s, p, ids);
    FlattenPrefix(log, k);
    EntriesPrefix(Content(s), ids, Flatten(log));
    FilterPrefix(Entries(Content(s), ids), Entries(Content(s), Flatten(log)), (a: Action) => !a.fake);
    RequestsPrefix(Executed(Entries(Content(s), ids)), Executed(Entries(Content(s), Flatten(log))));
    OneTotalOrder(c, s);
    hide Inv, MirrorOk;
    assert Requests(Executed(Entries(Content(s), ids))) <= For(o, t);
    FilterPrefix(Requests(Executed(Entries(Content(s), ids))), For(o, t), TouchesOf(c.owner, p));
    OrderTouches(c, s, p);
  }

  lemma {:induction false} SameRequests(r: seq<Action>, e: seq<Action>)
    requires |r| == |e|
    requires forall k {:trigger r[k]} :: 0 <= k < |r| ==> r[k] == e[k].(version := r[k].version, offset := 0)
    ensures Requests(r) == Requests(e)
  {}

  /** So what comes out of the machine's block log, when it has been given sequences that its replica has logged of
      origin o, is the beginning of the part of the order that touches m and o. */
  lemma EmittedFollowsOrder(c: Cluster, s: State, r: nat, p: D.Participant, app: LogReplay.BlockLogApp)
    requires Inv(c, s) && r < c.replicas && p.origin < c.replicas && |s.replicas| == c.replicas
    requires app.Valid() && app.content == SubBatchOf(c.owner, p.machine, Content(s))
    requires LogIds(app.delivered) <= Flatten(PartOf(s.replicas[r].all, p.origin))
    ensures Requests(app.emitted) <= Filter(WholeOrder(s), TouchesOf(c.owner, p))
  {
    hide Inv, Entries, Flatten, Filter, Requests, WholeOrder, PartOf, LogIds;
    var mine := EntriesFor(c.owner, p.machine, Content(s), app.delivered);
    LogReplay.EmittedEntries(app, c.owner, p.machine, Content(s));
    SameRequests(app.emitted, mine[..|app.emitted|]);
    var ids := Flatten(PartOf(s.replicas[r].all, p.origin));
    EntriesPrefix(Content(s), LogIds(app.delivered), ids);
    FilterPrefix(Entries(Content(s), LogIds(app.delivered)), Entries(Content(s), ids), ReplaysOf(c.owner, p.machine));
    RequestsPrefix(mine[..|app.emitted|], Replayed(c, s, r, p));
    ReplaysFollowOrder(c, s, r, p);
  }

  lemma OrderTouches(c: Cluster, s: State, p: D.Participant)
    requires Inv(c, s) && c.replicas > 0
    ensures |s.replicas| == c.replicas
    ensures Filter(For(p.origin, WholeOrder(s)), TouchesOf(c.owner, p)) == Filter(WholeOrder(s), TouchesOf(c.owner, p))
  {
    hide Inv, WholeOrder, Filter, Touches, Routed, Involves;
    OrderRouted(c, s);
    var t, touches := WholeOrder(s), TouchesOf(c.owner, p);
    forall a | a in t ensures touches(a) == (InvolvesOf(p.origin)(a) && touches(a)) {
      if touches(a) { TouchesInvolves(c.owner, a, p); }
    }
    FilterFilter(t, InvolvesOf(p.origin), touches, touches);
  }
}
