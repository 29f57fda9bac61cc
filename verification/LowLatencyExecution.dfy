/** The low-latency system executes its one order: in every replica, the participants that replay their own parts of the
    mirrored logs end with the stores and answers of one store that has run all requests in that order. */
module LowLatencyExecution {
  import opened Collections
  import opened Paths
  import opened Metadata
  import opened MetadataLaws
  import D = DistributedExecution
  import opened ParticipantReplay
  import opened ActionLog
  import opened LowLatency
  import opened TotalOrder
  import opened LowLatencyOrder
  import opened LowLatencySteps
  import opened LowLatencyDelivery
  import opened LowLatencyShards

  ghost predicate AllDeclare(s: seq<Action>) {
    forall a :: a in s ==> Declares(a)
  }

  function Inputs(s: seq<Action>): (r: seq<Input>)
    ensures |r| == |s| && forall i {:trigger r[i]} :: 0 <= i < |s| ==> r[i] == s[i].input
  {
    if s == [] then [] else [s[0].input] + Inputs(s[1..])
  }

  // ---- Everything in the order was stored by a client ----

  lemma {:induction false} HeadsDeclare(logs: seq<seq<Action>>)
    requires forall r, a {:trigger a in logs[r]} :: 0 <= r < |logs| && a in logs[r] && !Cross(a) ==> Declares(a)
    ensures AllDeclare(Heads(logs))
  {
    if logs != [] {
      hide Declares;
      var n := |logs| - 1;
      forall r, a {:trigger a in logs[..n][r]} | 0 <= r < n && a in logs[..n][r] &&
          !Cross(a) ensures Declares(a) { assert a in logs[r]; }
      HeadsDeclare(logs[..n]);
      forall a | a in Head(logs[n]) ensures Declares(a) { assert a in logs[n]; }
    }
  }

  lemma {:induction false} WeaveDeclares(shared: seq<Action>, logs: seq<seq<Action>>)
    requires AllDeclare(shared)
    requires forall r, a {:trigger a in logs[r]} :: 0 <= r < |logs| && a in logs[r] && !Cross(a) ==> Declares(a)
    ensures AllDeclare(Weave(shared, logs))
    decreases shared
  {
    hide Declares;
    HeadsDeclare(logs);
    if shared != [] {
      var rest := Rest(logs, shared[0]);
      forall r, a {:trigger a in rest[r]} | 0 <= r < |rest| && a in rest[r] &&
          !Cross(a) ensures Declares(a) { assert a in logs[r]; }
      WeaveDeclares(shared[1..], rest);
    }
  }

  /** An entry that is not a copy was stored by a client. */
  lemma EntryStored(c: Cluster, s: State, ids: seq<nat>, a: Action)
    requires BlocksOk(c, s) && a in Entries(Content(s), ids) && !a.generated
    ensures Stored(s, a)
  {
    hide Entries;
    var id := EntryOf(Content(s), ids, a);
    assert BlockOk(c, s, id) by { var b := s.blocks[id]; }
  }

  lemma RequestDeclares(a: Action)
    ensures Declares(Request(a)) == Declares(a)
  {}

  /** The request of such an entry has the sets of its input. */
  lemma EntryDeclares(c: Cluster, s: State, ids: seq<nat>, e: seq<Action>, i: nat)
    requires BlocksOk(c, s) && (forall a {:trigger Stored(s, a)} :: Stored(s, a) ==> Declares(a))
    requires i < |e| && e[i] in Entries(Content(s), ids) && !e[i].generated
    ensures Declares(Requests(e)[i])
  {
    hide Declares, BlocksOk, Stored, Request, Entries;
    EntryStored(c, s, ids, e[i]);
    RequestDeclares(e[i]);
  }

  lemma SameCross(a: Action)
    ensures Cross(Request(a)) == Cross(a)
  {}

  lemma OrderDeclares(c: Cluster, s: State)
    requires Inv(c, s) && c.replicas > 0 && (forall a {:trigger Stored(s, a)} :: Stored(s, a) ==> Declares(a))
    ensures |s.replicas| == c.replicas && AllDeclare(WholeOrder(s))
  {
    hide BlocksOk, MessagesOk, PlacedOk, FakesOk, SharedOk, MirrorOk, AllHome, Belongs, Entries, Flatten, Filter,
        Requests, Declares, Stored;
    InvShaped(c, s);
    var logs := Logs(s);
    forall r, b {:trigger b in logs[r]} | 0 <= r < |logs| && b in logs[r] && !Cross(b) ensures Declares(b) {
      var ids := Flatten(s.replicas[r].log);
      var e := Entries(Content(s), ids);
      LogHome(c, s, r, 0);
      EntriesBelong(c, s, r, ids);
      FilterHolds(e, (a: Action) => !a.fake);
      var i :| 0 <= i < |Executed(e)| && Requests(Executed(e))[i] == b;
      assert Executed(e)[i] in Executed(e);
      SameCross(Executed(e)[i]);
      BelongsFacts(c, r, Executed(e)[i]);
      EntryDeclares(c, s, ids, Executed(e), i);
    }
    var log := s.replicas[0].log;
    assert log[..|log|] == log;
    var e := Entries(Content(s), Flatten(log));
    LogHome(c, s, 0, 0);
    EntriesBelong(c, s, 0, Flatten(log));
    FilterHolds(e, CrossOf());
    forall b | b in Shared(s) ensures Declares(b) {
      var i :| 0 <= i < |Crosses(e)| && Requests(Crosses(e))[i] == b;
      assert Crosses(e)[i] in Crosses(e);
      BelongsFacts(c, 0, Crosses(e)[i]);
      EntryDeclares(c, s, Flatten(log), Crosses(e), i);
    }
    WeaveDeclares(Shared(s), logs);
  }

  // ---- A participant's part of the order ----

  function Picked(t: seq<Action>, places: seq<nat>): (r: seq<Action>)
    requires forall i {:trigger places[i]} :: 0 <= i < |places| ==> places[i] < |t|
    ensures |r| == |places| && forall i {:trigger r[i]} :: 0 <= i < |places| ==> r[i] == t[places[i]]
  {
    seq(|places|, i requires 0 <= i < |places| => t[places[i]])
  }

  lemma {:induction false} TouchedIsTouches(d: D.Cluster, t: seq<Action>, p: D.Participant, i: nat)
    requires D.Sound(d) && d.log == Inputs(t) && i < |t| && Declares(t[i])
    ensures Touched(d, p, i) <==> Touches(d.owner, t[i], p)
  {
    var a := t[i];
    assert d.log[i] == a.input;
    assert p in D.Readers(d, i) <==> exists k :: 0 <= k < |a.readset| && d.owner(a.readset[k]) == p by {
      if k :| 0 <= k < |a.readset| && d.owner(a.readset[k]) == p { assert a.readset[k] in Reads(a.input); }
    }
    assert p in D.Writers(d, i) <==> exists k :: 0 <= k < |a.writeset| && d.owner(a.writeset[k]) == p by {
      if k :| 0 <= k < |a.writeset| && d.owner(a.writeset[k]) == p { assert a.writeset[k] in Metadata.Writes(a.input); }
    }
  }

  lemma {:induction false} PlacesPick(d: D.Cluster, t: seq<Action>, p: D.Participant, k: nat)
    requires D.Sound(d) && d.log == Inputs(t) && AllDeclare(t) && k <= |t|
    ensures forall i {:trigger Places(d, p, k)[i]} :: 0 <= i < |Places(d, p, k)| ==> Places(d, p, k)[i] < |t|
    ensures Picked(t, Places(d, p, k)) == Filter(t[..k], TouchesOf(d.owner, p))
  {
    hide Touched, Touches, Declares;
    PlacesAre(d, p, k);
    if k == 0 {
      assert t[..0] == [];
    } else {
      PlacesPick(d, t, p, k - 1);
      hide Places;
      FilterOneMore(t, k - 1, TouchesOf(d.owner, p));
      assert t[k - 1] in t;
      TouchedIsTouches(d, t, p, k - 1);
      PlacesMore(d, p, k);
    }
  }

  /** A participant's own sequence is the part of the order that touches it. */
  lemma {:induction false} MineIsPart(d: D.Cluster, t: seq<Action>, p: D.Participant)
    requires D.Sound(d) && d.log == Inputs(t) && AllDeclare(t)
    ensures forall i {:trigger Mine(d, p)[i]} :: 0 <= i < |Mine(d, p)| ==> Mine(d, p)[i] < |t|
    ensures Picked(t, Mine(d, p)) == Filter(t, TouchesOf(d.owner, p))
  {
    hide Places, Declares, Filter;
    PlacesPick(d, t, p, |t|);
    assert t[..|t|] == t;
  }

  /** At rest, a machine of any replica replays, per origin, all of the order that touches it. */
  lemma ReplayIsWhole(c: Cluster, s: State, r: nat, p: D.Participant)
    requires Inv(c, s) && AtRest(c, s) && r < c.replicas && p.origin < c.replicas
    ensures |s.replicas| == c.replicas && Requests(Replayed(c, s, r, p)) == Filter(WholeOrder(s), TouchesOf(c.owner, p))
  {
    hide BlocksOk, MessagesOk, PlacedOk, FakesOk, SharedOk, Entries, Flatten, Filter, Requests, AllHome, Touches,
        WholeOrder, AllRouted, PartOf;
    var o, log := p.origin, s.replicas[p.origin].log;
    assert MirrorOk(c, s, r);
    assert s.replicas[o] == s.replicas[o] && s.replicas[r] == s.replicas[r];
    assert log[..|log|] == log;
    assert PartOf(s.replicas[r].all, o) == log;
    LogHome(c, s, o, |log|);
    ReplayOfLog(c, s, p, Flatten(log));
    LogsAreWhole(c, s, o);
    hide Inv, AtRest;
    OrderTouches(c, s, p);
  }

  // ---- Execution ----

  /** The participants of a replica over the one order, from a store. */
  ghost function OrderCluster(c: Cluster, s: State, participants: set<D.Participant>, start: Store): D.Cluster
    requires |s.replicas| > 0
  {
    D.Cluster(c.owner, participants, Inputs(WholeOrder(s)), start)
  }

  /** At rest, in every replica r: what each participant replays is its own sequence over the one order, and when
      all participants have gone through theirs, in any interleaving and any order of messages, their stores
      together are the store that has run all requests serially in that order, with its answers. */
  lemma ReplicasExecuteTheOrder(c: Cluster, s: State, r: nat, participants: set<D.Participant>, start: Store,
                                steps: seq<D.Step>)
    requires Inv(c, s) && AtRest(c, s) && r < c.replicas && |s.replicas| == c.replicas
    requires forall a {:trigger Stored(s, a)} :: Stored(s, a) ==> Declares(a)
    requires forall x: Path {:trigger c.owner(x)} :: c.owner(x) in participants
    requires forall p :: p in participants ==> p.origin < c.replicas
    ensures var d := OrderCluster(c, s, participants, start);
      && D.Sound(d) && AllDeclare(WholeOrder(s))
      && forall p {:trigger Mine(d, p)} :: p in participants ==>
           && (forall i {:trigger Mine(d, p)[i]} :: 0 <= i < |Mine(d, p)| ==> Mine(d, p)[i] < |WholeOrder(s)|)
           && Requests(Replayed(c, s, r, p)) == Picked(WholeOrder(s), Mine(d, p))
    ensures var d := OrderCluster(c, s, participants, start);
      IsLocalRun(d, LocalInit(d), steps) && LocalDone(d, LocalAfter(d, LocalInit(d), steps)) ==>
        var l := LocalAfter(d, LocalInit(d), steps);
        D.Shaped(d, View(d, l)) && D.IsSerial(d, View(d, l))
  {
    hide Inv, AtRest, WholeOrder, Stored, Declares, Filter, Requests, Replayed, Mine, LocalDone, LocalInit, D.IsSerial;
    var d := OrderCluster(c, s, participants, start);
    OrderDeclares(c, s);
    OrderRuns(WholeOrder(s));
    assert D.Sound(d);
    forall p {:trigger Mine(d, p)} | p in participants
      ensures (forall i {:trigger Mine(d, p)[i]} :: 0 <= i < |Mine(d, p)| ==> Mine(d, p)[i] < |WholeOrder(s)|)
      ensures Requests(Replayed(c, s, r, p)) == Picked(WholeOrder(s), Mine(d, p))
    {
      ReplayIsWhole(c, s, r, p);
      MineIsPart(d, WholeOrder(s), p);
    }
    if IsLocalRun(d, LocalInit(d), steps) && LocalDone(d, LocalAfter(d, LocalInit(d), steps)) {
      LocalRunIsSerial(d, steps);
    }
  }

  lemma {:induction false} OrderRuns(t: seq<Action>)
    requires AllDeclare(t)
    ensures AllRun(Inputs(t))
  {
    forall i {:trigger Inputs(t)[i]} | 0 <= i < |t| ensures Runs(Inputs(t)[i]) { assert t[i] in t; }
  }
}
