/** Every step of the low-latency log system keeps its invariant, so every reachable state has one total order. */
module LowLatencySteps {
  import opened Paths
  import opened Collections
  import opened ActionLog
  import opened LowLatency
  import opened TotalOrder
  import opened LowLatencyOrder

  // ---- What later states keep ----

  ghost predicate Grows(s: State, t: State) {
    && |t.replicas| == |s.replicas|
    && (forall id {:trigger t.blocks[id]} {:trigger s.blocks[id]} ::
        id in s.blocks ==> id in t.blocks && t.blocks[id] == s.blocks[id])
    && forall x {:trigger t.first[x]} {:trigger s.first[x]} :: x in s.first ==> x in t.first && t.first[x] == s.first[x]
  }

  ghost predicate Known(s: State, ids: seq<nat>) {
    forall id {:trigger id in s.blocks} :: id in ids ==> id in s.blocks
  }

  lemma {:induction false} EntriesSame(s: State, t: State, ids: seq<nat>)
    requires Grows(s, t) && Known(s, ids)
    ensures Entries(Content(t), ids) == Entries(Content(s), ids)
  {
    if ids != [] {
      assert ids[0] in s.blocks && s.blocks[ids[0]] == t.blocks[ids[0]];
      EntriesSame(s, t, ids[1..]);
    }
  }

  lemma PlacedKnown(s: State, r: nat, k: nat)
    requires r < |s.replicas| && PlacedOk(s, r) && k <= |s.replicas[r].log|
    ensures Known(s, Placed(s.replicas[r])) && Known(s, Flatten(s.replicas[r].log[..k]))
    ensures Known(s, Flatten(s.replicas[r].log))
  {
    hide Flatten, NoRepeats;
    FlattenPrefix(s.replicas[r].log, k);
  }

  lemma PlacedFrame(s: State, t: State, r: nat)
    requires Grows(s, t) && r < |s.replicas| && PlacedOk(s, r) && Placed(t.replicas[r]) == Placed(s.replicas[r])
    ensures PlacedOk(t, r)
  {
    hide Placed, NoRepeats;
    forall id {:trigger id in t.blocks} | id in Placed(t.replicas[r]) ensures id in t.blocks && t.blocks[id].home == r {
      assert id in s.blocks && s.blocks[id] == t.blocks[id];
    }
  }

  lemma FakesFrame(s: State, t: State, r: nat)
    requires Grows(s, t) && r < |s.replicas| && FakesOk(s, r)
    requires forall id {:trigger id in t.replicas[r].fakes} :: id in t.replicas[r].fakes ==>
               id in s.replicas[r].fakes && t.replicas[r].fakes[id] == s.replicas[r].fakes[id]
    ensures FakesOk(t, r)
  {
    hide Copies;
    var f, g := s.replicas[r].fakes, t.replicas[r].fakes;
    forall id {:trigger id in g} | id in g ensures id in t.blocks && t.blocks[id].home != r &&
        g[id] == Copies(r, t.blocks[id].entries) {
      assert id in f && s.blocks[id] == t.blocks[id];
    }
  }

  /** What replica 0 shares up to a point stays. */
  lemma SharedSame(s: State, t: State, k: nat)
    requires Grows(s, t) && 0 < |s.replicas| && PlacedOk(s, 0)
    requires s.replicas[0].log <= t.replicas[0].log && k <= |s.replicas[0].log|
    ensures SharedUpTo(t, k) == SharedUpTo(s, k)
  {
    assert |t.replicas| > 0;
    hide Grows, PlacedOk, Entries, Flatten, Requests, Filter;
    assert t.replicas[0].log[..k] == s.replicas[0].log[..k];
    PlacedKnown(s, 0, k);
    EntriesSame(s, t, Flatten(s.replicas[0].log[..k]));
  }

  ghost predicate TakenOk(c: Cluster, s: State, r: nat)
    requires Shaped(c, s) && r < c.replicas
  {
    forall q {:trigger s.replicas[q]} :: 0 <= q < c.replicas && q != r ==> s.replicas[r].taken[q] <= |s.replicas[q].log|
  }

  lemma MirrorTaken(c: Cluster, s: State, r: nat)
    requires Shaped(c, s) && r < c.replicas && MirrorOk(c, s, r)
    ensures TakenOk(c, s, r)
  {}

  lemma SharedFrame(c: Cluster, s: State, t: State, r: nat)
    requires Shaped(c, s) && Shaped(c, t) && Grows(s, t) && r < c.replicas
    requires PlacedOk(s, 0) && PlacedOk(s, r) && SharedOk(c, s, r) && MirrorOk(c, s, r)
    requires s.replicas[0].log <= t.replicas[0].log
    requires Placed(t.replicas[r]) == Placed(s.replicas[r]) && t.replicas[r].taken[0] == s.replicas[r].taken[0]
    ensures SharedOk(c, t, r)
  {
    if r > 0 {
      MirrorTaken(c, s, r);
      assert s.replicas[0] == s.replicas[0];
      hide Grows, PlacedOk, SharedUpTo, Entries, Placed, Requests, Filter;
      SharedSame(s, t, s.replicas[r].taken[0]);
      PlacedKnown(s, r, 0);
      EntriesSame(s, t, Placed(s.replicas[r]));
    }
  }

  lemma MirrorFrame(c: Cluster, s: State, t: State, r: nat)
    requires Shaped(c, s) && Shaped(c, t) && r < c.replicas && MirrorOk(c, s, r)
    requires forall q {:trigger t.replicas[q]} :: 0 <= q < c.replicas ==> s.replicas[q].log <= t.replicas[q].log
    requires t.replicas[r].taken == s.replicas[r].taken && t.replicas[r].all == s.replicas[r].all
    requires t.replicas[r].log == s.replicas[r].log
    ensures MirrorOk(c, t, r)
  {
    hide PartOf;
    forall q {:trigger t.replicas[q]} | 0 <= q < c.replicas
      ensures var k := if q == r then |t.replicas[q].log| else t.replicas[r].taken[q];
        k <= |t.replicas[q].log| && PartOf(t.replicas[r].all, q) == t.replicas[q].log[..k]
    {
      var k := if q == r then |s.replicas[q].log| else s.replicas[r].taken[q];
      assert k <= |s.replicas[q].log|;
      assert t.replicas[q].log[..k] == s.replicas[q].log[..k];
    }
  }

  ghost predicate ReplicaOk(c: Cluster, s: State, r: nat)
    requires Shaped(c, s) && r < c.replicas
  {
    PlacedOk(s, r) && FakesOk(s, r) && SharedOk(c, s, r) && MirrorOk(c, s, r)
  }

  ghost predicate LogsGrow(c: Cluster, s: State, t: State)
    requires Shaped(c, s) && Shaped(c, t)
  {
    forall q {:trigger t.replicas[q]} {:trigger s.replicas[q]} ::
        0 <= q < c.replicas ==> s.replicas[q].log <= t.replicas[q].log
  }

  lemma UntouchedOk(c: Cluster, s: State, t: State, r: nat)
    requires Inv(c, s) && Shaped(c, t) && Grows(s, t) && LogsGrow(c, s, t) && r < c.replicas
    requires t.replicas[r] == s.replicas[r]
    ensures ReplicaOk(c, t, r)
  {
    hide Grows, BlocksOk, MessagesOk, PlacedOk, FakesOk, SharedOk, MirrorOk;
    assert s.replicas[0].log <= t.replicas[0].log;
    assert s.replicas[r] == s.replicas[r];
    PlacedFrame(s, t, r);
    FakesFrame(s, t, r);
    SharedFrame(c, s, t, r);
    MirrorFrame(c, s, t, r);
  }

  lemma InvFrom(c: Cluster, s: State)
    requires Shaped(c, s) && BlocksOk(c, s) && MessagesOk(c, s)
    requires forall r {:trigger ReplicaOk(c, s, r)} :: 0 <= r < c.replicas ==> ReplicaOk(c, s, r)
    ensures Inv(c, s)
  {
    hide BlocksOk, MessagesOk, PlacedOk, FakesOk, SharedOk, MirrorOk;
    forall r {:trigger PlacedOk(s, r)} {:trigger FakesOk(s, r)} {:trigger SharedOk(c, s, r)} {:trigger MirrorOk(c, s,
        r)} | 0 <= r < c.replicas
      ensures PlacedOk(s, r) && FakesOk(s, r) && SharedOk(c, s, r) && MirrorOk(c, s, r) {
      assert ReplicaOk(c, s, r);
    }
  }

  lemma InvAt(c: Cluster, s: State, r: nat)
    requires Inv(c, s) && r < c.replicas
    ensures Shaped(c, s) && BlocksOk(c, s) && MessagesOk(c, s) && ReplicaOk(c, s, r)
  {
    hide BlocksOk, MessagesOk, PlacedOk, FakesOk, SharedOk, MirrorOk;
    assert s.replicas[r] == s.replicas[r];
  }

  lemma InitInv(c: Cluster)
    ensures Inv(c, Init(c))
  {
    var s := Init(c);
    assert Placed(Replica([], [], seq(c.replicas, j => 0), map[], [])) == [];
    forall r {:trigger ReplicaOk(c, s, r)} | 0 <= r < c.replicas ensures ReplicaOk(c, s, r) {
      assert s.replicas[r].log == [];
      forall q {:trigger s.replicas[q]} | 0 <= q < c.replicas
        ensures s.replicas[q].log == [] && s.replicas[q].all == [] && s.replicas[r].taken[q] == 0 {}
      assert MirrorOk(c, s, r);
    }
    InvFrom(c, s);
  }

  // ---- Messages ----

  lemma BatchMessages(c: Cluster, s: State, m: Message)
    requires Inv(c, s) && Enabled(c, s, Batch(m))
    ensures MessagesOk(c, Do(c, s, Batch(m)))
  {
    hide BlocksOk, PlacedOk, FakesOk, SharedOk, MirrorOk, Copies, Placed;
    var t := Do(c, s, Batch(m));
    assert MessageOk(c, s, m);
    forall n {:trigger n in t.flying} | n in t.flying ensures MessageOk(c, t, n) {
      if n in s.flying { assert MessageOk(c, s, n); }
    }
  }

  lemma BatchInv(c: Cluster, s: State, m: Message)
    requires Inv(c, s) && Enabled(c, s, Batch(m))
    ensures Inv(c, Do(c, s, Batch(m)))
  {
    hide BlocksOk, PlacedOk, FakesOk, SharedOk, MirrorOk, Copies, MessagesOk, ReplicaOk, BlockOk;
    var t := Do(c, s, Batch(m));
    BatchMessages(c, s, m);
    assert Shaped(c, t) && Grows(s, t) && LogsGrow(c, s, t);
    BlocksSame(c, s, t);
    forall r {:trigger ReplicaOk(c, t, r)} | 0 <= r < c.replicas ensures ReplicaOk(c, t, r) { UntouchedOk(c, s, t, r); }
    InvFrom(c, t);
  }

  lemma BlocksSame(c: Cluster, s: State, t: State)
    requires BlocksOk(c, s) && t.blocks == s.blocks && t.first == s.first
    ensures BlocksOk(c, t)
  {
    forall id {:trigger t.blocks[id]} | id in t.blocks ensures BlockOk(c, t, id) {
      assert BlockOk(c, s, id) by { assert s.blocks[id] == t.blocks[id]; }
    }
    forall x {:trigger t.first[x]} | x in t.first ensures t.first[x] in t.blocks { assert s.first[x] in s.blocks; }
  }

  // ---- Fakes ----

  lemma FakesMessages(c: Cluster, s: State, m: Message)
    requires Inv(c, s) && Enabled(c, s, Fakes(m))
    ensures MessagesOk(c, Do(c, s, Fakes(m)))
  {
    hide BlocksOk, PlacedOk, FakesOk, SharedOk, MirrorOk, Copies, Flatten;
    var t := Do(c, s, Fakes(m));
    forall r | 0 <= r < c.replicas ensures Placed(t.replicas[r]) == Placed(s.replicas[r]) {}
    forall n {:trigger n in t.flying} | n in t.flying ensures MessageOk(c, t, n) { assert MessageOk(c, s, n); }
  }

  lemma FakesReplica(c: Cluster, s: State, m: Message)
    requires Inv(c, s) && Enabled(c, s, Fakes(m))
    ensures Shaped(c, Do(c, s, Fakes(m))) && ReplicaOk(c, Do(c, s, Fakes(m)), m.to)
  {
    hide BlocksOk, PlacedOk, SharedOk, MirrorOk, FakesOk, MessagesOk, Copies, Placed;
    var t, r := Do(c, s, Fakes(m)), m.to;
    assert Shaped(c, t) && Grows(s, t) && LogsGrow(c, s, t);
    InvAt(c, s, 0);
    InvAt(c, s, m.to);
    FakesAdded(c, s, m);
    hide Inv, Grows;
    assert Placed(t.replicas[r]) == Placed(s.replicas[r]) by { PlacedIs(s.replicas[r], t.replicas[r]); }
    PlacedFrame(s, t, r);
    SharedFrame(c, s, t, r);
    MirrorFrame(c, s, t, r);
  }

  lemma FakesAdded(c: Cluster, s: State, m: Message)
    requires Shaped(c, s) && MessagesOk(c, s) && Enabled(c, s, Fakes(m)) && FakesOk(s, m.to)
    ensures FakesOk(Do(c, s, Fakes(m)), m.to)
  {
    hide Copies, Placed;
    assert MessageOk(c, s, m);
  }

  lemma PlacedIs(a: Replica, b: Replica)
    requires a.log == b.log && a.pending == b.pending
    ensures Placed(a) == Placed(b)
  {}

  lemma FakesInv(c: Cluster, s: State, m: Message)
    requires Inv(c, s) && Enabled(c, s, Fakes(m))
    ensures Inv(c, Do(c, s, Fakes(m)))
  {
    hide BlocksOk, PlacedOk, FakesOk, SharedOk, MirrorOk, Copies, MessagesOk, ReplicaOk;
    var t := Do(c, s, Fakes(m));
    FakesMessages(c, s, m);
    FakesReplica(c, s, m);
    assert Grows(s, t) && LogsGrow(c, s, t);
    BlocksSame(c, s, t);
    forall r {:trigger ReplicaOk(c, t, r)} | 0 <= r < c.replicas ensures ReplicaOk(c, t, r) {
      if r != m.to { UntouchedOk(c, s, t, r); }
    }
    InvFrom(c, t);
  }

  // ---- Propose ----

  lemma FlattenMore(log: seq<seq<nat>>, last: seq<nat>)
    ensures Flatten(log + [last]) == Flatten(log) + last
  {
    assert (log + [last])[..|log|] == log;
  }

  lemma ProposePlaced(c: Cluster, s: State, r: nat)
    requires Shaped(c, s) && r < c.replicas && s.replicas[r].pending != []
    ensures Shaped(c, Do(c, s, Propose(r)))
    ensures forall q {:trigger Placed(Do(c, s, Propose(r)).replicas[q])} :: 0 <= q < c.replicas ==>
              Placed(Do(c, s, Propose(r)).replicas[q]) == Placed(s.replicas[q])
  {
    var me := s.replicas[r];
    FlattenMore(me.log, me.pending);
    assert Flatten(me.log) + me.pending + [] == Flatten(me.log) + me.pending;
  }

  lemma ProposeMessages(c: Cluster, s: State, r: nat)
    requires Inv(c, s) && Enabled(c, s, Propose(r))
    ensures MessagesOk(c, Do(c, s, Propose(r)))
  {
    hide BlocksOk, PlacedOk, FakesOk, SharedOk, MirrorOk, Copies, Placed;
    var t := Do(c, s, Propose(r));
    ProposePlaced(c, s, r);
    forall n {:trigger n in t.flying} | n in t.flying ensures MessageOk(c, t, n) {
      assert MessageOk(c, s, n);
      var home := t.blocks[n.id].home;
      assert Placed(t.replicas[home]) == Placed(s.replicas[home]);
      if n.BatchTo? { assert Placed(t.replicas[n.to]) == Placed(s.replicas[n.to]); }
    }
  }

  lemma PartOfMore(all: seq<(nat, seq<nat>)>, from: nat, ids: seq<nat>, q: nat)
    ensures PartOf(all + [(from, ids)], q) == PartOf(all, q) + if from == q then [ids] else []
  {
    assert (all + [(from, ids)])[..|all|] == all;
  }

  lemma ProposeMirror(c: Cluster, s: State, r: nat)
    requires Shaped(c, s) && r < c.replicas && MirrorOk(c, s, r) && s.replicas[r].pending != []
    ensures Shaped(c, Do(c, s, Propose(r))) && MirrorOk(c, Do(c, s, Propose(r)), r)
  {
    hide PartOf;
    var t, me := Do(c, s, Propose(r)), s.replicas[r];
    forall q {:trigger t.replicas[q]} | 0 <= q < c.replicas
      ensures var k := if q == r then |t.replicas[q].log| else t.replicas[r].taken[q];
        k <= |t.replicas[q].log| && PartOf(t.replicas[r].all, q) == t.replicas[q].log[..k]
    {
      assert s.replicas[q] == s.replicas[q];
      PartOfMore(me.all, r, me.pending, q);
      if q == r {
        assert me.log[..|me.log|] == me.log;
        assert t.replicas[q].log[..|t.replicas[q].log|] == t.replicas[q].log;
      } else {
        assert PartOf(me.all, q) + [] == PartOf(me.all, q);
      }
    }
  }

  lemma ProposeInv(c: Cluster, s: State, r: nat)
    requires Inv(c, s) && Enabled(c, s, Propose(r))
    ensures Inv(c, Do(c, s, Propose(r)))
  {
    hide BlocksOk, PlacedOk, FakesOk, SharedOk, MirrorOk, MessagesOk, Placed;
    var t := Do(c, s, Propose(r));
    ProposeMessages(c, s, r);
    ProposePlaced(c, s, r);
    BlocksSame(c, s, t);
    assert Grows(s, t) && LogsGrow(c, s, t);
    InvAt(c, s, 0);
    InvAt(c, s, r);
    hide Inv, Grows;
    ProposeMirror(c, s, r);
    assert Placed(t.replicas[r]) == Placed(s.replicas[r]);
    assert s.replicas[0].log <= t.replicas[0].log;
    PlacedFrame(s, t, r);
    FakesFrame(s, t, r);
    SharedFrame(c, s, t, r);
    assert ReplicaOk(c, t, r);
    hide ReplicaOk;
    forall q {:trigger ReplicaOk(c, t, q)} | 0 <= q < c.replicas ensures ReplicaOk(c, t, q) {
      if q != r { UntouchedOk(c, s, t, q); }
    }
    InvFrom(c, t);
  }

  // ---- Submit ----

  /** A block of another replica than 0 that is not a copy has no cross-replica action. */
  lemma NoCross(c: Cluster, s: State, id: nat)
    requires BlocksOk(c, s) && id in s.blocks && s.blocks[id].submit && s.blocks[id].home > 0
    ensures Crosses(s.blocks[id].entries) == []
  {
    hide Routed;
    assert BlockOk(c, s, id);
    FilterNone(s.blocks[id].entries, CrossOf());
  }

  lemma OneBlock(s: State, ids: seq<nat>, id: nat)
    requires id in s.blocks
    ensures Entries(Content(s), ids + [id]) == Entries(Content(s), ids) + s.blocks[id].entries
  {
    EntriesConcat(Content(s), ids, [id]);
    assert Entries(Content(s), [id]) == s.blocks[id].entries;
  }

  lemma SubmitPlaced(c: Cluster, s: State, m: Message)
    requires Inv(c, s) && Enabled(c, s, Submit(m))
    ensures var t, r := Do(c, s, Submit(m)), s.blocks[m.id].home;
      && Shaped(c, t)
      && Placed(t.replicas[r]) == Placed(s.replicas[r]) + [m.id] && m.id !in Placed(s.replicas[r])
      && forall q {:trigger Placed(t.replicas[q])} ::
          0 <= q < c.replicas && q != r ==> Placed(t.replicas[q]) == Placed(s.replicas[q])
  {
    hide BlocksOk, PlacedOk, FakesOk, SharedOk, MirrorOk, Flatten;
    assert MessageOk(c, s, m);
    var me := s.replicas[s.blocks[m.id].home];
    assert Flatten(me.log) + (me.pending + [m.id]) == Flatten(me.log) + me.pending + [m.id];
  }

  lemma SubmitMessages(c: Cluster, s: State, m: Message)
    requires Inv(c, s) && Enabled(c, s, Submit(m))
    ensures MessagesOk(c, Do(c, s, Submit(m)))
  {
    hide BlocksOk, PlacedOk, FakesOk, SharedOk, MirrorOk, Copies, Placed;
    var t, r := Do(c, s, Submit(m)), s.blocks[m.id].home;
    SubmitPlaced(c, s, m);
    forall n {:trigger n in t.flying} | n in t.flying ensures MessageOk(c, t, n) {
      assert MessageOk(c, s, n);
      var home := t.blocks[n.id].home;
      assert home != r ==> Placed(t.replicas[home]) == Placed(s.replicas[home]);
      if n.BatchTo? && n.to != r { assert Placed(t.replicas[n.to]) == Placed(s.replicas[n.to]); }
    }
  }

  lemma SubmitReplica(c: Cluster, s: State, m: Message)
    requires Inv(c, s) && Enabled(c, s, Submit(m))
    ensures Shaped(c, Do(c, s, Submit(m))) && ReplicaOk(c, Do(c, s, Submit(m)), s.blocks[m.id].home)
  {
    hide MessagesOk, FakesOk, Placed, BlocksOk, MirrorOk, PlacedOk, SharedOk, Grows;
    var t, r := Do(c, s, Submit(m)), s.blocks[m.id].home;
    SubmitPlaced(c, s, m);
    InvAt(c, s, r);
    InvAt(c, s, 0);
    SubmitGrows(c, s, m);
    hide Inv;
    PlacedAppend(s, t, r, m.id);
    FakesFrame(s, t, r);
    MirrorFrame(c, s, t, r);
    SubmitShared(c, s, t, r, m.id);
  }

  lemma SubmitGrows(c: Cluster, s: State, m: Message)
    requires Inv(c, s) && Enabled(c, s, Submit(m))
    ensures var t := Do(c, s, Submit(m));
      && Shaped(c, t) && Grows(s, t) && LogsGrow(c, s, t)
      && s.blocks[m.id].submit
  {
    hide PlacedOk, FakesOk, SharedOk, MirrorOk, BlocksOk, Placed;
    assert MessageOk(c, s, m);
  }

  lemma PlacedAppend(s: State, t: State, r: nat, id: nat)
    requires Grows(s, t) && r < |s.replicas| && PlacedOk(s, r) && id in t.blocks && t.blocks[id].home == r
    requires Placed(t.replicas[r]) == Placed(s.replicas[r]) + [id] && id !in Placed(s.replicas[r])
    ensures PlacedOk(t, r)
  {
    hide Placed;
    var p := Placed(s.replicas[r]);
    forall b {:trigger b in t.blocks} | b in p + [id] ensures b in t.blocks && t.blocks[b].home == r {
      if b != id { assert b in s.blocks && s.blocks[b] == t.blocks[b]; }
    }
    assert forall i :: 0 <= i < |p| ==> p[i] in p;
  }

  lemma SubmitShared(c: Cluster, s: State, t: State, r: nat, id: nat)
    requires BlocksOk(c, s) && Shaped(c, s) && Shaped(c, t) && r < c.replicas && SharedOk(c, s, r)
    requires id in s.blocks && s.blocks[id].home == r && s.blocks[id].submit && t.blocks == s.blocks
    requires Placed(t.replicas[r]) == Placed(s.replicas[r]) + [id]
    requires t.replicas[0].log == s.replicas[0].log && t.replicas[r].taken == s.replicas[r].taken
    ensures SharedOk(c, t, r)
  {
    if r > 0 {
      hide BlocksOk, Entries, Filter, Placed, Flatten;
      assert Content(t) == Content(s) by { ContentSame(s, t); }
      NoCross(c, s, id);
      OneBlock(s, Placed(s.replicas[r]), id);
      FilterConcat(Entries(Content(s), Placed(s.replicas[r])), s.blocks[id].entries, CrossOf());
      assert Crosses(Entries(Content(s), Placed(s.replicas[r]))) + [] == Crosses(Entries(Content(s),
          Placed(s.replicas[r])));
    }
  }

  lemma ContentSame(s: State, t: State)
    requires s.blocks == t.blocks
    ensures Content(s) == Content(t)
  {}

  lemma SubmitInv(c: Cluster, s: State, m: Message)
    requires Inv(c, s) && Enabled(c, s, Submit(m))
    ensures Inv(c, Do(c, s, Submit(m)))
  {
    hide BlocksOk, PlacedOk, FakesOk, SharedOk, MirrorOk, Copies, MessagesOk, ReplicaOk;
    var t, r := Do(c, s, Submit(m)), s.blocks[m.id].home;
    SubmitMessages(c, s, m);
    SubmitReplica(c, s, m);
    assert Grows(s, t) && LogsGrow(c, s, t);
    BlocksSame(c, s, t);
    forall q {:trigger ReplicaOk(c, t, q)} | 0 <= q < c.replicas ensures ReplicaOk(c, t, q) {
      if q != r { UntouchedOk(c, s, t, q); }
    }
    InvFrom(c, t);
  }

  // ---- Store ----

  lemma StampedIs(queue: seq<Action>, origin: nat, k: nat)
    ensures forall i :: 0 <= i < |queue| ==> var a := Stamp(queue, origin, k)[i];
      a == queue[i].(origin := origin, offset := a.offset)
  {
    forall i | 0 <= i < |queue|
      ensures var a := Stamp(queue, origin, k)[i]; a == queue[i].(origin := origin, offset := a.offset)
    {
      StampIs(queue, origin, k, i);
    }
  }

  lemma StampHead(queue: seq<Action>, origin: nat, k: nat)
    requires queue != []
    ensures var r := Stamp(queue, origin, k);
      && r == [r[0]] + Stamp(queue[1..], origin, if queue[0].fake then k else k + 1)
      && r[0].id == queue[0].id
  {}

  lemma {:induction false} StampedOcc(queue: seq<Action>, origin: nat, k: nat, x: nat)
    ensures Occ(Stamp(queue, origin, k), IdIs(x)) == Occ(queue, IdIs(x))
  {
    if queue != [] {
      StampedOcc(queue[1..], origin, if queue[0].fake then k else k + 1, x);
      hide Stamp, Filter;
      var rest := Stamp(queue[1..], origin, if queue[0].fake then k else k + 1);
      StampHead(queue, origin, k);
      FilterHead(Stamp(queue, origin, k)[0], rest, IdIs(x));
      FilterHead(queue[0], queue[1..], IdIs(x));
      assert queue == [queue[0]] + queue[1..];
    }
  }

  lemma StoredBlockOk(c: Cluster, s: State, r: nat, id: nat, queue: seq<Action>)
    requires Shaped(c, s) && Enabled(c, s, Store(r, id, queue))
    ensures BlockOk(c, Do(c, s, Store(r, id, queue)), id)
  {
    hide Masters, Occ, Stamp, Shaped;
    var t, b := Do(c, s, Store(r, id, queue)), Stamp(queue, r, 0);
    forall a | a in b ensures Fresh(c.owner, a) && a.origin == r && Home(a) == r && a.id in t.first &&
        t.first[a.id] == id {
      StampedIs(queue, r, 0);
      var i :| 0 <= i < |b| && b[i] == a;
      assert queue[i] in queue;
      FreshStamped(c, queue[i], a);
    }
    forall x ensures Occ(b, IdIs(x)) <= 1 { StampedOcc(queue, r, 0, x); }
  }

  lemma FreshStamped(c: Cluster, a: Action, b: Action)
    requires Fresh(c.owner, a) && b == a.(origin := b.origin, offset := b.offset)
    ensures Fresh(c.owner, b) && Home(b) == Home(a)
  {
    assert Masters(c.owner, a) == Masters(c.owner, b);
  }

  lemma BlocksMore(c: Cluster, s: State, t: State, id: nat)
    requires BlocksOk(c, s) && Grows(s, t) && t.blocks.Keys == s.blocks.Keys + {id}
    requires id in t.blocks && BlockOk(c, t, id)
    requires forall x {:trigger x in t.first} :: x in t.first ==> x in s.first || t.first[x] == id
    ensures BlocksOk(c, t)
  {
    forall b {:trigger t.blocks[b]} | b in t.blocks ensures BlockOk(c, t, b) {
      if b != id {
        assert b in s.blocks && s.blocks[b] == t.blocks[b];
        assert BlockOk(c, s, b);
        BlockKept(c, s, t, b);
      }
    }
    forall x {:trigger t.first[x]} | x in t.first ensures t.first[x] in t.blocks {
      if x in s.first { assert s.first[x] in s.blocks; }
    }
  }

  lemma BlockKept(c: Cluster, s: State, t: State, b: nat)
    requires b in s.blocks && BlockOk(c, s, b) && Grows(s, t)
    ensures b in t.blocks && BlockOk(c, t, b)
  {
    hide Fresh, Occ;
    assert t.blocks[b] == s.blocks[b];
    forall a | s.blocks[b].submit && a in s.blocks[b].entries ensures a.id in t.first &&
        t.first[a.id] == b { assert s.first[a.id] == b; }
  }

  /** New blocks, sent to all, and nothing else that messages depend on. */
  lemma SentMessages(c: Cluster, s: State, t: State, id: nat)
    requires Inv(c, s) && Shaped(c, t) && Grows(s, t) && id !in s.blocks && id in t.blocks
    requires t.blocks[id].home < c.replicas
    requires t.flying == s.flying + ToAll(c, id)
    requires t.blocks[id].submit ==> forall q {:trigger Placed(t.replicas[q])} ::
        0 <= q < c.replicas ==> Placed(t.replicas[q]) == Placed(s.replicas[q])
    requires !t.blocks[id].submit ==> forall q {:trigger Placed(t.replicas[q])} :: 0 <= q < c.replicas ==>
               Placed(t.replicas[q]) == Placed(s.replicas[q]) || Placed(t.replicas[q]) == Placed(s.replicas[q]) + [id]
    ensures MessagesOk(c, t)
  {
    hide BlocksOk, FakesOk, SharedOk, MirrorOk, Copies, Placed, NoRepeats;
    forall n {:trigger n in t.flying} | n in t.flying ensures MessageOk(c, t, n) {
      if n in s.flying {
        assert MessageOk(c, s, n);
        assert t.blocks[n.id] == s.blocks[n.id];
        var home := t.blocks[n.id].home;
        var before, after := Placed(s.replicas[home]), Placed(t.replicas[home]);
        assert after == before || after == before + [id];
      } else if t.blocks[id].submit {
        assert n.BatchTo? && n.id == id;
        var home := t.blocks[id].home;
        assert Placed(t.replicas[home]) == Placed(s.replicas[home]);
        assert PlacedOk(s, home);
      }
    }
  }

  lemma StoreInv(c: Cluster, s: State, r: nat, id: nat, queue: seq<Action>)
    requires Inv(c, s) && Enabled(c, s, Store(r, id, queue))
    ensures Inv(c, Do(c, s, Store(r, id, queue)))
  {
    var t := Do(c, s, Store(r, id, queue));
    hide BlocksOk, PlacedOk, FakesOk, SharedOk, MirrorOk, MessagesOk, ReplicaOk, BlockOk, Stamp, Fresh, Occ;
    StoredBlockOk(c, s, r, id, queue);
    assert Grows(s, t) && LogsGrow(c, s, t);
    BlocksMore(c, s, t, id);
    SentMessages(c, s, t, id);
    forall q {:trigger ReplicaOk(c, t, q)} | 0 <= q < c.replicas ensures ReplicaOk(c, t, q) { UntouchedOk(c, s, t, q); }
    InvFrom(c, t);
  }

  // ---- Remote: what is copied ----

  /** The copies a head node has for some blocks are the actions of those blocks that it must order too. */
  lemma {:induction false} CopiesOfBlocks(s: State, r: nat, ids: seq<nat>)
    requires r < |s.replicas| && FakesOk(s, r) && forall b :: b in ids ==> b in s.replicas[r].fakes
    ensures Entries(AtOf(s.replicas[r].fakes), ids) == Copies(r, Entries(Content(s), ids))
  {
    if ids != [] {
      hide Filter;
      assert ids[0] in ids;
      CopiesOfBlocks(s, r, ids[1..]);
      assert ids[0] in s.replicas[r].fakes;
      FilterConcat(Content(s)(ids[0]), Entries(Content(s), ids[1..]), NeedsCopyOf(r));
    } else {
      assert Filter([], NeedsCopyOf(r)) == [];
    }
  }

  /** Renewing and stamping keep the requests. */
  lemma RenewedRequests(x: seq<Action>, r: nat)
    ensures Requests(Stamp(AllRegenerated(x), r, 0)) == Requests(x)
  {
    hide Stamp, AllRegenerated;
    StampedIs(AllRegenerated(x), r, 0);
    var y, z := AllRegenerated(x), Stamp(AllRegenerated(x), r, 0);
    forall i | 0 <= i < |x| ensures Request(z[i]) == Request(x[i]) {
      assert y[i] == Regenerated(x[i]);
    }
    assert Requests(z) == Requests(x);
  }

  /** The new block has exactly the cross-replica requests of the sequence that involve r, in its order. */
  lemma CopiedRequests(e: seq<Action>, r: nat)
    requires forall a :: a in e ==> !a.generated
    ensures Requests(Crosses(Stamp(AllRegenerated(Copies(r, e)), r, 0))) == For(r, Requests(Crosses(e)))
  {
    hide Stamp, AllRegenerated, Filter, Request;
    var x := Copies(r, e);
    var z := Stamp(AllRegenerated(x), r, 0);
    var both := (a: Action) => Cross(a) && Involves(r, a);
    RequestCross();
    RequestInvolves(r);
    RequestsFilter(z, CrossOf(), CrossOf());
    RenewedRequests(x, r);
    RequestsFilter(x, CrossOf(), CrossOf());
    FilterHolds(e, NeedsCopyOf(r));
    FilterAll(x, CrossOf());
    FilterAlike(e, NeedsCopyOf(r), both);
    FilterFilter(e, CrossOf(), InvolvesOf(r), both);
    RequestsFilter(Crosses(e), InvolvesOf(r), InvolvesOf(r));
  }

  /** A sequence of another replica than 0 has nothing to copy. */
  lemma NothingToCopy(c: Cluster, s: State, r: nat, from: nat, ids: seq<nat>)
    requires BlocksOk(c, s) && AllHome(s, from, ids) && from > 0
    ensures Copies(r, Entries(Content(s), ids)) == []
  {
    hide BlocksOk, AllHome, Entries;
    EntriesBelong(c, s, from, ids);
    forall a | a in Entries(Content(s), ids) ensures !NeedsCopy(r, a) { }
    FilterNone(Entries(Content(s), ids), NeedsCopyOf(r));
  }

  /** The sequence replica r takes next, its entries and the block made of it. */
  lemma NextHome(c: Cluster, s: State, r: nat, from: nat)
    requires Inv(c, s) && r < c.replicas && from < c.replicas && r != from
    requires s.replicas[r].taken[from] < |s.replicas[from].log|
    ensures AllHome(s, from, NextSequence(c, s, r, from)) && Known(s, NextSequence(c, s, r, from))
  {
    hide BlocksOk, PlacedOk, FakesOk, SharedOk, MirrorOk, MessagesOk;
    var log, k := s.replicas[from].log, s.replicas[r].taken[from];
    LogHome(c, s, from, k + 1);
    assert log[..k + 1] == log[..k] + [log[k]];
    FlattenMore(log[..k], log[k]);
    assert forall b :: b in log[k] ==> b in Flatten(log[..k + 1]);
  }

  lemma NewBlockIs(c: Cluster, s: State, r: nat, from: nat, id: nat)
    requires Inv(c, s) && Enabled(c, s, Remote(r, from, id))
    ensures var e := Entries(Content(s), NextSequence(c, s, r, from));
      && NewBlock(c, s, r, from) == Stamp(AllRegenerated(Copies(r, e)), r, 0)
      && (from > 0 ==> NewBlock(c, s, r, from) == [])
      && (from == 0 ==> forall a :: a in e ==> !a.generated)
  {
    hide BlocksOk, PlacedOk, FakesOk, SharedOk, MirrorOk, MessagesOk, AllHome, Entries, Copies;
    var ids := NextSequence(c, s, r, from);
    assert s.replicas[r] == s.replicas[r];
    CopiesOfBlocks(s, r, ids);
    NextHome(c, s, r, from);
    if from > 0 { NothingToCopy(c, s, r, from, ids); }
    EntriesBelong(c, s, from, ids);
    if from == 0 {
      forall a | a in Entries(Content(s), ids) ensures !a.generated { BelongsFacts(c, 0, a); }
    }
  }

  lemma NewBlockOk(c: Cluster, s: State, r: nat, from: nat, id: nat)
    requires Inv(c, s) && Enabled(c, s, Remote(r, from, id)) && NewBlock(c, s, r, from) != []
    ensures r > 0 && from == 0 && BlockOk(c, Do(c, s, Remote(r, from, id)), id)
  {
    hide Inv, NextSequence, Taken, AllRegenerated, Stamp, Filter, Entries, Content, BlocksOk, MessagesOk, ReplicaOk;
    InvAt(c, s, r);
    NewBlockIs(c, s, r, from, id);
    var x := Copies(r, Entries(Content(s), NextSequence(c, s, r, from)));
    var y, z := AllRegenerated(x), NewBlock(c, s, r, from);
    StampedIs(y, r, 0);
    FilterHolds(Entries(Content(s), NextSequence(c, s, r, from)), NeedsCopyOf(r));
    NextHome(c, s, r, from);
    EntriesBelong(c, s, from, NextSequence(c, s, r, from));
    forall a | a in z ensures Routed(c.owner, a) && a.origin == r && a.generated && Cross(a) && !a.fake &&
        Involves(r, a) {
      var i :| 0 <= i < |z| && z[i] == a;
      assert y[i] == Regenerated(x[i]) && x[i] in x;
      RoutedAlike(c, x[i], a);
    }
  }

  lemma RoutedAlike(c: Cluster, a: Action, b: Action)
    requires Routed(c.owner, a) && Request(a) == Request(b)
    ensures Routed(c.owner, b)
  {
    assert a.readset == b.readset && a.writeset == b.writeset && a.involved == b.involved && a.single == b.single by {
      assert Request(a).readset == a.readset && Request(b).readset == b.readset;
    }
    assert Masters(c.owner, a) == Masters(c.owner, b);
  }

  // ---- Remote: the step ----

  lemma RemoteMirror(c: Cluster, s: State, t: State, r: nat, from: nat)
    requires Shaped(c, s) && Shaped(c, t) && r < c.replicas && from < c.replicas && r != from && MirrorOk(c, s, r)
    requires s.replicas[r].taken[from] < |s.replicas[from].log|
    requires t.replicas[r].taken == s.replicas[r].taken[from := s.replicas[r].taken[from] + 1]
    requires t.replicas[r].all == s.replicas[r].all + [(from, NextSequence(c, s, r, from))]
    requires forall q {:trigger t.replicas[q]} :: 0 <= q < c.replicas ==> t.replicas[q].log == s.replicas[q].log
    ensures MirrorOk(c, t, r)
  {
    hide PartOf;
    var me, ids := s.replicas[r], NextSequence(c, s, r, from);
    forall q {:trigger t.replicas[q]} | 0 <= q < c.replicas
      ensures var k := if q == r then |t.replicas[q].log| else t.replicas[r].taken[q];
        k <= |t.replicas[q].log| && PartOf(t.replicas[r].all, q) == t.replicas[q].log[..k]
    {
      assert s.replicas[q] == s.replicas[q];
      PartOfMore(me.all, from, ids, q);
      if q == from {
        var log, k := s.replicas[q].log, me.taken[q];
        assert log[..k + 1] == log[..k] + [log[k]];
      } else {
        assert PartOf(me.all, q) + [] == PartOf(me.all, q);
      }
    }
  }

  /** One more sequence of replica 0 taken. */
  lemma SharedMore(c: Cluster, s: State, k: nat)
    requires Shaped(c, s) && c.replicas > 0 && k < |s.replicas[0].log|
    ensures SharedUpTo(s, k + 1) == SharedUpTo(s, k) + Requests(Crosses(Entries(Content(s), s.replicas[0].log[k])))
  {
    hide Flatten, Entries, Filter, Request;
    var log := s.replicas[0].log;
    assert log[..k + 1] == log[..k] + [log[k]];
    FlattenMore(log[..k], log[k]);
    EntriesConcat(Content(s), Flatten(log[..k]), log[k]);
    FilterConcat(Entries(Content(s), Flatten(log[..k])), Entries(Content(s), log[k]), CrossOf());
    RequestsConcat(Crosses(Entries(Content(s), Flatten(log[..k]))), Crosses(Entries(Content(s), log[k])));
  }

  lemma RemoteShared(c: Cluster, s: State, t: State, r: nat, id: nat)
    requires Inv(c, s) && Enabled(c, s, Remote(r, 0, id)) && Shaped(c, t) && Grows(s, t)
    requires t.replicas[0].log == s.replicas[0].log && t.replicas[r].taken[0] == s.replicas[r].taken[0] + 1
    requires var z := NewBlock(c, s, r, 0);
      if z == [] then Placed(t.replicas[r]) == Placed(s.replicas[r])
      else Placed(t.replicas[r]) == Placed(s.replicas[r]) + [id] && id in t.blocks && t.blocks[id].entries == z
    ensures SharedOk(c, t, r)
  {
    hide NewBlock, BlocksOk, MessagesOk, FakesOk, MirrorOk, PlacedOk, Placed, Entries, Content, Flatten, Filter,
        Requests, Stamp, AllRegenerated, Copies, Grows, For, SharedUpTo;
    var z, k, ids := NewBlock(c, s, r, 0), s.replicas[r].taken[0], NextSequence(c, s, r, 0);
    InvAt(c, s, r);
    InvAt(c, s, 0);
    NewBlockIs(c, s, r, 0, id);
    hide Inv, Shaped;
    var e, p := Entries(Content(s), ids), Placed(s.replicas[r]);
    CopiedRequests(e, r);
    SharedSame(s, t, k + 1);
    SharedMore(c, s, k);
    ForConcat(r, SharedUpTo(s, k), Requests(Crosses(e)));
    PlacedKnown(s, r, 0);
    EntriesSame(s, t, p);
    if z != [] {
      OneBlock(t, p, id);
      CrossesConcat(Entries(Content(t), p), z);
    } else {
      CrossesNone();
    }
  }

  lemma CrossesConcat(s: seq<Action>, t: seq<Action>)
    ensures Requests(Crosses(s + t)) == Requests(Crosses(s)) + Requests(Crosses(t))
  {
    FilterConcat(s, t, CrossOf());
    RequestsConcat(Crosses(s), Crosses(t));
  }

  lemma CrossesNone()
    ensures Requests(Crosses([])) == []
  {}

  lemma ForConcat(r: nat, s: seq<Action>, t: seq<Action>)
    ensures For(r, s + t) == For(r, s) + For(r, t)
  {
    FilterConcat(s, t, InvolvesOf(r));
  }

  lemma RemoteEffect(c: Cluster, s: State, r: nat, from: nat, id: nat)
    requires Inv(c, s) && Enabled(c, s, Remote(r, from, id))
    ensures var t, z := Do(c, s, Remote(r, from, id)), NewBlock(c, s, r, from);
      && Shaped(c, t) && Grows(s, t) && LogsGrow(c, s, t) && t.first == s.first
      && (forall q {:trigger t.replicas[q]} :: 0 <= q < c.replicas ==> t.replicas[q].log == s.replicas[q].log)
      && (forall q {:trigger t.replicas[q]} :: 0 <= q < c.replicas && q != r ==> t.replicas[q] == s.replicas[q])
      && (if z == [] then Placed(t.replicas[r]) == Placed(s.replicas[r]) && t.blocks == s.blocks && t.flying == s.flying
          else && Placed(t.replicas[r]) == Placed(s.replicas[r]) + [id]
               && t.blocks == s.blocks[id := Block(r, false, z)] && t.flying == s.flying + ToAll(c, id))
      && t.replicas[r].taken == s.replicas[r].taken[from := s.replicas[r].taken[from] + 1]
      && t.replicas[r].all == s.replicas[r].all + [(from, NextSequence(c, s, r, from))]
      && t.replicas[r].fakes == Unused(s.replicas[r].fakes, NextSequence(c, s, r, from))
  {
    hide BlocksOk, MessagesOk, PlacedOk, FakesOk, SharedOk, MirrorOk, NewBlock, NextSequence, Flatten, Unused;
    var me := s.replicas[r];
    assert Flatten(me.log) + (me.pending + [id]) == Flatten(me.log) + me.pending + [id];
  }

  lemma RemoteReplica(c: Cluster, s: State, r: nat, from: nat, id: nat)
    requires Inv(c, s) && Enabled(c, s, Remote(r, from, id))
    ensures Shaped(c, Do(c, s, Remote(r, from, id))) && ReplicaOk(c, Do(c, s, Remote(r, from, id)), r)
  {
    hide BlocksOk, MessagesOk, PlacedOk, FakesOk, SharedOk, MirrorOk, NewBlock, NextSequence, Placed, Grows, Unused;
    var t, z := Do(c, s, Remote(r, from, id)), NewBlock(c, s, r, from);
    RemoteEffect(c, s, r, from, id);
    InvAt(c, s, r);
    InvAt(c, s, 0);
    NewBlockIs(c, s, r, from, id);
    if from == 0 { RemoteShared(c, s, t, r, id); }
    hide Inv, Do;
    UnusedSub(s.replicas[r].fakes, NextSequence(c, s, r, from));
    FakesFrame(s, t, r);
    RemoteMirror(c, s, t, r, from);
    if from > 0 { SharedFrame(c, s, t, r); }
    if z == [] {
      PlacedFrame(s, t, r);
    } else {
      NotPlaced(s, r, id);
      PlacedAppend(s, t, r, id);
    }
  }

  lemma NotPlaced(s: State, r: nat, id: nat)
    requires r < |s.replicas| && PlacedOk(s, r) && id !in s.blocks
    ensures id !in Placed(s.replicas[r])
  {
    hide Placed;
  }

  lemma UnusedSub(m: map<nat, seq<Action>>, ids: seq<nat>)
    ensures forall b {:trigger b in Unused(m, ids)} :: b in Unused(m, ids) ==> b in m && Unused(m, ids)[b] == m[b]
  {}

  lemma RemoteInv(c: Cluster, s: State, r: nat, from: nat, id: nat)
    requires Inv(c, s) && Enabled(c, s, Remote(r, from, id))
    ensures Inv(c, Do(c, s, Remote(r, from, id)))
  {
    hide BlocksOk, MessagesOk, PlacedOk, FakesOk, SharedOk, MirrorOk, NewBlock, NextSequence, Placed, Grows, Unused,
        ReplicaOk, BlockOk, Taken;
    var t, z := Do(c, s, Remote(r, from, id)), NewBlock(c, s, r, from);
    RemoteEffect(c, s, r, from, id);
    RemoteReplica(c, s, r, from, id);
    forall q {:trigger ReplicaOk(c, t, q)} | 0 <= q < c.replicas ensures ReplicaOk(c, t, q) {
      if q != r { UntouchedOk(c, s, t, q); }
    }
    if z == [] {
      BlocksSame(c, s, t);
      SameMessages(c, s, t);
    } else {
      NewBlockOk(c, s, r, from, id);
      BlocksMore(c, s, t, id);
      SentMessages(c, s, t, id);
    }
    InvFrom(c, t);
  }

  lemma SameMessages(c: Cluster, s: State, t: State)
    requires Shaped(c, s) && MessagesOk(c, s) && Shaped(c, t) && t.blocks == s.blocks && t.flying == s.flying
    requires forall q {:trigger Placed(t.replicas[q])} ::
        0 <= q < c.replicas ==> Placed(t.replicas[q]) == Placed(s.replicas[q])
    ensures MessagesOk(c, t)
  {
    hide Placed, Copies;
    forall n {:trigger n in t.flying} | n in t.flying ensures MessageOk(c, t, n) {
      assert MessageOk(c, s, n);
      var home := t.blocks[n.id].home;
      assert Placed(t.replicas[home]) == Placed(s.replicas[home]);
      if n.BatchTo? { assert Placed(t.replicas[n.to]) == Placed(s.replicas[n.to]); }
    }
  }

  // ---- Runs ----

  lemma StepInv(c: Cluster, s: State, step: Step)
    requires Inv(c, s) && Enabled(c, s, step)
    ensures Inv(c, Do(c, s, step))
  {
    hide Inv, Do, Enabled;
    match step
    case Store(r, id, queue) => StoreInv(c, s, r, id, queue);
    case Batch(m) => BatchInv(c, s, m);
    case Submit(m) => SubmitInv(c, s, m);
    case Fakes(m) => FakesInv(c, s, m);
    case Propose(r) => ProposeInv(c, s, r);
    case Remote(r, from, id) => RemoteInv(c, s, r, from, id);
  }

  ghost predicate IsRun(c: Cluster, s: State, steps: seq<Step>)
    decreases |steps|
  {
    Shaped(c, s) && (steps == [] || (Enabled(c, s, steps[0]) && IsRun(c, Do(c, s, steps[0]), steps[1..])))
  }

  ghost function Reached(c: Cluster, s: State, steps: seq<Step>): State
    requires IsRun(c, s, steps)
    decreases |steps|
  {
    if steps == [] then s else Reached(c, Do(c, s, steps[0]), steps[1..])
  }

  lemma {:induction false} RunInv(c: Cluster, s: State, steps: seq<Step>)
    requires IsRun(c, s, steps) && Inv(c, s)
    ensures Inv(c, Reached(c, s, steps))
    decreases |steps|
  {
    if steps != [] {
      hide Inv, Do, Enabled;
      StepInv(c, s, steps[0]);
      RunInv(c, Do(c, s, steps[0]), steps[1..]);
    }
  }

  /** However messages are reordered, after every run one order of all requests, none twice, extends every replica's
      log, and no two replicas order two requests differently. This rests on one order that the step Remote takes for
      granted: a head node's APPEND messages to its own consensus leader, one for each block of copies it makes, are
      handled in the order in which it sends them (src_lowlatency/components/log/paxos2.cc, Append). */
  lemma RunsHaveOneOrder(c: Cluster, steps: seq<Step>)
    requires c.replicas > 0 && IsRun(c, Init(c), steps)
    ensures var s := Reached(c, Init(c), steps);
      && |s.replicas| == c.replicas
      && (forall r :: 0 <= r < c.replicas ==> LogOf(s, r) <= For(r, WholeOrder(s)))
      && (forall x :: Occ(WholeOrder(s), IdIs(x)) <= 1)
      && (forall r, q, x, y ::
          0 <= r < c.replicas && 0 <= q < c.replicas && Before(LogOf(s, r), x, y) ==> !Before(LogOf(s, q), y, x))
  {
    hide Inv, LogOf, WholeOrder, Before, Occ, Reached, IsRun, For;
    InitInv(c);
    RunInv(c, Init(c), steps);
    var s := Reached(c, Init(c), steps);
    OneTotalOrder(c, s);
    forall r, q, x, y | 0 <= r < c.replicas && 0 <= q < c.replicas &&
        Before(LogOf(s, r), x, y) ensures !Before(LogOf(s, q), y, x) {
      NeverOpposite(c, s, r, q, x, y);
    }
  }
}
