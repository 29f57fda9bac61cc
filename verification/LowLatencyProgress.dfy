/** The low-latency log system always goes on: as long as something is left to do some step other than storing new
    requests is possible, so no head node waits for a copy that cannot come, and without new requests every run ends. */
module LowLatencyProgress {
  import opened Collections
  import opened ActionLog
  import opened LowLatency
  import opened TotalOrder
  import opened LowLatencyOrder
  import opened LowLatencySteps
  import opened LowLatencyDelivery

  // ---- Copies ----

  function Prefix(log: seq<seq<nat>>, k: nat): seq<seq<nat>> {
    if k <= |log| then log[..k] else log
  }

  /** Replica q has taken the sequence that block id is in. */
  ghost predicate Used(c: Cluster, s: State, id: nat, q: nat)
    requires Shaped(c, s) && q < c.replicas && id in s.blocks && s.blocks[id].home < c.replicas
  {
    id in Flatten(Prefix(s.replicas[s.blocks[id].home].log, s.replicas[q].taken[s.blocks[id].home]))
  }

  /** The copies of a block for another replica are on their way there, there, or used. */
  ghost predicate CopyCarried(c: Cluster, s: State, id: nat, q: nat)
    requires Shaped(c, s)
  {
    id in s.blocks && q < c.replicas && s.blocks[id].home < c.replicas && s.blocks[id].home != q ==>
      || BatchTo(id, q) in s.flying
      || FakesTo(id, q, Copies(q, s.blocks[id].entries)) in s.flying
      || id in s.replicas[q].fakes
      || Used(c, s, id, q)
  }

  ghost predicate AllCopies(c: Cluster, s: State)
    requires Shaped(c, s)
  {
    forall id, q: nat {:trigger CopyCarried(c, s, id, q)} :: CopyCarried(c, s, id, q)
  }

  lemma InitCopies(c: Cluster)
    ensures AllCopies(c, Init(c))
  {}

  /** What a step does to the copies of one block for one replica. */
  ghost predicate CopyKept(c: Cluster, s: State, t: State, id: nat, q: nat)
    requires Shaped(c, s) && Shaped(c, t) && q < c.replicas && id in s.blocks && id in t.blocks
    requires s.blocks[id] == t.blocks[id] && s.blocks[id].home < c.replicas
  {
    var fakes := FakesTo(id, q, Copies(q, s.blocks[id].entries));
    && (BatchTo(id, q) in s.flying ==> BatchTo(id, q) in t.flying || fakes in t.flying)
    && (fakes in s.flying ==> fakes in t.flying || id in t.replicas[q].fakes)
    && (id in s.replicas[q].fakes ==> id in t.replicas[q].fakes || Used(c, t, id, q))
    && (Used(c, s, id, q) ==> Used(c, t, id, q))
  }

  lemma StepCopies(c: Cluster, s: State, step: Step)
    requires Inv(c, s) && Enabled(c, s, step) && AllCopies(c, s)
    ensures Shaped(c, Do(c, s, step)) && AllCopies(c, Do(c, s, step))
  {
    hide BlocksOk, MessagesOk, PlacedOk, FakesOk, SharedOk, MirrorOk, Enabled, Do, Used, Copies;
    var t := Do(c, s, step);
    StepInv(c, s, step);
    StepBlocks(c, s, step);
    forall id, q: nat {:trigger CopyCarried(c, t, id, q)} ensures CopyCarried(c, t, id, q) {
      assert CopyCarried(c, s, id, q);
      if id in s.blocks && q < c.replicas && s.blocks[id].home < c.replicas && s.blocks[id].home != q {
        StepCopy(c, s, step, id, q);
      }
    }
  }

  /** Blocks stay, and a new one is sent to all. */
  lemma StepBlocks(c: Cluster, s: State, step: Step)
    requires Inv(c, s) && Enabled(c, s, step)
    ensures var t := Do(c, s, step);
      && (forall id {:trigger id in t.blocks} {:trigger id in s.blocks} ::
          id in s.blocks ==> id in t.blocks && t.blocks[id] == s.blocks[id])
      && (forall id, q {:trigger BatchTo(id, q)} ::
          id in t.blocks && id !in s.blocks && 0 <= q < c.replicas ==> BatchTo(id, q) in t.flying)
  {
    hide BlocksOk, MessagesOk, PlacedOk, FakesOk, SharedOk, MirrorOk, NewBlock, NewRequests, Stamp, Taken, Copies;
  }

  lemma StepCopy(c: Cluster, s: State, step: Step, id: nat, q: nat)
    requires Inv(c, s) && Enabled(c, s, step)
    requires id in s.blocks && q < c.replicas && s.blocks[id].home < c.replicas && s.blocks[id].home != q
    ensures var t := Do(c, s, step);
      Shaped(c, t) && id in t.blocks && t.blocks[id] == s.blocks[id] && CopyKept(c, s, t, id, q)
  {
    hide BlocksOk, PlacedOk, FakesOk, SharedOk, MirrorOk, NewBlock, NewRequests, Stamp, Copies, Flatten;
    match step
    case Store(r, b, queue) =>
    case Batch(m) =>
    case Submit(m) => SubmitCopy(c, s, m, id, q);
    case Fakes(m) => FakesCopy(c, s, m, id, q);
    case Propose(r) => ProposeCopy(c, s, r, id, q);
    case Remote(r, from, b) => RemoteCopy(c, s, r, from, b, id, q);
  }

  lemma SubmitCopy(c: Cluster, s: State, m: Message, id: nat, q: nat)
    requires Inv(c, s) && Enabled(c, s, Submit(m))
    requires id in s.blocks && q < c.replicas && s.blocks[id].home < c.replicas && s.blocks[id].home != q
    ensures var t := Do(c, s, Submit(m)); Shaped(c, t) && CopyKept(c, s, t, id, q)
  {
    hide BlocksOk, MessagesOk, PlacedOk, FakesOk, SharedOk, MirrorOk, Copies, Flatten;
  }

  lemma FakesCopy(c: Cluster, s: State, m: Message, id: nat, q: nat)
    requires Inv(c, s) && Enabled(c, s, Fakes(m))
    requires id in s.blocks && q < c.replicas && s.blocks[id].home < c.replicas && s.blocks[id].home != q
    ensures var t := Do(c, s, Fakes(m)); Shaped(c, t) && CopyKept(c, s, t, id, q)
  {
    hide BlocksOk, MessagesOk, PlacedOk, FakesOk, SharedOk, MirrorOk, Copies, Flatten;
  }

  lemma ProposeCopy(c: Cluster, s: State, r: nat, id: nat, q: nat)
    requires Inv(c, s) && Enabled(c, s, Propose(r))
    requires id in s.blocks && q < c.replicas && s.blocks[id].home < c.replicas && s.blocks[id].home != q
    ensures var t := Do(c, s, Propose(r)); Shaped(c, t) && CopyKept(c, s, t, id, q)
  {
    hide BlocksOk, MessagesOk, PlacedOk, FakesOk, SharedOk, MirrorOk, Copies, Flatten, ReplicaOk;
    InvAt(c, s, q);
    TakenWithin(c, s, q, s.blocks[id].home);
    hide Inv, Enabled;
    var home, k := s.blocks[id].home, s.replicas[q].taken[s.blocks[id].home];
    var log := s.replicas[home].log;
    assert (log + [s.replicas[home].pending])[..k] == log[..k];
    var t := Do(c, s, Propose(r));
    assert t.replicas[q].taken == s.replicas[q].taken && t.replicas[q].fakes == s.replicas[q].fakes;
    assert Prefix(t.replicas[home].log, k) == Prefix(log, k);
  }

  lemma TakenWithin(c: Cluster, s: State, r: nat, q: nat)
    requires Shaped(c, s) && r < c.replicas && ReplicaOk(c, s, r) && q < c.replicas && r != q
    ensures s.replicas[r].taken[q] <= |s.replicas[q].log|
  {
    MirrorTaken(c, s, r);
    assert s.replicas[q] == s.replicas[q];
  }

  lemma PrefixMore(log: seq<seq<nat>>, k: nat)
    requires k < |log|
    ensures forall id {:trigger id in Flatten(Prefix(log, k + 1))} ::
              id in Flatten(Prefix(log, k + 1)) <==> id in Flatten(Prefix(log, k)) || id in log[k]
  {
    assert log[..k + 1] == log[..k] + [log[k]];
    FlattenMore(log[..k], log[k]);
  }

  lemma RemoteCopy(c: Cluster, s: State, r: nat, from: nat, b: nat, id: nat, q: nat)
    requires Inv(c, s) && Enabled(c, s, Remote(r, from, b))
    requires id in s.blocks && q < c.replicas && s.blocks[id].home < c.replicas && s.blocks[id].home != q
    ensures var t := Do(c, s, Remote(r, from, b));
      Shaped(c, t) && id in t.blocks && t.blocks[id] == s.blocks[id] && CopyKept(c, s, t, id, q)
  {
    hide BlocksOk, MessagesOk, PlacedOk, FakesOk, SharedOk, MirrorOk, NewBlock, Flatten, Copies, Do, Unused;
    var t, home := Do(c, s, Remote(r, from, b)), s.blocks[id].home;
    RemoteEffect(c, s, r, from, b);
    assert t.replicas[home].log == s.replicas[home].log;
    if q == r {
      NextHome(c, s, r, from);
      UnusedKeeps(s.replicas[r].fakes, NextSequence(c, s, r, from));
      if home == from { PrefixMore(s.replicas[from].log, s.replicas[r].taken[from]); }
    }
  }

  lemma UnusedKeeps(m: map<nat, seq<Action>>, ids: seq<nat>)
    ensures forall b {:trigger b in m} :: b in m ==> b in Unused(m, ids) || b in ids
  {}

  // ---- Something is always possible ----

  lemma {:induction false} FreshId(ids: set<nat>) returns (id: nat)
    ensures forall x :: x in ids ==> x < id
  {
    if ids == {} {
      id := 0;
    } else {
      var x :| x in ids;
      id := FreshId(ids - {x});
      if id <= x { id := x + 1; }
      assert forall y :: y in ids ==> y == x || y in ids - {x};
    }
  }

  /** The sequence that replica r takes next from another one that is ahead: its copies are there once no message is in
      flight. */
  lemma CopiesThere(c: Cluster, s: State, r: nat, from: nat)
    requires Inv(c, s) && AllCopies(c, s) && s.flying == {} && r < c.replicas && from < c.replicas && r != from
    requires s.replicas[r].taken[from] < |s.replicas[from].log|
    ensures forall b :: b in NextSequence(c, s, r, from) ==> b in s.replicas[r].fakes
  {
    hide BlocksOk, MessagesOk, PlacedOk, FakesOk, SharedOk, MirrorOk, Flatten, Copies, NoRepeats;
    var log, k, ids := s.replicas[from].log, s.replicas[r].taken[from], NextSequence(c, s, r, from);
    NextHome(c, s, r, from);
    LogRepeatsNot(c, s, from);
    NotEarlier(log, k);
    forall b | b in ids ensures b in s.replicas[r].fakes {
      assert b in s.blocks;
      assert CopyCarried(c, s, b, r);
    }
  }

  lemma NotEarlier(log: seq<seq<nat>>, k: nat)
    requires k < |log| && NoRepeats(Flatten(log))
    ensures forall b {:trigger b in log[k]} :: b in log[k] ==> b !in Flatten(log[..k])
  {
    assert log[..k + 1] == log[..k] + [log[k]];
    FlattenMore(log[..k], log[k]);
    FlattenPrefix(log, k + 1);
    Apart(Flatten(log[..k]), log[k], Flatten(log));
  }

  lemma {:induction false} Apart(e: seq<nat>, x: seq<nat>, f: seq<nat>)
    requires NoRepeats(f) && e + x <= f
    ensures forall b {:trigger b in x} :: b in x ==> b !in e
  {
    forall i, j | 0 <= i < |e| && 0 <= j < |x| ensures e[i] != x[j] {
      assert f[i] == (e + x)[i] && f[|e| + j] == (e + x)[|e| + j];
    }
  }

  ghost predicate Behind(c: Cluster, s: State, r: nat, q: nat)
    requires Shaped(c, s)
  {
    r < c.replicas && q < c.replicas && r != q && s.replicas[r].taken[q] < |s.replicas[q].log|
  }

  /** If no message is in flight, nothing is pending and nobody is behind, the system is at rest. */
  lemma NobodyBehind(c: Cluster, s: State)
    requires Inv(c, s) && s.flying == {}
    requires forall r {:trigger s.replicas[r]} :: 0 <= r < c.replicas ==> s.replicas[r].pending == []
    requires forall r, q {:trigger Behind(c, s, r, q)} :: !Behind(c, s, r, q)
    ensures AtRest(c, s)
  {
    hide BlocksOk, MessagesOk, PlacedOk, FakesOk, SharedOk, MirrorOk;
    forall r, q {:trigger s.replicas[r], s.replicas[q]} | 0 <= r < c.replicas && 0 <= q < c.replicas && q != r
      ensures s.replicas[r].taken[q] == |s.replicas[q].log|
    {
      assert !Behind(c, s, r, q);
      InvAt(c, s, r);
      TakenWithin(c, s, r, q);
    }
  }

  /** Unless the system is at rest, some step other than storing new requests is possible. */
  lemma NeverStuck(c: Cluster, s: State) returns (step: Step)
    requires Inv(c, s) && AllCopies(c, s) && !AtRest(c, s)
    ensures Enabled(c, s, step) && !step.Store?
  {
    hide BlocksOk, PlacedOk, FakesOk, SharedOk, MirrorOk, Copies, AllCopies, NewRequests;
    if m :| m in s.flying {
      assert MessageOk(c, s, m);
      match m
      case BatchTo(_, _) => step := Batch(m);
      case SubmitOf(_) => step := Submit(m);
      case FakesTo(_, _, _) => step := Fakes(m);
    } else if r :| 0 <= r < c.replicas && s.replicas[r].pending != [] {
      step := Propose(r);
    } else {
      if forall r, q {:trigger Behind(c, s, r, q)} :: !Behind(c, s, r, q) { NobodyBehind(c, s); }
      var r: nat, q: nat :| Behind(c, s, r, q);
      CopiesThere(c, s, r, q);
      var id := FreshId(s.blocks.Keys);
      step := Remote(r, q, id);
    }
  }

  lemma {:induction false} RunCopies(c: Cluster, s: State, steps: seq<Step>)
    requires IsRun(c, s, steps) && Inv(c, s) && AllCopies(c, s)
    ensures Inv(c, Reached(c, s, steps)) && AllCopies(c, Reached(c, s, steps))
    decreases |steps|
  {
    if steps != [] {
      hide Inv, Do, Enabled, AllCopies;
      StepInv(c, s, steps[0]);
      StepCopies(c, s, steps[0]);
      RunCopies(c, Do(c, s, steps[0]), steps[1..]);
    }
  }

  /** After every run, the system is at rest or can go on without new requests. */
  lemma RunsGoOn(c: Cluster, steps: seq<Step>) returns (step: Step)
    requires IsRun(c, Init(c), steps) && !AtRest(c, Reached(c, Init(c), steps))
    ensures Shaped(c, Reached(c, Init(c), steps)) && Enabled(c, Reached(c, Init(c), steps), step) && !step.Store?
  {
    hide Inv, IsRun, Reached, AllCopies, AtRest, Enabled;
    InitInv(c);
    InitCopies(c);
    RunCopies(c, Init(c), steps);
    InvShaped(c, Reached(c, Init(c), steps));
    step := NeverStuck(c, Reached(c, Init(c), steps));
  }
}
