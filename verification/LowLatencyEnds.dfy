/** Without new requests the low-latency log system comes to rest: every other step uses up some of a finite amount of
    work. */
module LowLatencyEnds {
  import opened Collections
  import opened ActionLog
  import opened LowLatency
  import opened LowLatencyOrder
  import opened LowLatencySteps
  import opened LowLatencyProgress

  // ---- The work left ----

  /** What taking a sequence of replica q may still cause: for replica 0's, a new block, its messages and its
      proposal. */
  function TakeWork(n: nat, q: nat): nat {
    if q == 0 then 2 + 3 * n else 1
  }

  /** What a block to be proposed by replica r may still cause. */
  function PendingWork(n: nat, r: nat): nat {
    1 + n * TakeWork(n, r)
  }

  /** A block on its way to the head node that will submit it. */
  predicate IsHot(s: State, m: Message) {
    m.BatchTo? && m.id in s.blocks && s.blocks[m.id].submit && s.blocks[m.id].home == m.to
  }

  function Hot(s: State): set<Message> {
    set m | m in s.flying && IsHot(s, m)
  }

  function Cold(s: State): set<Message> {
    set m | m in s.flying && m.BatchTo? && !IsHot(s, m)
  }

  function Submits(s: State): set<Message> {
    set m | m in s.flying && m.SubmitOf?
  }

  function Copying(s: State): set<Message> {
    set m | m in s.flying && m.FakesTo?
  }

  function MessageWork(n: nat, s: State): nat {
    |Hot(s)| * (2 + PendingWork(n, 0)) + |Submits(s)| * (1 + PendingWork(n, 0)) + 2 * |Cold(s)| + |Copying(s)|
  }

  /** How far replica r is behind replica q. */
  function Gap(s: State, r: nat, q: nat): nat
    requires r < |s.replicas| && q < |s.replicas[r].taken| && q < |s.replicas|
  {
    var have, taken := |s.replicas[q].log|, s.replicas[r].taken[q];
    if q == r || have <= taken then 0 else have - taken
  }

  function Behindness(c: Cluster, s: State, r: nat, k: nat): nat
    requires Shaped(c, s) && r < c.replicas && k <= c.replicas
  {
    if k == 0 then 0 else Behindness(c, s, r, k - 1) + Gap(s, r, k - 1) * TakeWork(c.replicas, k - 1)
  }

  function Debt(c: Cluster, s: State, r: nat): nat
    requires Shaped(c, s) && r < c.replicas
  {
    |s.replicas[r].pending| * PendingWork(c.replicas, r) + Behindness(c, s, r, c.replicas)
  }

  function Debts(c: Cluster, s: State, k: nat): nat
    requires Shaped(c, s) && k <= c.replicas
  {
    if k == 0 then 0 else Debts(c, s, k - 1) + Debt(c, s, k - 1)
  }

  function Work(c: Cluster, s: State): nat
    requires Shaped(c, s)
  {
    MessageWork(c.replicas, s) + Debts(c, s, c.replicas)
  }

  // ---- Sums ----

  lemma {:induction false} BehindSame(c: Cluster, s: State, t: State, r: nat, k: nat)
    requires Shaped(c, s) && Shaped(c, t) && r < c.replicas && k <= c.replicas
    requires t.replicas[r].taken == s.replicas[r].taken
    requires forall q {:trigger t.replicas[q]} :: 0 <= q < c.replicas ==> |t.replicas[q].log| == |s.replicas[q].log|
    ensures Behindness(c, t, r, k) == Behindness(c, s, r, k)
  {
    if k > 0 {
      BehindSame(c, s, t, r, k - 1);
      assert |t.replicas[k - 1].log| == |s.replicas[k - 1].log|;
    }
  }

  /** Replica p has one more sequence. */
  lemma {:induction false} BehindMore(c: Cluster, s: State, t: State, r: nat, k: nat, p: nat)
    requires Shaped(c, s) && Shaped(c, t) && r < c.replicas && k <= c.replicas
    requires t.replicas[r].taken == s.replicas[r].taken
    requires forall q {:trigger t.replicas[q]} ::
        0 <= q < c.replicas ==> |t.replicas[q].log| == |s.replicas[q].log| + if q == p then 1 else 0
    ensures Behindness(c, t, r, k) <= Behindness(c, s, r, k) + if p < k && p != r then TakeWork(c.replicas, p) else 0
  {
    if k > 0 {
      hide TakeWork;
      BehindMore(c, s, t, r, k - 1, p);
      assert |t.replicas[k - 1].log| == |s.replicas[k - 1].log| + if k - 1 == p then 1 else 0;
      var g, h, w := Gap(s, r, k - 1), Gap(t, r, k - 1), TakeWork(c.replicas, k - 1);
      AtMostOneMore(g, h, w);
    }
  }

  lemma AtMostOneMore(g: nat, h: nat, w: nat)
    requires h == g || h == g + 1
    ensures h * w == if h == g then g * w else g * w + w
  {}

  /** Replica r has taken one more sequence of replica p. */
  lemma {:induction false} BehindLess(c: Cluster, s: State, t: State, r: nat, k: nat, p: nat)
    requires Shaped(c, s) && Shaped(c, t) && r < c.replicas && k <= c.replicas && p < c.replicas && p != r
    requires s.replicas[r].taken[p] < |s.replicas[p].log|
    requires t.replicas[r].taken == s.replicas[r].taken[p := s.replicas[r].taken[p] + 1]
    requires forall q {:trigger t.replicas[q]} :: 0 <= q < c.replicas ==> |t.replicas[q].log| == |s.replicas[q].log|
    ensures Behindness(c, t, r, k) + (if p < k then TakeWork(c.replicas, p) else 0) == Behindness(c, s, r, k)
  {
    if k > 0 {
      hide TakeWork;
      BehindLess(c, s, t, r, k - 1, p);
      assert |t.replicas[k - 1].log| == |s.replicas[k - 1].log|;
      var g, h, w := Gap(s, r, k - 1), Gap(t, r, k - 1), TakeWork(c.replicas, k - 1);
      assert g == h + if k - 1 == p then 1 else 0;
      AtMostOneMore(h, g, w);
    }
  }

  /** Only replica p's debt changes. */
  lemma {:induction false} DebtsAt(c: Cluster, s: State, t: State, k: nat, p: nat)
    requires Shaped(c, s) && Shaped(c, t) && k <= c.replicas && p < c.replicas
    requires forall r {:trigger Debt(c, t, r)} :: 0 <= r < c.replicas && r != p ==> Debt(c, t, r) == Debt(c, s, r)
    ensures Debts(c, t, k) + (if p < k then Debt(c, s, p) else 0) == Debts(c, s, k) + (if p < k then Debt(c, t, p)
        else 0)
  {
    if k > 0 {
      hide Debt;
      DebtsAt(c, s, t, k - 1, p);
      assert k - 1 != p ==> Debt(c, t, k - 1) == Debt(c, s, k - 1);
    }
  }

  lemma {:induction false} DebtsSame(c: Cluster, s: State, t: State, k: nat)
    requires Shaped(c, s) && Shaped(c, t) && k <= c.replicas
    requires forall r {:trigger Debt(c, t, r)} :: 0 <= r < c.replicas ==> Debt(c, t, r) == Debt(c, s, r)
    ensures Debts(c, t, k) == Debts(c, s, k)
  {
    if k > 0 {
      hide Debt;
      DebtsSame(c, s, t, k - 1);
      assert Debt(c, t, k - 1) == Debt(c, s, k - 1);
    }
  }

  /** Replica p's debt falls by `less`, all others rise by at most `more`. */
  lemma {:induction false} DebtsShift(c: Cluster, s: State, t: State, k: nat, p: nat, less: nat, more: nat)
    requires Shaped(c, s) && Shaped(c, t) && k <= c.replicas && p < c.replicas
    requires Debt(c, t, p) + less <= Debt(c, s, p)
    requires forall r {:trigger Debt(c, t, r)} ::
        0 <= r < c.replicas && r != p ==> Debt(c, t, r) <= Debt(c, s, r) + more
    ensures Debts(c, t, k) + (if p < k then less else 0) <= Debts(c, s, k) + k * more
  {
    if k > 0 {
      hide Debt;
      DebtsShift(c, s, t, k - 1, p, less, more);
      assert k - 1 != p ==> Debt(c, t, k - 1) <= Debt(c, s, k - 1) + more;
      assert k * more == (k - 1) * more + more;
    }
  }

  // ---- Messages ----

  lemma {:induction false} ToAllSize(c: Cluster, id: nat)
    ensures |ToAll(c, id)| <= c.replicas
    decreases c.replicas
  {
    if c.replicas > 0 {
      var d := c.(replicas := c.replicas - 1);
      ToAllSize(d, id);
      assert ToAll(c, id) == ToAll(d, id) + {BatchTo(id, c.replicas - 1)};
    }
  }

  lemma OneLess(a: set<Message>, m: Message, b: set<Message>)
    requires m in a && b == a - {m}
    ensures |b| == |a| - 1
  {}

  lemma AtMostMore(a: set<Message>, x: set<Message>, b: set<Message>)
    requires b <= a + x
    ensures |b| <= |a| + |x|
  {
    SubsetSize(b, a + x);
    SubsetSize(x - a, x);
    assert a + x == a + (x - a);
  }

  /** Delivering a block makes the messages' work less. */
  lemma BatchWork(c: Cluster, s: State, m: Message)
    requires Shaped(c, s) && Enabled(c, s, Batch(m))
    ensures MessageWork(c.replicas, Do(c, s, Batch(m))) < MessageWork(c.replicas, s)
  {
    hide PendingWork, Copies;
    var t, b := Do(c, s, Batch(m)), s.blocks[m.id];
    if IsHot(s, m) {
      assert t.flying == s.flying - {m} + {SubmitOf(m.id)};
      OneLess(Hot(s), m, Hot(t));
      assert Cold(t) == Cold(s) && Copying(t) == Copying(s);
      AtMostMore(Submits(s), {SubmitOf(m.id)}, Submits(t));
      HotArith(|Hot(s)|, |Submits(s)|, |Submits(t)|, PendingWork(c.replicas, 0));
    } else {
      var x := if b.home == m.to then {} else {FakesTo(m.id, m.to, Copies(m.to, b.entries))};
      assert t.flying == s.flying - {m} + x;
      OneLess(Cold(s), m, Cold(t));
      assert Hot(t) == Hot(s) && Submits(t) == Submits(s);
      AtMostMore(Copying(s), x, Copying(t));
    }
  }

  lemma HotArith(h: nat, u: nat, v: nat, w: nat)
    requires h >= 1 && v <= u + 1
    ensures (h - 1) * (2 + w) + v * (1 + w) < h * (2 + w) + u * (1 + w)
  {
    assert v * (1 + w) <= (u + 1) * (1 + w);
    assert (u + 1) * (1 + w) == u * (1 + w) + (1 + w);
    assert h * (2 + w) == (h - 1) * (2 + w) + (2 + w);
  }

  lemma SubmitWork(c: Cluster, s: State, m: Message)
    requires Shaped(c, s) && Enabled(c, s, Submit(m))
    ensures MessageWork(c.replicas, Do(c, s, Submit(m))) + 1 + PendingWork(c.replicas, 0) == MessageWork(c.replicas, s)
  {
    hide PendingWork;
    var t := Do(c, s, Submit(m));
    OneLess(Submits(s), m, Submits(t));
    assert Hot(t) == Hot(s) && Cold(t) == Cold(s) && Copying(t) == Copying(s);
    OneTimes(|Submits(s)|, 1 + PendingWork(c.replicas, 0));
  }

  lemma OneTimes(u: nat, w: nat)
    requires u >= 1
    ensures (u - 1) * w + w == u * w
  {}

  lemma FakesWork(c: Cluster, s: State, m: Message)
    requires Shaped(c, s) && Enabled(c, s, Fakes(m))
    ensures MessageWork(c.replicas, Do(c, s, Fakes(m))) + 1 == MessageWork(c.replicas, s)
  {
    hide PendingWork;
    var t := Do(c, s, Fakes(m));
    OneLess(Copying(s), m, Copying(t));
    assert Hot(t) == Hot(s) && Cold(t) == Cold(s) && Submits(t) == Submits(s);
  }

  lemma SameMessages(n: nat, s: State, t: State)
    requires t.flying == s.flying && t.blocks == s.blocks
    ensures MessageWork(n, t) == MessageWork(n, s)
  {
    assert Hot(t) == Hot(s) && Cold(t) == Cold(s) && Submits(t) == Submits(s) && Copying(t) == Copying(s);
  }

  /** A new block of copies is sent to all, and will not be submitted. */
  lemma CopiesWork(c: Cluster, s: State, t: State, id: nat)
    requires id !in s.blocks && id in t.blocks && !t.blocks[id].submit && t.flying == s.flying + ToAll(c, id)
    requires forall m {:trigger m in s.flying} :: m in s.flying && m.BatchTo? ==> m.id in s.blocks
    requires forall b {:trigger b in s.blocks} :: b in s.blocks ==> b in t.blocks && t.blocks[b] == s.blocks[b]
    ensures MessageWork(c.replicas, t) <= MessageWork(c.replicas, s) + 2 * c.replicas
  {
    hide PendingWork;
    forall m | m in s.flying ensures IsHot(t, m) == IsHot(s, m) {}
    forall m | m in ToAll(c, id) ensures !IsHot(t, m) {}
    assert Hot(t) == Hot(s) && Submits(t) == Submits(s) && Copying(t) == Copying(s);
    ToAllSize(c, id);
    AtMostMore(Cold(s), ToAll(c, id), Cold(t));
  }

  // ---- Steps ----

  lemma ProposeWork(c: Cluster, s: State, p: nat)
    requires Inv(c, s) && Enabled(c, s, Propose(p))
    ensures Shaped(c, Do(c, s, Propose(p))) && Work(c, Do(c, s, Propose(p))) < Work(c, s)
  {
    hide BlocksOk, MessagesOk, PlacedOk, FakesOk, SharedOk, MirrorOk, MessageWork, Debt, Behindness, TakeWork,
        PendingWork;
    ProposePlaced(c, s, p);
    var t, n := Do(c, s, Propose(p)), c.replicas;
    SameMessages(n, s, t);
    hide Inv;
    ProposeDebts(c, s, t, p);
    var w := PendingWork(n, p);
    DebtsShift(c, s, t, n, p, w, TakeWork(n, p));
    assert w > n * TakeWork(n, p) by { ProposalPays(n, p); }
  }

  lemma ProposalPays(n: nat, p: nat)
    ensures PendingWork(n, p) > n * TakeWork(n, p)
  {}

  lemma ProposeDebts(c: Cluster, s: State, t: State, p: nat)
    requires Shaped(c, s) && Enabled(c, s, Propose(p)) && t == Do(c, s, Propose(p)) && Shaped(c, t)
    ensures Debt(c, t, p) + PendingWork(c.replicas, p) <= Debt(c, s, p)
    ensures forall r {:trigger Debt(c, t, r)} ::
        0 <= r < c.replicas && r != p ==> Debt(c, t, r) <= Debt(c, s, r) + TakeWork(c.replicas, p)
  {
    hide TakeWork, PendingWork, Behindness;
    assert forall q {:trigger t.replicas[q]} ::
        0 <= q < c.replicas ==> |t.replicas[q].log| == |s.replicas[q].log| + if q == p then 1 else 0;
    BehindMore(c, s, t, p, c.replicas, p);
    OneTimes(|s.replicas[p].pending|, PendingWork(c.replicas, p));
    AtLeastZero(|s.replicas[p].pending| - 1, PendingWork(c.replicas, p));
    forall r {:trigger Debt(c, t, r)} | 0 <= r < c.replicas &&
        r != p ensures Debt(c, t, r) <= Debt(c, s, r) + TakeWork(c.replicas, p) {
      BehindMore(c, s, t, r, c.replicas, p);
      assert t.replicas[r] == s.replicas[r];
    }
  }

  lemma AtLeastZero(a: nat, b: nat)
    ensures a * b >= 0
  {}

  lemma SubmitDebts(c: Cluster, s: State, m: Message)
    requires Inv(c, s) && Enabled(c, s, Submit(m))
    ensures Shaped(c, Do(c, s, Submit(m))) && Work(c, Do(c, s, Submit(m))) < Work(c, s)
  {
    hide BlocksOk, MessagesOk, PlacedOk, FakesOk, SharedOk, MirrorOk, MessageWork, TakeWork, PendingWork, Behindness;
    SubmitPlaced(c, s, m);
    SubmitWork(c, s, m);
    hide Inv;
    var t, p, n := Do(c, s, Submit(m)), s.blocks[m.id].home, c.replicas;
    forall r ensures 0 <= r < n ==> Behindness(c, t, r, n) == Behindness(c, s, r, n) {
      if 0 <= r < n { BehindSame(c, s, t, r, n); }
    }
    OneTimes(|t.replicas[p].pending|, PendingWork(n, p));
    assert Debt(c, t, p) == Debt(c, s, p) + PendingWork(n, p);
    DebtsAt(c, s, t, n, p);
    assert PendingWork(n, p) <= PendingWork(n, 0) by { FirstIsMost(n, p); }
  }

  lemma FirstIsMost(n: nat, p: nat)
    ensures PendingWork(n, p) <= PendingWork(n, 0)
  {
    if p > 0 { assert n * (2 + 3 * n) >= n * 1; }
  }

  lemma FakesDebts(c: Cluster, s: State, m: Message)
    requires Inv(c, s) && Enabled(c, s, Fakes(m))
    ensures Shaped(c, Do(c, s, Fakes(m))) && Work(c, Do(c, s, Fakes(m))) < Work(c, s)
  {
    hide BlocksOk, MessagesOk, PlacedOk, FakesOk, SharedOk, MirrorOk, MessageWork, TakeWork, PendingWork, Behindness;
    FakesReplica(c, s, m);
    FakesWork(c, s, m);
    hide Inv;
    var t, n := Do(c, s, Fakes(m)), c.replicas;
    forall r {:trigger Debt(c, t, r)} | 0 <= r < n ensures Debt(c, t, r) == Debt(c, s, r) { BehindSame(c, s, t, r, n); }
    DebtsSame(c, s, t, n);
  }

  lemma BatchDebts(c: Cluster, s: State, m: Message)
    requires Inv(c, s) && Enabled(c, s, Batch(m))
    ensures Shaped(c, Do(c, s, Batch(m))) && Work(c, Do(c, s, Batch(m))) < Work(c, s)
  {
    hide BlocksOk, MessagesOk, PlacedOk, FakesOk, SharedOk, MirrorOk, MessageWork, TakeWork, PendingWork, Behindness,
        Copies;
    BatchWork(c, s, m);
    var t, n := Do(c, s, Batch(m)), c.replicas;
    hide Inv;
    forall r {:trigger Debt(c, t, r)} | 0 <= r < n ensures Debt(c, t, r) == Debt(c, s, r) { BehindSame(c, s, t, r, n); }
    DebtsSame(c, s, t, n);
  }

  lemma RemoteWork(c: Cluster, s: State, r: nat, from: nat, id: nat)
    requires Inv(c, s) && Enabled(c, s, Remote(r, from, id))
    ensures Shaped(c, Do(c, s, Remote(r, from, id))) && Work(c, Do(c, s, Remote(r, from, id))) < Work(c, s)
  {
    hide BlocksOk, MessagesOk, PlacedOk, FakesOk, SharedOk, MirrorOk, MessageWork, TakeWork, PendingWork, Behindness,
        NewBlock, Taken;
    RemoteEffect(c, s, r, from, id);
    var t, n, z := Do(c, s, Remote(r, from, id)), c.replicas, NewBlock(c, s, r, from);
    if z == [] {
      SameMessages(n, s, t);
    } else {
      NewBlockOk(c, s, r, from, id);
      FlyingKnown(c, s);
      CopiesWork(c, s, t, id);
    }
    RemotePending(c, s, r, from, id);
    hide Inv, Do, Enabled, NextSequence;
    RemoteDebts(c, s, t, r, from);
    TakingPays(n, r, from, |s.replicas[r].pending|, z != []);
  }

  lemma RemoteDebts(c: Cluster, s: State, t: State, r: nat, from: nat)
    requires Shaped(c, s) && Shaped(c, t) && r < c.replicas && from < c.replicas && r != from
    requires s.replicas[r].taken[from] < |s.replicas[from].log|
    requires t.replicas[r].taken == s.replicas[r].taken[from := s.replicas[r].taken[from] + 1]
    requires forall q {:trigger t.replicas[q]} :: 0 <= q < c.replicas ==> t.replicas[q].log == s.replicas[q].log
    requires forall q {:trigger t.replicas[q]} :: 0 <= q < c.replicas && q != r ==> t.replicas[q] == s.replicas[q]
    ensures Debts(c, t, c.replicas) + |s.replicas[r].pending| * PendingWork(c.replicas, r) + TakeWork(c.replicas, from)
         == Debts(c, s, c.replicas) + |t.replicas[r].pending| * PendingWork(c.replicas, r)
  {
    hide TakeWork, PendingWork, Behindness;
    forall q {:trigger Debt(c, t, q)} | 0 <= q < c.replicas && q != r ensures Debt(c, t, q) == Debt(c, s, q) {
      BehindSame(c, s, t, q, c.replicas);
      assert t.replicas[q] == s.replicas[q];
    }
    DebtsAt(c, s, t, c.replicas, r);
    BehindLess(c, s, t, r, c.replicas, from);
  }

  lemma FlyingKnown(c: Cluster, s: State)
    requires Inv(c, s)
    ensures forall m {:trigger m in s.flying} :: m in s.flying ==> m.id in s.blocks
  {
    hide BlocksOk, PlacedOk, FakesOk, SharedOk, MirrorOk;
    forall m {:trigger m in s.flying} | m in s.flying ensures m.id in s.blocks { assert MessageOk(c, s, m); }
  }

  lemma RemotePending(c: Cluster, s: State, r: nat, from: nat, id: nat)
    requires Inv(c, s) && Enabled(c, s, Remote(r, from, id))
    ensures |Do(c, s, Remote(r, from, id)).replicas| == c.replicas
    ensures Do(c, s, Remote(r, from, id)).replicas[r].pending == s.replicas[r].pending + if NewBlock(c, s, r,
        from) == [] then [] else [id]
  {
    hide BlocksOk, MessagesOk, PlacedOk, FakesOk, SharedOk, MirrorOk, NewBlock;
  }

  /** Taking a sequence of replica 0 pays for the block made of it. */
  lemma TakingPays(n: nat, r: nat, from: nat, pending: nat, made: bool)
    requires made ==> r > 0 && from == 0
    ensures made ==> 2 * n + (pending + 1) * PendingWork(n, r) < pending * PendingWork(n, r) + TakeWork(n, from)
    ensures TakeWork(n, from) > 0
  {
    if made { assert (pending + 1) * (1 + n) == pending * (1 + n) + (1 + n); }
  }

  /** Every step but storing new requests leaves less work. */
  lemma StepUsesWork(c: Cluster, s: State, step: Step)
    requires Inv(c, s) && Enabled(c, s, step) && !step.Store?
    ensures Shaped(c, Do(c, s, step)) && Work(c, Do(c, s, step)) < Work(c, s)
  {
    hide Inv, Do, Enabled, Work;
    match step
    case Store(_, _, _) =>
    case Batch(m) => BatchDebts(c, s, m);
    case Submit(m) => SubmitDebts(c, s, m);
    case Fakes(m) => FakesDebts(c, s, m);
    case Propose(r) => ProposeWork(c, s, r);
    case Remote(r, from, id) => RemoteWork(c, s, r, from, id);
  }

  /** Without new requests a run is no longer than the work at its start, so it can only go on until it is at rest. */
  lemma {:induction false} RunsEnd(c: Cluster, s: State, steps: seq<Step>)
    requires IsRun(c, s, steps) && Inv(c, s) && forall i {:trigger steps[i]} :: 0 <= i < |steps| ==> !steps[i].Store?
    ensures |steps| <= Work(c, s)
    decreases |steps|
  {
    if steps != [] {
      hide Inv, Do, Enabled, Work;
      StepInv(c, s, steps[0]);
      StepUsesWork(c, s, steps[0]);
      assert forall i {:trigger steps[1..][i]} :: 0 <= i < |steps| - 1 ==> steps[1..][i] == steps[i + 1];
      RunsEnd(c, Do(c, s, steps[0]), steps[1..]);
    }
  }
}
