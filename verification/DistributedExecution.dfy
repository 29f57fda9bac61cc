/** Execution of a log by many participants, each owning part of the paths: every participant reads what it
    owns, sends it to the writers among the others, and every writer executes the whole action on what it
    has read and received, but installs only what it owns (src/fs/metadata_store.cc,
    DistributedExecutionContext). In the low-latency system a participant is a machine together with the
    origin of the log it replays; in the original one the origin is always the same. */
module DistributedExecution {
  import opened Collections
  import opened Paths
  import opened Metadata
  import opened MetadataLaws

  datatype Participant = Participant(machine: nat, origin: nat)

  datatype Cluster = Cluster(owner: Path -> Participant, participants: set<Participant>, log: seq<Input>, start: Store)

  ghost predicate Sound(c: Cluster) {
    && AllRun(c.log)
    && forall x: Path {:trigger c.owner(x)} :: c.owner(x) in c.participants
  }

  /** The reads a participant has sent to a writer. */
  datatype Message = Message(to: Participant, action: nat, from: Participant, records: Store)

  /** A participant is between actions, or it has begun one it writes in and is collecting reads: how many
      messages it has popped is what the code counts, and from whom they came is history. */
  datatype Phase = Ready | Collecting(known: Store, popped: nat, got: set<Participant>)

  datatype State = State(
    pos: map<Participant, nat>,
    phase: map<Participant, Phase>,
    stores: map<Participant, Store>,
    flying: set<Message>,
    outs: map<(Participant, nat), Output>)

  // ---- Roles ----

  function Owners(c: Cluster, ps: set<Path>): set<Participant> {
    set x | x in ps :: c.owner(x)
  }

  ghost predicate Act(c: Cluster, i: nat) {
    Sound(c) && i < |c.log|
  }

  ghost function Readers(c: Cluster, i: nat): set<Participant>
    requires Act(c, i)
  {
    Owners(c, Reads(c.log[i]))
  }

  ghost function Writers(c: Cluster, i: nat): set<Participant>
    requires Act(c, i)
  {
    Owners(c, Metadata.Writes(c.log[i]))
  }

  function Owned(c: Cluster, p: Participant, s: Store): Store {
    map x | x in s && c.owner(x) == p :: s[x]
  }

  /** What participant p reads locally for action i when its store is s. */
  ghost function LocalReads(c: Cluster, p: Participant, i: nat, s: Store): Store
    requires Act(c, i)
  {
    Owned(c, p, Restrict(s, Reads(c.log[i])))
  }

  /** The part of a change that p installs. */
  function OwnChange(c: Cluster, p: Participant, ch: Change): Change {
    Change(Owned(c, p, ch.puts), (set x | x in ch.dels && c.owner(x) == p), ch.out)
  }

  // ---- Steps ----

  datatype Step = Begin(p: Participant) | Receive(p: Participant, m: Message) | Finish(p: Participant)

  ghost function Init(c: Cluster): State {
    State(
      map p | p in c.participants :: 0,
      map p | p in c.participants :: Ready,
      map p | p in c.participants :: Owned(c, p, c.start),
      {},
      map[])
  }

  ghost predicate Shaped(c: Cluster, s: State) {
    s.pos.Keys == c.participants && s.phase.Keys == c.participants && s.stores.Keys == c.participants
  }

  ghost predicate Enabled(c: Cluster, s: State, step: Step)
    requires Sound(c) && Shaped(c, s)
  {
    && step.p in c.participants && s.pos[step.p] < |c.log|
    && match step
       case Begin(p) => s.phase[p].Ready?
       case Receive(p, m) =>
         && s.phase[p].Collecting? && s.phase[p].popped < |Readers(c, s.pos[p]) - {p}|
         && m in s.flying && m.to == p && m.action == s.pos[p]
       case Finish(p) => s.phase[p].Collecting? && s.phase[p].popped == |Readers(c, s.pos[p]) - {p}|
  }

  /** The messages participant p sends for action i: its reads, if it owns any of the readset, to every other writer. */
  ghost function Sent(c: Cluster, p: Participant, i: nat, s: Store): set<Message>
    requires Act(c, i)
  {
    if p in Readers(c, i) then set q | q in Writers(c, i) && q != p :: Message(q, i, p, LocalReads(c, p, i, s)) else {}
  }

  ghost function Do(c: Cluster, s: State, step: Step): State
    requires Sound(c) && Shaped(c, s) && Enabled(c, s, step)
  {
    var p, i := step.p, s.pos[step.p];
    match step
    case Begin(_) =>
      var s1 := s.(flying := s.flying + Sent(c, p, i, s.stores[p]));
      if p in Writers(c, i) then s1.(phase := s.phase[p := Collecting(LocalReads(c, p, i, s.stores[p]), 0, {})])
      else s1.(pos := s.pos[p := i + 1])
    case Receive(_, m) =>
      var ph := s.phase[p];
      s.(flying := s.flying - {m}, phase := s.phase[p := Collecting(ph.known + m.records, ph.popped + 1,
          ph.got + {m.from})])
    case Finish(_) =>
      var ch := ChangeOf(s.phase[p].known, c.log[i]);
      s.(pos := s.pos[p := i + 1], phase := s.phase[p := Ready],
         stores := s.stores[p := Install(s.stores[p], OwnChange(c, p, ch))],
         outs := s.outs[(p, i) := ch.out])
  }

  // ---- The serial store ----

  /** The one store that has run the first k actions. */
  ghost function Serial(c: Cluster, k: nat): Store
    requires Sound(c) && k <= |c.log|
  {
    if k == 0 then c.start else Apply(Serial(c, k - 1), c.log[k - 1])
  }

  lemma {:induction false} SerialIsRunLog(c: Cluster, k: nat)
    requires Sound(c) && k <= |c.log|
    ensures AllRun(c.log[..k]) && Serial(c, k) == RunLog(c.start, c.log[..k]).0
  {
    hide Apply, ChangeOf;
    if k == 0 {
      assert c.log[..0] == [];
    } else {
      hide RunLog;
      SerialIsRunLog(c, k - 1);
      assert c.log[..k] == c.log[..k - 1] + [c.log[k - 1]];
      RunOne(Serial(c, k - 1), c.log[k - 1]);
      RunLogConcat(c.start, c.log[..k - 1], [c.log[k - 1]]);
    }
  }

  // ---- The invariant ----

  /** p has sent its reads for action i. */
  ghost predicate Begun(c: Cluster, s: State, p: Participant, i: nat)
    requires Shaped(c, s)
  {
    p in c.participants && (s.pos[p] > i || (s.pos[p] == i && s.phase[p].Collecting?))
  }

  /** The serial reads of everyone in ps for action i. */
  ghost function ReadsOf(c: Cluster, ps: set<Participant>, i: nat): Store
    requires Act(c, i)
  {
    map x | x in Serial(c, i) && x in Reads(c.log[i]) && c.owner(x) in ps :: Serial(c, i)[x]
  }

  ghost predicate StoreOk(c: Cluster, s: State, p: Participant)
    requires Sound(c) && Shaped(c, s) && p in c.participants
  {
    s.pos[p] <= |c.log| && s.stores[p] == Owned(c, p, Serial(c, s.pos[p]))
  }

  ghost predicate PhaseOk(c: Cluster, s: State, p: Participant)
    requires Sound(c) && Shaped(c, s) && p in c.participants
  {
    s.phase[p].Collecting? ==>
      var i, ph := s.pos[p], s.phase[p];
      && i < |c.log| && p in Writers(c, i) && ph.got <= Readers(c, i) - {p} && ph.popped == |ph.got|
      && ph.known == ReadsOf(c, ph.got + {p}, i)
      && forall q {:trigger q in ph.got} :: q in ph.got ==> Begun(c, s, q, i)
  }

  /** A message for p about action i from q is in flight exactly while q has begun the action and p has not
      popped it. */
  ghost predicate Pending(c: Cluster, s: State, p: Participant, i: nat, q: Participant)
    requires Sound(c) && Shaped(c, s)
  {
    && i < |c.log| && p in Writers(c, i) && q in Readers(c, i) && p != q && Begun(c, s, q, i)
    && p in c.participants && s.pos[p] <= i && !(s.pos[p] == i && s.phase[p].Collecting? && q in s.phase[p].got)
  }

  /** A writer that is past an action has waited for every reader to begin it. */
  ghost predicate Waited(c: Cluster, s: State, p: Participant, i: nat, q: Participant)
    requires Sound(c) && Shaped(c, s)
  {
    i < |c.log| && p in c.participants && p in Writers(c, i) && q in Readers(c, i) && s.pos[p] > i ==> Begun(c, s, q, i)
  }

  ghost predicate AllWaited(c: Cluster, s: State)
    requires Sound(c) && Shaped(c, s)
  {
    forall p, i: nat, q {:trigger Waited(c, s, p, i, q)} :: Waited(c, s, p, i, q)
  }

  ghost predicate FlyingOk(c: Cluster, s: State)
    requires Sound(c) && Shaped(c, s)
  {
    && (forall m {:trigger m in s.flying} :: m in s.flying ==>
          Pending(c, s, m.to, m.action, m.from) && m.records == ReadsOf(c, {m.from}, m.action))
    && (forall p, i: nat, q {:trigger Pending(c, s, p, i, q)} :: Pending(c, s, p, i, q) ==>
          Message(p, i, q, ReadsOf(c, {q}, i)) in s.flying)
  }

  /** A writer that is past an action has answered. */
  ghost predicate Answered(c: Cluster, s: State, p: Participant, i: nat)
    requires Sound(c) && Shaped(c, s)
  {
    i < |c.log| && p in c.participants && p in Writers(c, i) && s.pos[p] > i ==> (p, i) in s.outs
  }

  /** Every answer given is the serial one, and every writer gives one. */
  ghost predicate OutsOk(c: Cluster, s: State)
    requires Sound(c) && Shaped(c, s)
  {
    && (forall k {:trigger k in s.outs} :: k in s.outs ==>
          k.1 < |c.log| && s.outs[k] == ChangeOf(Serial(c, k.1), c.log[k.1]).out)
    && (forall p, i: nat {:trigger Answered(c, s, p, i)} :: Answered(c, s, p, i))
  }

  ghost predicate Inv(c: Cluster, s: State) {
    && Sound(c) && Shaped(c, s)
    && (forall p {:trigger StoreOk(c, s, p)} :: p in c.participants ==> StoreOk(c, s, p))
    && (forall p {:trigger PhaseOk(c, s, p)} :: p in c.participants ==> PhaseOk(c, s, p))
    && AllWaited(c, s) && FlyingOk(c, s) && OutsOk(c, s)
  }

  lemma InitInv(c: Cluster)
    requires Sound(c)
    ensures Inv(c, Init(c))
  {
    hide Apply, ChangeOf, Readers, Writers;
    var s := Init(c);
    forall p, i: nat, q ensures !Pending(c, s, p, i, q) && Waited(c, s, p, i, q) {}
    forall p, i: nat ensures Answered(c, s, p, i) {}
  }

  // ---- Parts of stores ----

  lemma ReadersIn(c: Cluster, i: nat)
    requires Act(c, i)
    ensures Readers(c, i) <= c.participants && Writers(c, i) <= c.participants
  {}

  /** Local reads on the right store are the serial reads. */
  lemma LocalIsSerial(c: Cluster, p: Participant, i: nat)
    requires Act(c, i)
    ensures LocalReads(c, p, i, Owned(c, p, Serial(c, i))) == ReadsOf(c, {p}, i)
  {
    hide Apply, Reads;
  }

  /** Reads of two owners never share a key, and join. */
  lemma ReadsJoin(c: Cluster, ps: set<Participant>, q: Participant, i: nat)
    requires Act(c, i) && q !in ps
    ensures ReadsOf(c, ps, i).Keys !! ReadsOf(c, {q}, i).Keys
    ensures ReadsOf(c, ps, i) + ReadsOf(c, {q}, i) == ReadsOf(c, ps + {q}, i)
  {
    hide Apply, Reads;
  }

  /** The reads of all readers are all reads, and give the serial change. */
  lemma AllReads(c: Cluster, ps: set<Participant>, i: nat)
    requires Act(c, i) && Readers(c, i) <= ps
    ensures ReadsOf(c, ps, i) == Restrict(Serial(c, i), Reads(c.log[i]))
    ensures ChangeOf(ReadsOf(c, ps, i), c.log[i]) == ChangeOf(Serial(c, i), c.log[i])
  {
    hide Apply, ChangeOf, Reads;
    var all := ReadsOf(c, ps, i);
    assert forall x :: x in Reads(c.log[i]) ==> c.owner(x) in Readers(c, i);
    assert all == Restrict(Serial(c, i), Reads(c.log[i]));
    ReadsOnlyReadSet(Serial(c, i), all, c.log[i]);
  }

  /** Installing one's own part of a change on one's own part of a store. */
  lemma OwnInstall(c: Cluster, p: Participant, s: Store, ch: Change)
    ensures Install(Owned(c, p, s), OwnChange(c, p, ch)) == Owned(c, p, Install(s, ch))
  {}

  /** An action changes nothing that a participant owns unless it is one of the writers. */
  lemma NotWriter(c: Cluster, p: Participant, i: nat)
    requires Act(c, i) && p !in Writers(c, i)
    ensures Owned(c, p, Serial(c, i + 1)) == Owned(c, p, Serial(c, i))
  {
    hide ChangeOf, Apply, Metadata.Writes;
    var ps := set x | x in Serial(c, i).Keys + Serial(c, i + 1).Keys && c.owner(x) == p;
    assert forall x :: x in Metadata.Writes(c.log[i]) ==> c.owner(x) in Writers(c, i);
    AppliedOutside(Serial(c, i), c.log[i], ps);
    var a, b := Serial(c, i), Serial(c, i + 1);
    assert b == Apply(a, c.log[i]);
    forall x | x in ps ensures (x in a <==> x in b) && (x in a ==> a[x] == b[x]) {}
    assert Owned(c, p, b).Keys == Owned(c, p, a).Keys by {
      forall x | x in b && c.owner(x) == p ensures x in a { assert x in ps; }
      forall x | x in a && c.owner(x) == p ensures x in b { assert x in ps; }
    }
    forall x | x in Owned(c, p, a) ensures a[x] == b[x] { assert x in ps; }
  }

  // ---- Every step keeps the invariant ----

  /** An action that participant p has no part in is passed over: p only moves on. A replay of the actions that touch p
      is therefore all that p needs of the log. */
  lemma UntouchedPassedOver(c: Cluster, s: State, p: Participant)
    requires Inv(c, s) && Enabled(c, s, Begin(p)) && p !in Readers(c, s.pos[p]) && p !in Writers(c, s.pos[p])
    ensures Do(c, s, Begin(p)) == s.(pos := s.pos[p := s.pos[p] + 1])
  {
    hide Readers, Writers, LocalReads;
    assert s.flying + {} == s.flying;
  }

  /** Who has begun what after a step. */
  lemma BegunAfter(c: Cluster, s: State, step: Step)
    requires Inv(c, s) && Enabled(c, s, step)
    ensures var t := Do(c, s, step);
      && Shaped(c, t)
      && forall q, j: nat {:trigger Begun(c, t, q, j)} {:trigger Begun(c, s, q, j)} ::
           Begun(c, t, q, j) <==> Begun(c, s, q, j) || (step.Begin? && q == step.p && j == s.pos[step.p])
  {
    hide Readers, Writers, LocalReads, Sent, ChangeOf, Install, OwnChange, StoreOk, PhaseOk, AllWaited, FlyingOk,
        OutsOk;
  }

  lemma WaitedAfter(c: Cluster, s: State, step: Step)
    requires Inv(c, s) && Enabled(c, s, step)
    ensures Shaped(c, Do(c, s, step)) && AllWaited(c, Do(c, s, step))
  {
    hide ChangeOf, Install, OwnChange, LocalReads, Sent, Readers, Writers, StoreOk, PhaseOk, FlyingOk, OutsOk, Begun;
    var t, p := Do(c, s, step), step.p;
    BegunAfter(c, s, step);
    if step.Finish? { FinishWaited(c, s, p); }
    var i := s.pos[p];
    assert forall r :: r in c.participants && r != p ==> t.pos[r] == s.pos[r];
    assert t.pos[p] == i || (t.pos[p] == i + 1 && (p !in Writers(c, i) || step.Finish?));
    hide Do, Begun, StoreOk, PhaseOk, FlyingOk, OutsOk;
    forall r, j: nat, q {:trigger Waited(c, t, r, j, q)} ensures Waited(c, t, r, j, q) { assert Waited(c, s, r, j, q); }
  }

  /** A writer that stops waiting has heard from every other reader. */
  lemma FinishWaited(c: Cluster, s: State, p: Participant)
    requires Inv(c, s) && Enabled(c, s, Finish(p))
    ensures var i := s.pos[p]; Act(c, i) && s.phase[p].got == Readers(c, i) - {p}
    ensures forall q {:trigger q in Readers(c, s.pos[p])} :: q in Readers(c, s.pos[p]) ==> Begun(c, s, q, s.pos[p])
  {
    assert PhaseOk(c, s, p);
    var i := s.pos[p];
    hide Readers, Writers, Serial, ReadsOf;
    SameSize(s.phase[p].got, Readers(c, i) - {p});
  }

  lemma OutsAfter(c: Cluster, s: State, step: Step)
    requires Inv(c, s) && Enabled(c, s, step)
    ensures Shaped(c, Do(c, s, step)) && OutsOk(c, Do(c, s, step))
  {
    hide Install, OwnChange, LocalReads, Sent, Readers, Writers, Serial, ChangeOf;
    hide StoreOk, PhaseOk, FlyingOk, AllWaited, OutsOk;
    var t, p := Do(c, s, step), step.p;
    if step.Finish? {
      WriterHasAllReads(c, s, p);
      hide Inv;
      OutsAt(c, s, t, p);
    } else {
      hide Inv;
      OutsSame(c, s, t, p);
    }
  }

  /** Without a finish, only a participant that does not write in its action moves on. */
  lemma OutsSame(c: Cluster, s: State, t: State, p: Participant)
    requires Sound(c) && Shaped(c, s) && Shaped(c, t) && OutsOk(c, s) && p in c.participants && t.outs == s.outs
    requires t.pos == s.pos
      || (s.pos[p] < |c.log| && p !in Writers(c, s.pos[p]) && t.pos == s.pos[p := s.pos[p] + 1])
    ensures OutsOk(c, t)
  {
    hide Writers, Serial, ChangeOf;
    forall q, j: nat {:trigger Answered(c, t, q, j)} ensures Answered(c, t, q, j) { assert Answered(c, s, q, j); }
  }

  /** A finish gives the serial answer. */
  lemma OutsAt(c: Cluster, s: State, t: State, p: Participant)
    requires Sound(c) && Shaped(c, s) && Shaped(c, t) && OutsOk(c, s) && p in c.participants && s.pos[p] < |c.log|
    requires t.outs == s.outs[(p, s.pos[p]) := ChangeOf(Serial(c, s.pos[p]), c.log[s.pos[p]]).out]
    requires t.pos == s.pos[p := s.pos[p] + 1]
    ensures OutsOk(c, t)
  {
    hide Writers, Serial, ChangeOf;
    forall q, j: nat {:trigger Answered(c, t, q, j)} ensures Answered(c, t, q, j) { assert Answered(c, s, q, j); }
  }

  /** Before p begins its next action, nobody is past it who needs p's reads, or has popped them. */
  lemma NotYetRead(c: Cluster, s: State, p: Participant, r: Participant)
    requires Inv(c, s) && p in c.participants && s.phase[p].Ready? && s.pos[p] < |c.log|
    requires r in c.participants && r in Writers(c, s.pos[p]) && p in Readers(c, s.pos[p])
    ensures s.pos[r] <= s.pos[p] && !(s.pos[r] == s.pos[p] && s.phase[r].Collecting? && p in s.phase[r].got)
  {
    hide Readers, Writers, StoreOk, FlyingOk;
    assert Waited(c, s, r, s.pos[p], p);
    assert PhaseOk(c, s, r);
    assert !Begun(c, s, p, s.pos[p]);
  }

  lemma PendingAfterBegin(c: Cluster, s: State, p: Participant, r: Participant, j: nat, q: Participant)
    requires Inv(c, s) && Enabled(c, s, Begin(p))
    ensures var t, i := Do(c, s, Begin(p)), s.pos[p];
      && Shaped(c, t)
      && (Pending(c, t, r, j, q) <==>
            Pending(c, s, r, j, q) || (q == p && j == i && r in Writers(c, i) && p in Readers(c, i) && r != p))
  {
    hide Readers, Writers, LocalReads, Sent, Begun, StoreOk, PhaseOk, FlyingOk, OutsOk, AllWaited;
    BegunAfter(c, s, Begin(p));
    ReadersIn(c, s.pos[p]);
    if r in c.participants && r in Writers(c, s.pos[p]) && p in Readers(c, s.pos[p]) { NotYetRead(c, s, p, r); }
  }

  lemma BeginFlying(c: Cluster, s: State, p: Participant)
    requires Inv(c, s) && Enabled(c, s, Begin(p))
    ensures var t := Do(c, s, Begin(p)); Shaped(c, t) && FlyingOk(c, t)
    ensures Sent(c, p, s.pos[p], s.stores[p]) !! s.flying
  {
    var t, i := Do(c, s, Begin(p)), s.pos[p];
    assert StoreOk(c, s, p);
    LocalIsSerial(c, p, i);
    var sent := Sent(c, p, i, s.stores[p]);
    assert forall m {:trigger m in sent} :: m in sent <==>
      p in Readers(c, i) && m.to in Writers(c, i) && m.to != p && m == Message(m.to, i, p, ReadsOf(c, {p}, i));
    assert t.flying == s.flying + sent;
    assert !Begun(c, s, p, i);
    hide Do, Sent, Readers, Writers, LocalReads, Begun, StoreOk, PhaseOk, OutsOk, AllWaited;
    forall m {:trigger m in t.flying} | m in t.flying
      ensures Pending(c, t, m.to, m.action, m.from) && m.records == ReadsOf(c, {m.from}, m.action)
    {
      PendingAfterBegin(c, s, p, m.to, m.action, m.from);
    }
    forall r, j: nat, q {:trigger Pending(c, t, r, j, q)} | Pending(c, t, r, j, q)
      ensures Message(r, j, q, ReadsOf(c, {q}, j)) in t.flying
    {
      PendingAfterBegin(c, s, p, r, j, q);
      if !Pending(c, s, r, j, q) { assert Message(r, i, p, ReadsOf(c, {p}, i)) in sent; }
    }
  }

  lemma BeginRest(c: Cluster, s: State, p: Participant, q: Participant)
    requires Inv(c, s) && Enabled(c, s, Begin(p)) && q in c.participants
    ensures var t := Do(c, s, Begin(p)); Shaped(c, t) && StoreOk(c, t, q) && PhaseOk(c, t, q)
  {
    hide Readers, Writers, LocalReads, Sent, Begun, Serial, ReadsOf, FlyingOk, OutsOk, AllWaited;
    BegunAfter(c, s, Begin(p));
    assert StoreOk(c, s, q) && PhaseOk(c, s, q);
    if q == p { BeginOwn(c, s, p); }
  }

  /** What the participant that begins an action knows, or keeps if it only moves on. */
  lemma BeginOwn(c: Cluster, s: State, p: Participant)
    requires Inv(c, s) && Enabled(c, s, Begin(p))
    ensures var t := Do(c, s, Begin(p)); Shaped(c, t) && StoreOk(c, t, p) && PhaseOk(c, t, p)
  {
    hide Readers, Writers, LocalReads, Sent, Begun, FlyingOk, OutsOk, AllWaited;
    var i := s.pos[p];
    assert StoreOk(c, s, p);
    ReadersIn(c, i);
    LocalIsSerial(c, p, i);
    if p !in Writers(c, i) { NotWriter(c, p, i); }
    hide Serial, ReadsOf, Owned;
    assert {} + {p} == {p};
  }

  lemma BeginInv(c: Cluster, s: State, p: Participant)
    requires Inv(c, s) && Enabled(c, s, Begin(p))
    ensures Inv(c, Do(c, s, Begin(p)))
  {
    hide Do, StoreOk, PhaseOk, FlyingOk, OutsOk, AllWaited, Enabled;
    var t := Do(c, s, Begin(p));
    BeginFlying(c, s, p);
    WaitedAfter(c, s, Begin(p));
    OutsAfter(c, s, Begin(p));
    forall q | q in c.participants ensures StoreOk(c, t, q) && PhaseOk(c, t, q) { BeginRest(c, s, p, q); }
  }

  // ---- Receiving ----

  lemma ReceivedFacts(c: Cluster, s: State, p: Participant, m: Message)
    requires Inv(c, s) && Enabled(c, s, Receive(p, m))
    ensures var i := s.pos[p];
      && Act(c, i) && Pending(c, s, p, i, m.from) && PhaseOk(c, s, p)
      && m == Message(p, i, m.from, ReadsOf(c, {m.from}, i)) && m.from !in s.phase[p].got && m.from != p
  {
    assert PhaseOk(c, s, p);
    hide Readers, Writers, Serial, Begun;
  }

  /** The CHECK never fires: no key of a message has been read or received before. */
  lemma CheckNeverFires(c: Cluster, s: State, p: Participant, m: Message)
    requires Inv(c, s) && Enabled(c, s, Receive(p, m))
    ensures s.phase[p].known.Keys !! m.records.Keys
  {
    ReceivedFacts(c, s, p, m);
    ReadsJoin(c, s.phase[p].got + {p}, m.from, s.pos[p]);
  }

  lemma ReceiveRest(c: Cluster, s: State, p: Participant, m: Message, q: Participant)
    requires Inv(c, s) && Enabled(c, s, Receive(p, m)) && q in c.participants
    ensures var t := Do(c, s, Receive(p, m)); Shaped(c, t) && StoreOk(c, t, q) && PhaseOk(c, t, q)
  {
    hide Readers, Writers, Begun, Serial, ReadsOf, FlyingOk, OutsOk, AllWaited, StoreOk, PhaseOk, Pending;
    var t := Do(c, s, Receive(p, m));
    assert StoreOk(c, s, q) && PhaseOk(c, s, q);
    BegunAfter(c, s, Receive(p, m));
    if q == p {
      ReceivedFacts(c, s, p, m);
      hide Inv;
      ReceiveOwn(c, s, t, p, m);
    } else {
      hide Inv, Enabled;
      assert t.pos == s.pos && t.stores == s.stores && t.phase[q] == s.phase[q];
      SameRest(c, s, t, q);
    }
  }

  /** A participant whose position, phase and store a step left alone. */
  lemma SameRest(c: Cluster, s: State, t: State, q: Participant)
    requires Sound(c) && Shaped(c, s) && Shaped(c, t) && q in c.participants && StoreOk(c, s, q) && PhaseOk(c, s, q)
    requires t.pos[q] == s.pos[q] && t.stores[q] == s.stores[q] && t.phase[q] == s.phase[q]
    requires forall r, j: nat {:trigger Begun(c, t, r, j)} :: Begun(c, s, r, j) ==> Begun(c, t, r, j)
    ensures StoreOk(c, t, q) && PhaseOk(c, t, q)
  {
    hide Readers, Writers, Begun, Serial, ReadsOf;
  }

  /** The participant that receives. */
  lemma ReceiveOwn(c: Cluster, s: State, t: State, p: Participant, m: Message)
    requires Sound(c) && Shaped(c, s) && Shaped(c, t) && p in c.participants
    requires Enabled(c, s, Receive(p, m)) && t == Do(c, s, Receive(p, m))
    requires StoreOk(c, s, p) && PhaseOk(c, s, p) && Act(c, s.pos[p]) && Pending(c, s, p, s.pos[p], m.from)
    requires m == Message(p, s.pos[p], m.from, ReadsOf(c, {m.from}, s.pos[p]))
    requires m.from !in s.phase[p].got && m.from != p
    requires forall r, j: nat {:trigger Begun(c, t, r, j)} :: Begun(c, s, r, j) ==> Begun(c, t, r, j)
    ensures StoreOk(c, t, p) && PhaseOk(c, t, p)
  {
    hide Readers, Writers, Begun, Serial, ReadsOf;
    var got := s.phase[p].got;
    ReadsJoin(c, got + {p}, m.from, s.pos[p]);
    assert got + {p} + {m.from} == got + {m.from} + {p};
  }

  lemma PendingAfterReceive(c: Cluster, s: State, p: Participant, m: Message, r: Participant, j: nat, q: Participant)
    requires Inv(c, s) && Enabled(c, s, Receive(p, m))
    ensures var t := Do(c, s, Receive(p, m));
      && Shaped(c, t)
      && (Pending(c, t, r, j, q) <==> Pending(c, s, r, j, q) && !(r == p && j == s.pos[p] && q == m.from))
  {
    BegunAfter(c, s, Receive(p, m));
    hide Readers, Writers, Begun, StoreOk, PhaseOk, FlyingOk, OutsOk, AllWaited;
  }

  lemma ReceiveFlying(c: Cluster, s: State, p: Participant, m: Message)
    requires Inv(c, s) && Enabled(c, s, Receive(p, m))
    ensures var t := Do(c, s, Receive(p, m)); Shaped(c, t) && FlyingOk(c, t)
  {
    hide PhaseOk, StoreOk, AllWaited, OutsOk, Readers, Writers, Serial, ReadsOf, Begun;
    var t := Do(c, s, Receive(p, m));
    ReceivedFacts(c, s, p, m);
    assert t.flying == s.flying - {m};
    hide Do, Enabled;
    forall x {:trigger x in t.flying} | x in t.flying
      ensures Pending(c, t, x.to, x.action, x.from) && x.records == ReadsOf(c, {x.from}, x.action)
    {
      PendingAfterReceive(c, s, p, m, x.to, x.action, x.from);
    }
    forall r, j: nat, q {:trigger Pending(c, t, r, j, q)} | Pending(c, t, r, j, q)
      ensures Message(r, j, q, ReadsOf(c, {q}, j)) in t.flying
    {
      PendingAfterReceive(c, s, p, m, r, j, q);
    }
  }

  lemma ReceiveInv(c: Cluster, s: State, p: Participant, m: Message)
    requires Inv(c, s) && Enabled(c, s, Receive(p, m))
    ensures Inv(c, Do(c, s, Receive(p, m)))
  {
    hide Do, StoreOk, PhaseOk, FlyingOk, OutsOk, AllWaited, Enabled;
    var t := Do(c, s, Receive(p, m));
    ReceiveFlying(c, s, p, m);
    WaitedAfter(c, s, Receive(p, m));
    OutsAfter(c, s, Receive(p, m));
    forall q | q in c.participants ensures StoreOk(c, t, q) && PhaseOk(c, t, q) { ReceiveRest(c, s, p, m, q); }
  }

  // ---- Finishing ----

  /** When a writer stops waiting, it has heard from every other reader and holds exactly what one store
      would have read, so that it computes the serial change. */
  lemma WriterHasAllReads(c: Cluster, s: State, p: Participant)
    requires Inv(c, s) && Enabled(c, s, Finish(p))
    ensures var i := s.pos[p];
      && Act(c, i) && s.phase[p].got == Readers(c, i) - {p}
      && s.phase[p].known == Restrict(Serial(c, i), Reads(c.log[i]))
      && ChangeOf(s.phase[p].known, c.log[i]) == ChangeOf(Serial(c, i), c.log[i])
  {
    assert PhaseOk(c, s, p);
    var i := s.pos[p];
    hide ChangeOf, Readers, Writers, Reads, Serial;
    SameSize(s.phase[p].got, Readers(c, i) - {p});
    AllReads(c, s.phase[p].got + {p}, i);
  }

  /** Closing the channel then loses nothing: no message for this action is in flight to p, and none will be
      sent, since every reader has begun the action. */
  lemma ChannelEmptyAtClose(c: Cluster, s: State, p: Participant)
    requires Inv(c, s) && Enabled(c, s, Finish(p))
    ensures forall m {:trigger m in s.flying} :: m in s.flying ==> !(m.to == p && m.action == s.pos[p])
    ensures forall q {:trigger q in Readers(c, s.pos[p])} :: q in Readers(c, s.pos[p]) ==> Begun(c, s, q, s.pos[p])
  {
    WriterHasAllReads(c, s, p);
    assert PhaseOk(c, s, p);
    hide ChangeOf, Readers, Writers, Reads, Serial, ReadsOf;
  }

  lemma PendingAfterFinish(c: Cluster, s: State, p: Participant, r: Participant, j: nat, q: Participant)
    requires Inv(c, s) && Enabled(c, s, Finish(p))
    ensures var t := Do(c, s, Finish(p)); Shaped(c, t) && (Pending(c, t, r, j, q) <==> Pending(c, s, r, j, q))
  {
    BegunAfter(c, s, Finish(p));
    WriterHasAllReads(c, s, p);
    hide Readers, Writers, Begun, StoreOk, PhaseOk, FlyingOk, OutsOk, AllWaited, ChangeOf, Install, OwnChange, Serial;
  }

  /** The store a writer is left with. */
  lemma FinishStore(c: Cluster, s: State, p: Participant)
    requires Inv(c, s) && Enabled(c, s, Finish(p))
    ensures var i := s.pos[p];
      Install(s.stores[p], OwnChange(c, p, ChangeOf(s.phase[p].known, c.log[i]))) == Owned(c, p, Serial(c, i + 1))
  {
    hide ChangeOf, Readers, Writers, OwnChange, Install, Owned;
    var i := s.pos[p];
    assert StoreOk(c, s, p);
    WriterHasAllReads(c, s, p);
    OwnInstall(c, p, Serial(c, i), ChangeOf(Serial(c, i), c.log[i]));
    assert Serial(c, i + 1) == Apply(Serial(c, i), c.log[i]);
  }

  lemma FinishRest(c: Cluster, s: State, p: Participant, q: Participant)
    requires Inv(c, s) && Enabled(c, s, Finish(p)) && q in c.participants
    ensures var t := Do(c, s, Finish(p)); Shaped(c, t) && StoreOk(c, t, q) && PhaseOk(c, t, q)
  {
    hide Readers, Writers, Begun, Serial, ReadsOf, FlyingOk, OutsOk, AllWaited, ChangeOf, Install, OwnChange;
    BegunAfter(c, s, Finish(p));
    assert StoreOk(c, s, q) && PhaseOk(c, s, q);
    FinishStore(c, s, p);
  }

  lemma FinishFlying(c: Cluster, s: State, p: Participant)
    requires Inv(c, s) && Enabled(c, s, Finish(p))
    ensures var t := Do(c, s, Finish(p)); Shaped(c, t) && FlyingOk(c, t)
  {
    hide PhaseOk, StoreOk, AllWaited, OutsOk, Readers, Writers, Serial, ReadsOf, Begun, ChangeOf, Install, OwnChange;
    var t := Do(c, s, Finish(p));
    assert t.flying == s.flying;
    hide Do, Enabled;
    forall x {:trigger x in t.flying} | x in t.flying
      ensures Pending(c, t, x.to, x.action, x.from) && x.records == ReadsOf(c, {x.from}, x.action)
    {
      PendingAfterFinish(c, s, p, x.to, x.action, x.from);
    }
    forall r, j: nat, q {:trigger Pending(c, t, r, j, q)} | Pending(c, t, r, j, q)
      ensures Message(r, j, q, ReadsOf(c, {q}, j)) in t.flying
    {
      PendingAfterFinish(c, s, p, r, j, q);
    }
  }

  lemma FinishInv(c: Cluster, s: State, p: Participant)
    requires Inv(c, s) && Enabled(c, s, Finish(p))
    ensures Inv(c, Do(c, s, Finish(p)))
  {
    hide Do, StoreOk, PhaseOk, FlyingOk, OutsOk, AllWaited, Enabled;
    var t := Do(c, s, Finish(p));
    FinishFlying(c, s, p);
    WaitedAfter(c, s, Finish(p));
    OutsAfter(c, s, Finish(p));
    forall q | q in c.participants ensures StoreOk(c, t, q) && PhaseOk(c, t, q) { FinishRest(c, s, p, q); }
  }

  // ---- Runs ----

  lemma StepInv(c: Cluster, s: State, step: Step)
    requires Inv(c, s) && Enabled(c, s, step)
    ensures Inv(c, Do(c, s, step))
  {
    hide Inv, Enabled, Do;
    match step
    case Begin(p) => BeginInv(c, s, p);
    case Receive(p, m) => ReceiveInv(c, s, p, m);
    case Finish(p) => FinishInv(c, s, p);
  }

  /** A sequence of steps, each enabled where it happens. */
  ghost predicate IsRun(c: Cluster, s: State, steps: seq<Step>)
    requires Inv(c, s)
    decreases |steps|
  {
    steps == [] || (Enabled(c, s, steps[0]) && (StepInv(c, s, steps[0]); IsRun(c, Do(c, s, steps[0]), steps[1..])))
  }

  ghost function After(c: Cluster, s: State, steps: seq<Step>): (t: State)
    requires Inv(c, s) && IsRun(c, s, steps)
    ensures Inv(c, t)
    decreases |steps|
  {
    if steps == [] then s else StepInv(c, s, steps[0]); After(c, Do(c, s, steps[0]), steps[1..])
  }

  ghost predicate Done(c: Cluster, s: State)
    requires Sound(c) && Shaped(c, s)
  {
    forall p {:trigger s.pos[p]} :: p in c.participants ==> s.pos[p] == |c.log| && s.phase[p].Ready?
  }

  ghost predicate Writes(c: Cluster, p: Participant, i: nat)
    requires Sound(c)
  {
    i < |c.log| && p in Writers(c, i)
  }

  /** The records of all participants together. */
  ghost predicate UnionIs(c: Cluster, s: State, store: Store)
    requires Sound(c) && Shaped(c, s)
  {
    && (forall x {:trigger x in store} ::
        x in store ==> x in s.stores[c.owner(x)] && s.stores[c.owner(x)][x] == store[x])
    && (forall p, x {:trigger x in s.stores[p]} ::
        p in c.participants && x in s.stores[p] ==> c.owner(x) == p && x in store)
  }

  /** The serial outcome: over all participants, the store that one machine running the log would have, and from every
      writer the answer that machine gives. */
  ghost predicate IsSerial(c: Cluster, s: State)
    requires Sound(c) && Shaped(c, s)
  {
    && AllRun(c.log) && UnionIs(c, s, RunLog(c.start, c.log).0)
    && forall p, i: nat {:trigger Writes(c, p, i)} ::
         Writes(c, p, i) ==> (p, i) in s.outs && s.outs[(p, i)] == ChangeOf(Serial(c, i), c.log[i]).out
  }

  lemma DoneIsSerial(c: Cluster, s: State)
    requires Inv(c, s) && Done(c, s)
    ensures IsSerial(c, s)
  {
    hide Serial, RunLog, ChangeOf, PhaseOk, FlyingOk, AllWaited, Init;
    SerialIsRunLog(c, |c.log|);
    assert c.log[..|c.log|] == c.log;
    forall p | p in c.participants ensures s.stores[p] == Owned(c, p, Serial(c, |c.log|)) {
      assert StoreOk(c, s, p) && s.pos[p] == |c.log|;
    }
    forall p, i: nat {:trigger Writes(c, p, i)} | Writes(c, p, i)
      ensures (p, i) in s.outs && s.outs[(p, i)] == ChangeOf(Serial(c, i), c.log[i]).out
    {
      ReadersIn(c, i);
      assert Answered(c, s, p, i) && s.pos[p] == |c.log|;
    }
  }

  /** Any run that comes to the end has the serial outcome. */
  lemma RunIsSerial(c: Cluster, steps: seq<Step>)
    requires Sound(c) && Inv(c, Init(c)) && IsRun(c, Init(c), steps) && Done(c, After(c, Init(c), steps))
    ensures IsSerial(c, After(c, Init(c), steps))
  {
    hide Inv, IsSerial, Done, Init, IsRun;
    DoneIsSerial(c, After(c, Init(c), steps));
  }

  // ---- Progress ----

  /** A participant at the least position, if not all are at the end. */
  lemma {:induction false} Hindmost(c: Cluster, s: State, ps: set<Participant>) returns (p: Participant)
    requires Sound(c) && Shaped(c, s) && ps <= c.participants && ps != {}
    ensures p in ps && forall q {:trigger s.pos[q]} :: q in ps ==> s.pos[p] <= s.pos[q]
    decreases |ps|
  {
    p :| p in ps;
    if ps != {p} {
      assert ps - {p} < ps;
      var r := Hindmost(c, s, ps - {p});
      if s.pos[r] < s.pos[p] { p := r; }
    }
  }

  /** No deadlock: until everyone is done, some step is enabled. */
  lemma NoDeadlock(c: Cluster, s: State) returns (step: Step)
    requires Inv(c, s) && !Done(c, s)
    ensures Enabled(c, s, step)
  {
    hide Serial, ReadsOf, Readers, Writers, FlyingOk, AllWaited, OutsOk;
    var p := Hindmost(c, s, c.participants);
    assert StoreOk(c, s, p) && PhaseOk(c, s, p);
    forall q {:trigger s.pos[q]} | q in c.participants && s.pos[p] == |c.log| ensures s.pos[q] == |c.log| &&
        s.phase[q].Ready? {
      assert StoreOk(c, s, q) && PhaseOk(c, s, q);
    }
    if s.phase[p].Ready? {
      step := Begin(p);
    } else {
      step := NextOf(c, s, p);
    }
  }

  /** The least participant, if it is collecting, can receive or finish, or a reader it waits for can begin. */
  lemma NextOf(c: Cluster, s: State, p: Participant) returns (step: Step)
    requires Inv(c, s) && p in c.participants && s.phase[p].Collecting? && s.pos[p] < |c.log|
    requires forall q {:trigger s.pos[q]} :: q in c.participants ==> s.pos[p] <= s.pos[q]
    ensures Enabled(c, s, step)
  {
    var i, got := s.pos[p], s.phase[p].got;
    assert PhaseOk(c, s, p);
    ReadersIn(c, i);
    hide Serial, ReadsOf, Readers, Writers;
    var waiting := Readers(c, i) - {p} - got;
    if waiting == {} {
      assert got == Readers(c, i) - {p};
      step := Finish(p);
    } else {
      var q :| q in waiting;
      Smaller(got, Readers(c, i) - {p}, q);
      if Begun(c, s, q, i) {
        assert Pending(c, s, p, i, q);
        step := Receive(p, Message(p, i, q, ReadsOf(c, {q}, i)));
      } else {
        step := Begin(q);
      }
    }
  }

  lemma Smaller<T>(a: set<T>, b: set<T>, x: T)
    requires a <= b && x in b && x !in a
    ensures |a| < |b|
  {
    assert a + {x} <= b;
    SubsetSize(a + {x}, b);
  }

  /** How much a participant has left to do, counted so that each of its steps makes it less. */
  ghost function Left(c: Cluster, s: State, p: Participant): int
    requires Shaped(c, s) && p in c.participants
  {
    (|c.log| - s.pos[p]) * (2 + |c.participants|) - if s.phase[p].Collecting? then 1 + s.phase[p].popped else 0
  }

  ghost function TotalLeft(c: Cluster, s: State, order: seq<Participant>): int
    requires Shaped(c, s) && forall i :: 0 <= i < |order| ==> order[i] in c.participants
  {
    if order == [] then 0 else Left(c, s, order[0]) + TotalLeft(c, s, order[1..])
  }

  lemma LeftBounds(c: Cluster, s: State, p: Participant)
    requires Inv(c, s) && p in c.participants
    ensures Shaped(c, s) && Left(c, s, p) >= 0 && (s.pos[p] < |c.log| ==> Left(c, s, p) > 0)
  {
    hide Inv;
    PoppedBound(c, s, p);
    LeftOver(|c.log| - s.pos[p], |c.participants|, if s.phase[p].Collecting? then 1 + s.phase[p].popped else 0);
  }

  lemma LeftOver(actions: nat, n: nat, begun: nat)
    requires begun <= 1 + n && (actions == 0 ==> begun == 0)
    ensures actions * (2 + n) - begun >= 0 && (actions > 0 ==> actions * (2 + n) - begun > 0)
  {
    if actions > 0 { assert actions * (2 + n) == (actions - 1) * (2 + n) + (2 + n); }
  }

  /** What a step does to positions and phases. */
  lemma StepEffect(c: Cluster, s: State, step: Step, q: Participant)
    requires Inv(c, s) && Enabled(c, s, step) && q in c.participants
    ensures var t := Do(c, s, step);
      && Shaped(c, t)
      && (q != step.p ==> t.pos[q] == s.pos[q] && t.phase[q] == s.phase[q])
      && (q == step.p && !step.Receive? ==>
            || (t.pos[q] == s.pos[q] + 1 && t.phase[q].Ready?)
            || (t.pos[q] == s.pos[q] && s.phase[q].Ready? && t.phase[q].Collecting? && t.phase[q].popped == 0))
      && (q == step.p && step.Receive? ==>
            t.pos[q] == s.pos[q] && s.phase[q].Collecting? && t.phase[q].Collecting? &&
                t.phase[q].popped == s.phase[q].popped + 1)
  {
    hide Serial, Readers, Writers, ReadsOf, FlyingOk, OutsOk, AllWaited, StoreOk, PhaseOk, ChangeOf, Install,
        OwnChange, LocalReads, Sent;
  }

  lemma StepShrinks(c: Cluster, s: State, step: Step, q: Participant)
    requires Inv(c, s) && Enabled(c, s, step) && q in c.participants
    ensures var t := Do(c, s, step);
      Shaped(c, t) && Left(c, t, q) <= Left(c, s, q) && (q == step.p ==> Left(c, t, q) < Left(c, s, q))
  {
    hide Inv, Enabled, Do, PhaseOk, Readers, Writers, ReadsOf;
    StepEffect(c, s, step, q);
    PoppedBound(c, s, q);
    ProductLess(|c.log| - s.pos[q], 2 + |c.participants|);
  }

  lemma PoppedBound(c: Cluster, s: State, q: Participant)
    requires Inv(c, s) && q in c.participants
    ensures Shaped(c, s) && s.pos[q] <= |c.log|
    ensures s.phase[q].Collecting? ==> s.pos[q] < |c.log| && 0 <= s.phase[q].popped <= |c.participants|
  {
    hide FlyingOk, OutsOk, AllWaited, Readers, Writers, ReadsOf, Serial, Begun;
    assert StoreOk(c, s, q) && PhaseOk(c, s, q);
    if s.phase[q].Collecting? {
      ReadersIn(c, s.pos[q]);
      SubsetSize(s.phase[q].got, c.participants);
    }
  }

  lemma ProductLess(n: int, b: int)
    ensures (n - 1) * b == n * b - b
  {}

  lemma {:induction false} TotalShrinks(c: Cluster, s: State, step: Step, order: seq<Participant>)
    requires Inv(c, s) && Enabled(c, s, step) && forall i :: 0 <= i < |order| ==> order[i] in c.participants
    ensures var t := Do(c, s, step);
      Shaped(c, t) && TotalLeft(c, t, order) <= TotalLeft(c, s, order) &&
          (step.p in order ==> TotalLeft(c, t, order) < TotalLeft(c, s, order))
    decreases |order|
  {
    hide Inv, Enabled, Left;
    if order == [] {
      StepShrinksShape(c, s, step);
    } else {
      StepShrinks(c, s, step, order[0]);
      TotalShrinks(c, s, step, order[1..]);
    }
  }

  lemma StepShrinksShape(c: Cluster, s: State, step: Step)
    requires Inv(c, s) && Enabled(c, s, step)
    ensures Shaped(c, Do(c, s, step))
  {
    BegunAfter(c, s, step);
  }

  lemma {:induction false} TotalNonNegative(c: Cluster, s: State, order: seq<Participant>)
    requires Inv(c, s) && forall i :: 0 <= i < |order| ==> order[i] in c.participants
    ensures TotalLeft(c, s, order) >= 0
    decreases |order|
  {
    hide Inv;
    if order != [] {
      LeftBounds(c, s, order[0]);
      TotalNonNegative(c, s, order[1..]);
    }
  }

  /** Runs are finite: no run has more steps than there was work at its start, so that, with NoDeadlock, every
      run that goes on as long as it can ends with everyone done. */
  lemma {:induction false} RunsEnd(c: Cluster, s: State, steps: seq<Step>, order: seq<Participant>)
    requires Inv(c, s) && IsRun(c, s, steps)
    requires forall i :: 0 <= i < |order| ==> order[i] in c.participants
    requires forall p :: p in c.participants ==> p in order
    ensures |steps| <= TotalLeft(c, s, order)
    decreases |steps|
  {
    hide StoreOk, PhaseOk, FlyingOk, OutsOk, AllWaited, Enabled, Do, TotalLeft;
    if steps == [] {
      TotalNonNegative(c, s, order);
    } else {
      StepInv(c, s, steps[0]);
      StepParticipant(c, s, steps[0]);
      TotalShrinks(c, s, steps[0], order);
      RunsEnd(c, Do(c, s, steps[0]), steps[1..], order);
    }
  }

  lemma StepParticipant(c: Cluster, s: State, step: Step)
    requires Inv(c, s) && Enabled(c, s, step)
    ensures step.p in c.participants
  {}
}
