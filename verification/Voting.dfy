/** Voting for blocks: every replica that has stored a block votes, and the leader hands the block to consensus when
    exactly a majority has voted (the BATCH and VOTE handlers of src/fs/block_log.h). */
module Voting {
  import opened Collections
  import opened ActionLog

  // ---- The leader ----

  datatype Tally = Tally(votes: map<nat, nat>, appended: seq<Pair>)

  /** One more vote for a block of so many entries. */
  function Counted(t: Tally, replicas: nat, id: nat, size: nat): Tally {
    var n := if id in t.votes then t.votes[id] + 1 else 1;
    Tally(
      if n == replicas then t.votes - {id} else t.votes[id := n],
      if n == replicas / 2 + 1 then t.appended + [Pair(id, size)] else t.appended)
  }

  class Leader {
    const replicas: nat
    var batchVotes: map<nat, nat>
    var appended: seq<Pair>

    ghost function Abstract(): Tally
      reads this
    {
      Tally(batchVotes, appended)
    }

    constructor (replicas: nat)
      ensures this.replicas == replicas && Abstract() == Tally(map[], [])
    {
      this.replicas, batchVotes, appended := replicas, map[], [];
    }

    method HandleVote(id: nat, size: nat)
      modifies this
      ensures Abstract() == Counted(old(Abstract()), replicas, id, size)
    {
      if id !in batchVotes {
        batchVotes := batchVotes[id := 0];
      }
      batchVotes := batchVotes[id := batchVotes[id] + 1];
      var votes := batchVotes[id];
      if votes == replicas {
        batchVotes := batchVotes - {id};
        assert batchVotes == old(batchVotes) - {id};
      }
      if votes == replicas / 2 + 1 {
        appended := appended + [Pair(id, size)];
      }
    }
  }

  // ---- The system ----

  datatype Message = Batch(id: nat, to: nat) | Vote(id: nat, from: nat)

  /** Blocks sent with their sizes, what each replica has stored, the leader, and for history the votes it counted. */
  datatype State = State(sent: map<nat, nat>, flying: set<Message>, stored: set<(nat, nat)>, leader: Tally,
      counted: set<(nat, nat)>)

  function Init(): State {
    State(map[], {}, {}, Tally(map[], []), {})
  }

  datatype Step = Send(id: nat, size: nat) | Deliver(m: Message)

  predicate Enabled(s: State, step: Step) {
    match step
    case Send(id, size) => id !in s.sent
    case Deliver(m) => m in s.flying && m.id in s.sent
  }

  function Do(replicas: nat, s: State, step: Step): State
    requires Enabled(s, step)
  {
    match step
    case Send(id, size) => s.(sent := s.sent[id := size], flying := s.flying + set i | 0 <= i < replicas ::
        Batch(id, i))
    case Deliver(Batch(id, to)) => s.(flying := s.flying - {Batch(id, to)} + {Vote(id, to)},
        stored := s.stored + {(id, to)})
    case Deliver(Vote(id, from)) =>
      s.(flying := s.flying - {Vote(id, from)}, leader := Counted(s.leader, replicas, id, s.sent[id]),
          counted := s.counted + {(id, from)})
  }

  // ---- The invariant ----

  function Voters(votes: set<(nat, nat)>, id: nat): set<nat> {
    set v | v in votes && v.0 == id :: v.1
  }

  function Times(appended: seq<Pair>, id: nat): nat {
    if appended == [] then 0
        else Times(appended[..|appended| - 1], id) + if appended[|appended| - 1].first == id then 1 else 0
  }

  ghost predicate MessageOk(replicas: nat, s: State, m: Message) {
    && m.id in s.sent
    && match m
       case Batch(id, to) => to < replicas && (id, to) !in s.stored && Vote(id, to) !in s.flying
       case Vote(id, from) => from < replicas && (id, from) in s.stored && (id, from) !in s.counted
  }

  /** Where replica i's part in block id is. */
  ghost predicate Carried(replicas: nat, s: State, id: nat, i: nat) {
    id in s.sent && i < replicas ==> Batch(id, i) in s.flying || Vote(id, i) in s.flying || (id, i) in s.counted
  }

  /** What the leader knows of a block for which n votes have come. */
  ghost predicate TallyOk(replicas: nat, s: State, id: nat) {
    var n := |Voters(s.counted, id)|;
    && (id in s.leader.votes <==> 0 < n < replicas)
    && (id in s.leader.votes ==> s.leader.votes[id] == n)
    && Times(s.leader.appended, id) == (if n >= replicas / 2 + 1 then 1 else 0)
  }

  ghost predicate Inv(replicas: nat, s: State) {
    && (forall v {:trigger v in s.counted} :: v in s.counted ==> v in s.stored && v.1 < replicas && v.0 in s.sent)
    && (forall v {:trigger v in s.stored} :: v in s.stored ==> v.1 < replicas && v.0 in s.sent)
    && (forall m {:trigger m in s.flying} :: m in s.flying ==> MessageOk(replicas, s, m))
    && (forall id, i: nat {:trigger Carried(replicas, s, id, i)} :: Carried(replicas, s, id, i))
    && (forall id {:trigger TallyOk(replicas, s, id)} :: TallyOk(replicas, s, id))
    && (forall p {:trigger p in s.leader.appended} ::
        p in s.leader.appended ==> p.first in s.sent && s.sent[p.first] == p.second)
  }

  lemma {:induction false} SmallSet(s: set<nat>, n: nat)
    requires forall i :: i in s ==> i < n
    ensures |s| <= n
  {
    if n == 0 {
      assert s == {};
    } else {
      SmallSet(s - {n - 1}, n - 1);
    }
  }

  lemma InitInv(replicas: nat)
    requires replicas > 0
    ensures Inv(replicas, Init())
  {
    assert forall id :: Voters({}, id) == {};
  }

  lemma VotersMore(votes: set<(nat, nat)>, v: (nat, nat), id: nat)
    requires v !in votes
    ensures Voters(votes + {v}, id) == if v.0 == id then Voters(votes, id) + {v.1} else Voters(votes, id)
    ensures |Voters(votes + {v}, id)| == |Voters(votes, id)| + if v.0 == id then 1 else 0
  {
    if v.0 == id {
      assert v.1 !in Voters(votes, id);
      assert Voters(votes + {v}, id) == Voters(votes, id) + {v.1};
    } else {
      assert Voters(votes + {v}, id) == Voters(votes, id);
    }
  }

  lemma TimesMore(appended: seq<Pair>, p: Pair, id: nat)
    ensures Times(appended + [p], id) == Times(appended, id) + if p.first == id then 1 else 0
  {
    assert (appended + [p])[..|appended|] == appended;
  }

  lemma VoteTally(replicas: nat, s: State, v: (nat, nat), id: nat)
    requires replicas > 0 && Inv(replicas, s) && Vote(v.0, v.1) in s.flying
    ensures v.0 in s.sent && TallyOk(replicas, Do(replicas, s, Deliver(Vote(v.0, v.1))), id)
  {
    assert MessageOk(replicas, s, Vote(v.0, v.1));
    assert TallyOk(replicas, s, id);
    VotersMore(s.counted, v, id);
    SmallSet(Voters(s.counted + {v}, id), replicas);
    TimesMore(s.leader.appended, Pair(v.0, s.sent[v.0]), id);
  }

  lemma StepInv(replicas: nat, s: State, step: Step)
    requires replicas > 0 && Inv(replicas, s) && Enabled(s, step)
    ensures Inv(replicas, Do(replicas, s, step))
  {
    hide Voters, Times, Counted, Inv;
    var t := Do(replicas, s, step);
    StepMessages(replicas, s, step);
    StepCarried(replicas, s, step);
    StepAppended(replicas, s, step);
    forall id {:trigger TallyOk(replicas, t, id)} ensures TallyOk(replicas, t, id) {
      if step.Deliver? && step.m.Vote? {
        VoteTally(replicas, s, (step.m.id, step.m.from), id);
      } else {
        SameTally(replicas, s, t, id);
      }
    }
    InvFrom(replicas, t);
  }

  lemma SameTally(replicas: nat, s: State, t: State, id: nat)
    requires Inv(replicas, s) && t.leader == s.leader && t.counted == s.counted
    ensures TallyOk(replicas, t, id)
  {
    assert TallyOk(replicas, s, id);
  }

  ghost predicate StoresOk(replicas: nat, s: State) {
    && (forall v {:trigger v in s.counted} :: v in s.counted ==> v in s.stored && v.1 < replicas && v.0 in s.sent)
    && (forall v {:trigger v in s.stored} :: v in s.stored ==> v.1 < replicas && v.0 in s.sent)
    && (forall m {:trigger m in s.flying} :: m in s.flying ==> MessageOk(replicas, s, m))
  }

  ghost predicate AppendedOk(s: State) {
    forall p {:trigger p in s.leader.appended} ::
        p in s.leader.appended ==> p.first in s.sent && s.sent[p.first] == p.second
  }

  lemma InvFrom(replicas: nat, s: State)
    requires StoresOk(replicas, s) && AppendedOk(s)
    requires forall id, i: nat {:trigger Carried(replicas, s, id, i)} :: Carried(replicas, s, id, i)
    requires forall id {:trigger TallyOk(replicas, s, id)} :: TallyOk(replicas, s, id)
    ensures Inv(replicas, s)
  {}

  lemma StepMessages(replicas: nat, s: State, step: Step)
    requires Inv(replicas, s) && Enabled(s, step)
    ensures StoresOk(replicas, Do(replicas, s, step))
  {
    hide TallyOk, Counted;
    var t := Do(replicas, s, step);
    if step.Deliver? { assert MessageOk(replicas, s, step.m); }
    forall m {:trigger m in t.flying} | m in t.flying ensures MessageOk(replicas, t, m) {
      if m in s.flying { assert MessageOk(replicas, s, m); }
      assert step.Send? && m !in s.flying && Vote(m.id, m.to) in s.flying ==> MessageOk(replicas, s, Vote(m.id, m.to));
    }
  }

  lemma StepCarried(replicas: nat, s: State, step: Step)
    requires Inv(replicas, s) && Enabled(s, step)
    ensures forall id, i: nat {:trigger Carried(replicas, Do(replicas, s, step), id, i)} ::
        Carried(replicas, Do(replicas, s, step), id, i)
  {
    hide TallyOk, Counted;
    forall id, i: nat ensures Carried(replicas, Do(replicas, s, step), id, i) { assert Carried(replicas, s, id, i); }
  }

  lemma StepAppended(replicas: nat, s: State, step: Step)
    requires Inv(replicas, s) && Enabled(s, step)
    ensures AppendedOk(Do(replicas, s, step))
  {
    hide TallyOk;
  }

  // ---- Runs ----

  ghost predicate IsRun(replicas: nat, s: State, steps: seq<Step>)
    decreases |steps|
  {
    steps == [] || (Enabled(s, steps[0]) && IsRun(replicas, Do(replicas, s, steps[0]), steps[1..]))
  }

  ghost function After(replicas: nat, s: State, steps: seq<Step>): State
    requires IsRun(replicas, s, steps)
    decreases |steps|
  {
    if steps == [] then s else After(replicas, Do(replicas, s, steps[0]), steps[1..])
  }

  lemma {:induction false} RunInv(replicas: nat, s: State, steps: seq<Step>)
    requires replicas > 0 && Inv(replicas, s) && IsRun(replicas, s, steps)
    ensures Inv(replicas, After(replicas, s, steps))
    decreases |steps|
  {
    if steps != [] {
      hide Inv;
      StepInv(replicas, s, steps[0]);
      RunInv(replicas, Do(replicas, s, steps[0]), steps[1..]);
    }
  }

  /** In every order of messages a block goes to consensus at most once, just when the votes of a majority of the
      replicas have been counted, and so only when a majority has stored it. */
  lemma AppendedOnceByMajority(replicas: nat, steps: seq<Step>, id: nat)
    requires replicas > 0 && IsRun(replicas, Init(), steps)
    ensures var s := After(replicas, Init(), steps);
      && Times(s.leader.appended, id) <= 1
      && (Times(s.leader.appended, id) == 1 <==> 2 * |Voters(s.counted, id)| > replicas)
      && Voters(s.counted, id) <= Voters(s.stored, id)
      && (Times(s.leader.appended, id) == 1 ==> 2 * |Voters(s.stored, id)| > replicas)
      && (forall p :: p in s.leader.appended ==> p.first in s.sent && s.sent[p.first] == p.second)
  {
    hide IsRun, After, Times;
    InitInv(replicas);
    RunInv(replicas, Init(), steps);
    var s := After(replicas, Init(), steps);
    assert TallyOk(replicas, s, id);
    SubsetSize(Voters(s.counted, id), Voters(s.stored, id));
  }

  /** When every message about a block has been handled it has gone to consensus exactly once and the leader has
      forgotten its votes. */
  lemma AllVotesIn(replicas: nat, steps: seq<Step>, id: nat)
    requires replicas > 0 && IsRun(replicas, Init(), steps)
    ensures var s := After(replicas, Init(), steps);
      id in s.sent && (forall m :: m in s.flying ==> m.id != id) ==>
          Times(s.leader.appended, id) == 1 && id !in s.leader.votes
  {
    hide IsRun, After, Times;
    InitInv(replicas);
    RunInv(replicas, Init(), steps);
    var s := After(replicas, Init(), steps);
    if id in s.sent && forall m :: m in s.flying ==> m.id != id {
      forall i: nat | i < replicas ensures (id, i) in s.counted { assert Carried(replicas, s, id, i); }
      AllVoted(replicas, s, id);
      assert TallyOk(replicas, s, id);
    }
  }

  lemma AllVoted(replicas: nat, s: State, id: nat)
    requires forall i: nat :: i < replicas ==> (id, i) in s.counted
    ensures |Voters(s.counted, id)| >= replicas
  {
    BelowSize(replicas);
    forall i | i in Below(replicas) ensures i in Voters(s.counted, id) { assert (id, i) in s.counted; }
    SubsetSize(Below(replicas), Voters(s.counted, id));
  }
}
