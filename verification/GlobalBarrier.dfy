/** Barriers over data channels: every machine sends one message to every machine on the channel of its next
    barrier, and leaves, closing the channel, when it has popped as many as there are machines
    (src/machine/machine.cc). */
module GlobalBarrier {
  import opened Collections

  datatype Message = Message(from: nat, to: nat, round: nat)

  datatype Phase = Outside | Sending(sent: nat) | Popping(popped: nat)

  /** Per machine: how many barriers it has entered and where in the last it is. A message is in flight or in the inbox
      of its channel; got is history: what was popped. */
  datatype State = State(next: seq<nat>, phase: seq<Phase>, flying: set<Message>, inbox: set<Message>,
      got: set<Message>)

  function Init(n: nat): State {
    State(seq(n, _ => 0), seq(n, _ => Outside), {}, {}, {})
  }

  datatype Step = Enter(i: nat) | Send(i: nat) | Deliver(m: Message) | Pop(i: nat, m: Message) | Leave(i: nat)

  predicate Shaped(n: nat, s: State) {
    |s.next| == n && |s.phase| == n && forall i {:trigger s.phase[i]} ::
        0 <= i < n && !s.phase[i].Outside? ==> s.next[i] > 0
  }

  predicate Enabled(n: nat, s: State, step: Step)
    requires Shaped(n, s)
  {
    match step
    case Enter(i) => i < n && s.phase[i].Outside?
    case Send(i) => i < n && s.phase[i].Sending? && s.phase[i].sent < n
    case Deliver(m) => m in s.flying
    case Pop(i, m) => i < n && s.phase[i].Popping? && s.phase[i].popped < n && m in s.inbox && m.to == i &&
        m.round == s.next[i] - 1
    case Leave(i) => i < n && s.phase[i].Popping? && s.phase[i].popped == n
  }

  /** Closing a channel drops what is in it. */
  function Do(n: nat, s: State, step: Step): State
    requires Shaped(n, s) && Enabled(n, s, step)
  {
    match step
    case Enter(i) => s.(next := s.next[i := s.next[i] + 1], phase := s.phase[i := Sending(0)])
    case Send(i) =>
      var k := s.phase[i].sent;
      s.(flying := s.flying + {Message(i, k, s.next[i] - 1)},
          phase := s.phase[i := if k + 1 == n then Popping(0) else Sending(k + 1)])
    case Deliver(m) => s.(flying := s.flying - {m}, inbox := s.inbox + {m})
    case Pop(i, m) => s.(inbox := s.inbox - {m}, got := s.got + {m},
        phase := s.phase[i := Popping(s.phase[i].popped + 1)])
    case Leave(i) =>
      s.(phase := s.phase[i := Outside], inbox := set m | m in s.inbox && !(m.to == i && m.round == s.next[i] - 1))
  }

  // ---- The invariant ----

  /** Whether the sender has got to sending m. */
  predicate WasSent(n: nat, s: State, m: Message)
    requires Shaped(n, s)
  {
    && m.from < n && m.to < n
    && (m.round + 1 < s.next[m.from]
        || (m.round + 1 == s.next[m.from] && (s.phase[m.from].Sending? ==> m.to < s.phase[m.from].sent)))
  }

  /** A sent message is in exactly one place, and an unsent one nowhere. */
  ghost predicate PlaceOk(n: nat, s: State, m: Message)
    requires Shaped(n, s)
  {
    && (m in s.flying || m in s.inbox || m in s.got <==> WasSent(n, s, m))
    && !(m in s.flying && m in s.inbox) && !(m in s.flying && m in s.got) && !(m in s.inbox && m in s.got)
  }

  function Senders(got: set<Message>, to: nat, round: nat): set<nat> {
    set m | m in got && m.to == to && m.round == round :: m.from
  }

  /** How many barriers machine i has left. */
  function Left(n: nat, s: State, i: nat): nat
    requires Shaped(n, s) && i < n
  {
    if s.phase[i].Outside? then s.next[i] else s.next[i] - 1
  }

  ghost predicate MachineOk(n: nat, s: State, i: nat)
    requires Shaped(n, s) && i < n
  {
    && (s.phase[i].Sending? ==> s.phase[i].sent < n && Senders(s.got, i, s.next[i] - 1) == {})
    && (s.phase[i].Popping? ==> s.phase[i].popped == |Senders(s.got, i, s.next[i] - 1)|)
    && (forall f: nat, k: nat {:trigger Message(f, i, k)} :: f < n && k < Left(n, s, i) ==> Message(f, i, k) in s.got)
    && (forall m {:trigger m in s.got} :: m in s.got && m.to == i ==> m.round < s.next[i])
  }

  ghost predicate Inv(n: nat, s: State) {
    && Shaped(n, s)
    && (forall m {:trigger PlaceOk(n, s, m)} :: PlaceOk(n, s, m))
    && (forall i: nat {:trigger MachineOk(n, s, i)} :: i < n ==> MachineOk(n, s, i))
  }

  lemma InitInv(n: nat)
    ensures Inv(n, Init(n))
  {
    var s := Init(n);
    forall m ensures PlaceOk(n, s, m) {}
  }

  // ---- Sets of senders ----

  lemma SendersMore(got: set<Message>, m: Message, to: nat, round: nat)
    requires m !in got
    ensures Senders(got + {m}, to, round) == if m.to == to && m.round == round then
        Senders(got, to, round) + {m.from} else Senders(got, to, round)
    ensures |Senders(got + {m}, to, round)| == |Senders(got, to, round)| + if m.to == to && m.round == round then 1
        else 0
  {
    if m.to == to && m.round == round {
      forall k | k in got && k.to == to && k.round == round ensures k.from != m.from {
        assert k == Message(k.from, k.to, k.round);
      }
      assert Senders(got + {m}, to, round) == Senders(got, to, round) + {m.from};
    } else {
      assert Senders(got + {m}, to, round) == Senders(got, to, round);
    }
  }

  /** A machine that has popped n messages has one from everyone. */
  lemma HasAll(n: nat, s: State, i: nat)
    requires Inv(n, s) && i < n && s.phase[i].Popping? && s.phase[i].popped == n
    ensures forall f: nat {:trigger Message(f, i, s.next[i] - 1)} :: f < n ==> Message(f, i, s.next[i] - 1) in s.got
  {
    var k := s.next[i] - 1;
    var senders := Senders(s.got, i, k);
    assert MachineOk(n, s, i);
    BelowSize(n);
    forall f | f in senders ensures f in Below(n) {
      var m :| m in s.got && m.to == i && m.round == k && m.from == f;
      assert PlaceOk(n, s, m);
    }
    SameSize(senders, Below(n));
    forall f: nat {:trigger Message(f, i, k)} | f < n ensures Message(f, i, k) in s.got {
      assert f in senders;
      var m :| m in s.got && m.to == i && m.round == k && m.from == f;
      assert m == Message(f, i, k);
    }
  }

  // ---- Steps ----

  lemma StepPlaces(n: nat, s: State, step: Step, m: Message)
    requires Inv(n, s) && Enabled(n, s, step)
    ensures Shaped(n, Do(n, s, step)) && PlaceOk(n, Do(n, s, step), m)
  {
    hide Senders;
    var t := Do(n, s, step);
    assert PlaceOk(n, s, m);
    match step
    case Enter(i) =>
    case Send(i) => assert MachineOk(n, s, i);
    case Deliver(x) => assert PlaceOk(n, s, x);
    case Pop(i, x) => assert PlaceOk(n, s, x);
    case Leave(i) =>
      HasAll(n, s, i);
      assert m.to == i && m.round == s.next[i] - 1 ==> m == Message(m.from, i, s.next[i] - 1);
  }

  lemma StepMachine(n: nat, s: State, step: Step, i: nat)
    requires Inv(n, s) && Enabled(n, s, step) && i < n
    ensures Shaped(n, Do(n, s, step)) && MachineOk(n, Do(n, s, step), i)
  {
    hide PlaceOk, Senders;
    var t := Do(n, s, step);
    assert MachineOk(n, s, i);
    match step
    case Enter(j) => if i == j { NoneYet(n, s, i); }
    case Send(j) =>
    case Deliver(x) =>
    case Pop(j, x) => PopMachine(n, s, j, x, i);
    case Leave(j) => if i == j { LeaveMachine(n, s, i); }
  }

  lemma PopMachine(n: nat, s: State, j: nat, m: Message, i: nat)
    requires Inv(n, s) && Enabled(n, s, Pop(j, m)) && i < n
    ensures Shaped(n, Do(n, s, Pop(j, m))) && MachineOk(n, Do(n, s, Pop(j, m)), i)
  {
    hide PlaceOk, Senders;
    assert MachineOk(n, s, i);
    NotGot(n, s, m);
    if s.next[i] > 0 { SendersMore(s.got, m, i, s.next[i] - 1); }
  }

  lemma LeaveMachine(n: nat, s: State, i: nat)
    requires Inv(n, s) && Enabled(n, s, Leave(i))
    ensures Shaped(n, Do(n, s, Leave(i))) && MachineOk(n, Do(n, s, Leave(i)), i)
  {
    hide PlaceOk, Senders;
    var t := Do(n, s, Leave(i));
    assert MachineOk(n, s, i);
    HasAll(n, s, i);
    forall f: nat, k: nat {:trigger Message(f, i, k)} | f < n && k < Left(n, t, i) ensures Message(f, i, k) in t.got {
      if k == s.next[i] - 1 { assert Message(f, i, s.next[i] - 1) in s.got; }
    }
  }

  lemma NotGot(n: nat, s: State, m: Message)
    requires Inv(n, s) && m in s.inbox
    ensures m !in s.got
  {
    assert PlaceOk(n, s, m);
  }

  lemma NoneYet(n: nat, s: State, i: nat)
    requires Inv(n, s) && i < n
    ensures Senders(s.got, i, s.next[i]) == {}
  {
    assert MachineOk(n, s, i);
  }

  lemma StepInv(n: nat, s: State, step: Step)
    requires Inv(n, s) && Enabled(n, s, step)
    ensures Inv(n, Do(n, s, step))
  {
    hide PlaceOk, MachineOk;
    var t := Do(n, s, step);
    StepShaped(n, s, step);
    forall m {:trigger PlaceOk(n, t, m)} ensures PlaceOk(n, t, m) { StepPlaces(n, s, step, m); }
    forall i: nat {:trigger MachineOk(n, t, i)} | i < n ensures MachineOk(n, t, i) { StepMachine(n, s, step, i); }
  }

  lemma StepShaped(n: nat, s: State, step: Step)
    requires Shaped(n, s) && Enabled(n, s, step)
    ensures Shaped(n, Do(n, s, step))
  {}

  // ---- What barriers are for ----

  ghost predicate IsRun(n: nat, s: State, steps: seq<Step>)
    decreases |steps|
  {
    Shaped(n, s) && (steps == [] || (Enabled(n, s, steps[0]) && IsRun(n, Do(n, s, steps[0]), steps[1..])))
  }

  ghost function After(n: nat, s: State, steps: seq<Step>): State
    requires IsRun(n, s, steps)
    decreases |steps|
  {
    if steps == [] then s else After(n, Do(n, s, steps[0]), steps[1..])
  }

  lemma {:induction false} RunInv(n: nat, s: State, steps: seq<Step>)
    requires IsRun(n, s, steps) && Inv(n, s)
    ensures Inv(n, After(n, s, steps))
    decreases |steps|
  {
    if steps != [] {
      hide Inv, Do, Enabled;
      StepInv(n, s, steps[0]);
      RunInv(n, Do(n, s, steps[0]), steps[1..]);
    }
  }

  /** In every run, when a machine has left its k-th barrier every machine has entered its k-th. */
  lemma NobodyLeavesEarly(n: nat, steps: seq<Step>, i: nat, j: nat)
    requires IsRun(n, Init(n), steps) && i < n && j < n
    ensures var s := After(n, Init(n), steps);
      Shaped(n, s) && Left(n, s, i) <= s.next[j]
  {
    hide IsRun, After;
    InitInv(n);
    RunInv(n, Init(n), steps);
    var s := After(n, Init(n), steps);
    if Left(n, s, i) > 0 {
      var m := Message(j, i, Left(n, s, i) - 1);
      assert MachineOk(n, s, i);
      assert m in s.got;
      assert PlaceOk(n, s, m);
    }
  }

  /** Closing the channel loses nothing: no message for it is in it, and none is still to come. */
  lemma ChannelDoneAtClose(n: nat, s: State, i: nat, m: Message)
    requires Inv(n, s) && Enabled(n, s, Leave(i)) && m.to == i && m.round == s.next[i] - 1
    ensures m !in s.inbox && m !in s.flying && (m.from < n ==> WasSent(n, s, m))
  {
    HasAll(n, s, i);
    assert PlaceOk(n, s, m);
    assert m == Message(m.from, i, s.next[i] - 1);
  }

  lemma {:induction false} Hindmost(n: nat, s: State, k: nat) returns (i: nat)
    requires Shaped(n, s) && 0 < k <= n
    ensures i < k && forall j :: 0 <= j < k ==> s.next[i] <= s.next[j]
  {
    if k == 1 {
      i := 0;
    } else {
      i := Hindmost(n, s, k - 1);
      if s.next[k - 1] < s.next[i] { i := k - 1; }
    }
  }

  /** While every machine is inside a barrier some machine can go on. */
  lemma NoDeadlock(n: nat, s: State) returns (step: Step)
    requires Inv(n, s) && n > 0 && forall i {:trigger s.phase[i]} :: 0 <= i < n ==> !s.phase[i].Outside?
    ensures Enabled(n, s, step) && !step.Enter?
  {
    var i := Hindmost(n, s, n);
    assert !s.phase[i].Outside?;
    var k := s.next[i] - 1;
    assert MachineOk(n, s, i);
    if s.phase[i].Sending? {
      step := Send(i);
    } else if s.phase[i].popped >= n {
      PoppedBound(n, s, i);
      step := Leave(i);
    } else {
      var f := Missing(n, s, i);
      var m := Message(f, i, k);
      assert PlaceOk(n, s, m) && MachineOk(n, s, f);
      if s.phase[f].Sending? && !WasSent(n, s, m) {
        step := Send(f);
      } else if m in s.flying {
        step := Deliver(m);
      } else {
        step := Pop(i, m);
      }
    }
  }

  lemma SendersBelow(n: nat, s: State, i: nat, k: nat)
    requires Inv(n, s) && i < n
    ensures Senders(s.got, i, k) <= Below(n)
  {
    BelowSize(n);
    forall f | f in Senders(s.got, i, k) ensures f in Below(n) {
      var m :| m in s.got && m.to == i && m.round == k && m.from == f;
      assert PlaceOk(n, s, m);
    }
  }

  lemma PoppedBound(n: nat, s: State, i: nat)
    requires Inv(n, s) && i < n && s.phase[i].Popping?
    ensures s.phase[i].popped <= n
  {
    assert MachineOk(n, s, i);
    BelowSize(n);
    SendersBelow(n, s, i, s.next[i] - 1);
    SubsetSize(Senders(s.got, i, s.next[i] - 1), Below(n));
  }

  lemma Missing(n: nat, s: State, i: nat) returns (f: nat)
    requires Inv(n, s) && i < n && s.phase[i].Popping? && s.phase[i].popped < n
    ensures f < n && Message(f, i, s.next[i] - 1) !in s.got
  {
    var senders := Senders(s.got, i, s.next[i] - 1);
    assert MachineOk(n, s, i);
    BelowSize(n);
    if Below(n) <= senders { SubsetSize(Below(n), senders); }
    f :| f in Below(n) && f !in senders;
  }
}
