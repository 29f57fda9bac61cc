/** Participants that see only the actions that touch them, each going through its own part of the log, do what
    participants that go through the whole log do. */
module ParticipantReplay {
  import opened Metadata
  import opened DistributedExecution

  /** Whether participant p reads or writes in action i. */
  ghost predicate Touched(c: Cluster, p: Participant, i: nat)
    requires Sound(c)
  {
    i < |c.log| && (p in Readers(c, i) || p in Writers(c, i))
  }

  /** The places of p's actions among the first k. */
  ghost function Places(c: Cluster, p: Participant, k: nat): seq<nat>
    requires Sound(c) && k <= |c.log|
  {
    if k == 0 then [] else Places(c, p, k - 1) + if Touched(c, p, k - 1) then [k - 1] else []
  }

  ghost function Mine(c: Cluster, p: Participant): seq<nat>
    requires Sound(c)
  {
    Places(c, p, |c.log|)
  }

  ghost predicate Rising(s: seq<nat>) {
    forall i, j {:trigger s[i], s[j]} :: 0 <= i < j < |s| ==> s[i] < s[j]
  }

  lemma RisingMore(s: seq<nat>, x: nat)
    requires Rising(s) && forall i {:trigger s[i]} :: 0 <= i < |s| ==> s[i] < x
    ensures Rising(s + [x])
  {}

  lemma OneMoreIn(s: seq<nat>, x: nat)
    ensures forall i {:trigger i in s + [x]} :: i in s + [x] <==> i in s || i == x
    ensures s + [] == s
  {}

  lemma PlacesMore(c: Cluster, p: Participant, k: nat)
    requires Sound(c) && 0 < k <= |c.log|
    ensures Places(c, p, k) == Places(c, p, k - 1) + if Touched(c, p, k - 1) then [k - 1] else []
  {}

  lemma {:induction false} PlacesRise(c: Cluster, p: Participant, k: nat)
    requires Sound(c) && k <= |c.log|
    ensures Rising(Places(c, p, k))
    ensures forall i {:trigger Places(c, p, k)[i]} :: 0 <= i < |Places(c, p, k)| ==> Places(c, p, k)[i] < k
  {
    hide Touched, Rising;
    if k > 0 {
      PlacesRise(c, p, k - 1);
      RisingMore(Places(c, p, k - 1), k - 1);
      assert Places(c, p, k - 1) + [] == Places(c, p, k - 1);
    } else {
      NoneRise();
    }
  }

  lemma NoneRise()
    ensures Rising([])
  {}

  lemma {:induction false} PlacesIn(c: Cluster, p: Participant, k: nat)
    requires Sound(c) && k <= |c.log|
    ensures forall i {:trigger i in Places(c, p, k)} {:trigger Touched(c, p, i)} ::
      i in Places(c, p, k) <==> 0 <= i < k && Touched(c, p, i)
  {
    hide Touched, Places;
    if k > 0 {
      PlacesIn(c, p, k - 1);
      OneMoreIn(Places(c, p, k - 1), k - 1);
      PlacesMore(c, p, k);
    } else {
      NoPlaces(c, p);
    }
  }

  lemma NoPlaces(c: Cluster, p: Participant)
    requires Sound(c)
    ensures Places(c, p, 0) == []
  {}

  lemma PlacesAre(c: Cluster, p: Participant, k: nat)
    requires Sound(c) && k <= |c.log|
    ensures Rising(Places(c, p, k))
    ensures forall i {:trigger Places(c, p, k)[i]} :: 0 <= i < |Places(c, p, k)| ==> Places(c, p, k)[i] < k
    ensures forall i {:trigger i in Places(c, p, k)} {:trigger Touched(c, p, i)} ::
      i in Places(c, p, k) <==> 0 <= i < k && Touched(c, p, i)
  {
    hide Touched, Places;
    PlacesRise(c, p, k);
    PlacesIn(c, p, k);
  }

  /** The place of p's action number k, or the end of the log. */
  ghost function Next(c: Cluster, p: Participant, k: nat): nat
    requires Sound(c)
  {
    if k < |Mine(c, p)| then Mine(c, p)[k] else |c.log|
  }

  /** Between two of its actions, and before the first, nothing touches p. */
  lemma NothingBetween(c: Cluster, p: Participant, k: nat, j: nat)
    requires Sound(c) && k <= |Mine(c, p)| && j < Next(c, p, k) && (k > 0 ==> j > Next(c, p, k - 1))
    ensures !Touched(c, p, j)
  {
    hide Touched, Places;
    PlacesAre(c, p, |c.log|);
    NotOneOf(Mine(c, p), k, j);
  }

  lemma NotOneOf(s: seq<nat>, k: nat, j: nat)
    requires Rising(s) && k <= |s| && (k < |s| ==> j < s[k]) && (k > 0 ==> j > s[k - 1])
    ensures j !in s
  {
    forall b | 0 <= b < |s| ensures s[b] != j {
      if b < k { assert s[b] <= s[k - 1]; } else { assert s[k] <= s[b]; }
    }
  }

  lemma NextGrows(c: Cluster, p: Participant, k: nat)
    requires Sound(c) && k < |Mine(c, p)|
    ensures Next(c, p, k) < Next(c, p, k + 1) <= |c.log| && Touched(c, p, Next(c, p, k))
  {
    hide Touched, Places;
    PlacesAre(c, p, |c.log|);
    assert Mine(c, p)[k] in Mine(c, p);
  }

  // ---- The local view ----

  /** How many of its own actions each participant has finished; the rest of the state is as in the cluster. */
  datatype Local = Local(at: map<Participant, nat>, rest: State)

  ghost predicate LocalShaped(c: Cluster, l: Local) {
    && Sound(c) && Shaped(c, l.rest) && l.at.Keys == c.participants
    && forall p {:trigger l.at[p]} :: p in c.participants ==> l.at[p] <= |Mine(c, p)|
  }

  ghost function Positions(c: Cluster, at: map<Participant, nat>): map<Participant, nat>
    requires Sound(c)
  {
    map p | p in at :: Next(c, p, at[p])
  }

  lemma PositionsMove(c: Cluster, at: map<Participant, nat>, p: Participant)
    requires Sound(c) && p in at
    ensures Positions(c, at[p := at[p] + 1]) == Positions(c, at)[p := Next(c, p, at[p] + 1)]
  {
    hide Next;
  }

  /** The cluster's state in which every participant stands at its next own action. */
  ghost function View(c: Cluster, l: Local): State
    requires LocalShaped(c, l)
  {
    l.rest.(pos := Positions(c, l.at))
  }

  ghost function LocalInit(c: Cluster): Local {
    Local(map p | p in c.participants :: 0, Init(c))
  }

  /** A participant takes a step in the next action of its own sequence, and when it is done with that it goes to
      the next one in its sequence, whatever lies between them in the log. */
  ghost predicate LocalEnabled(c: Cluster, l: Local, step: Step)
    requires LocalShaped(c, l)
  {
    step.p in c.participants && l.at[step.p] < |Mine(c, step.p)| && Enabled(c, View(c, l), step)
  }

  ghost function LocalDo(c: Cluster, l: Local, step: Step): Local
    requires LocalShaped(c, l) && LocalEnabled(c, l, step)
  {
    var p, t := step.p, Do(c, View(c, l), step);
    Local(if step.p in t.pos && t.pos[p] > Next(c, p, l.at[p]) then l.at[p := l.at[p] + 1] else l.at, t)
  }

  // ---- Simulation ----

  /** p passes over actions that do not touch it. */
  lemma {:induction false} PassOver(c: Cluster, s: State, p: Participant, j: nat)
    requires Inv(c, s) && p in c.participants && s.phase[p].Ready? && s.pos[p] <= j <= |c.log|
    requires forall i {:trigger Touched(c, p, i)} :: s.pos[p] <= i < j ==> !Touched(c, p, i)
    ensures Inv(c, s.(pos := s.pos[p := j]))
    decreases j - s.pos[p]
  {
    var i := s.pos[p];
    if i == j {
      assert s.pos[p := j] == s.pos;
    } else {
      assert !Touched(c, p, i);
      hide Readers, Writers, StoreOk, PhaseOk, AllWaited, FlyingOk, OutsOk, Touched;
      assert p !in Readers(c, i) && p !in Writers(c, i) by { NotTouched(c, p, i); }
      var t := Do(c, s, Begin(p));
      UntouchedPassedOver(c, s, p);
      StepInv(c, s, Begin(p));
      hide Do, Inv;
      PassOver(c, t, p, j);
      assert t.pos[p := j] == s.pos[p := j];
    }
  }

  lemma NotTouched(c: Cluster, p: Participant, i: nat)
    requires Sound(c) && i < |c.log| && !Touched(c, p, i)
    ensures p !in Readers(c, i) && p !in Writers(c, i)
  {}

  /** Where the participants stand when those in ps have passed over what comes before their first action. */
  ghost function Started(c: Cluster, ps: set<Participant>): map<Participant, nat>
    requires Sound(c)
  {
    map q | q in c.participants :: if q in ps then Next(c, q, 0) else 0
  }

  lemma StartedMore(c: Cluster, ps: set<Participant>, p: Participant)
    requires Sound(c) && p in ps && p in c.participants
    ensures Started(c, ps) == Started(c, ps - {p})[p := Next(c, p, 0)] && Started(c, ps - {p})[p] == 0
  {
    hide Next;
  }

  lemma {:induction false} PassAll(c: Cluster, ps: set<Participant>)
    requires Sound(c) && ps <= c.participants
    ensures Inv(c, Init(c).(pos := Started(c, ps)))
  {
    hide Inv, Next, Touched;
    var s0 := Init(c);
    if ps == {} {
      InitInv(c);
      assert s0.pos == Started(c, ps);
    } else {
      var p :| p in ps;
      PassAll(c, ps - {p});
      StartedMore(c, ps, p);
      hide Started;
      NextWithin(c, p, 0);
      forall i {:trigger Touched(c, p, i)} | 0 <= i < Next(c, p, 0) ensures !Touched(c, p, i) {
        NothingBetween(c, p, 0, i);
      }
      PassOver(c, s0.(pos := Started(c, ps - {p})), p, Next(c, p, 0));
    }
  }

  lemma NextWithin(c: Cluster, p: Participant, k: nat)
    requires Sound(c)
    ensures Next(c, p, k) <= |c.log|
  {
    hide Touched, Places;
    PlacesAre(c, p, |c.log|);
  }

  lemma LocalInitInv(c: Cluster)
    requires Sound(c)
    ensures LocalShaped(c, LocalInit(c)) && Inv(c, View(c, LocalInit(c)))
  {
    hide Inv, Next;
    PassAll(c, c.participants);
    var l := LocalInit(c);
    assert View(c, l).pos == Started(c, c.participants);
    assert View(c, l) == Init(c).(pos := View(c, l).pos);
  }

  /** Positions after a step: only the stepping participant's, by one, and then it is between actions. */
  lemma StepMoves(c: Cluster, s: State, step: Step)
    requires Inv(c, s) && Enabled(c, s, step)
    ensures var t, p := Do(c, s, step), step.p;
      && Shaped(c, t) && p in c.participants
      && t.pos == s.pos[p := t.pos[p]]
      && (t.pos[p] == s.pos[p] || (t.pos[p] == s.pos[p] + 1 && t.phase[p].Ready?))
  {
    hide StoreOk, PhaseOk, AllWaited, FlyingOk, OutsOk, Readers, Writers, LocalReads, Sent, Install, OwnChange;
    var t, p := Do(c, s, step), step.p;
    assert t.pos == s.pos[p := t.pos[p]];
  }

  /** A local step is a step of the cluster, after which the participant passes over what does not touch it. */
  lemma LocalStepInv(c: Cluster, l: Local, step: Step)
    requires LocalShaped(c, l) && Inv(c, View(c, l)) && LocalEnabled(c, l, step)
    ensures LocalShaped(c, LocalDo(c, l, step)) && Inv(c, View(c, LocalDo(c, l, step)))
  {
    hide Inv, Next, Mine, Do, Enabled, Shaped;
    var s, p := View(c, l), step.p;
    InvShape(c, s);
    var t := Do(c, s, step);
    StepInv(c, s, step);
    StepMoves(c, s, step);
    if t.pos[p] == s.pos[p] {
      assert t.pos == s.pos;
      LocalStays(c, l, LocalDo(c, l, step));
    } else {
      LocalMoves(c, l, LocalDo(c, l, step), p);
    }
  }

  lemma LocalStays(c: Cluster, l: Local, m: Local)
    requires LocalShaped(c, l) && m.at == l.at && Inv(c, m.rest) && m.rest.pos == View(c, l).pos
    ensures LocalShaped(c, m) && Inv(c, View(c, m))
  {
    hide Next, Mine, Inv;
    InvShape(c, m.rest);
    assert View(c, m) == m.rest;
  }

  lemma LocalMoves(c: Cluster, l: Local, m: Local, p: Participant)
    requires LocalShaped(c, l) && p in c.participants && l.at[p] < |Mine(c, p)| && m.at == l.at[p := l.at[p] + 1]
    requires Inv(c, m.rest) && m.rest.phase[p].Ready? && m.rest.pos == Positions(c, l.at)[p := Next(c, p, l.at[p]) + 1]
    ensures LocalShaped(c, m) && Inv(c, View(c, m))
  {
    hide Inv, Mine, Positions, Next, Shaped;
    InvShape(c, m.rest);
    MovedShape(c, l, m, p);
    PassOn(c, m.rest, p, l.at[p]);
    PositionsMove(c, l.at, p);
    assert Positions(c, l.at)[p := Next(c, p, l.at[p]) + 1][p := Next(c, p, l.at[p] + 1)] == Positions(c, m.at);
  }

  lemma MovedShape(c: Cluster, l: Local, m: Local, p: Participant)
    requires LocalShaped(c, l) && p in c.participants && l.at[p] < |Mine(c, p)| && m.at == l.at[p := l.at[p] + 1]
    requires Shaped(c, m.rest)
    ensures LocalShaped(c, m)
  {
    hide Mine, Shaped;
  }

  /** A participant between actions passes on to the next that touches it. */
  lemma PassOn(c: Cluster, t: State, p: Participant, k: nat)
    requires Inv(c, t) && p in c.participants && k < |Mine(c, p)| && t.pos[p] == Next(c, p, k) + 1 && t.phase[p].Ready?
    ensures Inv(c, t.(pos := t.pos[p := Next(c, p, k + 1)]))
  {
    hide Next, Mine, Inv, Touched;
    InvShape(c, t);
    NextGrows(c, p, k);
    forall i {:trigger Touched(c, p, i)} | t.pos[p] <= i < Next(c, p, k + 1) ensures !Touched(c, p, i) {
      NothingBetween(c, p, k + 1, i);
    }
    PassOver(c, t, p, Next(c, p, k + 1));
  }

  // ---- Runs ----

  ghost predicate IsLocalRun(c: Cluster, l: Local, steps: seq<Step>)
    decreases |steps|
  {
    && LocalShaped(c, l)
    && (steps == [] || (LocalEnabled(c, l, steps[0]) && IsLocalRun(c, LocalDo(c, l, steps[0]), steps[1..])))
  }

  ghost function LocalAfter(c: Cluster, l: Local, steps: seq<Step>): (m: Local)
    requires IsLocalRun(c, l, steps)
    ensures LocalShaped(c, m)
    decreases |steps|
  {
    if steps == [] then l else LocalAfter(c, LocalDo(c, l, steps[0]), steps[1..])
  }

  lemma {:induction false} LocalRunInv(c: Cluster, l: Local, steps: seq<Step>)
    requires IsLocalRun(c, l, steps) && Inv(c, View(c, l))
    ensures Inv(c, View(c, LocalAfter(c, l, steps)))
    decreases |steps|
  {
    if steps != [] {
      hide Inv, View, LocalEnabled, LocalDo;
      LocalStepInv(c, l, steps[0]);
      LocalRunInv(c, LocalDo(c, l, steps[0]), steps[1..]);
    }
  }

  /** Every participant has gone through its own sequence. */
  ghost predicate LocalDone(c: Cluster, l: Local)
    requires LocalShaped(c, l)
  {
    forall p {:trigger l.at[p]} :: p in c.participants ==> l.at[p] == |Mine(c, p)| && l.rest.phase[p].Ready?
  }

  /** When all participants have gone through their own sequences, in any interleaving, the stores and answers are
      those of one store that has run the whole log. */
  lemma LocalRunIsSerial(c: Cluster, steps: seq<Step>)
    requires Sound(c) && IsLocalRun(c, LocalInit(c), steps) && LocalDone(c, LocalAfter(c, LocalInit(c), steps))
    ensures Shaped(c, View(c, LocalAfter(c, LocalInit(c), steps)))
    ensures IsSerial(c, View(c, LocalAfter(c, LocalInit(c), steps)))
  {
    hide Inv, LocalInit, IsLocalRun, IsSerial, Mine;
    LocalInitInv(c);
    LocalRunInv(c, LocalInit(c), steps);
    var l := LocalAfter(c, LocalInit(c), steps);
    var s := View(c, l);
    forall p {:trigger s.pos[p]} | p in c.participants ensures s.pos[p] == |c.log| && s.phase[p].Ready? {
      assert l.at[p] == |Mine(c, p)|;
    }
    InvShape(c, s);
    DoneIsSerial(c, s);
  }

  /** Until then some participant can take a step in its own sequence. */
  lemma LocalNoDeadlock(c: Cluster, l: Local) returns (step: Step)
    requires LocalShaped(c, l) && Inv(c, View(c, l)) && !LocalDone(c, l)
    ensures LocalEnabled(c, l, step)
  {
    hide Inv, Mine, Next;
    var s := View(c, l);
    InvShape(c, s);
    if Done(c, s) {
      forall p {:trigger l.at[p]} | p in c.participants ensures l.at[p] == |Mine(c, p)| && l.rest.phase[p].Ready? {
        assert s.pos[p] == |c.log|;
        NotAtEnd(c, p, l.at[p]);
      }
    }
    step := NoDeadlock(c, s);
    AtEnd(c, step.p, l.at[step.p]);
  }

  lemma NotAtEnd(c: Cluster, p: Participant, k: nat)
    requires Sound(c) && k <= |Mine(c, p)| && Next(c, p, k) == |c.log|
    ensures k == |Mine(c, p)|
  {
    if k < |Mine(c, p)| { NextGrows(c, p, k); }
  }

  lemma AtEnd(c: Cluster, p: Participant, k: nat)
    requires Sound(c) && k <= |Mine(c, p)| && Next(c, p, k) < |c.log|
    ensures k < |Mine(c, p)|
  {}

  lemma InvShape(c: Cluster, s: State)
    requires Inv(c, s)
    ensures Sound(c) && Shaped(c, s)
  {}
}
