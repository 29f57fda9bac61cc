/** Logs that agree on the order of what they share extend to one total order: the logs of the replicas, each holding
    its own actions and its part of the cross-replica actions, woven along the order of the latter. */
module TotalOrder {
  import opened Collections
  import opened ActionLog
  import opened LowLatency

  function CrossOf(): Action -> bool {
    (a: Action) => Cross(a)
  }

  function InvolvesOf(r: nat): Action -> bool {
    (a: Action) => Involves(r, a)
  }

  function Crosses(s: seq<Action>): seq<Action> {
    Filter(s, CrossOf())
  }

  function For(r: nat, s: seq<Action>): seq<Action> {
    Filter(s, InvolvesOf(r))
  }

  // ---- One log, up to its first cross-replica action ----

  function Head(s: seq<Action>): (h: seq<Action>)
    ensures h <= s && forall a :: a in h ==> !Cross(a)
  {
    if s == [] || Cross(s[0]) then [] else [s[0]] + Head(s[1..])
  }

  function Tail(s: seq<Action>): (t: seq<Action>)
    ensures |t| <= |s| && (t != [] ==> Cross(t[0])) && (forall a :: a in t ==> a in s)
  {
    if s == [] || Cross(s[0]) then s else Tail(s[1..])
  }

  lemma {:induction false} HeadAndTail(s: seq<Action>)
    ensures Head(s) + Tail(s) == s && Crosses(s) == Crosses(Tail(s))
  {
    if s != [] && !Cross(s[0]) {
      HeadAndTail(s[1..]);
      Associate([s[0]], Head(s[1..]), Tail(s[1..]));
    }
  }

  /** An action that stays in one replica involves that one; a log holds what involves its replica. */
  predicate LogOk(r: nat, s: seq<Action>) {
    forall a :: a in s ==> Involves(r, a) && (!Cross(a) ==> a.involved == [r])
  }

  // ---- Weaving ----

  function Heads(logs: seq<seq<Action>>): seq<Action> {
    if logs == [] then [] else Heads(logs[..|logs| - 1]) + Head(logs[|logs| - 1])
  }

  /** What is left of a log once its leading actions and the cross-replica action c are placed. */
  function After(r: nat, s: seq<Action>, c: Action): (t: seq<Action>)
    ensures |t| <= |s| && (forall a :: a in t ==> a in s)
  {
    if Involves(r, c) && Tail(s) != [] then Tail(s)[1..] else Tail(s)
  }

  function Rest(logs: seq<seq<Action>>, c: Action): (r: seq<seq<Action>>)
    ensures |r| == |logs| && forall i {:trigger r[i]} {:trigger logs[i]} ::
        0 <= i < |logs| ==> r[i] == After(i, logs[i], c)
  {
    seq(|logs|, i requires 0 <= i < |logs| => After(i, logs[i], c))
  }

  function Weave(shared: seq<Action>, logs: seq<seq<Action>>): seq<Action>
    decreases shared
  {
    Heads(logs) + if shared == [] then [] else [shared[0]] + Weave(shared[1..], Rest(logs, shared[0]))
  }

  ghost predicate Fits(shared: seq<Action>, logs: seq<seq<Action>>) {
    && (forall a :: a in shared ==> Cross(a))
    && forall r {:trigger logs[r]} :: 0 <= r < |logs| ==> LogOk(r, logs[r]) && Crosses(logs[r]) <= For(r, shared)
  }

  lemma {:induction false} NoneFor(r: nat, s: seq<Action>)
    requires forall a :: a in s ==> !Involves(r, a)
    ensures For(r, s) == []
  {
    if s != [] {
      assert s[0] in s;
      NoneFor(r, s[1..]);
    }
  }

  lemma {:induction false} AllFor(r: nat, s: seq<Action>)
    requires forall a :: a in s ==> Involves(r, a)
    ensures For(r, s) == s
  {
    if s != [] {
      assert s[0] in s;
      AllFor(r, s[1..]);
    }
  }

  lemma {:induction false} HeadsFor(r: nat, logs: seq<seq<Action>>)
    requires forall i {:trigger logs[i]} :: 0 <= i < |logs| ==> LogOk(i, logs[i])
    ensures For(r, Heads(logs)) == if r < |logs| then Head(logs[r]) else []
  {
    if logs != [] {
      var n := |logs| - 1;
      var h := Head(logs[n]);
      HeadsFor(r, logs[..n]);
      FilterConcat(Heads(logs[..n]), h, InvolvesOf(r));
      assert LogOk(n, logs[n]);
      assert forall a :: a in h ==> a.involved == [n];
      if r == n { AllFor(r, h); } else { NoneFor(r, h); }
    }
  }

  lemma FitsRest(shared: seq<Action>, logs: seq<seq<Action>>)
    requires Fits(shared, logs) && shared != []
    ensures Fits(shared[1..], Rest(logs, shared[0]))
    ensures forall r {:trigger logs[r]} ::
        0 <= r < |logs| && Involves(r, shared[0]) && Tail(logs[r]) != [] ==> Tail(logs[r])[0] == shared[0]
  {
    hide LogOk, Crosses, For, After, Involves, Tail;
    var c := shared[0];
    assert c in shared;
    forall r {:trigger logs[r]} | 0 <= r < |logs|
      ensures LogOk(r, After(r, logs[r], c)) && Crosses(After(r, logs[r], c)) <= For(r, shared[1..])
      ensures Involves(r, c) && Tail(logs[r]) != [] ==> Tail(logs[r])[0] == c
    {
      FitsOne(r, shared, logs[r]);
    }
  }

  lemma FitsOne(r: nat, shared: seq<Action>, s: seq<Action>)
    requires shared != [] && Cross(shared[0]) && LogOk(r, s) && Crosses(s) <= For(r, shared)
    ensures LogOk(r, After(r, s, shared[0])) && Crosses(After(r, s, shared[0])) <= For(r, shared[1..])
    ensures Involves(r, shared[0]) && Tail(s) != [] ==> Tail(s)[0] == shared[0]
  {
    hide Head, Tail, Filter;
    HeadAndTail(s);
    var t := Tail(s);
    FilterHead(shared[0], shared[1..], InvolvesOf(r));
    assert shared == [shared[0]] + shared[1..];
    if t != [] {
      assert t == [t[0]] + t[1..];
      FilterHead(t[0], t[1..], CrossOf());
      assert t[0] == Crosses(s)[0];
      if Involves(r, shared[0]) {
        assert Crosses(s)[0] == For(r, shared)[0];
        assert Crosses(t[1..]) == Crosses(s)[1..];
        assert For(r, shared[1..]) == For(r, shared)[1..];
      }
    }
  }

  lemma PrefixOf<T>(h: seq<T>, s: seq<T>, t: seq<T>)
    requires s <= t
    ensures h + s <= h + t
  {}

  /** Every log is a prefix of the part of the total order that involves its replica. */
  lemma {:induction false} LogsArePrefixes(shared: seq<Action>, logs: seq<seq<Action>>, r: nat)
    requires Fits(shared, logs) && r < |logs|
    ensures logs[r] <= For(r, Weave(shared, logs))
    decreases shared
  {
    hide LogOk, Head, Tail, After, Heads, Crosses, Involves;
    var h, t := Head(logs[r]), Tail(logs[r]);
    assert LogOk(r, logs[r]) && Crosses(logs[r]) <= For(r, shared);
    HeadAndTail(logs[r]);
    HeadsFor(r, logs);
    if shared == [] {
      NothingLeft(r, logs[r]);
      assert h == logs[r];
      assert Weave(shared, logs) == Heads(logs);
    } else {
      hide Weave;
      var c, rest := shared[0], Rest(logs, shared[0]);
      FitsRest(shared, logs);
      LogsArePrefixes(shared[1..], rest, r);
      var w := Weave(shared[1..], rest);
      Woven(shared, logs);
      FilterConcat(Heads(logs), [c] + w, InvolvesOf(r));
      FilterHead(c, w, InvolvesOf(r));
      TailPrefix(r, logs[r], c, For(r, w));
      PrefixOf(h, t, For(r, [c] + w));
    }
  }

  /** A log that has all the shared actions of its replica is the whole part of the order that involves it. */
  lemma {:induction false} LogsAreEqual(shared: seq<Action>, logs: seq<seq<Action>>, r: nat)
    requires Fits(shared, logs) && r < |logs| && Crosses(logs[r]) == For(r, shared)
    ensures logs[r] == For(r, Weave(shared, logs))
    decreases shared
  {
    hide LogOk, Head, Tail, After, Heads, Involves;
    var h, t := Head(logs[r]), Tail(logs[r]);
    assert LogOk(r, logs[r]);
    HeadAndTail(logs[r]);
    HeadsFor(r, logs);
    if shared == [] {
      NothingLeft(r, logs[r]);
      assert h == logs[r];
      assert Weave(shared, logs) == Heads(logs);
    } else {
      hide Weave, Filter;
      var c, rest := shared[0], Rest(logs, shared[0]);
      FitsRest(shared, logs);
      AfterEqual(r, logs[r], shared);
      LogsAreEqual(shared[1..], rest, r);
      var w := Weave(shared[1..], rest);
      Woven(shared, logs);
      FilterConcat(Heads(logs), [c] + w, InvolvesOf(r));
      FilterHead(c, w, InvolvesOf(r));
    }
  }

  lemma AfterEqual(r: nat, s: seq<Action>, shared: seq<Action>)
    requires shared != [] && Cross(shared[0]) && LogOk(r, s) && Crosses(s) == For(r, shared)
    ensures Crosses(After(r, s, shared[0])) == For(r, shared[1..])
    ensures Tail(s) == if Involves(r, shared[0]) then [shared[0]] + After(r, s, shared[0]) else After(r, s, shared[0])
  {
    HeadAndTail(s);
    var t := Tail(s);
    FilterHead(shared[0], shared[1..], InvolvesOf(r));
    assert shared == [shared[0]] + shared[1..];
    if t != [] {
      assert t == [t[0]] + t[1..];
      FilterHead(t[0], t[1..], CrossOf());
      assert t[0] == Crosses(s)[0];
      if Involves(r, shared[0]) {
        assert Crosses(t[1..]) == Crosses(s)[1..];
        assert For(r, shared[1..]) == For(r, shared)[1..];
      }
    }
  }

  lemma Woven(shared: seq<Action>, logs: seq<seq<Action>>)
    requires shared != []
    ensures Weave(shared, logs) == Heads(logs) + ([shared[0]] + Weave(shared[1..], Rest(logs, shared[0])))
  {}

  lemma NothingLeft(r: nat, s: seq<Action>)
    requires Crosses(s) <= For(r, [])
    ensures Tail(s) == []
  {
    HeadAndTail(s);
  }

  lemma TailPrefix(r: nat, s: seq<Action>, c: Action, w: seq<Action>)
    requires After(r, s, c) <= w
    requires Involves(r, c) && Tail(s) != [] ==> Tail(s)[0] == c
    ensures Tail(s) <= if Involves(r, c) then [c] + w else w
  {}

  // ---- Nothing twice ----

  function Occ(s: seq<Action>, p: Action -> bool): nat {
    |Filter(s, p)|
  }

  function Singles(s: seq<Action>): seq<Action> {
    Filter(s, (a: Action) => !Cross(a))
  }

  function SinglesIn(logs: seq<seq<Action>>, p: Action -> bool): nat {
    if logs == [] then 0 else SinglesIn(logs[..|logs| - 1], p) + Occ(Singles(logs[|logs| - 1]), p)
  }

  lemma OccConcat(s: seq<Action>, t: seq<Action>, p: Action -> bool)
    ensures Occ(s + t, p) == Occ(s, p) + Occ(t, p)
  {
    FilterConcat(s, t, p);
  }

  lemma {:induction false} SinglesSplit(s: seq<Action>)
    ensures Singles(s) == Head(s) + Singles(Tail(s))
  {
    if s != [] && !Cross(s[0]) {
      SinglesSplit(s[1..]);
      Associate([s[0]], Head(s[1..]), Singles(Tail(s[1..])));
    }
  }

  lemma SinglesAfter(r: nat, s: seq<Action>, c: Action)
    ensures Singles(After(r, s, c)) == Singles(Tail(s))
  {}

  lemma {:induction false} HeadsOcc(logs: seq<seq<Action>>, c: Action, p: Action -> bool)
    ensures SinglesIn(logs, p) == Occ(Heads(logs), p) + SinglesIn(Rest(logs, c), p)
  {
    if logs != [] {
      hide Head, Tail, After, Singles;
      var n := |logs| - 1;
      HeadsOcc(logs[..n], c, p);
      assert Rest(logs, c)[..n] == Rest(logs[..n], c);
      SinglesSplit(logs[n]);
      SinglesAfter(n, logs[n], c);
      OccConcat(Heads(logs[..n]), Head(logs[n]), p);
      OccConcat(Head(logs[n]), Singles(Tail(logs[n])), p);
    }
  }

  lemma {:induction false} HeadsOccAll(logs: seq<seq<Action>>, p: Action -> bool)
    requires forall r {:trigger logs[r]} :: 0 <= r < |logs| ==> Tail(logs[r]) == []
    ensures SinglesIn(logs, p) == Occ(Heads(logs), p)
  {
    if logs != [] {
      hide Head, Tail;
      var n := |logs| - 1;
      HeadsOccAll(logs[..n], p);
      SinglesSplit(logs[n]);
      assert Singles([]) == [];
      assert Head(logs[n]) + [] == Head(logs[n]);
      OccConcat(Heads(logs[..n]), Head(logs[n]), p);
    }
  }

  /** The total order holds the shared actions and each log's own, each as often as there. */
  lemma {:induction false} WeaveOcc(shared: seq<Action>, logs: seq<seq<Action>>, p: Action -> bool)
    requires Fits(shared, logs)
    ensures Occ(Weave(shared, logs), p) == Occ(shared, p) + SinglesIn(logs, p)
    decreases shared
  {
    hide LogOk, Head, Tail, After, Heads, Crosses, Involves, SinglesIn, Occ;
    if shared == [] {
      forall r {:trigger logs[r]} | 0 <= r < |logs| ensures Tail(logs[r]) == [] { NothingLeft(r, logs[r]); }
      HeadsOccAll(logs, p);
      OccNone(p);
      assert Weave(shared, logs) == Heads(logs);
    } else {
      hide Weave;
      var c, rest := shared[0], Rest(logs, shared[0]);
      FitsRest(shared, logs);
      WeaveOcc(shared[1..], rest, p);
      HeadsOcc(logs, c, p);
      Woven(shared, logs);
      var w := Weave(shared[1..], rest);
      OccConcat(Heads(logs), [c] + w, p);
      OccConcat([c], w, p);
      OccConcat([c], shared[1..], p);
      assert shared == [c] + shared[1..];
    }
  }

  lemma OccNone(p: Action -> bool)
    ensures Occ([], p) == 0
  {}

  // ---- Relative order ----

  function IdIs(i: nat): Action -> bool {
    (a: Action) => a.id == i
  }

  ghost predicate Before(s: seq<Action>, x: nat, y: nat) {
    exists i, j :: 0 <= i < j < |s| && s[i].id == x && s[j].id == y
  }

  lemma {:induction false} FilterBefore(s: seq<Action>, p: Action -> bool, x: nat, y: nat)
    requires Before(Filter(s, p), x, y)
    ensures Before(s, x, y)
  {
    var t := s[1..];
    var f := Filter(t, p);
    FilterHolds(t, p);
    var i, j :| 0 <= i < j < |Filter(s, p)| && Filter(s, p)[i].id == x && Filter(s, p)[j].id == y;
    if p(s[0]) {
      assert Filter(s, p) == [s[0]] + f;
      if i == 0 {
        assert f[j - 1] in t;
        var k :| 0 <= k < |t| && t[k] == f[j - 1];
        assert s[0].id == x && s[k + 1].id == y;
      } else {
        assert f[i - 1].id == x && f[j - 1].id == y;
        FilterBefore(t, p, x, y);
        Later(s, x, y);
      }
    } else {
      assert Filter(s, p) == f;
      FilterBefore(t, p, x, y);
      Later(s, x, y);
    }
  }

  lemma Later(s: seq<Action>, x: nat, y: nat)
    requires s != [] && Before(s[1..], x, y)
    ensures Before(s, x, y)
  {
    var i, j :| 0 <= i < j < |s[1..]| && s[1..][i].id == x && s[1..][j].id == y;
    assert s[i + 1].id == x && s[j + 1].id == y;
  }

  lemma OccTwice(s: seq<Action>, i: nat, j: nat, x: nat)
    requires i < j < |s| && s[i].id == s[j].id == x
    ensures Occ(s, IdIs(x)) >= 2
  {
    assert s == s[..j] + s[j..];
    OccConcat(s[..j], s[j..], IdIs(x));
    OccSome(s[..j], i, x);
    OccSome(s[j..], 0, x);
  }

  lemma OccSome(s: seq<Action>, i: nat, x: nat)
    requires i < |s| && s[i].id == x
    ensures Occ(s, IdIs(x)) >= 1
  {
    FilterHolds(s, IdIs(x));
    assert s[i] in s;
  }

  lemma NotBoth(s: seq<Action>, x: nat, y: nat)
    requires Occ(s, IdIs(x)) <= 1 && Before(s, x, y) && Occ(s, IdIs(y)) <= 1
    ensures !Before(s, y, x)
  {
    hide Occ;
    var i, j :| 0 <= i < j < |s| && s[i].id == x && s[j].id == y;
    forall k, l | 0 <= k < l < |s| ensures !(s[k].id == y && s[l].id == x) {
      if s[k].id == y && s[l].id == x {
        if k < j { OccTwice(s, k, j, y); }
        if i < l { OccTwice(s, i, l, x); }
      }
    }
  }
}
