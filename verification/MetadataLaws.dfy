/** Laws of metadata actions: what they read and write, when two of them commute, and what failing ones do. */
module MetadataLaws {
  import opened Collections
  import opened Paths
  import opened Metadata

  /** Two stores show the same records on ps. */
  ghost predicate Agree(s: Store, t: Store, ps: set<Path>) {
    forall p {:trigger p in ps} :: p in ps ==> (p in s <==> p in t) && (p in s ==> s[p] == t[p])
  }

  lemma FootprintCases(input: Input)
    requires Runs(input)
    ensures match input
      case CreateFile(p, _, _) => ParentDir(p).Some? && Reads(input) == Writes(input) == {p, ParentDir(p).value}
      case Erase(p) => ParentDir(p).Some? && Reads(input) == Writes(input) == {p, ParentDir(p).value}
      case Copy(f, t) => ParentDir(t).Some? && Reads(input) == {f, ParentDir(t).value} &&
          Writes(input) == {t, ParentDir(t).value}
      case Rename(f, t) => ParentDir(f).Some? && ParentDir(t).Some?
        && Reads(input) == {f, ParentDir(f).value, ParentDir(t).value}
        && Writes(input) == {f, ParentDir(f).value, t, ParentDir(t).value}
      case Lookup(p) => Reads(input) == {p} && Writes(input) == {}
      case Resize(p, _) => Reads(input) == Writes(input) == {p}
      case Append(p, _) => Reads(input) == Writes(input) == {p}
  {
    hide ParentDir;
    var f := GetRWSets(input).value;
    assert Reads(input) == ToSet(f.readSet);
    assert Writes(input) == ToSet(f.writeSet);
  }

  /** An action looks only at its declared readset: stores that agree there give the same change and answer. */
  lemma ReadsOnlyReadSet(s: Store, t: Store, input: Input)
    requires Runs(input) && Agree(s, t, Reads(input))
    ensures ChangeOf(s, input) == ChangeOf(t, input)
  {
    hide ParentDir, FileName, Dropping, Adding, ResizedParts, Reads, Writes;
    FootprintCases(input);
    match input
    case CreateFile(p, _, _) => assert p in Reads(input) && ParentDir(p).value in Reads(input);
    case Erase(p) => assert p in Reads(input) && ParentDir(p).value in Reads(input);
    case Copy(f, t) => assert f in Reads(input) && ParentDir(t).value in Reads(input);
    case Rename(f, t) => assert f in Reads(input) && ParentDir(f).value in Reads(input) &&
        ParentDir(t).value in Reads(input);
    case Lookup(p) => assert p in Reads(input);
    case Resize(p, _) => assert p in Reads(input);
    case Append(p, _) => assert p in Reads(input);
  }

  /** An action puts and deletes only records of its declared writeset. */
  lemma WritesOnlyWriteSet(s: Store, input: Input)
    requires Runs(input)
    ensures var c := ChangeOf(s, input); c.puts.Keys + c.dels <= Writes(input) && c.puts.Keys !! c.dels
  {
    hide ParentDir, FileName, Dropping, Adding, ResizedParts, Reads, Writes;
    FootprintCases(input);
  }

  /** A failing action changes nothing. */
  lemma FailureChangesNothing(s: Store, input: Input)
    requires Runs(input) && !ChangeOf(s, input).out.success
    ensures Apply(s, input) == s && |ChangeOf(s, input).out.errors| == 1
  {
    hide ParentDir, FileName, Dropping, Adding, ResizedParts;
    assert s + map[] - {} == s;
  }

  /** Outside the writeset a store stays as it is. */
  lemma AppliedOutside(s: Store, input: Input, ps: set<Path>)
    requires Runs(input) && ps !! Writes(input)
    ensures Agree(Apply(s, input), s, ps)
  {
    WritesOnlyWriteSet(s, input);
    hide ChangeOf;
  }

  /** An action that conflicts with none before it answers as if it had come first. */
  lemma Undisturbed(s: Store, a: Input, b: Input)
    requires Runs(a) && Runs(b) && Reads(b) !! Writes(a)
    ensures ChangeOf(Apply(s, a), b) == ChangeOf(s, b)
  {
    AppliedOutside(s, a, Reads(b));
    ReadsOnlyReadSet(Apply(s, a), s, b);
  }

  /** Actions without a read-write or write-write overlap commute: same final store, same answers. */
  lemma Commute(s: Store, a: Input, b: Input)
    requires Runs(a) && Runs(b)
    requires Writes(a) !! Reads(b) && Writes(b) !! Reads(a) && Writes(a) !! Writes(b)
    ensures Apply(Apply(s, a), b) == Apply(Apply(s, b), a)
    ensures ChangeOf(Apply(s, a), b).out == ChangeOf(s, b).out && ChangeOf(Apply(s, b), a).out == ChangeOf(s, a).out
  {
    hide ChangeOf, Reads, Writes;
    Undisturbed(s, a, b);
    Undisturbed(s, b, a);
    WritesOnlyWriteSet(s, a);
    WritesOnlyWriteSet(s, b);
    InstallsCommute(s, ChangeOf(s, a), ChangeOf(s, b));
  }

  lemma InstallsCommute(s: Store, c: Change, d: Change)
    requires (c.puts.Keys + c.dels) !! (d.puts.Keys + d.dels)
    ensures Install(Install(s, c), d) == Install(Install(s, d), c)
  {
    var u, v := Install(Install(s, c), d), Install(Install(s, d), c);
    forall p | p in u ensures p in v && v[p] == u[p] {}
    forall p | p in v ensures p in u {}
  }

  // ---- Logs ----

  /** Running a log of actions on one store: the final store and the answers. */
  ghost function RunLog(s: Store, log: seq<Input>): (r: (Store, seq<Output>))
    requires AllRun(log)
    ensures |r.1| == |log|
    decreases |log|
  {
    if log == [] then (s, [])
    else
      var r := RunLog(Apply(s, log[0]), log[1..]);
      (r.0, [ChangeOf(s, log[0]).out] + r.1)
  }

  predicate AllRun(log: seq<Input>) {
    forall i {:trigger log[i]} :: 0 <= i < |log| ==> Runs(log[i])
  }

  lemma {:induction false} RunLogConcat(s: Store, x: seq<Input>, y: seq<Input>)
    requires AllRun(x) && AllRun(y)
    ensures AllRun(x + y)
    ensures RunLog(s, x + y).0 == RunLog(RunLog(s, x).0, y).0
    ensures RunLog(s, x + y).1 == RunLog(s, x).1 + RunLog(RunLog(s, x).0, y).1
    decreases |x|
  {
    hide ChangeOf, Apply;
    if x == [] {
      assert x + y == y && RunLog(s, x) == (s, []);
    } else {
      assert (x + y)[1..] == x[1..] + y && (x + y)[0] == x[0];
      RunLogConcat(Apply(s, x[0]), x[1..], y);
      var o, r := [ChangeOf(s, x[0]).out], RunLog(Apply(s, x[0]), x[1..]);
      assert o + (r.1 + RunLog(r.0, y).1) == (o + r.1) + RunLog(r.0, y).1;
    }
  }

  lemma RunOne(s: Store, a: Input)
    requires Runs(a)
    ensures AllRun([a]) && RunLog(s, [a]).0 == Apply(s, a) && RunLog(s, [a]).1 == [ChangeOf(s, a).out]
  {
    hide ChangeOf, Apply;
    assert [a][1..] == [];
    assert RunLog(Apply(s, a), []).1 == [];
  }

  lemma RunTwo(s: Store, a: Input, b: Input)
    requires Runs(a) && Runs(b)
    ensures RunLog(s, [a, b]).0 == Apply(Apply(s, a), b)
    ensures RunLog(s, [a, b]).1 == [ChangeOf(s, a).out, ChangeOf(Apply(s, a), b).out]
  {
    hide ChangeOf, Apply;
    var t := Apply(s, a);
    assert [a, b][1..] == [b] && [b][1..] == [];
    assert RunLog(t, [b]).0 == RunLog(Apply(t, b), []).0 &&
        RunLog(t, [b]).1 == [ChangeOf(t, b).out] + RunLog(Apply(t, b), []).1;
  }

  /** o' is o with the answers at n and n + 1 exchanged. */
  predicate Swapped(o: seq<Output>, o': seq<Output>, n: nat) {
    |o| == |o'| && n + 2 <= |o| && o'[..n] == o[..n] && o'[n] == o[n + 1] && o'[n + 1] == o[n] &&
        o'[n + 2..] == o[n + 2..]
  }

  /** Two neighbours of a log that are independent can trade places: the final store is the same, and every
      action gets the answer it would have got. */
  lemma SwapInLog(s: Store, before: seq<Input>, a: Input, b: Input, after: seq<Input>)
    requires AllRun(before) && AllRun(after) && Runs(a) && Runs(b)
    requires Writes(a) !! Reads(b) && Writes(b) !! Reads(a) && Writes(a) !! Writes(b)
    ensures AllRun(before + [a, b] + after) && AllRun(before + [b, a] + after)
    ensures RunLog(s, before + [a, b] + after).0 == RunLog(s, before + [b, a] + after).0
    ensures Swapped(RunLog(s, before + [a, b] + after).1, RunLog(s, before + [b, a] + after).1, |before|)
  {
    hide ChangeOf, Apply, RunLog;
    var t, first := RunLog(s, before).0, RunLog(s, before).1;
    Commute(t, a, b);
    RunTwo(t, a, b);
    RunTwo(t, b, a);
    var u, x, y := Apply(Apply(t, a), b), ChangeOf(t, a).out, ChangeOf(t, b).out;
    assert RunLog(t, [a, b]).1 == [x, y] && RunLog(t, [b, a]).1 == [y, x];
    var last := RunLog(u, after).1;
    RunLogConcat(s, before, [a, b]);
    RunLogConcat(s, before, [b, a]);
    RunLogConcat(s, before + [a, b], after);
    RunLogConcat(s, before + [b, a], after);
    assert RunLog(s, before + [a, b] + after).1 == first + [x, y] + last;
    assert RunLog(s, before + [b, a] + after).1 == first + [y, x] + last;
    assert |first| == |before|;
  }
}
