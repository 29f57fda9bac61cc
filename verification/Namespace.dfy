/** The directory tree: which actions keep it a tree, over every run. */
module Namespace {
  import opened Collections
  import opened Paths
  import opened Metadata
  import opened MetadataLaws

  ghost predicate NoDup(names: seq<string>) {
    forall i, j {:trigger names[i], names[j]} :: 0 <= i < j < |names| ==> names[i] != names[j]
  }

  /** A record other than the root sits in a directory that lists its name. */
  ghost predicate Housed(s: Store, p: Path) {
    && Short(p) && Checked(p) && '/' in p
    && ParentDir(p).value in s && s[ParentDir(p).value].fileType == DIR
    && FileName(p) in s[ParentDir(p).value].dirContents
  }

  /** A record lists only names of records, each once, and lists none unless it is a directory. */
  ghost predicate ListsRecords(s: Store, p: Path)
    requires p in s
  {
    && NoDup(s[p].dirContents) && (s[p].fileType == DATA ==> s[p].dirContents == [])
    && forall name {:trigger name in s[p].dirContents} :: name in s[p].dirContents ==>
         IsName(name) && Short(Join(p, name)) && Join(p, name) in s
  }

  /** The store is one tree of directories: the root is there, every other record is listed exactly once in
      its parent, and every listed name has a record. */
  ghost predicate IsTree(s: Store) {
    && "" in s && s[""].fileType == DIR
    && (forall p {:trigger Housed(s, p)} :: p in s && p != "" ==> Housed(s, p))
    && (forall p {:trigger ListsRecords(s, p)} :: p in s ==> ListsRecords(s, p))
  }

  /** The store that SetMachine starts with. */
  lemma StartsAsTree(root: MetadataEntry)
    requires root.fileType == DIR && root.dirContents == []
    ensures IsTree(map["" := root])
  {}

  predicate ShortPaths(input: Input) {
    match input
    case CreateFile(p, _, _) => Short(p)
    case Erase(p) => Short(p)
    case Copy(f, t) => Short(f) && Short(t)
    case Rename(f, t) => Short(f) && Short(t)
    case Lookup(p) => Short(p)
    case Resize(p, _) => Short(p)
    case Append(p, _) => Short(p)
  }

  lemma HousedIn(s: Store, p: Path)
    requires IsTree(s)
    ensures p in s && p != "" ==> Housed(s, p)
  {}

  /** In a tree, the paths of records have a parent and a name; so has every path whose parent is there. */
  lemma Proper(s: Store, p: Path)
    requires IsTree(s) && Short(p) && ParentDir(p).Some? && ParentDir(p).value in s
    ensures '/' in p && Checked(p) && p != "" && IsName(FileName(p)) && p == Join(ParentDir(p).value, FileName(p))
    ensures ParentDir(p).value != p
    ensures p in s <==> FileName(p) in s[ParentDir(p).value].dirContents
  {
    HousedIn(s, p);
    if '/' !in p { NoSlashIsOwnParent(p); }
    JoinSplit(p);
    assert ListsRecords(s, ParentDir(p).value);
  }

  /** Records with one parent have different names. */
  lemma NameDecides(p: Path, q: Path)
    requires Short(p) && Checked(p) && '/' in p && Short(q) && Checked(q) && '/' in q
    requires ParentDir(p) == ParentDir(q) && FileName(p) == FileName(q)
    ensures p == q
  {
    JoinSplit(p);
    JoinSplit(q);
  }

  // ---- Adding a record ----

  /** A new record without listed names, listed in an existing directory. */
  lemma AddedStaysTree(s: Store, p: Path, e: MetadataEntry)
    requires IsTree(s) && Short(p) && ParentDir(p).Some? && ParentDir(p).value in s && p !in s
    requires s[ParentDir(p).value].fileType == DIR && e.dirContents == []
    ensures var d := ParentDir(p).value; IsTree(s[d := Adding(s[d], FileName(p))][p := e])
  {
    var d, name := ParentDir(p).value, FileName(p);
    Proper(s, p);
    var t := s[d := Adding(s[d], name)][p := e];
    assert Housed(t, p);
    forall q | q in s && q != "" ensures Housed(t, q) {
      HousedIn(s, q);
      hide ParentDir, FileName, Checked, IsTree;
    }
    forall q | q in t ensures ListsRecords(t, q) { AddedLists(s, p, d, name, e, q); }
  }

  lemma AddedLists(s: Store, p: Path, d: Path, name: string, e: MetadataEntry, q: Path)
    requires IsTree(s) && p !in s && d in s && s[d].fileType == DIR && e.dirContents == []
    requires IsName(name) && p == Join(d, name) && Short(p) && name !in s[d].dirContents
    requires q in s || q == p
    ensures var t := s[d := Adding(s[d], name)][p := e]; q in t && ListsRecords(t, q)
  {
    if q in s { assert ListsRecords(s, q); }
    hide IsTree;
    var t := s[d := Adding(s[d], name)][p := e];
    forall n | n in t[q].dirContents ensures IsName(n) && Short(Join(q, n)) && Join(q, n) in t {
      if q == d && n != name { assert n in s[q].dirContents; }
    }
  }

  // ---- Dropping a record ----

  lemma DroppedNames(dir: MetadataEntry, name: string)
    requires NoDup(dir.dirContents) && name in dir.dirContents
    ensures NoDup(Dropping(dir, name).dirContents)
    ensures forall n {:trigger n in Dropping(dir, name).dirContents} ::
      n in Dropping(dir, name).dirContents <==> n in dir.dirContents && n != name
  {
    var names := dir.dirContents;
    var i := IndexOf(names, name).value;
    var rest := SwapRemove(names, i);
    assert forall j {:trigger rest[j]} ::
        0 <= j < |rest| ==> rest[j] == if j == i then names[|names| - 1] else names[j];
    forall n | n in names && n != name ensures n in rest {
      var j :| 0 <= j < |names| && names[j] == n;
      assert rest[if j == |names| - 1 then i else j] == n;
    }
  }

  /** A record without listed names, taken out of its directory. */
  lemma RemovedStaysTree(s: Store, p: Path)
    requires IsTree(s) && p in s && p != "" && s[p].dirContents == []
    ensures var d := ParentDir(p);
      d.Some? && d.value in s && IsTree(s[d.value := Dropping(s[d.value], FileName(p))] - {p})
  {
    assert Housed(s, p);
    var d := ParentDir(p).value;
    Proper(s, p);
    assert ListsRecords(s, d);
    DroppedNames(s[d], FileName(p));
    var t := s[d := Dropping(s[d], FileName(p))] - {p};
    forall q | q in t && q != "" ensures Housed(t, q) { RemovedHoused(s, p, d, q); }
    forall q | q in t ensures ListsRecords(t, q) { RemovedLists(s, p, d, q); }
  }

  lemma RemovedHoused(s: Store, p: Path, d: Path, q: Path)
    requires IsTree(s) && p in s && p != "" && s[p].dirContents == [] && Housed(s, p)
    requires ParentDir(p) == Some(d) && d != p && d in s
    requires forall n {:trigger n in Dropping(s[d], FileName(p)).dirContents} ::
      n in Dropping(s[d], FileName(p)).dirContents <==> n in s[d].dirContents && n != FileName(p)
    requires q in s && q != p && q != ""
    ensures Housed(s[d := Dropping(s[d], FileName(p))] - {p}, q)
  {
    assert Housed(s, q);
    var e := ParentDir(q).value;
    if e == d && FileName(q) == FileName(p) { NameDecides(p, q); }
    assert ListsRecords(s, e);
  }

  lemma RemovedLists(s: Store, p: Path, d: Path, q: Path)
    requires IsTree(s) && p in s && p != "" && s[p].dirContents == [] && ParentDir(p) == Some(d) && d != p && d in s
    requires p == Join(d, FileName(p)) && NoDup(Dropping(s[d], FileName(p)).dirContents)
    requires forall n {:trigger n in Dropping(s[d], FileName(p)).dirContents} ::
      n in Dropping(s[d], FileName(p)).dirContents <==> n in s[d].dirContents && n != FileName(p)
    requires FileName(p) in s[d].dirContents && Short(p) && IsName(FileName(p)) && q in s && q != p
    ensures var t := s[d := Dropping(s[d], FileName(p))] - {p}; q in t && ListsRecords(t, q)
  {
    var t := s[d := Dropping(s[d], FileName(p))] - {p};
    assert ListsRecords(s, q) && ListsRecords(s, d);
    hide Dropping;
    forall name | name in t[q].dirContents ensures IsName(name) && Short(Join(q, name)) && Join(q, name) in t {
      assert name in s[q].dirContents;
      SplitJoin(q, name);
      assert Join(q, name) == p ==> q == d && name == FileName(p);
    }
    assert s[d].fileType == DIR;
  }

  // ---- Which actions keep the tree ----

  /** What goes wrong with an action that succeeds: it puts a record into something that is not a directory,
      it copies or moves a directory with files in it but not the files, it renames within one directory
      (the second, stale copy of the directory overwrites the first), or it moves a directory into itself. */
  predicate Hazard(s: Store, input: Input)
    requires Runs(input)
  {
    match input
    case CreateFile(p, _, _) =>
      var d := ParentDir(p).value;
      d in s && FileName(p) !in s[d].dirContents && s[d].fileType != DIR
    case Copy(f, t) =>
      var d := ParentDir(t).value;
      f in s && d in s && FileName(t) !in s[d].dirContents && (s[d].fileType != DIR || s[f].dirContents != [])
    case Rename(f, t) =>
      var d, e := ParentDir(t).value, ParentDir(f).value;
      && f in s && d in s && e in s && FileName(t) !in s[d].dirContents
      && (s[d].fileType != DIR || s[f].dirContents != [] || d == e || d == f)
    case _ => false
  }

  lemma CreateKeepsTree(s: Store, p: Path, perm: Permissions, ft: FileType)
    requires IsTree(s) && Short(p) && ParentDir(p).Some?
    ensures var input := CreateFile(p, perm, ft); IsTree(Apply(s, input)) <==> !Hazard(s, input)
  {
    var input := CreateFile(p, perm, ft);
    var d := ParentDir(p).value;
    if ChangeOf(s, input).out.success {
      Proper(s, p);
      var e := MetadataEntry(perm, ft, [], []);
      assert Apply(s, input) == s[d := Adding(s[d], FileName(p))][p := e];
      if s[d].fileType == DIR {
        AddedStaysTree(s, p, e);
      } else {
        assert !Housed(Apply(s, input), p);
      }
    } else {
      FailureChangesNothing(s, input);
    }
  }

  lemma EraseKeepsTree(s: Store, p: Path)
    requires IsTree(s) && Short(p) && ParentDir(p).Some?
    ensures IsTree(Apply(s, Erase(p)))
  {
    var d := ParentDir(p).value;
    if ChangeOf(s, Erase(p)).out.success {
      Proper(s, p);
      assert ListsRecords(s, p);
      RemovedStaysTree(s, p);
      assert Apply(s, Erase(p)) == s[d := Dropping(s[d], FileName(p))] - {p};
    } else {
      FailureChangesNothing(s, Erase(p));
    }
  }

  /** A copied record that lists names lists files that are not there. */
  lemma CopyKeepsTree(s: Store, f: Path, t: Path)
    requires IsTree(s) && Short(f) && Short(t) && ParentDir(t).Some?
    ensures IsTree(Apply(s, Copy(f, t))) <==> !Hazard(s, Copy(f, t))
  {
    var d := ParentDir(t).value;
    if ChangeOf(s, Copy(f, t)).out.success {
      Proper(s, t);
      var u := Apply(s, Copy(f, t));
      assert u == s[d := Adding(s[d], FileName(t))][t := s[f]];
      if s[d].fileType != DIR {
        assert !Housed(u, t);
      } else if s[f].dirContents == [] {
        AddedStaysTree(s, t, s[f]);
      } else {
        OrphanNames(s, u, t);
      }
    } else {
      FailureChangesNothing(s, Copy(f, t));
    }
  }

  lemma OrphanNames(s: Store, u: Store, t: Path)
    requires IsTree(s) && t !in s && t in u && u[t].dirContents != [] && u.Keys <= s.Keys + {t}
    ensures !ListsRecords(u, t)
  {
    var name := u[t].dirContents[0];
    assert name in u[t].dirContents;
    HousedIn(s, Join(t, name));
    assert |Join(t, name)| > |t|;
    if IsName(name) && Short(Join(t, name)) { SplitJoin(t, name); }
  }

  /** What a successful rename leaves. */
  lemma RenameResult(s: Store, f: Path, t: Path)
    requires IsTree(s) && Short(f) && Short(t) && Runs(Rename(f, t)) && ChangeOf(s, Rename(f, t)).out.success
    ensures var d, e := ParentDir(t).value, ParentDir(f).value;
      && f in s && d in s && e in s && t !in s && t != f && FileName(t) !in s[d].dirContents &&
          FileName(f) in s[e].dirContents
      && d != t && e != f && t != "" && f != ""
      && Apply(s, Rename(f, t)) == s[d := Adding(s[d], FileName(t))][t := s[f]][e := Dropping(s[e], FileName(f))] - {f}
  {
    var d, e := ParentDir(t).value, ParentDir(f).value;
    Proper(s, t);
    Proper(s, f);
    hide ParentDir, FileName, Dropping, Adding, IsTree;
    RenameMaps(s, d, Adding(s[d], FileName(t)), t, s[f], e, Dropping(s[e], FileName(f)), f);
  }

  lemma RenameMaps(s: Store, d: Path, a: MetadataEntry, t: Path, x: MetadataEntry, e: Path, b: MetadataEntry, f: Path)
    ensures (s + (map[d := a][t := x][e := b] - {f})) - {f} == s[d := a][t := x][e := b] - {f}
  {}

  /** Away from its hazards, a rename is a copy followed by an erase. */
  lemma RenameIsCopyThenErase(s: Store, f: Path, t: Path)
    requires IsTree(s) && Short(f) && Short(t) && Runs(Rename(f, t)) && !Hazard(s, Rename(f, t))
    requires ChangeOf(s, Rename(f, t)).out.success
    ensures Apply(s, Rename(f, t)) == Apply(Apply(s, Copy(f, t)), Erase(f))
    ensures ChangeOf(s, Copy(f, t)).out.success
    ensures ChangeOf(Apply(s, Copy(f, t)), Erase(f)).out.success && !Hazard(s, Copy(f, t))
  {
    hide ParentDir, FileName, Dropping, Adding, IsTree, Apply, ChangeOf;
    RenameResult(s, f, t);
    CopyResult(s, f, t);
    var d, e := ParentDir(t).value, ParentDir(f).value;
    var u := s[d := Adding(s[d], FileName(t))][t := s[f]];
    HazardOfRename(s, f, t);
    assert u[e] == s[e] && u[f] == s[f];
    EraseResult(u, f);
  }

  lemma HazardOfRename(s: Store, f: Path, t: Path)
    requires Runs(Rename(f, t)) && !Hazard(s, Rename(f, t)) && ChangeOf(s, Rename(f, t)).out.success
    ensures ParentDir(t).value != ParentDir(f).value && ParentDir(t).value != f && f in s && s[f].dirContents == []
    ensures !Hazard(s, Copy(f, t)) && Runs(Copy(f, t)) && Runs(Erase(f))
  {}

  lemma CopyResult(s: Store, f: Path, t: Path)
    requires Runs(Copy(f, t)) && f in s && ParentDir(t).value in s && FileName(t) !in s[ParentDir(t).value].dirContents
    ensures var d := ParentDir(t).value;
      && ChangeOf(s, Copy(f, t)).out.success
      && Apply(s, Copy(f, t)) == s[d := Adding(s[d], FileName(t))][t := s[f]]
  {
    hide ParentDir, FileName, Adding;
  }

  lemma EraseResult(s: Store, f: Path)
    requires Runs(Erase(f)) && f != "" && f in s && ParentDir(f).value in s && ParentDir(f).value != f
    requires s[f].dirContents == [] && FileName(f) in s[ParentDir(f).value].dirContents
    ensures var e := ParentDir(f).value;
      && ChangeOf(s, Erase(f)).out.success
      && Apply(s, Erase(f)) == s[e := Dropping(s[e], FileName(f))] - {f}
  {
    hide ParentDir, FileName, Dropping;
  }

  lemma RenameKeepsTree(s: Store, f: Path, t: Path)
    requires IsTree(s) && Short(f) && Short(t) && Runs(Rename(f, t))
    ensures IsTree(Apply(s, Rename(f, t))) <==> !Hazard(s, Rename(f, t))
  {
    if !ChangeOf(s, Rename(f, t)).out.success {
      FailureChangesNothing(s, Rename(f, t));
    } else if !Hazard(s, Rename(f, t)) {
      RenameIsCopyThenErase(s, f, t);
      CopyKeepsTree(s, f, t);
      EraseKeepsTree(Apply(s, Copy(f, t)), f);
    } else {
      RenameHazard(s, f, t);
    }
  }

  /** After a rename with a hazard the new path is not housed, or lists names without records. */
  lemma RenameHazard(s: Store, f: Path, t: Path)
    requires IsTree(s) && Short(f) && Short(t) && Runs(Rename(f, t)) && Hazard(s, Rename(f, t))
    ensures !IsTree(Apply(s, Rename(f, t)))
  {
    assert ChangeOf(s, Rename(f, t)).out.success;
    RenameResult(s, f, t);
    var d, e := ParentDir(t).value, ParentDir(f).value;
    assert ListsRecords(s, e);
    DroppedNames(s[e], FileName(f));
    var u := Apply(s, Rename(f, t));
    hide ParentDir, FileName, Dropping, Apply, ChangeOf, IsTree;
    if d != f && d != e && s[d].fileType == DIR {
      assert u[t] == s[f] && u.Keys <= s.Keys + {t};
      OrphanNames(s, u, t);
    } else {
      assert !Housed(u, t);
    }
    NotTree(u, t);
  }

  lemma NotTree(u: Store, t: Path)
    requires t in u && t != "" && (!Housed(u, t) || !ListsRecords(u, t))
    ensures !IsTree(u)
  {}

  /** A successful rename moves exactly one path, with its record unchanged. */
  lemma RenameMovesOnePath(s: Store, f: Path, t: Path)
    requires IsTree(s) && Short(f) && Short(t) && Runs(Rename(f, t)) && ChangeOf(s, Rename(f, t)).out.success
    requires !Hazard(s, Rename(f, t))
    ensures var u := Apply(s, Rename(f, t)); u.Keys == s.Keys - {f} + {t} && u[t] == s[f]
  {
    RenameResult(s, f, t);
  }

  /** Changing a record's parts keeps the tree. */
  lemma PartsKeepTree(s: Store, p: Path, parts: seq<FilePart>)
    requires IsTree(s) && p in s
    ensures IsTree(s[p := s[p].(fileParts := parts)])
  {
    var t := s[p := s[p].(fileParts := parts)];
    forall q | q in t && q != "" ensures Housed(t, q) { assert Housed(s, q); }
    forall q | q in t ensures ListsRecords(t, q) { assert ListsRecords(s, q); }
  }

  lemma FileActionKeepsTree(s: Store, input: Input)
    requires IsTree(s) && (input.Lookup? || input.Resize? || input.Append?)
    ensures Runs(input) && IsTree(Apply(s, input))
  {
    hide IsTree, ResizedParts;
    var c := ChangeOf(s, input);
    if c.puts == map[] {
      assert Apply(s, input) == s;
    } else {
      var p := input.path;
      assert Apply(s, input) == s[p := s[p].(fileParts := c.puts[p].fileParts)];
      PartsKeepTree(s, p, c.puts[p].fileParts);
    }
  }

  /** An action keeps the tree exactly when it has no hazard. */
  lemma TreeKept(s: Store, input: Input)
    requires IsTree(s) && Runs(input) && ShortPaths(input)
    ensures IsTree(Apply(s, input)) <==> !Hazard(s, input)
  {
    hide IsTree, ChangeOf, Apply, ParentDir, FileName;
    match input
    case CreateFile(p, perm, ft) => CreateKeepsTree(s, p, perm, ft);
    case Erase(p) => EraseKeepsTree(s, p);
    case Copy(f, t) => CopyKeepsTree(s, f, t);
    case Rename(f, t) => RenameKeepsTree(s, f, t);
    case Lookup(_) => FileActionKeepsTree(s, input);
    case Resize(_, _) => FileActionKeepsTree(s, input);
    case Append(_, _) => FileActionKeepsTree(s, input);
  }

  /** No action of the log is a hazard where it runs. */
  ghost predicate Harmless(s: Store, log: seq<Input>)
    requires AllRun(log)
    decreases |log|
  {
    log == [] || (ShortPaths(log[0]) && !Hazard(s, log[0]) && Harmless(Apply(s, log[0]), log[1..]))
  }

  /** Every run without hazards ends in a tree. */
  lemma {:induction false} RunKeepsTree(s: Store, log: seq<Input>)
    requires IsTree(s) && AllRun(log) && Harmless(s, log)
    ensures IsTree(RunLog(s, log).0)
    decreases |log|
  {
    if log != [] {
      TreeKept(s, log[0]);
      RunKeepsTree(Apply(s, log[0]), log[1..]);
    }
  }
}
