/** Each hazard of Namespace can be met: runs from the first store to a tree in which the action succeeds and leaves
    what is no longer a tree. */
module Hazards {
  import opened Collections
  import opened Paths
  import opened Metadata
  import opened MetadataLaws
  import opened Namespace

  const ROOT := MetadataEntry(Permissions(0, 0, "777"), DIR, [], [])
  const START: Store := map["" := ROOT]
  const PERMISSIONS := Permissions(0, 0, "")

  const A: Path := Join("", "a")
  const B: Path := Join("", "b")
  const BELOW_A: Path := Join(A, "x")

  /** After the log, which keeps the tree, the action succeeds and breaks it. */
  ghost predicate Breaks(log: seq<Input>, input: Input) {
    && AllRun(log) && Runs(input)
    && var s := RunLog(START, log).0;
       && IsTree(s) && Hazard(s, input) && ChangeOf(s, input).out.success && !IsTree(Apply(s, input))
  }

  function Create(path: Path, fileType: FileType): Input {
    CreateFile(path, PERMISSIONS, fileType)
  }

  lemma Names()
    ensures A == "/a" && B == "/b" && BELOW_A == "/a/x"
    ensures ParentDir(A) == Some("") && FileName(A) == "a" && ParentDir(B) == Some("") && FileName(B) == "b"
    ensures ParentDir(BELOW_A) == Some(A) && FileName(BELOW_A) == "x"
    ensures Short(A) && Short(B) && Short(BELOW_A)
  {
    assert IsName("a") && IsName("b") && IsName("x");
    SplitJoin("", "a");
    SplitJoin("", "b");
    SplitJoin(A, "x");
  }

  /** The first store with one entry below the root, a file or a directory. */
  function One(fileType: FileType): Store {
    map["" := ROOT.(dirContents := ["a"]), A := MetadataEntry(PERMISSIONS, fileType, [], [])]
  }

  lemma OneReached(fileType: FileType)
    ensures AllRun([Create(A, fileType)]) && RunLog(START, [Create(A, fileType)]).0 == One(fileType)
    ensures IsTree(One(fileType))
  {
    hide ParentDir, FileName, IsTree;
    Names();
    StartsAsTree(ROOT);
    var input := Create(A, fileType);
    RunOne(START, input);
    assert [] + ["a"] == ["a"];
    assert Apply(START, input) == One(fileType);
    TreeKept(START, input);
  }

  /** A directory with one file in it. */
  function Two(): Store {
    map["" := ROOT.(dirContents := ["a"]), A := MetadataEntry(PERMISSIONS, DIR, [], ["x"]),
        BELOW_A := MetadataEntry(PERMISSIONS, DATA, [], [])]
  }

  lemma TwoReached()
    ensures var log := [Create(A, DIR), Create(BELOW_A, DATA)];
      AllRun(log) && RunLog(START, log).0 == Two() && IsTree(Two())
  {
    hide ParentDir, FileName, IsTree;
    Names();
    OneReached(DIR);
    var s, input := One(DIR), Create(BELOW_A, DATA);
    RunOne(s, input);
    RunLogConcat(START, [Create(A, DIR)], [input]);
    assert [Create(A, DIR)] + [input] == [Create(A, DIR), input];
    assert [] + ["x"] == ["x"];
    assert Apply(s, input) == Two();
    TreeKept(s, input);
  }

  /** From a tree that a log reaches, a hazard that succeeds breaks the tree. */
  lemma HazardBreaks(log: seq<Input>, s: Store, input: Input)
    requires AllRun(log) && RunLog(START, log).0 == s && IsTree(s) && Runs(input) && ShortPaths(input)
    requires Hazard(s, input) && ChangeOf(s, input).out.success
    ensures Breaks(log, input)
  {
    hide IsTree, Hazard, ChangeOf, Apply;
    TreeKept(s, input);
  }

  lemma CreateBelowFile()
    ensures Breaks([Create(A, DATA)], Create(BELOW_A, DATA))
  {
    hide ParentDir, FileName, IsTree;
    Names();
    OneReached(DATA);
    HazardBreaks([Create(A, DATA)], One(DATA), Create(BELOW_A, DATA));
  }

  lemma CopyBelowFile()
    ensures Breaks([Create(A, DATA)], Copy(A, BELOW_A))
  {
    hide ParentDir, FileName, IsTree;
    Names();
    OneReached(DATA);
    HazardBreaks([Create(A, DATA)], One(DATA), Copy(A, BELOW_A));
  }

  lemma CopyNonEmptyDirectory()
    ensures Breaks([Create(A, DIR), Create(BELOW_A, DATA)], Copy(A, B))
  {
    hide ParentDir, FileName, IsTree;
    Names();
    TwoReached();
    HazardBreaks([Create(A, DIR), Create(BELOW_A, DATA)], Two(), Copy(A, B));
  }

  lemma RenameWithinDirectory()
    ensures Breaks([Create(A, DATA)], Rename(A, B))
  {
    hide ParentDir, FileName, IsTree;
    Names();
    OneReached(DATA);
    HazardBreaks([Create(A, DATA)], One(DATA), Rename(A, B));
  }

  lemma RenameIntoItself()
    ensures Breaks([Create(A, DIR)], Rename(A, BELOW_A))
  {
    hide ParentDir, FileName, IsTree;
    Names();
    OneReached(DIR);
    HazardBreaks([Create(A, DIR)], One(DIR), Rename(A, BELOW_A));
  }

  lemma RenameBelowFile()
    ensures Breaks([Create(A, DATA), Create(B, DATA)], Rename(B, BELOW_A))
  {
    hide ParentDir, FileName, IsTree;
    Names();
    OneReached(DATA);
    var s, input := One(DATA), Create(B, DATA);
    RunOne(s, input);
    RunLogConcat(START, [Create(A, DATA)], [input]);
    assert [Create(A, DATA)] + [input] == [Create(A, DATA), input];
    TreeKept(s, input);
    HazardBreaks([Create(A, DATA), input], Apply(s, input), Rename(B, BELOW_A));
  }

  lemma RenameNonEmptyDirectory()
    ensures Breaks([Create(A, DIR), Create(BELOW_A, DATA), Create(B, DIR)], Rename(A, Join(B, "x")))
  {
    hide ParentDir, FileName, IsTree;
    Names();
    TwoReached();
    assert IsName("x");
    SplitJoin(B, "x");
    var s, input, log := Two(), Create(B, DIR), [Create(A, DIR), Create(BELOW_A, DATA)];
    RunOne(s, input);
    RunLogConcat(START, log, [input]);
    assert log + [input] == [Create(A, DIR), Create(BELOW_A, DATA), input];
    TreeKept(s, input);
    HazardBreaks(log + [input], Apply(s, input), Rename(A, Join(B, "x")));
  }
}
