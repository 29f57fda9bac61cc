/** Path arithmetic of the metadata store (src/fs/metadata_store.cc, ParentDir and FileName). The root is
    the empty path; every other path is its parent, a slash and a name. */
module Paths {
  import opened Collections
  import opened Numbers

  type Path = string

  /** string::rfind: the last position of c, if any. */
  function Rfind(s: Path, c: char): (r: Option<nat>)
    ensures r.Some? ==> r.value < |s| && s[r.value] == c && forall i :: r.value < i < |s| ==> s[i] != c
    ensures r.None? ==> c !in s
  {
    if s == [] then None
    else if s[|s| - 1] == c then Some(|s| - 1)
    else Rfind(s[..|s| - 1], c)
  }

  /** Conversion to a 32-bit unsigned integer. */
  function ToU32(x: nat): (r: nat)
    ensures r < U32 && (x < U32 ==> r == x)
  {
    x % U32
  }

  /** The uint32 that receives rfind's result: npos, all ones in 64 bits, becomes all ones in 32. */
  function Offset(p: Path): nat {
    match Rfind(p, '/')
    case Some(i) => ToU32(i)
    case None => U32 - 1
  }

  /** Whether ParentDir and FileName get past their checks: the process dies on a path whose name is empty.
      The check for "no slash at all" compares the truncated offset with the 64-bit npos and never fails. */
  predicate Checked(p: Path) {
    p != "" && |p| - 1 != Offset(p)
  }

  /** ParentDir; None where the process dies. */
  function ParentDir(p: Path): Option<Path> {
    if !Checked(p) then None
    else Some(if Offset(p) < |p| then p[..Offset(p)] else p)
  }

  /** FileName, where ParentDir does not die; the position after the slash is a uint32 too. */
  function FileName(p: Path): Path {
    if p == "" then p
    else
      var from := ToU32(Offset(p) + 1);
      if from <= |p| then p[from..] else ""
  }

  /** The path of the file called name in directory dir. */
  function Join(dir: Path, name: string): Path {
    dir + "/" + name
  }

  /** A name that can be listed in a directory. */
  predicate IsName(name: string) {
    name != "" && '/' !in name
  }

  predicate Short(p: Path) {
    |p| < U32
  }

  lemma {:induction false} RfindJoin(dir: Path, name: string)
    requires '/' !in name
    ensures Rfind(Join(dir, name), '/') == Some(|dir|)
    decreases |name|
  {
    var p := Join(dir, name);
    if name == "" {
      assert p[|p| - 1] == '/';
    } else {
      assert p[|p| - 1] == name[|name| - 1] && name[|name| - 1] in name;
      assert p[..|p| - 1] == Join(dir, name[..|name| - 1]);
      RfindJoin(dir, name[..|name| - 1]);
    }
  }

  /** A joined path comes apart again. */
  lemma SplitJoin(dir: Path, name: string)
    requires IsName(name) && Short(Join(dir, name))
    ensures ParentDir(Join(dir, name)) == Some(dir) && FileName(Join(dir, name)) == name
  {
    RfindJoin(dir, name);
    var p := Join(dir, name);
    assert p[..|dir|] == dir && p[|dir| + 1..] == name;
  }

  /** Where the last slash is, both functions cut. */
  lemma Cut(p: Path, i: nat)
    requires Short(p) && Checked(p) && Rfind(p, '/') == Some(i)
    ensures i + 1 < |p| && ParentDir(p) == Some(p[..i]) && FileName(p) == p[i + 1..]
  {
    hide ToU32, Rfind;
    assert i + 1 < |p|;
  }

  lemma AfterSlash(p: Path, i: nat)
    requires Rfind(p, '/') == Some(i) && i + 1 < |p|
    ensures IsName(p[i + 1..]) && p == Join(p[..i], p[i + 1..])
  {
    hide Rfind;
    var name := p[i + 1..];
    forall c | c in name ensures c != '/' {
      var j :| 0 <= j < |name| && name[j] == c;
      assert p[i + 1 + j] == c;
    }
    CutAt(p, i);
  }

  lemma CutAt(p: Path, i: nat)
    requires i < |p| && p[i] == '/'
    ensures p == Join(p[..i], p[i + 1..])
  {}

  /** A path with a slash and a name is its parts joined. */
  lemma JoinSplit(p: Path)
    requires Short(p) && Checked(p) && '/' in p
    ensures IsName(FileName(p)) && ParentDir(p).Some? && p == Join(ParentDir(p).value, FileName(p))
    ensures |ParentDir(p).value| < |p|
  {
    var r := Rfind(p, '/');
    assert r.Some?;
    Cut(p, r.value);
    AfterSlash(p, r.value);
  }

  /** What the truncated check lets through: a path without a slash is its own parent and its own name. */
  lemma NoSlashIsOwnParent(p: Path)
    requires Short(p) && p != "" && '/' !in p
    ensures ParentDir(p) == Some(p) && FileName(p) == p
  {
    assert ToU32(U32) == 0;
    assert Rfind(p, '/').None?;
    assert p[0..] == p;
  }

  /** In the low-latency store ParentDir keeps all 64 bits, so that there the same path kills the process. */
  function ParentDir64(p: Path): Option<Path> {
    match Rfind(p, '/')
    case Some(i) => if i == |p| - 1 then None else Some(p[..i])
    case None => None
  }

  /** The two stores agree on exactly the paths with a slash (of any length a uint32 can index). */
  lemma ParentDirsAgree(p: Path)
    requires Short(p)
    ensures ParentDir(p) == ParentDir64(p) <==> p == "" || '/' in p
  {
    if '/' in p { assert Rfind(p, '/').Some?; }
    if p != "" && '/' !in p { NoSlashIsOwnParent(p); }
  }
}
