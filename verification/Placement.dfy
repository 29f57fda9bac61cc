/** Which machine has what: the replicated layout of shards, and the replica that masters a directory tree
    (src_lowlatency/fs/calvinfs.cc). */
module Placement {
  import opened Collections
  import opened Numbers
  import opened Paths
  import opened Metadata
  import opened ActionLog
  import opened LowLatency

  // ---- Layout ----

  datatype ReplicaParticipant = ReplicaParticipant(machine: nat, replica: nat)
  datatype MapEntry = MapEntry(id: nat, replica: nat, machine: nat)
  datatype Config = Config(shards: nat, replication: nat, replicas: seq<ReplicaParticipant>, bluckets: seq<MapEntry>,
      metadataShards: seq<MapEntry>)

  /** Entry m of the layout of n shards: shard m % n of replica m / n, on machine m. */
  predicate IsLayout(c: Config, n: nat, m: nat)
    requires n > 0
  {
    && |c.replicas| == |c.bluckets| == |c.metadataShards| == m
    && (forall i {:trigger c.replicas[i]} :: 0 <= i < m ==> c.replicas[i] == ReplicaParticipant(i, i / n))
    && (forall i {:trigger c.bluckets[i]} :: 0 <= i < m ==> c.bluckets[i] == MapEntry(i % n, i / n, i))
    && (forall i {:trigger c.metadataShards[i]} :: 0 <= i < m ==> c.metadataShards[i] == MapEntry(i % n, i / n, i))
  }

  method MakeCalvinFSConfig(n: nat, r: nat) returns (c: Config)
    requires n > 0
    ensures c.shards == n && c.replication == r && IsLayout(c, n, r * n)
  {
    c := Config(n, r, [], [], []);
    for i := 0 to r
      invariant c.shards == n && c.replication == r && IsLayout(c, n, i * n)
    {
      for j := 0 to n
        invariant c.shards == n && c.replication == r && IsLayout(c, n, i * n + j)
      {
        c := AddEntry(c, n, i, j);
      }
    }
  }

  /** One machine of the layout. */
  method AddEntry(c: Config, n: nat, i: nat, j: nat) returns (d: Config)
    requires j < n && IsLayout(c, n, i * n + j)
    ensures IsLayout(d, n, i * n + j + 1) && d.shards == c.shards && d.replication == c.replication
  {
    var m := i * n + j;
    QuotientRemainder(i, n, j);
    d := c.(replicas := c.replicas + [ReplicaParticipant(m, i)],
            bluckets := c.bluckets + [MapEntry(j, i, m)],
            metadataShards := c.metadataShards + [MapEntry(j, i, m)]);
  }

  lemma QuotientRemainder(i: nat, n: nat, j: nat)
    requires j < n
    ensures (i * n + j) / n == i && (i * n + j) % n == j
  {
    DivideBack(i, n, j);
    SmallMod(j, n);
    var m := i * n + j;
    assert m == n * (m / n) + m % n;
  }

  class CalvinFSConfigMap {
    var replicas: map<nat, nat>
    var bluckets: map<(nat, nat), nat>
    var metadataShards: map<(nat, nat), nat>

    constructor (c: Config, ghost n: nat, ghost m: nat)
      requires n > 0 && IsLayout(c, n, m)
      ensures replicas == map i | 0 <= i < m :: i / n
      ensures forall i :: 0 <= i < m ==> (i % n, i / n) in bluckets && bluckets[(i % n, i / n)] == i
      ensures forall i :: 0 <= i < m ==> (i % n, i / n) in metadataShards && metadataShards[(i % n, i / n)] == i
      ensures forall k :: k in bluckets ==> exists i :: 0 <= i < m && k == (i % n, i / n)
      ensures forall k :: k in metadataShards ==> exists i :: 0 <= i < m && k == (i % n, i / n)
    {
      replicas, bluckets, metadataShards := map[], map[], map[];
      new;
      for i := 0 to |c.replicas|
        invariant replicas == map k | 0 <= k < i :: k / n
      {
        replicas := replicas[c.replicas[i].machine := c.replicas[i].replica];
      }
      bluckets := ByShardAndReplica(c.bluckets, n);
      metadataShards := ByShardAndReplica(c.metadataShards, n);
    }
  }

  /** The loops over bluckets and shards. */
  method ByShardAndReplica(entries: seq<MapEntry>, ghost n: nat) returns (machines: map<(nat, nat), nat>)
    requires n > 0
    requires forall i {:trigger entries[i]} :: 0 <= i < |entries| ==> entries[i] == MapEntry(i % n, i / n, i)
    ensures forall i :: 0 <= i < |entries| ==> (i % n, i / n) in machines && machines[(i % n, i / n)] == i
    ensures forall k :: k in machines ==> exists i :: 0 <= i < |entries| && k == (i % n, i / n)
  {
    machines := map[];
    for i := 0 to |entries|
      invariant forall k :: 0 <= k < i ==> (k % n, k / n) in machines && machines[(k % n, k / n)] == k
      invariant forall k :: k in machines ==> exists j :: 0 <= j < i && k == (j % n, j / n)
    {
      forall k | 0 <= k < i ensures (k % n, k / n) != (i % n, i / n) { DifferentCells(k, i, n); }
      machines := machines[(entries[i].id, entries[i].replica) := entries[i].machine];
    }
  }

  lemma DifferentCells(a: nat, b: nat, n: nat)
    requires n > 0 && a != b
    ensures (a % n, a / n) != (b % n, b / n)
  {
    assert a == n * (a / n) + a % n;
    assert b == n * (b / n) + b % n;
  }

  // ---- Mastering ----

  /** string::find: the first position of c from i on, if any. */
  function Find(s: Path, c: char, i: nat): (r: Option<nat>)
    requires i <= |s|
    ensures r.Some? ==> i <= r.value < |s| && s[r.value] == c && forall j :: i <= j < r.value ==> s[j] != c
    ensures r.None? ==> forall j :: i <= j < |s| ==> s[j] != c
    decreases |s| - i
  {
    if i == |s| then None else if s[i] == c then Some(i) else Find(s, c, i + 1)
  }

  function TopDir(path: Path): Path {
    if path == "" then path
    else match Find(path, '/', 1)
      case None => path
      case Some(i) => path[..i]
  }

  /** What is below a path other than the root has the same top directory. */
  lemma TopDirOfChild(dir: Path, name: string)
    requires dir != ""
    ensures TopDir(Join(dir, name)) == TopDir(dir)
  {
    var p := Join(dir, name);
    match Find(dir, '/', 1)
    case Some(i) =>
      assert p[i] == '/' && forall j :: 1 <= j < i ==> p[j] == dir[j];
      FirstIs(p, 1, i);
      assert p[..i] == dir[..i];
    case None =>
      assert p[|dir|] == '/' && forall j :: 1 <= j < |dir| ==> p[j] == dir[j];
      FirstIs(p, 1, |dir|);
      assert p[..|dir|] == dir;
  }

  lemma FirstIs(p: Path, from: nat, i: nat)
    requires from <= i < |p| && p[i] == '/' && forall j :: from <= j < i ==> p[j] != '/'
    ensures Find(p, '/', from) == Some(i)
  {}

  function Digits(s: string): (r: Option<nat>) {
    if s == "" then None
    else if !('0' <= s[|s| - 1] <= '9') then None
    else
      var d := (s[|s| - 1] - '0') as nat;
      if |s| == 1 then Some(d)
      else if s[0] == '0' then None
      else match Digits(s[..|s| - 1])
        case None => None
        case Some(n) => Some(10 * n + d)
  }

  /** A number written as the code would write it; None where the process dies. */
  function StringToInt(s: string): (r: Option<int>) {
    if s != "" && s[0] == '-' then
      match Digits(s[1..])
      case Some(n) => if 0 < n <= 0x8000_0000 then (var negative: int := -(n as int); Some(negative)) else None
      case None => None
    else
      match Digits(s)
      case Some(n) => if n < 0x8000_0000 then Some(n) else None
      case None => None
  }

  /** The replica that masters a path: the root belongs to replica 0, any other path to the replica that its top
      directory's number names; None where the process dies. */
  function LookupReplicaByDir(path: Path, shards: nat): (r: Option<nat>)
    requires shards > 0
  {
    var top := TopDir(path);
    if top == "" then Some(0)
    else if |top| < 2 then None
    else match StringToInt(top[2..])
      case None => None
      case Some(n) => Some(Quotient(n % U32, shards))
  }

  function Quotient(a: nat, b: nat): nat
    requires b > 0
  {
    a / b
  }

  // ---- Which replica that is ----

  predicate IsDigit(c: char) {
    '0' <= c <= '9'
  }

  /** What decimal digits stand for. */
  function Value(digits: string): nat
    requires forall i :: 0 <= i < |digits| ==> IsDigit(digits[i])
  {
    if digits == "" then 0
    else
      assert IsDigit(digits[|digits| - 1]);
      10 * Value(digits[..|digits| - 1]) + (digits[|digits| - 1] - '0') as nat
  }

  /** The decimal digits of n, without a leading zero. */
  predicate IsNumeral(s: string, n: nat) {
    s != "" && (forall i :: 0 <= i < |s| ==> IsDigit(s[i])) && (s[0] == '0' ==> s == "0") && Value(s) == n
  }

  /** What IntToString makes of a 32-bit integer. */
  predicate IsIntString(s: string, x: int) {
    if x < 0 then |s| > 0 && s[0] == '-' && IsNumeral(s[1..], -x) else IsNumeral(s, x)
  }

  /** The digits that are read are exactly the numerals. */
  lemma {:induction false} DigitsIff(s: string, n: nat)
    ensures Digits(s) == Some(n) <==> IsNumeral(s, n)
    decreases |s|
  {
    if |s| == 1 {
      assert s[..0] == "";
      if IsDigit(s[0]) { OneDigit(s); }
    } else if |s| > 1 {
      var init := s[..|s| - 1];
      assert init[0] == s[0];
      assert forall i :: 0 <= i < |init| ==> init[i] == s[i];
      if Digits(init).Some? { DigitsIff(init, Digits(init).value); }
      if IsNumeral(s, n) {
        DigitsIff(init, Value(init));
      }
    }
  }

  lemma OneDigit(s: string)
    requires |s| == 1 && IsDigit(s[0])
    ensures Value(s) == (s[0] - '0') as nat && (s[0] == '0' ==> s == "0")
  {
    assert s[..0] == "";
    assert Value(s) == 10 * Value(s[..0]) + (s[0] - '0') as nat;
  }

  /** StringToInt gives x exactly for the string that IntToString gives for the 32-bit x; on others the process dies. */
  lemma StringToIntIff(s: string, x: int)
    ensures StringToInt(s) == Some(x) <==> IsIntString(s, x) && -0x8000_0000 <= x < 0x8000_0000
  {
    hide Digits, Value;
    if s != "" && s[0] == '-' {
      if x < 0 { DigitsIff(s[1..], -x); }
      if Digits(s[1..]).Some? { DigitsIff(s[1..], Digits(s[1..]).value); }
    } else {
      if x >= 0 { DigitsIff(s, x); }
      if Digits(s).Some? { DigitsIff(s, Digits(s).value); }
    }
  }

  /** Whether path is top or something below it. */
  predicate IsUnder(path: Path, top: Path) {
    top <= path && (path == top || path[|top|] == '/')
  }

  /** The top directory of a path other than the root: the path up to the second slash. */
  lemma TopDirIff(path: Path, top: Path)
    requires path != ""
    ensures TopDir(path) == top <==> IsUnder(path, top) && top != "" && forall i :: 1 <= i < |top| ==> top[i] != '/'
  {
    var r := Find(path, '/', 1);
    var end := if r.Some? then r.value else |path|;
    assert TopDir(path) == path[..end];
    if IsUnder(path, top) && top != "" && forall i :: 1 <= i < |top| ==> top[i] != '/' {
      assert top == path[..|top|];
      assert forall i :: 0 <= i < |top| ==> path[i] == top[i];
      if |top| < |path| { FirstIs(path, 1, |top|); }
    }
  }

  lemma QuotientIs(x: nat, n: nat, r: nat)
    requires n > 0
    ensures Quotient(x, n) == r <==> r * n <= x < (r + 1) * n
  {
    var q := x / n;
    assert x == q * n + x % n;
    assert (q + 1) * n == q * n + n && (r + 1) * n == r * n + n;
    if q < r { Ordered(q + 1, r, n); }
    if r < q { Ordered(r + 1, q, n); }
  }

  lemma Ordered(a: nat, b: nat, n: nat)
    requires a <= b
    ensures a * n <= b * n
  {}

  /** The root is mastered by replica 0, and another path by replica r exactly if behind the first two characters of
      its top directory there is the decimal form of a 32-bit integer x, which as an unsigned number lies among those
      of r: the numbers from r * shards up to (r + 1) * shards. For all other paths the process dies. */
  lemma MasterIff(path: Path, shards: nat, r: nat)
    requires shards > 0
    ensures path == "" ==> LookupReplicaByDir(path, shards) == Some(0)
    ensures path != "" ==> (LookupReplicaByDir(path, shards) == Some(r) <==>
      exists top, x: int {:trigger IsUnder(path, top), IsIntString(top[2..], x)} ::
        && |top| >= 2 && IsUnder(path, top) && (forall i :: 1 <= i < |top| ==> top[i] != '/')
        && IsIntString(top[2..], x) && -0x8000_0000 <= x < 0x8000_0000
        && r * shards <= (if x < 0 then x + U32 else x) < (r + 1) * shards)
  {
    if path == "" {
      return;
    }
    hide StringToInt, TopDir, IsIntString, Quotient;
    var top := TopDir(path);
    TopDirIff(path, top);
    if |top| >= 2 {
      var n := StringToInt(top[2..]);
      if n.Some? {
        StringToIntIff(top[2..], n.value);
        Unsigned(n.value);
        QuotientIs(n.value % U32, shards, r);
      }
    }
    forall t, x: int {:trigger IsUnder(path, t), IsIntString(t[2..], x)} |
      && |t| >= 2 && IsUnder(path, t) && (forall i :: 1 <= i < |t| ==> t[i] != '/')
      && IsIntString(t[2..], x) && -0x8000_0000 <= x < 0x8000_0000
      && r * shards <= (if x < 0 then x + U32 else x) < (r + 1) * shards
      ensures LookupReplicaByDir(path, shards) == Some(r)
    {
      TopDirIff(path, t);
      StringToIntIff(t[2..], x);
      Unsigned(x);
      QuotientIs(x % U32, shards, r);
    }
  }

  lemma Unsigned(x: int)
    requires -0x8000_0000 <= x < 0x8000_0000
    ensures x % U32 == if x < 0 then x + U32 else x
  {}

  /** The paths that clients use, below a directory of a slash, a letter and the decimal digits of a machine, are
      mastered by the replica that the layout gives that machine. */
  lemma MasteredByItsMachine(c: Config, machines: nat, shards: nat, m: nat, letter: char, digits: string, path: Path)
    requires shards > 0 && IsLayout(c, shards, machines) && m < machines && m < 0x8000_0000
    requires letter != '/' && IsNumeral(digits, m) && IsUnder(path, ['/', letter] + digits)
    ensures LookupReplicaByDir(path, shards) == Some(c.replicas[m].replica) && c.replicas[m].machine == m
    ensures var r := c.replicas[m].replica; r * shards <= m < (r + 1) * shards
  {
    hide Value, LookupReplicaByDir, IsIntString;
    var top, r := ['/', letter] + digits, c.replicas[m].replica;
    assert top[2..] == digits;
    assert IsIntString(digits, m) by { IntStringOf(digits, m); }
    QuotientIs(m, shards, r);
    NoSlash(top);
    assert IsUnder(path, top) && IsIntString(top[2..], m);
    MasterIff(path, shards, r);
  }

  lemma IntStringOf(s: string, n: nat)
    requires IsNumeral(s, n)
    ensures IsIntString(s, n)
  {}

  lemma NoSlash(top: Path)
    requires |top| >= 2 && top[1] != '/' && forall i :: 0 <= i < |top[2..]| ==> IsDigit(top[2..][i])
    ensures forall i :: 1 <= i < |top| ==> top[i] != '/'
  {
    forall i | 1 <= i < |top| ensures top[i] != '/' {
      if i >= 2 { assert top[2..][i - 2] == top[i] && IsDigit(top[2..][i - 2]); }
    }
  }

  // ---- Whom an action involves ----

  /** A file is mastered where its directory is, unless the directory is the root. */
  lemma ChildMasteredWithParent(dir: Path, name: string, shards: nat)
    requires dir != "" && shards > 0
    ensures LookupReplicaByDir(Join(dir, name), shards) == LookupReplicaByDir(dir, shards)
  {
    TopDirOfChild(dir, name);
  }

  ghost predicate MasteredByDir(owner: Owner, shards: nat) {
    && shards > 0
    && forall p {:trigger owner(p)} ::
        LookupReplicaByDir(p, shards).Some? ==> owner(p).origin == LookupReplicaByDir(p, shards).value
  }

  /** Creating or erasing a file below a directory that is not the root involves one replica only. */
  lemma OneReplicaBelowTop(owner: Owner, shards: nat, a: Action, dir: Path, name: string)
    requires MasteredByDir(owner, shards) && LookupReplicaByDir(dir, shards).Some?
    requires Declares(a) && (a.input.CreateFile? || a.input.Erase?) && a.input.path == Join(dir, name)
    requires dir != "" && IsName(name) && Short(Join(dir, name))
    ensures Masters(owner, a) == {owner(dir).origin}
  {
    hide LookupReplicaByDir;
    SplitJoin(dir, name);
    ChildMasteredWithParent(dir, name, shards);
    var p := Join(dir, name);
    assert owner(p).origin == owner(dir).origin;
    assert a.readset == [p, dir] && a.writeset == [p, dir];
    assert owner(a.writeset[0]).origin in Masters(owner, a);
  }

  /** Renaming between such directories involves just the replicas of the two directories, so it crosses replicas
      exactly when they differ. */
  lemma RenameInvolves(owner: Owner, shards: nat, a: Action, from: Path, to: Path, name: string, newName: string)
    requires MasteredByDir(owner, shards) && LookupReplicaByDir(from, shards).Some?
    requires LookupReplicaByDir(to, shards).Some?
    requires Declares(a) && a.input == Rename(Join(from, name), Join(to, newName))
    requires from != "" && IsName(name) && Short(Join(from, name)) && to != "" && IsName(newName)
    requires Short(Join(to, newName))
    ensures Masters(owner, a) == {owner(from).origin, owner(to).origin}
    ensures |Masters(owner, a)| == 1 <==> owner(from).origin == owner(to).origin
  {
    hide LookupReplicaByDir;
    SplitJoin(from, name);
    SplitJoin(to, newName);
    ChildMasteredWithParent(from, name, shards);
    ChildMasteredWithParent(to, newName, shards);
    var p, q := Join(from, name), Join(to, newName);
    assert owner(p).origin == owner(from).origin && owner(q).origin == owner(to).origin;
    assert a.readset == [p, from, to] && a.writeset == [p, from, q, to];
    assert owner(a.writeset[1]).origin in Masters(owner, a) && owner(a.writeset[3]).origin in Masters(owner, a);
    if owner(from).origin != owner(to).origin { assert |{owner(from).origin, owner(to).origin}| == 2; }
  }
}
