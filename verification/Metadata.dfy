/** Metadata entries, actions on them and what each action does to a store (src/fs/metadata.proto and the
    *_Internal methods of src/fs/metadata_store.cc). */
module Metadata {
  import opened Collections
  import opened Numbers
  import opened Paths

  datatype FileType = DATA | DIR
  datatype Permissions = Permissions(owner: uint64, group: uint64, mode: string)
  datatype FilePart = FilePart(length: uint64, blockId: uint64, blockOffset: uint64)
  datatype MetadataEntry = MetadataEntry(permissions: Permissions, fileType: FileType, fileParts: seq<FilePart>,
      dirContents: seq<string>)

  datatype Error = FileDoesNotExist | FileAlreadyExists | WrongFileType | DirectoryNotEmpty | PermissionDenied

  /** An answer; the entry is what a Lookup returns. */
  datatype Output = Output(success: bool, errors: seq<Error>, entry: Option<MetadataEntry>)

  const OK := Output(true, [], None)

  function Failed(e: Error): Output {
    Output(false, [e], None)
  }

  function Found(entry: MetadataEntry): Output {
    Output(true, [], Some(entry))
  }

  datatype Input =
    | CreateFile(path: Path, permissions: Permissions, fileType: FileType)
    | Erase(path: Path)
    | Copy(from: Path, to: Path)
    | Rename(from: Path, to: Path)
    | Lookup(path: Path)
    | Resize(path: Path, size: uint64)
    | Append(path: Path, data: seq<FilePart>)

  type Store = map<Path, MetadataEntry>

  // ---- Footprints ----

  datatype Footprint = Footprint(readSet: seq<Path>, writeSet: seq<Path>)

  /** GetRWSets; None where ParentDir kills the process. */
  function GetRWSets(input: Input): Option<Footprint> {
    match input
    case CreateFile(p, _, _) => WithParent(p)
    case Erase(p) => WithParent(p)
    case Copy(f, t) =>
      if ParentDir(t).None? then None else Some(Footprint([f, ParentDir(t).value], [t, ParentDir(t).value]))
    case Rename(f, t) =>
      if ParentDir(f).None? || ParentDir(t).None? then None
      else Some(Footprint([f, ParentDir(f).value, ParentDir(t).value], [f, ParentDir(f).value, t, ParentDir(t).value]))
    case Lookup(p) => Some(Footprint([p], []))
    case Resize(p, _) => Some(Footprint([p], [p]))
    case Append(p, _) => Some(Footprint([p], [p]))
  }

  function WithParent(p: Path): Option<Footprint> {
    if ParentDir(p).None? then None else Some(Footprint([p, ParentDir(p).value], [p, ParentDir(p).value]))
  }

  predicate Runs(input: Input) {
    GetRWSets(input).Some?
  }

  function ToSet(ps: seq<Path>): set<Path> {
    set p | p in ps
  }

  function Reads(input: Input): set<Path>
    requires Runs(input)
  {
    ToSet(GetRWSets(input).value.readSet)
  }

  function Writes(input: Input): set<Path>
    requires Runs(input)
  {
    ToSet(GetRWSets(input).value.writeSet)
  }

  // ---- What an action does ----

  /** The records an action puts and deletes, and its answer. */
  datatype Change = Change(puts: Store, dels: set<Path>, out: Output)

  function Fail(e: Error): Change {
    Change(map[], {}, Failed(e))
  }

  function IndexOf(names: seq<string>, name: string): (r: Option<nat>)
    ensures r.Some? ==> r.value < |names| && names[r.value] == name && name !in names[..r.value]
    ensures r.None? ==> name !in names
  {
    if names == [] then None
    else if names[0] == name then Some(0)
    else
      var r := IndexOf(names[1..], name);
      if r.None? then None else Some(r.value + 1)
  }

  /** SwapElements with the last one, then RemoveLast. */
  function SwapRemove<T>(s: seq<T>, i: nat): (r: seq<T>)
    requires i < |s|
    ensures |r| == |s| - 1
  {
    s[i := s[|s| - 1]][..|s| - 1]
  }

  function Adding(dir: MetadataEntry, name: string): MetadataEntry {
    dir.(dirContents := dir.dirContents + [name])
  }

  /** The directory without the first listing of name, if it is listed. */
  function Dropping(dir: MetadataEntry, name: string): MetadataEntry {
    match IndexOf(dir.dirContents, name)
    case Some(i) => dir.(dirContents := SwapRemove(dir.dirContents, i))
    case None => dir
  }

  function CreateFileChange(m: Store, path: Path, permissions: Permissions, fileType: FileType): Change
    requires path == "" || ParentDir(path).Some?
  {
    if path == "" then Fail(PermissionDenied) else
    var parent := ParentDir(path).value;
    if parent !in m then Fail(FileDoesNotExist)
    else if FileName(path) in m[parent].dirContents then Fail(FileAlreadyExists)
    else Change(map[parent := Adding(m[parent], FileName(path))][path := MetadataEntry(permissions, fileType, [],
        [])], {}, OK)
  }

  function EraseChange(m: Store, path: Path): Change
    requires path == "" || ParentDir(path).Some?
  {
    if path == "" then Fail(PermissionDenied) else
    var parent := ParentDir(path).value;
    if parent !in m || path !in m then Fail(FileDoesNotExist)
    else if m[path].fileType == DIR && m[path].dirContents != [] then Fail(DirectoryNotEmpty)
    else if FileName(path) in m[parent].dirContents then
      Change(map[parent := Dropping(m[parent], FileName(path))], {path} - {parent}, OK)
    else Change(map[], {path}, OK)
  }

  function CopyChange(m: Store, from: Path, to: Path): Change
    requires ParentDir(to).Some?
  {
    var parent := ParentDir(to).value;
    if from !in m || parent !in m then Fail(FileDoesNotExist)
    else if FileName(to) in m[parent].dirContents then Fail(FileAlreadyExists)
    else Change(map[parent := Adding(m[parent], FileName(to))][to := m[from]], {}, OK)
  }

  function RenameChange(m: Store, from: Path, to: Path): Change
    requires ParentDir(from).Some? && ParentDir(to).Some?
  {
    var source, target := ParentDir(from).value, ParentDir(to).value;
    if from !in m || source !in m || target !in m then Fail(FileDoesNotExist)
    else if FileName(to) in m[target].dirContents then Fail(FileAlreadyExists)
    else
      var added := map[target := Adding(m[target], FileName(to))][to := m[from]];
      var dropped := if FileName(from) in m[source].dirContents then
          added[source := Dropping(m[source], FileName(from))] else added;
      Change(dropped - {from}, {from}, OK)
  }

  /** The loop of Resize_Internal from a part where the running total is below the size; the total is 64 bits. */
  function Truncate(parts: seq<FilePart>, total: uint64, size: uint64): (r: (seq<FilePart>, uint64))
    requires total < size
    decreases parts
  {
    if parts == [] then ([], total)
    else
      var next := (total + parts[0].length) % U64;
      if next >= size then ([parts[0].(length := parts[0].length - (next - size))], next)
      else
        var (rest, t) := Truncate(parts[1..], next, size);
        ([parts[0]] + rest, t)
  }

  /** The parts after a resize to a size other than 0: cut off where the size is reached, or filled up with
      a part of the all-zero block 0. */
  function ResizedParts(parts: seq<FilePart>, size: uint64): seq<FilePart>
    requires size > 0
  {
    var (kept, total) := Truncate(parts, 0, size);
    if total < size then kept + [FilePart(size - total, 0, 0)] else kept
  }

  function LookupChange(m: Store, path: Path): Change {
    if path in m then Change(map[], {}, Found(m[path])) else Fail(FileDoesNotExist)
  }

  function ResizeChange(m: Store, path: Path, size: uint64): Change {
    if path !in m then Fail(FileDoesNotExist)
    else if m[path].fileType != DATA then Fail(WrongFileType)
    else if size == 0 then Change(map[], {}, OK)
    else Change(map[path := m[path].(fileParts := ResizedParts(m[path].fileParts, size))], {}, OK)
  }

  function AppendChange(m: Store, path: Path, data: seq<FilePart>): Change {
    if path !in m then Fail(FileDoesNotExist)
    else if m[path].fileType != DATA then Fail(WrongFileType)
    else Change(map[path := m[path].(fileParts := m[path].fileParts + data)], {}, OK)
  }

  /** What an action does, given the records m it may look at. */
  function ChangeOf(m: Store, input: Input): Change
    requires Runs(input)
  {
    match input
    case CreateFile(p, perm, t) => CreateFileChange(m, p, perm, t)
    case Erase(p) => EraseChange(m, p)
    case Copy(f, t) => CopyChange(m, f, t)
    case Rename(f, t) => RenameChange(m, f, t)
    case Lookup(p) => LookupChange(m, p)
    case Resize(p, n) => ResizeChange(m, p, n)
    case Append(p, d) => AppendChange(m, p, d)
  }

  /** A store after a change. */
  function Install(s: Store, c: Change): Store {
    (s + c.puts) - c.dels
  }

  function Apply(s: Store, input: Input): Store
    requires Runs(input)
  {
    Install(s, ChangeOf(s, input))
  }

  function Restrict(s: Store, ps: set<Path>): Store {
    map p | p in s && p in ps :: s[p]
  }
}
