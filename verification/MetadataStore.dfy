/** The metadata store's execution of actions through a buffered context (src/fs/metadata_store.cc), against
    what Metadata.dfy says an action does. */
module MetadataStore {
  import opened Collections
  import opened Numbers
  import opened Paths
  import opened Metadata
  import opened MetadataLaws

  const EMPTY := MetadataEntry(Permissions(0, 0, "777"), DATA, [], [])

  /** ExecutionContext: the records read up front, and the writes that are installed at the end. */
  class ExecutionContext {
    var known: Store
    var written: Store
    var deletions: set<Path>
    var aborted: bool
    const writer: bool

    /** The constructor that performs all reads. */
    constructor (store: Store, readSet: seq<Path>, writeSet: seq<Path>)
      ensures known == Restrict(store, ToSet(readSet)) && Untouched()
      ensures writer <==> writeSet != []
    {
      written, deletions, aborted, writer := map[], {}, false, |writeSet| > 0;
      known := map[];
      new;
      for i := 0 to |readSet|
        invariant known == Restrict(store, ToSet(readSet[..i]))
        invariant Untouched()
      {
        assert ToSet(readSet[..i + 1]) == ToSet(readSet[..i]) + {readSet[i]};
        if readSet[i] in store {
          known := known[readSet[i] := store[readSet[i]]];
        }
      }
      assert readSet[..|readSet|] == readSet;
    }

    /** Nothing written yet. */
    ghost predicate Untouched()
      reads this
    {
      written == map[] && deletions == {} && !aborted
    }

    /** The context holds exactly this change. */
    ghost predicate Holds(c: Change)
      reads this
    {
      written == c.puts && deletions == c.dels && !aborted
    }

    /** GetEntry. */
    method GetEntry(path: Path) returns (found: bool, entry: MetadataEntry)
      ensures found <==> path in known
      ensures found ==> entry == known[path]
    {
      if path in known {
        return true, known[path];
      }
      return false, EMPTY;
    }

    /** PutEntry: a record that was not read does not become readable. */
    method PutEntry(path: Path, entry: MetadataEntry)
      modifies this
      ensures deletions == old(deletions) - {path} && written == old(written)[path := entry] && aborted == old(aborted)
      ensures known == if path in old(known) then old(known)[path := entry] else old(known)
    {
      deletions := deletions - {path};
      written := written[path := entry];
      if path in known {
        known := known[path := entry];
      }
    }

    /** DeleteEntry. */
    method DeleteEntry(path: Path)
      modifies this
      ensures known == old(known) - {path} && written == old(written) - {path} && deletions == old(deletions) + {path}
      ensures aborted == old(aborted)
    {
      known := known - {path};
      written := written - {path};
      deletions := deletions + {path};
    }

    /** The destructor, which installs all writes and then all deletions, each in whatever order. */
    method Finish(store: Store) returns (s: Store)
      ensures s == if aborted then store else (store + written) - deletions
    {
      s := store;
      if !aborted {
        s := PutAll(s, written);
        s := DeleteAll(s, deletions);
      }
    }
  }

  method PutAll(store: Store, puts: Store) returns (s: Store)
    ensures s == store + puts
  {
    hide PutBut;
    PutEnds(store, puts);
    s := store;
    var todo := puts.Keys;
    while todo != {}
      invariant todo <= puts.Keys && s == PutBut(store, puts, todo)
      decreases |todo|
    {
      var p :| p in todo;
      PutOneMore(store, puts, todo, p);
      s := s[p := puts[p]];
      todo := todo - {p};
    }
  }

  /** The store with all the puts but those to do. */
  function PutBut(store: Store, puts: Store, todo: set<Path>): Store {
    store + (puts - todo)
  }

  lemma PutEnds(store: Store, puts: Store)
    ensures PutBut(store, puts, puts.Keys) == store && PutBut(store, puts, {}) == store + puts
  {
    assert puts - puts.Keys == map[] && puts - {} == puts;
  }

  lemma PutOneMore(store: Store, puts: Store, todo: set<Path>, p: Path)
    requires p in todo && todo <= puts.Keys
    ensures PutBut(store, puts, todo)[p := puts[p]] == PutBut(store, puts, todo - {p})
  {
    assert puts - (todo - {p}) == (puts - todo)[p := puts[p]];
  }

  method DeleteAll(store: Store, dels: set<Path>) returns (s: Store)
    ensures s == store - dels
  {
    s := store;
    var todo := dels;
    while todo != {}
      invariant todo <= dels && s == store - (dels - todo)
      decreases |todo|
    {
      var p :| p in todo;
      assert dels - (todo - {p}) == (dels - todo) + {p};
      s := s - {p};
      todo := todo - {p};
    }
    assert dels - {} == dels;
  }

  /** The loops that look for a name in a directory. */
  method FindName(names: seq<string>, name: string) returns (i: nat)
    ensures i <= |names| && (i < |names| <==> name in names)
    ensures i < |names| ==> IndexOf(names, name) == Some(i)
  {
    i := 0;
    while i < |names|
      invariant i <= |names| && name !in names[..i]
    {
      if names[i] == name {
        FirstIndex(names, name, i);
        return;
      }
      i := i + 1;
    }
  }

  lemma {:induction false} FirstIndex(names: seq<string>, name: string, i: nat)
    requires i < |names| && names[i] == name && name !in names[..i]
    ensures IndexOf(names, name) == Some(i)
    decreases i
  {
    if i > 0 {
      assert names[..i][0] == names[0];
      assert names[1..][..i - 1] == names[..i][1..];
      FirstIndex(names[1..], name, i - 1);
    }
  }

  /** CreateFile_Internal. */
  method CreateFileInternal(context: ExecutionContext, path: Path, permissions: Permissions,
                            fileType: FileType) returns (out: Output)
    requires context.Untouched() && (path == "" || ParentDir(path).Some?)
    modifies context
    ensures context.Holds(CreateFileChange(old(context.known), path, permissions, fileType))
    ensures out == CreateFileChange(old(context.known), path, permissions, fileType).out
  {
    hide ParentDir, FileName;
    if path == "" {
      return Failed(PermissionDenied);
    }
    var parentPath := ParentDir(path).value;
    var found, parent := context.GetEntry(parentPath);
    if !found {
      return Failed(FileDoesNotExist);
    }
    var name := FileName(path);
    var i := FindName(parent.dirContents, name);
    if i < |parent.dirContents| {
      return Failed(FileAlreadyExists);
    }
    parent := parent.(dirContents := parent.dirContents + [name]);
    context.PutEntry(parentPath, parent);
    context.PutEntry(path, MetadataEntry(permissions, fileType, [], []));
    return OK;
  }

  /** Erase_Internal. */
  method EraseInternal(context: ExecutionContext, path: Path) returns (out: Output)
    requires context.Untouched() && (path == "" || ParentDir(path).Some?)
    modifies context
    ensures context.Holds(EraseChange(old(context.known), path))
    ensures out == EraseChange(old(context.known), path).out
  {
    hide ParentDir, FileName, IndexOf;
    if path == "" {
      return Failed(PermissionDenied);
    }
    var parentPath := ParentDir(path).value;
    var found, parent := context.GetEntry(parentPath);
    if !found {
      return Failed(FileDoesNotExist);
    }
    var here, entry := context.GetEntry(path);
    if !here {
      return Failed(FileDoesNotExist);
    }
    if entry.fileType == DIR && |entry.dirContents| != 0 {
      return Failed(DirectoryNotEmpty);
    }
    context.DeleteEntry(path);
    var i := FindName(parent.dirContents, FileName(path));
    if i < |parent.dirContents| {
      parent := parent.(dirContents := SwapRemove(parent.dirContents, i));
      context.PutEntry(parentPath, parent);
    }
    return OK;
  }

  /** Copy_Internal. */
  method CopyInternal(context: ExecutionContext, from: Path, to: Path) returns (out: Output)
    requires context.Untouched() && ParentDir(to).Some?
    modifies context
    ensures context.Holds(CopyChange(old(context.known), from, to))
    ensures out == CopyChange(old(context.known), from, to).out
  {
    hide ParentDir, FileName;
    var found, fromEntry := context.GetEntry(from);
    if !found {
      return Failed(FileDoesNotExist);
    }
    var parentPath := ParentDir(to).value;
    var foundParent, parent := context.GetEntry(parentPath);
    if !foundParent {
      return Failed(FileDoesNotExist);
    }
    var i := FindName(parent.dirContents, FileName(to));
    if i < |parent.dirContents| {
      return Failed(FileAlreadyExists);
    }
    parent := parent.(dirContents := parent.dirContents + [FileName(to)]);
    context.PutEntry(parentPath, parent);
    context.PutEntry(to, fromEntry);
    return OK;
  }

  /** Rename_Internal: both parents are read before either is written. */
  method RenameInternal(context: ExecutionContext, from: Path, to: Path) returns (out: Output)
    requires context.Untouched() && ParentDir(from).Some? && ParentDir(to).Some?
    modifies context
    ensures context.Holds(RenameChange(old(context.known), from, to))
    ensures out == RenameChange(old(context.known), from, to).out
  {
    hide ParentDir, FileName, IndexOf;
    var found, fromEntry := context.GetEntry(from);
    if !found {
      return Failed(FileDoesNotExist);
    }
    var sourcePath := ParentDir(from).value;
    var foundSource, source := context.GetEntry(sourcePath);
    if !foundSource {
      return Failed(FileDoesNotExist);
    }
    var targetPath := ParentDir(to).value;
    var foundTarget, target := context.GetEntry(targetPath);
    if !foundTarget {
      return Failed(FileDoesNotExist);
    }
    var i := FindName(target.dirContents, FileName(to));
    if i < |target.dirContents| {
      return Failed(FileAlreadyExists);
    }
    target := target.(dirContents := target.dirContents + [FileName(to)]);
    context.PutEntry(targetPath, target);
    context.PutEntry(to, fromEntry);
    var j := FindName(source.dirContents, FileName(from));
    if j < |source.dirContents| {
      source := source.(dirContents := SwapRemove(source.dirContents, j));
      context.PutEntry(sourcePath, source);
    }
    context.DeleteEntry(from);
    return OK;
  }

  /** Lookup_Internal. */
  method LookupInternal(context: ExecutionContext, path: Path) returns (out: Output)
    requires context.Untouched()
    modifies context
    ensures context.Holds(LookupChange(old(context.known), path))
    ensures out == LookupChange(old(context.known), path).out
  {
    var found, entry := context.GetEntry(path);
    if !found {
      return Failed(FileDoesNotExist);
    }
    return Found(entry);
  }

  /** The loop of Resize_Internal over the parts of its copy of the entry. */
  method TruncateParts(fileParts: seq<FilePart>, size: uint64) returns (parts: seq<FilePart>, total: uint64)
    requires size > 0
    ensures (parts, total) == Truncate(fileParts, 0, size)
  {
    hide Truncate;
    parts, total := fileParts, 0;
    assert fileParts[0..] == fileParts;
    assert fileParts[..0] + Truncate(fileParts, 0, size).0 == Truncate(fileParts, 0, size).0;
    var i := 0;
    while i < |parts|
      invariant i <= |parts| && parts == fileParts && total < size
      invariant Truncate(fileParts, 0, size).0 == parts[..i] + Truncate(parts[i..], total, size).0
      invariant Truncate(fileParts, 0, size).1 == Truncate(parts[i..], total, size).1
    {
      TruncateFrom(parts, i, total, size);
      total := (total + parts[i].length) % U64;
      if total >= size {
        parts := parts[..i + 1];
        parts := parts[i := parts[i].(length := parts[i].length - (total - size))];
        return;
      }
      i := i + 1;
    }
    TruncateNothing(total, size);
    assert parts[i..] == [] && parts[..i] + [] == parts;
  }

  lemma TruncateNothing(total: uint64, size: uint64)
    requires total < size
    ensures Truncate([], total, size) == ([], total)
  {}

  /** One round of the loop. */
  lemma TruncateFrom(parts: seq<FilePart>, i: nat, total: uint64, size: uint64)
    requires i < |parts| && total < size
    ensures var r, next := Truncate(parts[i..], total, size), (total + parts[i].length) % U64;
      if next >= size then
        var cut := parts[i].(length := parts[i].length - (next - size));
        parts[..i] + r.0 == parts[..i + 1][i := cut] && r.1 == next
      else
        var rest := Truncate(parts[i + 1..], next, size);
        parts[..i] + r.0 == parts[..i + 1] + rest.0 && r.1 == rest.1
  {
    var s, next := parts[i..], (total + parts[i].length) % U64;
    assert s[0] == parts[i] && s[1..] == parts[i + 1..];
    if next < size {
      var rest := Truncate(parts[i + 1..], next, size);
      assert parts[..i] + ([parts[i]] + rest.0) == parts[..i + 1] + rest.0;
    }
  }

  /** Resize_Internal: a resize to 0 clears its own copy of the parts and returns without writing it. */
  method ResizeInternal(context: ExecutionContext, path: Path, size: uint64) returns (out: Output)
    requires context.Untouched()
    modifies context
    ensures context.Holds(ResizeChange(old(context.known), path, size))
    ensures out == ResizeChange(old(context.known), path, size).out
  {
    var found, entry := context.GetEntry(path);
    if !found {
      return Failed(FileDoesNotExist);
    }
    if entry.fileType != DATA {
      return Failed(WrongFileType);
    }
    if size == 0 {
      entry := entry.(fileParts := []);
      return OK;
    }
    var parts, total := TruncateParts(entry.fileParts, size);
    if total < size {
      parts := parts + [FilePart(size - total, 0, 0)];
    }
    context.PutEntry(path, entry.(fileParts := parts));
    return OK;
  }

  /** Append_Internal. */
  method AppendInternal(context: ExecutionContext, path: Path, data: seq<FilePart>) returns (out: Output)
    requires context.Untouched()
    modifies context
    ensures context.Holds(AppendChange(old(context.known), path, data))
    ensures out == AppendChange(old(context.known), path, data).out
  {
    var found, entry := context.GetEntry(path);
    if !found {
      return Failed(FileDoesNotExist);
    }
    if entry.fileType != DATA {
      return Failed(WrongFileType);
    }
    var parts := entry.fileParts;
    for i := 0 to |data|
      invariant parts == entry.fileParts + data[..i]
    {
      parts := parts + [data[i]];
    }
    assert data[..|data|] == data;
    context.PutEntry(path, entry.(fileParts := parts));
    return OK;
  }

  class MetadataStore {
    var store: Store

    /** SetMachine on a single machine: the root directory exists from the start. */
    constructor ()
      ensures store == map["" := MetadataEntry(Permissions(0, 0, "777"), DIR, [], [])]
    {
      store := map["" := EMPTY.(fileType := DIR)];
    }

    /** Run with a local context. Though it works on a buffered copy of the readset, it changes the store and
        answers as the action does on the whole store; an action that writes nothing gets no answer. */
    method Run(input: Input) returns (out: Option<Output>)
      requires Runs(input)
      modifies this
      ensures store == Apply(old(store), input)
      ensures out == if input.Lookup? then None else Some(ChangeOf(old(store), input).out)
    {
      hide ChangeOf, ParentDir;
      var footprint := GetRWSets(input).value;
      var context := new ExecutionContext(store, footprint.readSet, footprint.writeSet);
      ViewSuffices(store, input);
      if !context.writer {
        LookupWritesNothing(store, input);
        store := context.Finish(store);
        return None;
      }
      var o := Execute(context, input);
      store := context.Finish(store);
      return Some(o);
    }
  }

  /** The dispatch in Run. */
  method Execute(context: ExecutionContext, input: Input) returns (out: Output)
    requires Runs(input) && context.Untouched()
    modifies context
    ensures context.Holds(ChangeOf(old(context.known), input)) && out == ChangeOf(old(context.known), input).out
  {
    hide ChangeOf, ParentDir, ResizedParts, CreateFileChange, EraseChange, CopyChange, RenameChange, LookupChange,
        ResizeChange, AppendChange;
    ChangeByKind(context.known, input);
    match input {
      case CreateFile(p, perm, t) => out := CreateFileInternal(context, p, perm, t);
      case Erase(p) => out := EraseInternal(context, p);
      case Copy(f, t) => out := CopyInternal(context, f, t);
      case Rename(f, t) => out := RenameInternal(context, f, t);
      case Lookup(p) => out := LookupInternal(context, p);
      case Resize(p, n) => out := ResizeInternal(context, p, n);
      case Append(p, d) => out := AppendInternal(context, p, d);
    }
  }

  /** The readset is all an action needs to see. */
  lemma ViewSuffices(s: Store, input: Input)
    requires Runs(input)
    ensures ChangeOf(Restrict(s, Reads(input)), input) == ChangeOf(s, input)
  {
    hide ChangeOf, ParentDir;
    var view := Restrict(s, Reads(input));
    assert Agree(s, view, Reads(input));
    ReadsOnlyReadSet(s, view, input);
  }

  lemma LookupWritesNothing(s: Store, input: Input)
    requires Runs(input) && GetRWSets(input).value.writeSet == []
    ensures input.Lookup? && Apply(s, input) == (s + map[]) - {}
  {
    hide ParentDir;
  }

  lemma ChangeByKind(m: Store, input: Input)
    requires Runs(input)
    ensures match input
      case CreateFile(p, perm, t) => ParentDir(p).Some? && ChangeOf(m, input) == CreateFileChange(m, p, perm, t)
      case Erase(p) => ParentDir(p).Some? && ChangeOf(m, input) == EraseChange(m, p)
      case Copy(f, t) => ParentDir(t).Some? && ChangeOf(m, input) == CopyChange(m, f, t)
      case Rename(f, t) => ParentDir(f).Some? && ParentDir(t).Some? && ChangeOf(m, input) == RenameChange(m, f, t)
      case Resize(p, n) => ChangeOf(m, input) == ResizeChange(m, p, n)
      case Append(p, d) => ChangeOf(m, input) == AppendChange(m, p, d)
      case Lookup(p) => ChangeOf(m, input) == LookupChange(m, p)
  {
    hide ParentDir, CreateFileChange, EraseChange, CopyChange, RenameChange, LookupChange, ResizeChange, AppendChange;
  }
}
