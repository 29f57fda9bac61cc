/** What each action makes of the whole store, and what it answers: the records it may change, how, and when it fails
    (src/fs/metadata_store.cc). */
module MetadataEffects {
  import opened Collections
  import opened Numbers
  import opened Paths
  import opened Metadata
  import opened FileBytes

  /** The stores have the same records at all paths but these. */
  ghost predicate SameBut(s: Store, t: Store, ps: set<Path>) {
    forall p {:trigger p in s} {:trigger p in t} {:trigger s[p]} {:trigger t[p]} ::
      p !in ps ==> (p in t <==> p in s) && (p in s ==> t[p] == s[p])
  }

  /** The action answers with just this error and leaves the store as it was. */
  ghost predicate Refused(s: Store, input: Input, e: Error)
    requires Runs(input)
  {
    var out := ChangeOf(s, input).out;
    Apply(s, input) == s && !out.success && out.errors == [e] && out.entry == None
  }

  ghost predicate Accepted(s: Store, input: Input)
    requires Runs(input)
  {
    var out := ChangeOf(s, input).out;
    out.success && out.errors == [] && (input.Lookup? <==> out.entry.Some?)
  }

  // ---- What an action declares ----

  /** The paths that actions declare to read and to write, for paths with a directory and a name. */
  lemma Footprints(d: Path, n: string, d': Path, n': string, input: Input)
    requires IsName(n) && Short(Join(d, n)) && IsName(n') && Short(Join(d', n'))
    ensures var p, q := Join(d, n), Join(d', n');
      && ((input.CreateFile? || input.Erase?) && input.path == p ==>
            Runs(input) && Reads(input) == {p, d} && Writes(input) == {p, d})
      && (input == Copy(p, q) ==> Runs(input) && Reads(input) == {p, d'} && Writes(input) == {q, d'})
      && (input == Rename(p, q) ==> Runs(input) && Reads(input) == {p, d, d'} && Writes(input) == {p, d, q, d'})
    ensures input.Lookup? ==> Runs(input) && Reads(input) == {input.path} && Writes(input) == {}
    ensures input.Resize? || input.Append? ==>
        Runs(input) && Reads(input) == {input.path} && Writes(input) == {input.path}
  {
    SplitJoin(d, n);
    SplitJoin(d', n');
    hide ParentDir, FileName, IsName;
  }

  // ---- Files ----

  /** Appending reads as the old bytes followed by those of all the new parts, or fails as reading one of them does, and
      leaves all else as it was. */
  lemma AppendEffect(blocks: Blocks, s: Store, path: Path, data: seq<FilePart>)
    requires path in s && s[path].fileType == DATA
    ensures var input := Append(path, data);
      var t := Apply(s, input);
      && Accepted(s, input) && SameBut(s, t, {path}) && path in t
      && t[path] == s[path].(fileParts := t[path].fileParts)
      && Bytes(blocks, t[path].fileParts) == Then(Bytes(blocks, s[path].fileParts), Bytes(blocks, data))
      && Length(t[path].fileParts) == Length(s[path].fileParts) + Length(data)
  {
    BytesConcat(blocks, s[path].fileParts, data);
    LengthConcat(s[path].fileParts, data);
  }

  /** Resizing to a size other than 0 gives a file of that length if and only if the 64-bit total does not wrap, and
      leaves all else as it was. */
  lemma ResizeEffect(s: Store, path: Path, size: uint64)
    requires path in s && s[path].fileType == DATA && size > 0
    ensures var input := Resize(path, size);
      var t := Apply(s, input);
      && Accepted(s, input) && SameBut(s, t, {path}) && path in t
      && t[path] == s[path].(fileParts := t[path].fileParts)
      && (Length(t[path].fileParts) == size <==> Counts(s[path].fileParts, 0, size))
  {
    hide ResizedParts, Length, Counts;
    ResizedLength(s[path].fileParts, size);
  }

  /** Such a file reads as the old bytes cut off or filled up with zeros, if and only if the total does not wrap. */
  lemma ResizeReads(blocks: Blocks, s: Store, path: Path, size: uint64)
    requires path in s && s[path].fileType == DATA && size > 0 && Stored(blocks, s[path].fileParts)
    ensures var t := Apply(s, Resize(path, size));
      && path in t && Bytes(blocks, t[path].fileParts).Data?
      && (Content(blocks, t[path].fileParts) == CutOrFilled(Content(blocks, s[path].fileParts), size)
          <==> Counts(s[path].fileParts, 0, size))
  {
    hide ResizedParts, Stored, Bytes, Content, Counts, CutOrFilled;
    ResizeCutsOrFills(blocks, s[path].fileParts, size);
  }

  /** Appending and resizing fail exactly without a file to act on. */
  lemma FileAnswers(s: Store, input: Input)
    requires input.Append? || input.Resize?
    ensures if input.path !in s then Refused(s, input, FileDoesNotExist)
            else if s[input.path].fileType != DATA then Refused(s, input, WrongFileType) else Accepted(s, input)
  {
    hide ResizedParts;
  }

  /** A lookup returns the record, and changes nothing. */
  lemma LookupEffect(s: Store, path: Path)
    ensures var input := Lookup(path);
      if path in s then Accepted(s, input) && ChangeOf(s, input).out.entry == Some(s[path]) && Apply(s, input) == s
      else Refused(s, input, FileDoesNotExist)
  {}

  // ---- Directories ----

  /** The directory with the name listed once more, at the end. */
  ghost predicate Listed(was: MetadataEntry, now: MetadataEntry, name: string) {
    now == was.(dirContents := was.dirContents + [name])
  }

  /** The directory with one listing of the name fewer, if there was any: the last name has taken the place of the
      first listing. */
  ghost predicate Unlisted(was: MetadataEntry, now: MetadataEntry, name: string) {
    && now == was.(dirContents := now.dirContents)
    && multiset(now.dirContents) == multiset(was.dirContents) - multiset{name}
    && (name !in was.dirContents ==> now.dirContents == was.dirContents)
    && (name in was.dirContents ==> exists i :: MovedTo(was.dirContents, now.dirContents, name, i))
  }

  predicate MovedTo(was: seq<string>, now: seq<string>, name: string, i: nat) {
    && |now| + 1 == |was| && i <= |now| && was[i] == name && name !in was[..i]
    && forall k :: 0 <= k < |now| ==> now[k] == if k == i then was[|now|] else was[k]
  }

  lemma DroppingUnlists(dir: MetadataEntry, name: string)
    ensures Unlisted(dir, Dropping(dir, name), name)
  {
    match IndexOf(dir.dirContents, name)
    case None => assert name !in multiset(dir.dirContents);
    case Some(i) =>
      SwapRemoveTakes(dir.dirContents, i);
      assert MovedTo(dir.dirContents, Dropping(dir, name).dirContents, name, i);
  }

  lemma SwapRemoveTakes(names: seq<string>, i: nat)
    requires i < |names|
    ensures multiset(SwapRemove(names, i)) == multiset(names) - multiset{names[i]}
  {
    var n := |names| - 1;
    var r, last := SwapRemove(names, i), names[n];
    if i == n {
      assert names == r + [last];
    } else {
      var before, after := names[..i], names[i + 1..n];
      assert names == before + [names[i]] + after + [last];
      assert r == before + [last] + after;
      hide SwapRemove;
      Reordered(before, names[i], after, last);
    }
  }

  lemma Reordered(a: seq<string>, x: string, b: seq<string>, y: string)
    ensures multiset(a + [y] + b) == multiset(a + [x] + b + [y]) - multiset{x}
  {}

  /** Creating: a new record with the permissions and type asked for and nothing in it, listed in its directory. */
  lemma CreateFileEffect(s: Store, path: Path, permissions: Permissions, fileType: FileType)
    requires Runs(CreateFile(path, permissions, fileType))
    ensures var input, dir, name := CreateFile(path, permissions, fileType), ParentDir(path).value, FileName(path);
      if path == "" then Refused(s, input, PermissionDenied)
      else if dir !in s then Refused(s, input, FileDoesNotExist)
      else if name in s[dir].dirContents then Refused(s, input, FileAlreadyExists)
      else
        var t := Apply(s, input);
        && Accepted(s, input) && SameBut(s, t, {path, dir}) && path in t && dir in t
        && t[path].permissions == permissions && t[path].fileType == fileType
        && t[path].fileParts == [] && t[path].dirContents == []
        && (dir != path ==> Listed(s[dir], t[dir], name))
  {
    hide ParentDir, FileName;
  }

  /** Erasing: the record is gone, and one listing of its name in its directory. */
  lemma EraseEffect(s: Store, path: Path)
    requires Runs(Erase(path))
    ensures var input, dir, name := Erase(path), ParentDir(path).value, FileName(path);
      if path == "" then Refused(s, input, PermissionDenied)
      else if dir !in s || path !in s then Refused(s, input, FileDoesNotExist)
      else if s[path].fileType == DIR && s[path].dirContents != [] then Refused(s, input, DirectoryNotEmpty)
      else
        var t := Apply(s, input);
        && Accepted(s, input) && SameBut(s, t, {path, dir})
        && (dir != path ==> path !in t && dir in t && Unlisted(s[dir], t[dir], name))
        && (dir == path && name !in s[dir].dirContents ==> path !in t)
  {
    hide ParentDir, FileName, IndexOf, Dropping, Unlisted;
    if ParentDir(path).value in s {
      var dir := s[ParentDir(path).value];
      DroppingUnlists(dir, FileName(path));
      NotListed(dir, FileName(path));
    }
  }

  lemma NotListed(dir: MetadataEntry, name: string)
    ensures name !in dir.dirContents ==> Unlisted(dir, dir, name)
  {
    if name !in dir.dirContents { assert name !in multiset(dir.dirContents); }
  }

  /** Copying: the other path gets the same record, and is listed in its directory. */
  lemma CopyEffect(s: Store, from: Path, to: Path)
    requires Runs(Copy(from, to))
    ensures var input, dir, name := Copy(from, to), ParentDir(to).value, FileName(to);
      if from !in s || dir !in s then Refused(s, input, FileDoesNotExist)
      else if name in s[dir].dirContents then Refused(s, input, FileAlreadyExists)
      else
        var t := Apply(s, input);
        && Accepted(s, input) && SameBut(s, t, {to, dir}) && to in t && t[to] == s[from]
        && (dir != to ==> dir in t && Listed(s[dir], t[dir], name))
  {
    hide ParentDir, FileName;
  }

  /** Renaming: the record moves, its name goes from the one directory to the other; in one and the same directory
      that lists the old name, the new name is not listed. */
  lemma RenameEffect(s: Store, from: Path, to: Path)
    requires Runs(Rename(from, to))
    ensures var input := Rename(from, to);
      var source, target := ParentDir(from).value, ParentDir(to).value;
      if from !in s || source !in s || target !in s then Refused(s, input, FileDoesNotExist)
      else if FileName(to) in s[target].dirContents then Refused(s, input, FileAlreadyExists)
      else
        var t := Apply(s, input);
        && Accepted(s, input) && SameBut(s, t, {from, to, source, target}) && from !in t
        && (to !in {from, source} ==> to in t && t[to] == s[from])
        && (source !in {from, to, target} ==> source in t && Unlisted(s[source], t[source], FileName(from)))
        && (target !in {from, to, source} ==> target in t && Listed(s[target], t[target], FileName(to)))
        && (source == target && source !in {from, to} ==>
              && source in t
              && if FileName(from) in s[source].dirContents then Unlisted(s[source], t[source], FileName(from))
                 else Listed(s[source], t[source], FileName(to)))
  {
    hide ParentDir, FileName, IndexOf, Dropping, Unlisted;
    if ParentDir(from).value in s {
      var dir := s[ParentDir(from).value];
      DroppingUnlists(dir, FileName(from));
      NotListed(dir, FileName(from));
    }
  }
}
