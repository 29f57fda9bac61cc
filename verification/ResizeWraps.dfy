/** A file whose running total of lengths wraps, reached by actions from the first store (src/fs/metadata_store.cc). */
module ResizeWraps {
  import opened Numbers
  import opened Paths
  import opened Metadata
  import opened MetadataLaws
  import opened FileBytes
  import opened BlockIds
  import opened Hazards

  const LAST: uint64 := U64 - 1
  const FILL := FilePart(U64 - 2, 0, 0)
  const PART := FilePart(4, IdOf(0, 1, FIRST_GUID, false), 0)
  const LOG: seq<Input> := [Create(A, DATA), Resize(A, U64 - 2), Append(A, [PART])]

  /** The store with the one file, which has these parts. */
  function Holding(parts: seq<FilePart>): Store {
    One(DATA)[A := One(DATA)[A].(fileParts := parts)]
  }

  /** One more action of a run. */
  lemma Further(log: seq<Input>, input: Input, t: Store)
    requires AllRun(log) && Runs(input) && Apply(RunLog(START, log).0, input) == t
    ensures AllRun(log + [input]) && RunLog(START, log + [input]).0 == t
  {
    hide Apply;
    RunOne(RunLog(START, log).0, input);
    RunLogConcat(START, log, [input]);
  }

  lemma LogReaches()
    ensures AllRun(LOG) && RunLog(START, LOG).0 == Holding([FILL, PART])
  {
    hide RunLog, AllRun, Namespace.IsTree;
    OneReached(DATA);
    var one := [Create(A, DATA)];
    assert ResizedParts([], U64 - 2) == [FILL];
    Further(one, Resize(A, U64 - 2), Holding([FILL]));
    assert [FILL] + [PART] == [FILL, PART];
    Further(one + [Resize(A, U64 - 2)], Append(A, [PART]), Holding([FILL, PART]));
    assert one + [Resize(A, U64 - 2)] + [Append(A, [PART])] == LOG;
  }

  /** Not even the first part reaches the size, and with the second the total wraps to 2. */
  lemma TotalWraps()
    ensures ResizedParts([FILL, PART], LAST) == [FILL, PART, FilePart(U64 - 3, 0, 0)]
    ensures !Counts([FILL, PART], 0, LAST)
  {
    hide IdOf;
    var parts := [FILL, PART];
    assert parts[1..] == [PART] && [PART][1..] == [];
    assert (U64 - 2 + 4) % U64 == 2;
    assert Truncate([PART][1..], 2, LAST) == ([], 2);
    assert [PART] + [] == [PART];
    assert Truncate(parts[1..], U64 - 2, LAST) == ([PART], 2);
    SmallMod(U64 - 2, U64);
    assert Truncate(parts, 0, LAST).0 == parts && Truncate(parts, 0, LAST).1 == 2;
  }

  /** A new file resized to 2^64 - 2, appended 4 bytes to and resized to 2^64 - 1 gets almost twice that length, and
      does not read as its old bytes filled up. */
  lemma ResizeTooLong(blocks: Blocks)
    requires PART.blockId in blocks && |blocks[PART.blockId]| == 4
    ensures AllRun(LOG) && Runs(Resize(A, LAST))
    ensures var s := RunLog(START, LOG).0;
      && A in s && ChangeOf(s, Resize(A, LAST)).out.success
      && var parts := s[A].fileParts;
         var parts' := Apply(s, Resize(A, LAST))[A].fileParts;
         && Stored(blocks, parts) && !Counts(parts, 0, LAST)
         && parts' == [FILL, PART, FilePart(U64 - 3, 0, 0)] && Length(parts') == 2 * LAST + 1
         && Content(blocks, parts') != CutOrFilled(Content(blocks, parts), LAST)
  {
    hide Content, CutOrFilled, RunLog, AllRun, IdOf, Counts, ResizedParts, Bytes;
    LogReaches();
    TotalWraps();
    var parts := [FILL, PART];
    ResizeCutsOrFills(blocks, parts, LAST);
    var parts' := [FILL, PART, FilePart(U64 - 3, 0, 0)];
    assert parts'[1..] == [PART, FilePart(U64 - 3, 0, 0)] && parts'[1..][1..] == [FilePart(U64 - 3, 0, 0)];
    assert Length(parts'[1..][1..]) == U64 - 3 by { assert parts'[1..][1..][1..] == []; }
    assert Length(parts'[1..]) == 4 + (U64 - 3);
    assert Apply(Holding(parts), Resize(A, LAST))[A].fileParts == parts';
  }
}
