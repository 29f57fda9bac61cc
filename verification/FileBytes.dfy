/** The bytes of a file: what its parts and the block store hold, and what appending and resizing do to them
    (src/fs/calvinfs.cc, src/fs/metadata_store.cc). */
module FileBytes {
  import opened Numbers
  import opened Metadata

  type Blocks = map<int, seq<byte>>

  /** Outcome of reading: the bytes, a failed block lookup, or the exception that std::string::append throws
      for an offset past the end of the block. */
  datatype Outcome = Data(bytes: seq<byte>) | LookupError | OutOfRange

  function Zeros(n: nat): (r: seq<byte>)
    ensures |r| == n && forall i {:trigger r[i]} :: 0 <= i < n ==> r[i] == 0
  {
    seq(n, _ => 0)
  }

  /** string::append(block, offset, length): as much of the range as the block has. */
  function Slice(block: seq<byte>, offset: nat, length: nat): seq<byte>
    requires offset <= |block|
  {
    if offset + length <= |block| then block[offset..offset + length] else block[offset..]
  }

  function PartBytes(blocks: Blocks, p: FilePart): Outcome {
    if p.blockId == 0 then Data(Zeros(p.length))
    else if p.blockId !in blocks then LookupError
    else if p.blockOffset > |blocks[p.blockId]| then OutOfRange
    else Data(Slice(blocks[p.blockId], p.blockOffset, p.length))
  }

  function Then(a: Outcome, b: Outcome): Outcome {
    if a.Data? && b.Data? then Data(a.bytes + b.bytes) else if a.Data? then b else a
  }

  /** What a file with these parts reads as. */
  function Bytes(blocks: Blocks, parts: seq<FilePart>): Outcome {
    if parts == [] then Data([]) else Then(PartBytes(blocks, parts[0]), Bytes(blocks, parts[1..]))
  }

  lemma {:induction false} BytesConcat(blocks: Blocks, p: seq<FilePart>, q: seq<FilePart>)
    ensures Bytes(blocks, p + q) == Then(Bytes(blocks, p), Bytes(blocks, q))
    decreases |p|
  {
    if p == [] {
      assert p + q == q;
      if Bytes(blocks, q).Data? { assert [] + Bytes(blocks, q).bytes == Bytes(blocks, q).bytes; }
    } else {
      assert (p + q)[1..] == p[1..] + q && (p + q)[0] == p[0];
      BytesConcat(blocks, p[1..], q);
      ThenAssociates(PartBytes(blocks, p[0]), Bytes(blocks, p[1..]), Bytes(blocks, q));
    }
  }

  lemma ThenAssociates(a: Outcome, b: Outcome, c: Outcome)
    ensures Then(Then(a, b), c) == Then(a, Then(b, c))
  {
    if a.Data? && b.Data? && c.Data? { assert (a.bytes + b.bytes) + c.bytes == a.bytes + (b.bytes + c.bytes); }
  }

  /** The block-reading loop of ReadFileToString. */
  method ReadParts(blocks: Blocks, parts: seq<FilePart>) returns (r: Outcome)
    ensures r == Bytes(blocks, parts)
  {
    var data: seq<byte> := [];
    for i := 0 to |parts|
      invariant Bytes(blocks, parts[..i]) == Data(data)
    {
      assert parts[..i + 1] == parts[..i] + [parts[i]];
      OnePart(blocks, parts[i]);
      BytesConcat(blocks, parts[..i], [parts[i]]);
      assert parts == parts[..i + 1] + parts[i + 1..];
      BytesConcat(blocks, parts[..i + 1], parts[i + 1..]);
      if parts[i].blockId == 0 {
        data := data + Zeros(parts[i].length);
      } else {
        if parts[i].blockId !in blocks {
          return LookupError;
        }
        if parts[i].blockOffset > |blocks[parts[i].blockId]| {
          return OutOfRange;
        }
        data := data + Slice(blocks[parts[i].blockId], parts[i].blockOffset, parts[i].length);
      }
    }
    assert parts[..|parts|] == parts;
    return Data(data);
  }

  lemma OnePart(blocks: Blocks, p: FilePart)
    ensures Bytes(blocks, [p]) == PartBytes(blocks, p)
  {
    assert [p][1..] == [];
    if PartBytes(blocks, p).Data? { assert PartBytes(blocks, p).bytes + [] == PartBytes(blocks, p).bytes; }
  }

  /** What one part reads as: zeros, or as many of the bytes asked for as the block has from the offset on; and when it
      fails. */
  lemma PartReads(blocks: Blocks, p: FilePart)
    ensures var r, here := PartBytes(blocks, p), p.blockId in blocks;
      if p.blockId == 0 then r.Data? && |r.bytes| == p.length && forall k :: 0 <= k < p.length ==> r.bytes[k] == 0
      else if !here then r == LookupError
      else if |blocks[p.blockId]| < p.blockOffset then r == OutOfRange
      else
        && r.Data? && |r.bytes| <= p.length && p.blockOffset + |r.bytes| <= |blocks[p.blockId]|
        && (|r.bytes| == p.length || p.blockOffset + |r.bytes| == |blocks[p.blockId]|)
        && forall k :: 0 <= k < |r.bytes| ==> r.bytes[k] == blocks[p.blockId][p.blockOffset + k]
  {}

  /** Reading fails exactly if a part does, and as the first one that does. */
  lemma {:induction false} FirstFailure(blocks: Blocks, parts: seq<FilePart>)
    ensures Bytes(blocks, parts).Data? <==> forall i :: 0 <= i < |parts| ==> PartBytes(blocks, parts[i]).Data?
    ensures forall i :: 0 <= i < |parts| && !PartBytes(blocks, parts[i]).Data? &&
                        (forall j :: 0 <= j < i ==> PartBytes(blocks, parts[j]).Data?) ==>
                          Bytes(blocks, parts) == PartBytes(blocks, parts[i])
    decreases |parts|
  {
    if parts != [] {
      hide PartBytes;
      FirstFailure(blocks, parts[1..]);
      assert forall i {:trigger parts[1..][i]} :: 0 <= i < |parts| - 1 ==> parts[1..][i] == parts[i + 1];
      assert forall i {:trigger parts[i]} :: 1 <= i < |parts| ==> parts[i] == parts[1..][i - 1];
    }
  }

  /** The bytes of a file that can be read. */
  function Content(blocks: Blocks, parts: seq<FilePart>): seq<byte> {
    if Bytes(blocks, parts).Data? then Bytes(blocks, parts).bytes else []
  }

  /** Every part names bytes that are there. */
  predicate Stored(blocks: Blocks, parts: seq<FilePart>) {
    forall i {:trigger parts[i]} :: 0 <= i < |parts| ==>
      parts[i].blockId == 0
      || (parts[i].blockId in blocks && parts[i].blockOffset + parts[i].length <= |blocks[parts[i].blockId]|)
  }

  function Length(parts: seq<FilePart>): nat {
    if parts == [] then 0 else parts[0].length + Length(parts[1..])
  }

  lemma {:induction false} StoredBytes(blocks: Blocks, parts: seq<FilePart>)
    requires Stored(blocks, parts)
    ensures Bytes(blocks, parts).Data? && |Bytes(blocks, parts).bytes| == Length(parts)
    decreases |parts|
  {
    if parts != [] {
      assert parts[0] in parts;
      assert forall i {:trigger parts[1..][i]} :: 0 <= i < |parts| - 1 ==> parts[1..][i] == parts[i + 1];
      StoredBytes(blocks, parts[1..]);
    }
  }

  // ---- Appending ----

  /** A block stored under an unused id changes no file. */
  lemma {:induction false} FreshBlockHarmless(blocks: Blocks, id: int, data: seq<byte>, parts: seq<FilePart>)
    requires id !in blocks && Stored(blocks, parts)
    ensures Stored(blocks[id := data], parts) && Bytes(blocks[id := data], parts) == Bytes(blocks, parts)
    decreases |parts|
  {
    if parts != [] {
      assert forall i {:trigger parts[1..][i]} :: 0 <= i < |parts| - 1 ==> parts[1..][i] == parts[i + 1];
      assert parts[0].blockId == 0 || parts[0].blockId in blocks;
      FreshBlockHarmless(blocks, id, data, parts[1..]);
    }
  }

  /** A part that names a whole block reads as that block's data, after what is there already. */
  lemma AppendedReads(blocks: Blocks, id: int, data: seq<byte>, parts: seq<FilePart>)
    requires 0 < id < U64 && |data| < U64 && id in blocks && blocks[id] == data && Stored(blocks, parts)
    ensures var parts' := parts + [FilePart(|data|, id, 0)];
      Stored(blocks, parts') && Bytes(blocks, parts') == Data(Content(blocks, parts) + data)
  {
    var p := FilePart(|data|, id, 0);
    StoredBytes(blocks, parts);
    BytesConcat(blocks, parts, [p]);
    OnePart(blocks, p);
    assert data[0..|data|] == data;
  }

  // ---- Resizing ----

  /** The 64-bit running total of Resize_Internal does not wrap before the size is reached. */
  predicate Counts(parts: seq<FilePart>, total: nat, size: nat)
    decreases |parts|
  {
    parts == [] || (total + parts[0].length < U64 &&
        (total + parts[0].length >= size || Counts(parts[1..], total + parts[0].length, size)))
  }

  /** The parts kept by the loop add up to the final total, and to more by whole multiples of 2^64 once the
      counter has wrapped. */
  lemma {:induction false} TruncatedLength(parts: seq<FilePart>, total: uint64, size: uint64)
    requires total < size
    ensures var (kept, t) := Truncate(parts, total, size);
      && (t < size ==> (total + Length(kept) == t <==> Counts(parts, total, size)) && total + Length(kept) >= t)
      && (t >= size ==> (total + Length(kept) == size <==> Counts(parts, total, size)) && total + Length(kept) >= size)
    decreases |parts|
  {
    if parts != [] {
      var sum := total + parts[0].length;
      var next := sum % U64;
      if next >= size {
        assert sum < U64 ==> next == sum;
        WrapsLow(total, parts[0].length);
        var cut := parts[0].(length := parts[0].length - (next - size));
        assert [cut][1..] == [] && Length([cut]) == cut.length;
      } else {
        TruncatedLength(parts[1..], next, size);
        var (rest, t) := Truncate(parts[1..], next, size);
        assert ([parts[0]] + rest)[1..] == rest;
        WrapsLow(total, parts[0].length);
      }
    }
  }

  lemma WrapsLow(total: uint64, length: uint64)
    ensures if total + length < U64 then (total + length) % U64 == total + length
            else (total + length) % U64 == total + length - U64 < total
  {}

  lemma {:induction false} LengthConcat(p: seq<FilePart>, q: seq<FilePart>)
    ensures Length(p + q) == Length(p) + Length(q)
    decreases |p|
  {
    if p == [] {
      assert p + q == q;
    } else {
      assert (p + q)[1..] == p[1..] + q;
      LengthConcat(p[1..], q);
    }
  }

  /** A resize to size > 0 gives a file of that size exactly when the counter does not wrap; otherwise the
      file comes out longer. */
  lemma ResizedLength(parts: seq<FilePart>, size: uint64)
    requires size > 0
    ensures Length(ResizedParts(parts, size)) >= size
    ensures Length(ResizedParts(parts, size)) == size <==> Counts(parts, 0, size)
  {
    TruncatedLength(parts, 0, size);
    var (kept, total) := Truncate(parts, 0, size);
    if total < size {
      var fill := FilePart(size - total, 0, 0);
      LengthConcat(kept, [fill]);
      assert [fill][1..] == [] && Length([fill]) == size - total;
    }
  }

  lemma {:induction false} TruncatedStored(blocks: Blocks, parts: seq<FilePart>, total: uint64, size: uint64)
    requires total < size && Stored(blocks, parts)
    ensures Stored(blocks, Truncate(parts, total, size).0)
    decreases |parts|
  {
    if parts != [] {
      var p, next := parts[0], (total + parts[0].length) % U64;
      assert forall i {:trigger parts[1..][i]} :: 0 <= i < |parts| - 1 ==> parts[1..][i] == parts[i + 1];
      assert Stored(blocks, [p]) by { assert [p][0] == parts[0]; }
      WrapsLow(total, p.length);
      if next < size {
        TruncatedStored(blocks, parts[1..], next, size);
        StoredCons(blocks, p, Truncate(parts[1..], next, size).0);
      }
    }
  }

  /** What the loop keeps reads as a prefix. */
  lemma {:induction false} TruncatedBytes(blocks: Blocks, parts: seq<FilePart>, total: uint64, size: uint64)
    requires total < size && Counts(parts, total, size) && Stored(blocks, parts)
    ensures var (kept, t) := Truncate(parts, total, size);
      && Stored(blocks, kept) && (t < size ==> kept == parts && t == total + Length(parts))
      && |Content(blocks, parts)| == Length(parts) && Bytes(blocks, kept).Data?
      && (t >= size ==>
          size - total <= Length(parts) && Content(blocks, kept) == Content(blocks, parts)[..size - total])
    decreases |parts|
  {
    hide Content, Stored, PartBytes, Bytes;
    StoredBytes(blocks, parts);
    TruncatedStored(blocks, parts, total, size);
    StoredBytes(blocks, Truncate(parts, total, size).0);
    if parts != [] {
      var p, next := parts[0], (total + parts[0].length) % U64;
      StoredTail(blocks, parts);
      WrapsLow(total, p.length);
      if next >= size {
        CutHere(blocks, parts, p.(length := p.length - (next - size)));
        ContentIs(blocks, parts);
        ContentIs(blocks, [p.(length := p.length - (next - size))]);
      } else {
        TruncatedBytes(blocks, parts[1..], next, size);
        var (rest, t) := Truncate(parts[1..], next, size);
        if t >= size {
          CutLater(blocks, parts, rest, size - total);
        }
        ContentIs(blocks, parts);
      }
    } else {
      ContentIs(blocks, parts);
    }
  }

  lemma StoredTail(blocks: Blocks, parts: seq<FilePart>)
    requires parts != [] && Stored(blocks, parts)
    ensures Stored(blocks, parts[1..])
  {
    assert forall i {:trigger parts[1..][i]} :: 0 <= i < |parts| - 1 ==> parts[1..][i] == parts[i + 1];
  }

  lemma ContentIs(blocks: Blocks, parts: seq<FilePart>)
    requires Bytes(blocks, parts).Data?
    ensures Content(blocks, parts) == Bytes(blocks, parts).bytes
  {}

  /** The parts before the one in which the loop stops are kept whole. */
  lemma CutLater(blocks: Blocks, parts: seq<FilePart>, rest: seq<FilePart>, n: nat)
    requires parts != [] && Stored(blocks, parts) && Stored(blocks, rest)
    requires parts[0].length <= n <= parts[0].length + Length(parts[1..])
    requires n - parts[0].length <= |Content(blocks, parts[1..])|
    requires Content(blocks, rest) == Content(blocks, parts[1..])[..n - parts[0].length]
    ensures n <= |Content(blocks, parts)| && Content(blocks, [parts[0]] + rest) == Content(blocks, parts)[..n]
  {
    var p := parts[0];
    assert [p][0] == p && Stored(blocks, [p]);
    StoredCons(blocks, p, rest);
    StoredTail(blocks, parts);
    StoredBytes(blocks, parts);
    StoredBytes(blocks, parts[1..]);
    StoredBytes(blocks, rest);
    StoredBytes(blocks, [p]);
    OnePart(blocks, p);
    assert ([p] + rest)[1..] == rest && ([p] + rest)[0] == p;
    PrefixOfConcat(PartBytes(blocks, p).bytes, Bytes(blocks, parts[1..]).bytes, n);
  }

  /** The part in which the loop stops is shortened. */
  lemma CutHere(blocks: Blocks, parts: seq<FilePart>, cut: FilePart)
    requires parts != [] && Stored(blocks, parts) && cut == parts[0].(length := cut.length)
    requires cut.length <= parts[0].length
    ensures Stored(blocks, [cut]) && Bytes(blocks, [cut]).Data? && Bytes(blocks, parts).Data?
    ensures cut.length <= |Bytes(blocks, parts).bytes|
    ensures Bytes(blocks, [cut]).bytes == Bytes(blocks, parts).bytes[..cut.length]
  {
    var p := parts[0];
    StoredBytes(blocks, parts);
    assert Stored(blocks, [p]) by { assert [p][0] == parts[0]; }
    OnePart(blocks, cut);
    CutBytes(blocks, p, cut);
    assert Bytes(blocks, parts) == Then(PartBytes(blocks, p), Bytes(blocks, parts[1..]));
    hide Bytes, Stored, PartBytes;
  }

  lemma StoredCons(blocks: Blocks, p: FilePart, rest: seq<FilePart>)
    requires Stored(blocks, [p]) && Stored(blocks, rest)
    ensures Stored(blocks, [p] + rest)
  {
    assert [p][0] == p;
  }

  lemma PrefixOfConcat(a: seq<byte>, b: seq<byte>, n: nat)
    requires |a| <= n <= |a| + |b|
    ensures (a + b)[..n] == a + b[..n - |a|]
  {}

  /** A shortened part reads as a prefix of the part. */
  lemma CutBytes(blocks: Blocks, p: FilePart, cut: FilePart)
    requires cut == p.(length := cut.length) && cut.length <= p.length && Stored(blocks, [p])
    ensures Stored(blocks, [cut]) && PartBytes(blocks, p).Data? && PartBytes(blocks, cut).Data?
    ensures |PartBytes(blocks, p).bytes| == p.length
    ensures PartBytes(blocks, cut).bytes == PartBytes(blocks, p).bytes[..cut.length]
  {
    assert [p][0] == p;
  }

  /** What a file should read as after a resize: its old bytes cut off at size or filled up with zeros. */
  function CutOrFilled(bytes: seq<byte>, size: nat): (r: seq<byte>)
    ensures |r| == size
  {
    if size <= |bytes| then bytes[..size] else bytes + Zeros(size - |bytes|)
  }

  lemma ResizedStored(blocks: Blocks, parts: seq<FilePart>, size: uint64)
    requires size > 0 && Stored(blocks, parts)
    ensures Stored(blocks, ResizedParts(parts, size))
  {
    TruncatedStored(blocks, parts, 0, size);
  }

  lemma ResizeExact(blocks: Blocks, parts: seq<FilePart>, size: uint64)
    requires size > 0 && Stored(blocks, parts) && Counts(parts, 0, size)
    ensures Content(blocks, ResizedParts(parts, size)) == CutOrFilled(Content(blocks, parts), size)
  {
    StoredBytes(blocks, parts);
    TruncatedBytes(blocks, parts, 0, size);
    var (kept, total) := Truncate(parts, 0, size);
    if total < size {
      var fill := FilePart(size - total, 0, 0);
      BytesConcat(blocks, kept, [fill]);
      OnePart(blocks, fill);
    }
  }

  /** After a resize to size > 0 a file reads as its old bytes cut off or filled up to size, exactly when the
      64-bit counter does not wrap before the size is reached. */
  lemma ResizeCutsOrFills(blocks: Blocks, parts: seq<FilePart>, size: uint64)
    requires size > 0 && Stored(blocks, parts)
    ensures Bytes(blocks, ResizedParts(parts, size)).Data?
    ensures Content(blocks, ResizedParts(parts, size)) == CutOrFilled(Content(blocks, parts), size) <==>
        Counts(parts, 0, size)
  {
    ResizedStored(blocks, parts, size);
    StoredBytes(blocks, ResizedParts(parts, size));
    ResizedLength(parts, size);
    if Counts(parts, 0, size) { ResizeExact(blocks, parts, size); }
  }

  /** A resize to 0 answers success and leaves the file as it was, whatever is in it. */
  lemma ResizeToZeroKeepsBytes(s: Store, path: string)
    requires path in s && s[path].fileType == DATA
    ensures ChangeOf(s, Resize(path, 0)).out.success && Apply(s, Resize(path, 0)) == s
  {}
}
