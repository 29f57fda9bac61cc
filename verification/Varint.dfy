/** Variable-length encoding of 64-bit integers in one to nine bytes (src/common/varint.h). */
module Varint {
  import opened Numbers
  import opened Collections

  // ---- Encoding ----

  /** The encoding of what is left of x after k bytes: seven bits a byte, low bits first, the eighth bit saying that
      more follow; the ninth byte holds eight bits. */
  function Encode(x: uint64, k: nat): (s: seq<byte>)
    requires k <= 8
    ensures 1 <= |s| <= 9 - k
    decreases 8 - k
  {
    if x >= 128 && k < 8 then [128 + x % 128] + Encode(x / 128, k + 1) else [x % 256]
  }

  /** (1 << 7) | uint8(x), with the bits written out. */
  function WithHighBit(x: uint64): byte {
    var b := x % 256;
    if b < 128 then b + 128 else b
  }

  method Append64(s: seq<byte>, x: uint64) returns (t: seq<byte>)
    ensures t == s + Encode(x, 0)
  {
    hide Encode;
    t := s;
    var y, i := x, 0;
    while y >= 128 && i < 8
      invariant i <= 8
      invariant t + Encode(y, i) == s + Encode(x, 0)
      decreases 8 - i
    {
      assert WithHighBit(y) == 128 + y % 128;
      EncodeMore(y, i);
      Associate(t, [WithHighBit(y)], Encode(y / 128, i + 1));
      t := t + [WithHighBit(y)];
      y := y / 128;
      i := i + 1;
    }
    EncodeLast(y, i);
    t := t + [y % 256];
  }

  lemma EncodeLast(y: uint64, k: nat)
    requires k <= 8 && (y < 128 || k == 8)
    ensures Encode(y, k) == [y % 256]
  {}

  // ---- Decoding ----

  /** A char is signed here: from 128 on it is negative, and as a 64-bit integer it has all its high bits set. */
  function Extended(b: byte): uint64 {
    if b < 128 then b else U64 - 256 + b
  }

  function Pow128(k: nat): (p: nat)
    ensures p >= 1
  {
    if k == 0 then 1 else 128 * Pow128(k - 1)
  }

  /** y << 7k, before it is cut to 64 bits. */
  function Shifted(y: nat, k: nat): nat {
    y * Pow128(k)
  }

  /** x | (bits << 7k) in 64 bits, when the low 7k bits alone are set in x. */
  function Or(x: uint64, bits: uint64, k: nat): uint64 {
    (x + Shifted(bits, k)) % U64
  }

  /** What the bytes from pos say when k bytes have given x: the value and the position after it. */
  function Decode(s: seq<byte>, pos: nat, x: uint64, k: nat): (uint64, nat)
    requires k <= 8 && pos < |s|
    decreases 8 - k
  {
    if s[pos] >= 128 && k < 8 then
      var y := Or(x, s[pos] % 128, k);
      if pos + 1 < |s| then Decode(s, pos + 1, y, k + 1) else (y, pos + 1)
    else (Or(x, Extended(s[pos]), k), pos + 1)
  }

  /** Whether an encoding ends inside s: the bytes that Parse64 reads all exist. */
  predicate Complete(s: seq<byte>, pos: nat, k: nat)
    requires k <= 8
    decreases 8 - k
  {
    pos < |s| && (s[pos] >= 128 && k < 8 ==> Complete(s, pos + 1, k + 1))
  }

  method Parse64(s: seq<byte>, start: nat) returns (x: uint64, pos: nat)
    requires Complete(s, start, 0)
    ensures (x, pos) == Decode(s, start, 0, 0)
  {
    pos, x := start, 0;
    var k := 0;
    if s[pos] < 128 {
      SmallByte(s[pos]);
      return s[pos], pos + 1;
    }
    while s[pos] >= 128 && k < 8
      invariant k <= 8 && pos < |s| && Complete(s, pos, k)
      invariant Decode(s, pos, x, k) == Decode(s, start, 0, 0)
      decreases 8 - k
    {
      x := Or(x, s[pos] % 128, k);
      pos, k := pos + 1, k + 1;
    }
    return Or(x, Extended(s[pos]), k), pos + 1;
  }

  lemma SmallByte(b: byte)
    requires b < 128
    ensures Or(0, Extended(b), 0) == b
  {}

  // ---- Round trip ----

  lemma Pow128At8()
    ensures Pow128(8) == 0x100_0000_0000_0000
  {
    assert Pow128(1) == 128;
    assert Pow128(2) == 128 * 128;
    assert Pow128(3) == 128 * 128 * 128;
    assert Pow128(4) == 128 * 128 * 128 * 128;
    assert Pow128(5) == 128 * 128 * 128 * 128 * 128;
    assert Pow128(6) == 128 * 128 * 128 * 128 * 128 * 128;
    assert Pow128(7) == 128 * 128 * 128 * 128 * 128 * 128 * 128;
  }

  /** Whether bytes e stand in s at pos. */
  predicate Holds(s: seq<byte>, pos: nat, e: seq<byte>) {
    pos + |e| <= |s| && s[pos..pos + |e|] == e
  }

  lemma HoldsTail(s: seq<byte>, pos: nat, b: byte, e: seq<byte>)
    requires Holds(s, pos, [b] + e)
    ensures pos < |s| && s[pos] == b && Holds(s, pos + 1, e)
  {
    assert s[pos..pos + 1 + |e|][0] == b;
    assert s[pos..pos + 1 + |e|][1..] == e;
  }

  lemma EncodeMore(y: uint64, k: nat)
    requires k < 8 && y >= 128
    ensures Encode(y, k) == [128 + y % 128] + Encode(y / 128, k + 1)
  {}

  lemma DecodeMore(s: seq<byte>, pos: nat, x: uint64, k: nat)
    requires k < 8 && pos + 1 < |s| && s[pos] >= 128
    ensures Complete(s, pos, k) == Complete(s, pos + 1, k + 1)
    ensures Decode(s, pos, x, k) == Decode(s, pos + 1, Or(x, s[pos] % 128, k), k + 1)
  {
    hide Or;
  }

  lemma DecodeLast(s: seq<byte>, pos: nat, x: uint64, k: nat)
    requires k <= 8 && pos < |s| && (s[pos] < 128 || k == 8)
    ensures Complete(s, pos, k) && Decode(s, pos, x, k) == (Or(x, Extended(s[pos]), k), pos + 1)
  {
    hide Or;
  }

  lemma Sevens(q: nat, r: nat, p: nat)
    ensures (128 * q + r) * p == q * (128 * p) + r * p && q * (128 * p) >= 0 && r * p >= 0
  {}

  lemma AtMost(r: nat, m: nat, p: nat)
    requires r <= m
    ensures r * p <= m * p
  {}

  /** The number that the bytes from pos on stand for, when k bytes came before: seven bits each, low ones first, up to
      the first byte without the high bit or the ninth, which counts whole. */
  function Number(s: seq<byte>, pos: nat, k: nat): nat
    requires k <= 8 && Complete(s, pos, k)
    decreases 8 - k
  {
    if s[pos] >= 128 && k < 8 then s[pos] - 128 + 128 * Number(s, pos + 1, k + 1) else s[pos]
  }

  /** How many bytes that are. */
  function Width(s: seq<byte>, pos: nat, k: nat): (n: nat)
    requires k <= 8 && Complete(s, pos, k)
    ensures 1 <= n <= 9 - k && pos + n <= |s| && (k + n < 9 ==> s[pos + n - 1] < 128)
    ensures forall j {:trigger s[j]} :: pos <= j < pos + n - 1 ==> s[j] >= 128
    decreases 8 - k
  {
    if s[pos] >= 128 && k < 8 then 1 + Width(s, pos + 1, k + 1) else 1
  }

  /** Whatever bytes are read, canonical or not: the result is their number in 64 bits, and the position after them. */
  lemma {:induction false} DecodeIsNumber(s: seq<byte>, pos: nat, x: uint64, k: nat)
    requires k <= 8 && Complete(s, pos, k)
    ensures Decode(s, pos, x, k) == ((x + Shifted(Number(s, pos, k), k)) % U64, pos + Width(s, pos, k))
    decreases 8 - k
  {
    hide Shifted, Decode, Or, Pow128;
    var b := s[pos];
    if b >= 128 && k < 8 {
      var rest := Number(s, pos + 1, k + 1);
      DecodeMore(s, pos, x, k);
      DecodeIsNumber(s, pos + 1, Or(x, b % 128, k), k + 1);
      ShiftedMore(b - 128, rest, k);
      OrMore(x, b, rest, k);
    } else {
      DecodeLast(s, pos, x, k);
      LastByte(x, b, k);
    }
  }

  lemma OrMore(x: uint64, b: byte, rest: nat, k: nat)
    requires b >= 128
    ensures (Or(x, b % 128, k) + Shifted(rest, k + 1)) % U64 == (x + (Shifted(b - 128, k) + Shifted(rest, k + 1))) % U64
  {
    hide Shifted;
    AddMod(x + Shifted(b - 128, k), Shifted(rest, k + 1));
  }

  lemma ShiftedMore(b: nat, rest: nat, k: nat)
    ensures Shifted(b + 128 * rest, k) == Shifted(b, k) + Shifted(rest, k + 1)
  {
    var p := Pow128(k);
    assert Pow128(k + 1) == 128 * p;
    hide Pow128;
    Sevens(rest, b, p);
  }

  lemma AddMod(a: nat, b: nat)
    ensures (a % U64 + b) % U64 == (a + b) % U64
  {
    assert a == a / U64 * U64 + a % U64;
  }

  /** The last byte; the sign bits of a ninth byte are shifted out. */
  lemma LastByte(x: uint64, b: byte, k: nat)
    requires b < 128 || k == 8
    ensures Or(x, Extended(b), k) == (x + Shifted(b, k)) % U64
  {
    if b >= 128 {
      assert Pow128(8) == 0x100_0000_0000_0000 by { Pow128At8(); }
      hide Pow128;
      assert Shifted(Extended(b), 8) == Shifted(b, 8) + 0xFF_FFFF_FFFF_FFFF * U64;
      hide Shifted;
      DropMultiple(x + Shifted(b, 8), 0xFF_FFFF_FFFF_FFFF);
    }
  }

  lemma DropMultiple(a: nat, c: nat)
    ensures (a + c * U64) % U64 == a % U64
  {}

  /** The encoding of y after k bytes, wherever it stands, stands for y. */
  lemma {:induction false} EncodedNumber(s: seq<byte>, pos: nat, y: uint64, k: nat)
    requires k <= 8 && Shifted(y, k) < U64 && Holds(s, pos, Encode(y, k))
    ensures Complete(s, pos, k) && Number(s, pos, k) == y && Width(s, pos, k) == |Encode(y, k)|
    decreases 8 - k
  {
    hide Encode, Holds, Pow128, Shifted;
    if y >= 128 && k < 8 {
      EncodeMore(y, k);
      HoldsTail(s, pos, 128 + y % 128, Encode(y / 128, k + 1));
      ShiftedMore(y % 128, y / 128, k);
      assert y % 128 + 128 * (y / 128) == y;
      EncodedNumber(s, pos + 1, y / 128, k + 1);
    } else {
      EncodeLast(y, k);
      assert Encode(y, k) == [y % 256] + [];
      HoldsTail(s, pos, y % 256, []);
      LastFits(y, k);
    }
  }

  lemma LastFits(y: uint64, k: nat)
    requires k <= 8 && Shifted(y, k) < U64 && (y < 128 || k == 8)
    ensures y < 256
  {
    if k == 8 { Pow128At8(); }
  }

  /** Any value, standing anywhere among other bytes, is read back, and exactly its bytes are used. */
  lemma RoundTrip(s: seq<byte>, pos: nat, x: uint64)
    requires Holds(s, pos, Encode(x, 0))
    ensures Complete(s, pos, 0) && Decode(s, pos, 0, 0) == (x, pos + |Encode(x, 0)|)
  {
    hide Encode, Decode, Complete, Holds, Number, Width;
    assert Pow128(0) == 1 && Shifted(x, 0) == x;
    EncodedNumber(s, pos, x, 0);
    DecodeIsNumber(s, pos, 0, 0);
    SmallMod(x, U64);
  }

  // ---- Sequences ----

  function EncodeAll(xs: seq<uint64>): seq<byte> {
    if xs == [] then [] else Encode(xs[0], 0) + EncodeAll(xs[1..])
  }

  /** The values of n parses from pos on, and the position after them; None when the bytes run out. */
  datatype Parsed = Parsed(values: seq<uint64>, pos: nat) | Short

  function DecodeAll(s: seq<byte>, pos: nat, n: nat): Parsed
    decreases n
  {
    if n == 0 then Parsed([], pos)
    else if !Complete(s, pos, 0) then Short
    else
      var (x, next) := Decode(s, pos, 0, 0);
      match DecodeAll(s, next, n - 1)
      case Parsed(xs, end) => Parsed([x] + xs, end)
      case Short => Short
  }

  lemma HoldsBoth(s: seq<byte>, pos: nat, e: seq<byte>, f: seq<byte>)
    requires Holds(s, pos, e + f)
    ensures Holds(s, pos, e) && Holds(s, pos + |e|, f)
  {
    var t := s[pos..pos + |e| + |f|];
    assert t[..|e|] == e && t[|e|..] == f;
    assert s[pos..pos + |e|] == t[..|e|] && s[pos + |e|..pos + |e| + |f|] == t[|e|..];
  }

  lemma EncodeAllMore(xs: seq<uint64>)
    requires xs != []
    ensures EncodeAll(xs) == Encode(xs[0], 0) + EncodeAll(xs[1..])
  {}

  lemma DecodeOne(s: seq<byte>, pos: nat, n: nat, x: uint64, next: nat, xs: seq<uint64>, end: nat)
    requires Complete(s, pos, 0) && Decode(s, pos, 0, 0) == (x, next) && DecodeAll(s, next, n) == Parsed(xs, end)
    ensures DecodeAll(s, pos, n + 1) == Parsed([x] + xs, end)
  {}

  /** Parsing the concatenated encodings gives the sequence back and uses exactly the bytes written. */
  lemma {:induction false} RoundTripAll(s: seq<byte>, pos: nat, xs: seq<uint64>)
    requires Holds(s, pos, EncodeAll(xs))
    ensures DecodeAll(s, pos, |xs|) == Parsed(xs, pos + |EncodeAll(xs)|)
    decreases |xs|
  {
    hide Encode, Decode, Complete, Holds, DecodeAll, EncodeAll;
    if xs == [] {
      DecodeNone(s, pos);
    } else {
      var x, rest, e := xs[0], xs[1..], Encode(xs[0], 0);
      EncodeAllMore(xs);
      HoldsBoth(s, pos, e, EncodeAll(rest));
      RoundTrip(s, pos, x);
      RoundTripAll(s, pos + |e|, rest);
      DecodeOne(s, pos, |rest|, x, pos + |e|, rest, pos + |e| + |EncodeAll(rest)|);
      HeadAgain(xs);
    }
  }

  lemma DecodeNone(s: seq<byte>, pos: nat)
    ensures EncodeAll([]) == [] && DecodeAll(s, pos, 0) == Parsed([], pos)
  {}

  lemma HeadAgain(xs: seq<uint64>)
    requires xs != []
    ensures [xs[0]] + xs[1..] == xs
  {}

  /** No encoding is a proper prefix of another, so two values never have the same encoding. */
  lemma PrefixFree(x: uint64, y: uint64)
    requires Encode(x, 0) <= Encode(y, 0)
    ensures x == y
  {
    hide Encode, Decode, Complete;
    var e, f := Encode(x, 0), Encode(y, 0);
    assert f[0..|e|] == e && f[0..|f|] == f;
    RoundTrip(f, 0, x);
    RoundTrip(f, 0, y);
  }

  /** What the bytes of an encoding are: seven bits of the value each, low ones first, with the high bit set on all but
      the last; the ninth byte has the eight bits left. */
  lemma {:induction false} EncodedBytes(x: uint64, k: nat, i: nat)
    requires k <= 8 && i < |Encode(x, k)|
    ensures var e, bits := Encode(x, k), x / Pow128(i);
      && (i + 1 < |e| ==> e[i] == 128 + bits % 128)
      && (i + 1 == |e| && k + i < 8 ==> e[i] == bits < 128)
      && (i + 1 == |e| && k + i == 8 ==> e[i] == bits % 256)
    decreases i
  {
    if i == 0 {
      assert Pow128(0) == 1;
    } else {
      EncodeMore(x, k);
      hide Encode;
      EncodedBytes(x / 128, k + 1, i - 1);
      DivideTwice(x, Pow128(i - 1));
    }
  }

  lemma DivideTwice(x: nat, p: nat)
    requires p > 0
    ensures 128 * p > 0 && x / (128 * p) == x / 128 / p
  {
    var q, r := x / 128 / p, x / 128 % p;
    var t := 128 * r + x % 128;
    assert x == q * (128 * p) + t && t < 128 * p by {
      assert x / 128 == q * p + r;
      assert 128 * (q * p) == q * (128 * p);
    }
    QuotientUnique(x, 128 * p, q, t);
  }

  lemma QuotientUnique(x: nat, m: nat, q: nat, r: nat)
    requires r < m && x == q * m + r
    ensures x / m == q
  {
    var d := x / m - q;
    assert d * m == r - x % m by { assert x == (x / m) * m + x % m; }
    if d >= 1 { AtMost(1, d, m); }
  }

  /** One byte for every seven bits, at most nine. */
  lemma {:induction false} EncodedSize(x: uint64, k: nat, n: nat)
    requires k <= 8 && 1 <= n && k + n <= 8
    ensures |Encode(x, k)| <= n <==> x < Pow128(n)
    decreases n
  {
    if n == 1 {
      assert Pow128(1) == 128;
    } else if x >= 128 {
      assert Pow128(n) == 128 * Pow128(n - 1);
      EncodedSize(x / 128, k + 1, n - 1);
      DivideLess(x, Pow128(n - 1));
    } else {
      assert Pow128(n) == 128 * Pow128(n - 1);
    }
  }

  lemma DivideLess(x: nat, p: nat)
    ensures x / 128 < p <==> x < 128 * p
  {}
}
