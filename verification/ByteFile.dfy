/** Bytes, binary files opened for writing, and little-endian packing with a format.

    `Num16`, `Num32` and `Num64` are what a reader makes of the bytes at an offset; packing is stated against them. */
module ByteFile {
  type byte = b: int | 0 <= b < 256

  function Zeros(n: nat): (s: seq<byte>)
    ensures |s| == n
  {
    seq(n, _ => 0)
  }

  // ----- Writing at a position

  function Resize(content: seq<byte>, n: nat): (r: seq<byte>)
    ensures |r| == n
  {
    if n <= |content| then content[..n] else content + Zeros(n - |content|)
  }

  /** The file after writing `data` at `pos`.  Past its end a file grows by zeros;
      writing nothing changes nothing. */
  function WriteAt(content: seq<byte>, pos: nat, data: seq<byte>): seq<byte> {
    if data == [] then content
    else seq(if |content| < pos + |data| then pos + |data| else |content|, k requires 0 <= k => ByteAfter(content, pos, data, k))
  }

  function ByteAfter(content: seq<byte>, pos: nat, data: seq<byte>, k: nat): byte {
    if pos <= k < pos + |data| then data[k - pos] else if k < |content| then content[k] else 0
  }

  function Slice(content: seq<byte>, pos: nat, len: nat): (s: seq<byte>)
    requires pos + len <= |content|
    ensures |s| == len
  {
    content[pos..pos + len]
  }

  lemma WriteSize(content: seq<byte>, pos: nat, data: seq<byte>)
    ensures |WriteAt(content, pos, data)|
         == if data == [] || pos + |data| <= |content| then |content| else pos + |data|
  {
  }

  lemma WriteIndex(content: seq<byte>, pos: nat, data: seq<byte>, k: nat)
    requires k < |WriteAt(content, pos, data)|
    ensures WriteAt(content, pos, data)[k] == ByteAfter(content, pos, data, k)
  {
  }

  lemma WrittenHere(content: seq<byte>, pos: nat, data: seq<byte>)
    requires data != [] || pos <= |content|
    ensures pos + |data| <= |WriteAt(content, pos, data)|
    ensures Slice(WriteAt(content, pos, data), pos, |data|) == data
  {
    WriteSize(content, pos, data);
    forall k | 0 <= k < |data|
      ensures Slice(WriteAt(content, pos, data), pos, |data|)[k] == data[k]
    {
      WriteIndex(content, pos, data, pos + k);
    }
  }

  lemma WrittenElsewhere(content: seq<byte>, pos: nat, data: seq<byte>, at: nat, len: nat)
    requires at + len <= |content|
    requires at + len <= pos || pos + |data| <= at
    ensures at + len <= |WriteAt(content, pos, data)|
    ensures Slice(WriteAt(content, pos, data), at, len) == Slice(content, at, len)
  {
    WriteSize(content, pos, data);
    forall k | 0 <= k < len
      ensures Slice(WriteAt(content, pos, data), at, len)[k] == Slice(content, at, len)[k]
    {
      WriteIndex(content, pos, data, at + k);
    }
  }

  /** A file opened for writing: its bytes and the position. */
  class OutFile {
    var content: seq<byte>
    var pos: nat

    constructor ()
      ensures content == [] && pos == 0
    {
      content := [];
      pos := 0;
    }

    method Truncate(n: nat)
      modifies this
      ensures content == Resize(old(content), n) && pos == old(pos)
    {
      content := Resize(content, n);
    }

    method Seek(n: nat)
      modifies this
      ensures content == old(content) && pos == n
    {
      pos := n;
    }

    method Write(data: seq<byte>)
      modifies this
      ensures content == WriteAt(old(content), old(pos), data) && pos == old(pos) + |data|
    {
      content := WriteAt(content, pos, data);
      pos := pos + |data|;
    }
  }

  // ----- Little-endian numbers

  function Pow256(n: nat): (p: nat)
    ensures p > 0
  {
    if n == 0 then 1 else 256 * Pow256(n - 1)
  }

  function LE(v: nat, n: nat): (s: seq<byte>)
    ensures |s| == n
  {
    if n == 0 then [] else [v % 256] + LE(v / 256, n - 1)
  }

  function FromLE(s: seq<byte>): nat {
    if s == [] then 0 else s[0] + 256 * FromLE(s[1..])
  }

  lemma {:induction false} LERoundTrip(v: nat, n: nat)
    requires v < Pow256(n)
    ensures FromLE(LE(v, n)) == v
  {
    if n > 0 {
      LERoundTrip(v / 256, n - 1);
      assert LE(v, n)[1..] == LE(v / 256, n - 1);
    }
  }

  // ----- Numbers read off their bytes, the least significant first

  function Num16(s: seq<byte>, at: nat): nat
    requires at + 2 <= |s|
  {
    var a: int, b: int := s[at], s[at + 1];
    a + 0x100 * b
  }

  function Num32(s: seq<byte>, at: nat): nat
    requires at + 4 <= |s|
  {
    var a: int, b: int, c: int, d: int := s[at], s[at + 1], s[at + 2], s[at + 3];
    a + 0x100 * b + 0x1_0000 * c + 0x100_0000 * d
  }

  function Num64(s: seq<byte>, at: nat): nat
    requires at + 8 <= |s|
  {
    Num32(s, at) + 0x1_0000_0000 * Num32(s, at + 4)
  }

  lemma FromLETwo(s: seq<byte>)
    requires |s| >= 2
    ensures FromLE(s) == Num16(s, 0) + 0x1_0000 * FromLE(s[2..])
  {
    assert s[1..][1..] == s[2..];
  }

  lemma FromLEFour(s: seq<byte>)
    requires |s| >= 4
    ensures FromLE(s) == Num32(s, 0) + 0x1_0000_0000 * FromLE(s[4..])
  {
    FromLETwo(s);
    FromLETwo(s[2..]);
    assert s[2..][2..] == s[4..];
  }

  /** Numbers are taken from bytes, and put into bytes, with the least significant byte first. */
  lemma FromLEIs(s: seq<byte>)
    ensures |s| == 2 ==> FromLE(s) == Num16(s, 0)
    ensures |s| == 4 ==> FromLE(s) == Num32(s, 0)
    ensures |s| == 8 ==> FromLE(s) == Num64(s, 0)
  {
    if |s| == 2 {
      FromLETwo(s);
    } else if |s| == 4 {
      FromLEFour(s);
    } else if |s| == 8 {
      FromLEFour(s);
      FromLEFour(s[4..]);
    }
  }

  lemma LEIs(v: nat)
    ensures v < 0x1_0000 ==> Num16(LE(v, 2), 0) == v
    ensures v < 0x1_0000_0000 ==> Num32(LE(v, 4), 0) == v
    ensures v < 0x1_0000_0000_0000_0000 ==> Num64(LE(v, 8), 0) == v
  {
    assert Pow256(2) == 0x1_0000 && Pow256(4) == 0x1_0000_0000 && Pow256(8) == 0x1_0000_0000_0000_0000;
    FromLEIs(LE(v, 2));
    FromLEIs(LE(v, 4));
    FromLEIs(LE(v, 8));
    if v < Pow256(2) {
      LERoundTrip(v, 2);
    }
    if v < Pow256(4) {
      LERoundTrip(v, 4);
    }
    if v < Pow256(8) {
      LERoundTrip(v, 8);
    }
  }

  // ----- Formats, as Python's struct module has them (little-endian, no padding)

  /** `Str(n)` is a string of `n` bytes, `Num(w)` an unsigned number of `w` bytes. */
  datatype Code = Str(n: nat) | Num(w: nat)

  datatype Value = Bytes(s: seq<byte>) | Number(v: nat)

  function NumberIn(x: Value): nat { if x.Number? then x.v else 0 }

  function Width(c: Code): nat {
    match c
    case Str(n) => n
    case Num(w) => w
  }

  function Size(format: seq<Code>): nat {
    if format == [] then 0 else Width(format[0]) + Size(format[1..])
  }

  lemma {:induction false} SizeOfBoth(f: seq<Code>, g: seq<Code>)
    ensures Size(f + g) == Size(f) + Size(g)
  {
    if f == [] {
      assert f + g == g;
    } else {
      assert (f + g)[1..] == f[1..] + g;
      SizeOfBoth(f[1..], g);
    }
  }

  /** The value is one `struct.pack` accepts as it is for the code. */
  predicate Suits(c: Code, x: Value) {
    match c
    case Str(n) => x.Bytes? && |x.s| == n
    case Num(w) => x.Number? && x.v < Pow256(w)
  }

  predicate AllSuit(format: seq<Code>, xs: seq<Value>) {
    |format| == |xs| && forall i :: 0 <= i < |xs| ==> Suits(format[i], xs[i])
  }

  function Encode(x: Value, c: Code): (s: seq<byte>)
    requires Suits(c, x)
    ensures |s| == Width(c)
  {
    match x
    case Bytes(s) => s
    case Number(v) => LE(v, c.w)
  }

  function Decode(s: seq<byte>, c: Code): Value {
    match c
    case Str(_) => Bytes(s)
    case Num(_) => Number(FromLE(s))
  }

  function Pack(format: seq<Code>, xs: seq<Value>): (s: seq<byte>)
    requires AllSuit(format, xs)
    ensures |s| == Size(format)
  {
    if format == [] then [] else Encode(xs[0], format[0]) + Pack(format[1..], xs[1..])
  }

  function Unpack(format: seq<Code>, s: seq<byte>): (xs: seq<Value>)
    requires |s| == Size(format)
    ensures |xs| == |format|
  {
    if format == [] then []
    else
      var w := Width(format[0]);
      [Decode(s[..w], format[0])] + Unpack(format[1..], s[w..])
  }

  // ----- What stands where in a packed record

  /** How far field `i` is from field `k`. */
  function Offset(format: seq<Code>, k: nat, i: nat): nat
    requires k <= i <= |format|
    decreases i - k
  {
    if k == i then 0 else Width(format[k]) + Offset(format, k + 1, i)
  }

  lemma {:induction false} OffsetOfNext(format: seq<Code>, k: nat, i: nat)
    requires k <= i < |format|
    ensures Offset(format, k, i + 1) == Offset(format, k, i) + Width(format[i])
    decreases i - k
  {
    if k < i {
      OffsetOfNext(format, k + 1, i);
    } else {
      assert Offset(format, i + 1, i + 1) == 0;
    }
  }

  lemma SuitFrom(format: seq<Code>, xs: seq<Value>, k: nat)
    requires AllSuit(format, xs) && k <= |format|
    ensures AllSuit(format[k..], xs[k..])
  {
  }

  /** The record from field `k` on. */
  function PackFrom(format: seq<Code>, xs: seq<Value>, k: nat): (s: seq<byte>)
    requires AllSuit(format, xs) && k <= |format|
  {
    SuitFrom(format, xs, k);
    Pack(format[k..], xs[k..])
  }

  lemma FromNext(format: seq<Code>, xs: seq<Value>, k: nat)
    requires AllSuit(format, xs) && k < |format|
    ensures PackFrom(format, xs, k) == Encode(xs[k], format[k]) + PackFrom(format, xs, k + 1)
  {
    assert format[k..][1..] == format[k + 1..] && xs[k..][1..] == xs[k + 1..];
  }

  lemma {:induction false} FieldFrom(format: seq<Code>, xs: seq<Value>, k: nat, i: nat)
    requires AllSuit(format, xs) && k <= i < |format|
    ensures Offset(format, k, i) + Width(format[i]) <= |PackFrom(format, xs, k)|
    ensures Slice(PackFrom(format, xs, k), Offset(format, k, i), Width(format[i])) == Encode(xs[i], format[i])
    decreases i - k
  {
    FromNext(format, xs, k);
    var first, rest := Encode(xs[k], format[k]), PackFrom(format, xs, k + 1);
    if k < i {
      FieldFrom(format, xs, k + 1, i);
      SliceBehind(first, rest, Offset(format, k + 1, i), Width(format[i]));
    } else {
      assert Slice(first + rest, 0, |first|) == first;
    }
  }

  lemma SliceBehind(first: seq<byte>, rest: seq<byte>, at: nat, len: nat)
    requires at + len <= |rest|
    ensures Slice(first + rest, |first| + at, len) == Slice(rest, at, len)
  {
  }

  /** Field `i` stands behind the fields before it. */
  lemma FieldAt(format: seq<Code>, xs: seq<Value>, i: nat)
    requires AllSuit(format, xs) && i < |format|
    ensures Offset(format, 0, i) + Width(format[i]) <= Size(format)
    ensures Slice(Pack(format, xs), Offset(format, 0, i), Width(format[i])) == Encode(xs[i], format[i])
  {
    FieldFrom(format, xs, 0, i);
    assert format[0..] == format && xs[0..] == xs;
  }

  /** A reader who takes field `i` to be at `at` finds its value there. */
  predicate Reads(s: seq<byte>, c: Code, x: Value, at: nat)
    requires Suits(c, x)
  {
    && at + Width(c) <= |s|
    && (c.Str? ==> Slice(s, at, c.n) == x.s)
    && (c == Num(2) ==> Num16(s, at) == x.v)
    && (c == Num(4) ==> Num32(s, at) == x.v)
    && (c == Num(8) ==> Num64(s, at) == x.v)
  }

  lemma ReadAt(format: seq<Code>, xs: seq<Value>, i: nat, at: nat)
    requires AllSuit(format, xs) && i < |format| && at == Offset(format, 0, i)
    ensures Reads(Pack(format, xs), format[i], xs[i], at)
  {
    FieldAt(format, xs, i);
    SliceReads(Pack(format, xs), format[i], xs[i], at);
  }

  lemma SliceReads(s: seq<byte>, c: Code, x: Value, at: nat)
    requires Suits(c, x) && at + Width(c) <= |s| && Slice(s, at, Width(c)) == Encode(x, c)
    ensures Reads(s, c, x, at)
  {
    if c.Num? {
      LEIs(x.v);
      assert Pow256(2) == 0x1_0000 && Pow256(4) == 0x1_0000_0000 && Pow256(8) == 0x1_0000_0000_0000_0000;
      NumOfSlice(s, at, Width(c));
    }
  }

  lemma NumOfSlice(s: seq<byte>, at: nat, w: nat)
    requires at + w <= |s|
    ensures w == 2 ==> Num16(s, at) == Num16(Slice(s, at, w), 0)
    ensures w == 4 ==> Num32(s, at) == Num32(Slice(s, at, w), 0)
    ensures w == 8 ==> Num64(s, at) == Num64(Slice(s, at, w), 0)
  {
  }

  lemma {:induction false} UnpackPack(format: seq<Code>, xs: seq<Value>)
    requires AllSuit(format, xs)
    ensures Unpack(format, Pack(format, xs)) == xs
    decreases |format|
  {
    if format != [] {
      var s := Pack(format, xs);
      var w := Width(format[0]);
      assert s[..w] == Encode(xs[0], format[0]) && s[w..] == Pack(format[1..], xs[1..]);
      UnpackPack(format[1..], xs[1..]);
      if format[0].Num? {
        LERoundTrip(xs[0].v, w);
      }
      assert xs == [xs[0]] + xs[1..];
    }
  }
}
