/** Sparse images as values: serialising them, the simple expansion, and decoding as the inverse. */
module SparseRoundTrip {
  import opened Wrappers
  import opened ByteFile
  import opened Sparse
  import opened SparseFills

  /** `extra`: header bytes of the chunk beyond the first 12. */
  datatype Chunk =
    | Raw(extra: seq<byte>, blocks: nat, data: seq<byte>)
    | Fill(extra: seq<byte>, blocks: nat, word: seq<byte>)
    | DontCare(extra: seq<byte>, blocks: nat)
    | Crc32(extra: seq<byte>, sum: seq<byte>)

  datatype Image = Image(
    chunkHdrSz: nat, blkSz: nat, chunks: seq<Chunk>,
    major: nat, minor: nat, checksum: nat,
    extra: seq<byte>,      // header bytes beyond the 28 the script knows
    trailing: seq<byte>)   // whatever follows the last chunk

  function Blocks(c: Chunk): nat { if c.Crc32? then 0 else c.blocks }

  function Kind(c: Chunk): nat {
    match c
    case Raw(_, _, _) => CHUNK_RAW
    case Fill(_, _, _) => CHUNK_FILL
    case DontCare(_, _) => CHUNK_DONT_CARE
    case Crc32(_, _) => CHUNK_CRC32
  }

  function Payload(c: Chunk): seq<byte> {
    match c
    case Raw(_, _, data) => data
    case Fill(_, _, word) => word
    case DontCare(_, _) => []
    case Crc32(_, sum) => sum
  }

  function TotalBlocks(chunks: seq<Chunk>): nat {
    if chunks == [] then 0 else Blocks(chunks[0]) + TotalBlocks(chunks[1..])
  }

  /** The chunk is as long as its header says, and the header can say it. */
  predicate GoodChunk(c: Chunk, blkSz: nat) {
    && Blocks(c) < 0x1_0000_0000 && 12 + |c.extra| + |Payload(c)| < 0x1_0000_0000
    && match c
       case Raw(_, blocks, data) => |data| == blocks * blkSz
       case Fill(_, _, word) => |word| == 4
       case DontCare(_, _) => true
       case Crc32(_, sum) => |sum| == 4
  }

  predicate GoodChunks(chunks: seq<Chunk>, blkSz: nat) {
    forall i :: 0 <= i < |chunks| ==> GoodChunk(chunks[i], blkSz)
  }

  /** Every chunk header is 12 bytes and `extra` more. */
  predicate HeadersOf(chunks: seq<Chunk>, extra: nat) {
    forall i :: 0 <= i < |chunks| ==> |chunks[i].extra| == extra
  }

  predicate WellFormed(img: Image) {
    && GoodChunks(img.chunks, img.blkSz)
    && 12 <= img.chunkHdrSz < 0x1_0000 && HeadersOf(img.chunks, img.chunkHdrSz - 12)
    && img.blkSz < 0x1_0000_0000 && TotalBlocks(img.chunks) < 0x1_0000_0000 && |img.chunks| < 0x1_0000_0000
    && img.major < 0x1_0000 && img.minor < 0x1_0000 && img.checksum < 0x1_0000_0000
    && 28 + |img.extra| < 0x1_0000
  }

  // ----- The simple expansion, block by block

  function ExpandChunk(c: Chunk, blkSz: nat): (s: seq<byte>)
    requires GoodChunk(c, blkSz)
    ensures |s| == Blocks(c) * blkSz
  {
    match c
    case Raw(_, _, data) => data
    case Fill(_, blocks, word) => FillBlocks(word, blkSz, blocks)
    case DontCare(_, blocks) => Zeros(blocks * blkSz)
    case Crc32(_, _) => []
  }

  function Expand(chunks: seq<Chunk>, blkSz: nat): seq<byte>
    requires GoodChunks(chunks, blkSz)
  {
    if chunks == [] then [] else ExpandChunk(chunks[0], blkSz) + Expand(chunks[1..], blkSz)
  }

  lemma {:induction false} ExpandSize(chunks: seq<Chunk>, blkSz: nat)
    requires GoodChunks(chunks, blkSz)
    ensures |Expand(chunks, blkSz)| == TotalBlocks(chunks) * blkSz
  {
    if chunks != [] {
      ExpandSize(chunks[1..], blkSz);
      BlocksAdd(Blocks(chunks[0]), TotalBlocks(chunks[1..]), blkSz);
      var first, rest := ExpandChunk(chunks[0], blkSz), Expand(chunks[1..], blkSz);
      assert |first + rest| == |first| + |rest|;
    }
  }

  lemma BlocksAdd(a: nat, b: nat, blkSz: nat)
    ensures (a + b) * blkSz == a * blkSz + b * blkSz
  {
  }

  // ----- Serialising

  function ChunkValues(c: Chunk): seq<Value> {
    [Number(Kind(c)), Number(0), Number(Blocks(c)), Number(12 + |c.extra| + |Payload(c)|)]
  }

  lemma ChunkSuits(c: Chunk, blkSz: nat)
    requires GoodChunk(c, blkSz)
    ensures AllSuit(CHUNK_HEADER, ChunkValues(c)) && Size(CHUNK_HEADER) == 12
  {
    assert Pow256(2) == 0x1_0000;
  }

  /** Two and four bytes of a number, the least significant first. */
  function Bytes2(n: nat): (s: seq<byte>) { [n % 256, n / 256 % 256] }

  function Bytes4(n: nat): (s: seq<byte>) { Bytes2(n) + Bytes2(n / 0x1_0000) }

  function TypeBytes(c: Chunk): (s: seq<byte>) {
    match c
    case Raw(_, _, _) => [0xC1, 0xCA]
    case Fill(_, _, _) => [0xC2, 0xCA]
    case DontCare(_, _) => [0xC3, 0xCA]
    case Crc32(_, _) => [0xC4, 0xCA]
  }

  /** Type, two reserved bytes, size in blocks, size in bytes; what else the header holds; the payload. */
  function EncodeChunk(c: Chunk, blkSz: nat): seq<byte>
    requires GoodChunk(c, blkSz)
  {
    ChunkHeader(c) + (c.extra + Payload(c))
  }

  function ChunkHeader(c: Chunk): (s: seq<byte>)
    ensures |s| == 12
  {
    TypeBytes(c) + [0, 0] + Bytes4(Blocks(c)) + Bytes4(12 + |c.extra| + |Payload(c)|)
  }

  function EncodeChunks(chunks: seq<Chunk>, blkSz: nat): seq<byte>
    requires GoodChunks(chunks, blkSz)
  {
    if chunks == [] then [] else EncodeChunk(chunks[0], blkSz) + EncodeChunks(chunks[1..], blkSz)
  }

  function HeaderValues(img: Image, count: nat): seq<Value> {
    [Number(MAGIC), Number(img.major), Number(img.minor), Number(28 + |img.extra|), Number(img.chunkHdrSz),
     Number(img.blkSz), Number(TotalBlocks(img.chunks)), Number(count), Number(img.checksum)]
  }

  lemma HeaderSuits(img: Image, count: nat)
    requires WellFormed(img) && count < 0x1_0000_0000
    ensures AllSuit(FILE_HEADER, HeaderValues(img, count)) && Size(FILE_HEADER) == 28
  {
    FileHeaderSize();
    assert Pow256(4) == 0x1_0000_0000;
  }

  /** The file header as bytes: magic, version, the two header sizes, block size, blocks, chunks, checksum. */
  function FileHeader(img: Image, count: nat): (s: seq<byte>)
    ensures |s| == 28
  {
    [0x3A, 0xFF, 0x26, 0xED] + Bytes2(img.major) + Bytes2(img.minor) + Bytes2(28 + |img.extra|) + Bytes2(img.chunkHdrSz)
    + Bytes4(img.blkSz) + Bytes4(TotalBlocks(img.chunks)) + Bytes4(count) + Bytes4(img.checksum)
  }

  /** The image, its header announcing `count` chunks. */
  function SerializeCounting(img: Image, count: nat): seq<byte>
    requires WellFormed(img)
  {
    FileHeader(img, count) + (img.extra + (EncodeChunks(img.chunks, img.blkSz) + img.trailing))
  }

  function Serialize(img: Image): seq<byte>
    requires WellFormed(img)
  {
    SerializeCounting(img, |img.chunks|)
  }

  // ----- The bytes are what the script's formats take apart

  lemma LEBytes(n: nat)
    ensures LE(n, 2) == Bytes2(n) && LE(n, 4) == Bytes4(n)
  {
    assert LE(n, 2) == [n % 256] + LE(n / 256, 1);
    assert LE(n, 4) == [n % 256] + ([n / 256 % 256] + LE(n / 256 / 256, 2));
    assert n / 256 / 256 == n / 0x1_0000;
  }

  lemma TypeIsKind(c: Chunk)
    ensures LE(Kind(c), 2) == TypeBytes(c)
  {
    LEBytes(Kind(c));
  }

  lemma ChunkHeaderIsPacked(c: Chunk, blkSz: nat)
    requires GoodChunk(c, blkSz)
    ensures AllSuit(CHUNK_HEADER, ChunkValues(c)) && Pack(CHUNK_HEADER, ChunkValues(c)) == ChunkHeader(c)
  {
    ChunkSuits(c, blkSz);
    var xs := ChunkValues(c);
    PackFour(CHUNK_HEADER, xs, 0);
    PackEnds(CHUNK_HEADER, xs);
    ChunkFieldBytes(c);
    var four := Encode(xs[0], CHUNK_HEADER[0]) + Encode(xs[1], CHUNK_HEADER[1]) + Encode(xs[2], CHUNK_HEADER[2])
      + Encode(xs[3], CHUNK_HEADER[3]);
    assert four + [] == four;
  }

  lemma ChunkFieldBytes(c: Chunk)
    requires AllSuit(CHUNK_HEADER, ChunkValues(c))
    ensures var xs := ChunkValues(c);
      && Encode(xs[0], CHUNK_HEADER[0]) == TypeBytes(c) && Encode(xs[1], CHUNK_HEADER[1]) == [0, 0]
      && Encode(xs[2], CHUNK_HEADER[2]) == Bytes4(Blocks(c))
      && Encode(xs[3], CHUNK_HEADER[3]) == Bytes4(12 + |c.extra| + |Payload(c)|)
  {
    TypeIsKind(c);
    LEBytes(0);
    LEBytes(Blocks(c));
    LEBytes(12 + |c.extra| + |Payload(c)|);
  }

  lemma PackFour(format: seq<Code>, xs: seq<Value>, k: nat)
    requires AllSuit(format, xs) && k + 4 <= |format|
    ensures PackFrom(format, xs, k)
         == Encode(xs[k], format[k]) + Encode(xs[k + 1], format[k + 1]) + Encode(xs[k + 2], format[k + 2])
          + Encode(xs[k + 3], format[k + 3]) + PackFrom(format, xs, k + 4)
  {
    FromNext(format, xs, k);
    FromNext(format, xs, k + 1);
    FromNext(format, xs, k + 2);
    FromNext(format, xs, k + 3);
  }

  lemma PackNine(format: seq<Code>, xs: seq<Value>)
    requires AllSuit(format, xs) && |format| == 9
    ensures Pack(format, xs)
         == Encode(xs[0], format[0]) + Encode(xs[1], format[1]) + Encode(xs[2], format[2]) + Encode(xs[3], format[3])
          + Encode(xs[4], format[4]) + Encode(xs[5], format[5]) + Encode(xs[6], format[6]) + Encode(xs[7], format[7])
          + Encode(xs[8], format[8])
  {
    FromNext(format, xs, 0);
    PackFour(format, xs, 1);
    PackFour(format, xs, 5);
    PackEnds(format, xs);
    NineInARow(Encode(xs[0], format[0]), Encode(xs[1], format[1]), Encode(xs[2], format[2]), Encode(xs[3], format[3]),
      Encode(xs[4], format[4]), Encode(xs[5], format[5]), Encode(xs[6], format[6]), Encode(xs[7], format[7]),
      Encode(xs[8], format[8]));
  }

  lemma PackEnds(format: seq<Code>, xs: seq<Value>)
    requires AllSuit(format, xs)
    ensures PackFrom(format, xs, 0) == Pack(format, xs) && PackFrom(format, xs, |format|) == []
  {
    assert format[0..] == format && xs[0..] == xs;
  }

  lemma NineInARow(a: seq<byte>, b: seq<byte>, c: seq<byte>, d: seq<byte>, e: seq<byte>,
      f: seq<byte>, g: seq<byte>, h: seq<byte>, i: seq<byte>)
    ensures a + (b + c + d + e + (f + g + h + i + [])) == a + b + c + d + e + f + g + h + i
  {
    assert f + g + h + i + [] == f + g + h + i;
    FiveInARow(b + c + d + e, f, g, h, i);
    FiveInARow(a, b, c, d, e);
    FiveInARow(a + b + c + d + e, f, g, h, i);
    Regroup(a, b + c + d + e, f + g + h + i);
  }

  lemma FiveInARow(a: seq<byte>, b: seq<byte>, c: seq<byte>, d: seq<byte>, e: seq<byte>)
    ensures a + (b + c + d + e) == a + b + c + d + e
  {
  }

  lemma FileHeaderIsPacked(img: Image, count: nat)
    requires WellFormed(img) && count < 0x1_0000_0000
    ensures AllSuit(FILE_HEADER, HeaderValues(img, count)) && Pack(FILE_HEADER, HeaderValues(img, count)) == FileHeader(img, count)
  {
    HeaderSuits(img, count);
    PackNine(FILE_HEADER, HeaderValues(img, count));
    ShortFields(img, count);
    LongFields(img, count);
  }

  lemma ShortFields(img: Image, count: nat)
    requires AllSuit(FILE_HEADER, HeaderValues(img, count))
    ensures var xs := HeaderValues(img, count);
      && Encode(xs[1], FILE_HEADER[1]) == Bytes2(img.major) && Encode(xs[2], FILE_HEADER[2]) == Bytes2(img.minor)
      && Encode(xs[3], FILE_HEADER[3]) == Bytes2(28 + |img.extra|) && Encode(xs[4], FILE_HEADER[4]) == Bytes2(img.chunkHdrSz)
  {
    LEBytes(img.major);
    LEBytes(img.minor);
    LEBytes(28 + |img.extra|);
    LEBytes(img.chunkHdrSz);
  }

  lemma LongFields(img: Image, count: nat)
    requires AllSuit(FILE_HEADER, HeaderValues(img, count))
    ensures var xs := HeaderValues(img, count);
      && Encode(xs[0], FILE_HEADER[0]) == [0x3A, 0xFF, 0x26, 0xED]
      && Encode(xs[5], FILE_HEADER[5]) == Bytes4(img.blkSz) && Encode(xs[6], FILE_HEADER[6]) == Bytes4(TotalBlocks(img.chunks))
      && Encode(xs[7], FILE_HEADER[7]) == Bytes4(count) && Encode(xs[8], FILE_HEADER[8]) == Bytes4(img.checksum)
  {
    LEBytes(MAGIC);
    LEBytes(img.blkSz);
    LEBytes(TotalBlocks(img.chunks));
    LEBytes(count);
    LEBytes(img.checksum);
  }

  // ----- One chunk

  /** What the script leaves in the place of a chunk. */
  function LeftBy(c: Chunk, blkSz: nat): (s: seq<byte>)
    requires GoodChunk(c, blkSz)
    ensures |s| == Blocks(c) * blkSz
  {
    if c.Fill? then FillLeft(c.word, blkSz, c.blocks) else ExpandChunk(c, blkSz)
  }

  lemma CutFront(a: seq<byte>, b: seq<byte>)
    ensures ReadExact(a + b, |a|) == Some(a) && Skip(a + b, |a|) == b
  {
  }

  lemma HeaderRead(c: Chunk, blkSz: nat)
    requires GoodChunk(c, blkSz)
    ensures AllSuit(CHUNK_HEADER, ChunkValues(c)) && Size(CHUNK_HEADER) == 12
    ensures ChunkFields(ChunkHeader(c)) == ChunkValues(c)
  {
    ChunkSuits(c, blkSz);
    ChunkHeaderIsPacked(c, blkSz);
    UnpackPack(CHUNK_HEADER, ChunkValues(c));
  }

  lemma BodyDecodes(c: Chunk, blkSz: nat, rest: seq<byte>, cur: nat, done: seq<byte>, now: seq<byte>, left: nat)
    requires GoodChunk(c, blkSz) && |done| == cur * blkSz && now == LeftBy(c, blkSz)
    ensures DecodeBody(State(Payload(c) + rest, cur, done + Zeros(|now| + left)), Kind(c), Blocks(c), |Payload(c)|, blkSz)
         == Next(State(rest, cur + Blocks(c), done + now + Zeros(left)))
  {
    CutFront(Payload(c), rest);
    match c
    case Raw(_, _, data) => WriteOverZeros(done, data, |now|, left);
    case Fill(_, blocks, word) =>
      FillNoLonger(word, blkSz, blocks);
      WriteOverZeros(done, FillBytes(word, blkSz, blocks), |now|, left);
    case DontCare(_, blocks) => assert Payload(c) + rest == rest; ZerosSplit(done, |now|, left);
    case Crc32(_, _) => assert done + [] == done;
  }

  lemma WriteOverZeros(done: seq<byte>, s: seq<byte>, n: nat, left: nat)
    requires |s| <= n
    ensures WriteAt(done + Zeros(n + left), |done|, s) == done + Resize(s, n) + Zeros(left)
  {
    var out, meant := WriteAt(done + Zeros(n + left), |done|, s), done + Resize(s, n) + Zeros(left);
    WriteSize(done + Zeros(n + left), |done|, s);
    forall k | 0 <= k < |out|
      ensures out[k] == meant[k]
    {
      WriteIndex(done + Zeros(n + left), |done|, s, k);
    }
  }

  lemma ZerosSplit(done: seq<byte>, a: nat, b: nat)
    ensures done + Zeros(a + b) == done + Zeros(a) + Zeros(b)
  {
  }

  lemma ChunkDecodes(c: Chunk, blkSz: nat, rest: seq<byte>, cur: nat, done: seq<byte>, now: seq<byte>, left: nat)
    requires GoodChunk(c, blkSz) && c.extra == [] && |done| == cur * blkSz && now == LeftBy(c, blkSz)
    ensures DecodeChunk(State(EncodeChunk(c, blkSz) + rest, cur, done + Zeros(|now| + left)), 12, blkSz)
         == Next(State(rest, cur + Blocks(c), done + now + Zeros(left)))
  {
    HeaderRead(c, blkSz);
    var header := ChunkHeader(c);
    assert [] + Payload(c) == Payload(c);
    Regroup(header, Payload(c), rest);
    CutFront(header, Payload(c) + rest);
    BodyDecodes(c, blkSz, rest, cur, done, now, left);
  }

  // ----- All chunks

  /** What the script leaves in the place of all chunks. */
  function LeftByAll(chunks: seq<Chunk>, blkSz: nat): seq<byte>
    requires GoodChunks(chunks, blkSz)
  {
    if chunks == [] then [] else LeftBy(chunks[0], blkSz) + LeftByAll(chunks[1..], blkSz)
  }

  lemma {:induction false} LeftSize(chunks: seq<Chunk>, blkSz: nat)
    requires GoodChunks(chunks, blkSz)
    ensures |LeftByAll(chunks, blkSz)| == TotalBlocks(chunks) * blkSz
  {
    if chunks != [] {
      LeftSize(chunks[1..], blkSz);
      BlocksAdd(Blocks(chunks[0]), TotalBlocks(chunks[1..]), blkSz);
    }
  }

  /** Chunks the script can read. */
  predicate Readable(chunks: seq<Chunk>, blkSz: nat) {
    GoodChunks(chunks, blkSz) && HeadersOf(chunks, 0)
  }

  lemma ReadableFrom(chunks: seq<Chunk>, blkSz: nat, i: nat)
    requires Readable(chunks, blkSz) && i <= |chunks|
    ensures Readable(chunks[i..], blkSz) && Readable(chunks[..i], blkSz)
  {
  }

  /** The decoder when it has `i` chunks behind it. */
  function StateAt(chunks: seq<Chunk>, blkSz: nat, trailing: seq<byte>, i: nat): State
    requires Readable(chunks, blkSz) && i <= |chunks|
  {
    ReadableFrom(chunks, blkSz, i);
    State(EncodeChunks(chunks[i..], blkSz) + trailing, TotalBlocks(chunks[..i]),
      LeftByAll(chunks[..i], blkSz) + Zeros(|LeftByAll(chunks[i..], blkSz)|))
  }

  lemma {:induction false} BlocksUpTo(chunks: seq<Chunk>, i: nat)
    requires i < |chunks|
    ensures TotalBlocks(chunks[..i + 1]) == TotalBlocks(chunks[..i]) + Blocks(chunks[i])
    decreases i
  {
    if i == 0 {
      assert chunks[..1] == [chunks[0]];
    } else {
      assert chunks[..i + 1][1..] == chunks[1..][..i] && chunks[..i][1..] == chunks[1..][..i - 1];
      BlocksUpTo(chunks[1..], i - 1);
    }
  }

  lemma {:induction false} LeftUpTo(chunks: seq<Chunk>, blkSz: nat, i: nat)
    requires GoodChunks(chunks, blkSz) && i < |chunks|
    ensures GoodChunks(chunks[..i], blkSz) && GoodChunks(chunks[..i + 1], blkSz)
    ensures LeftByAll(chunks[..i + 1], blkSz) == LeftByAll(chunks[..i], blkSz) + LeftBy(chunks[i], blkSz)
    decreases i
  {
    var first, tail := chunks[0], chunks[1..];
    if i == 0 {
      LeftFirst(first, [], blkSz);
      assert chunks[..1] == [first] + [] && LeftBy(first, blkSz) + [] == [] + LeftBy(first, blkSz);
    } else {
      LeftUpTo(tail, blkSz, i - 1);
      LeftFirst(first, tail[..i], blkSz);
      LeftFirst(first, tail[..i - 1], blkSz);
      assert chunks[..i + 1] == [first] + tail[..i] && chunks[..i] == [first] + tail[..i - 1];
      Regroup(LeftBy(first, blkSz), LeftByAll(tail[..i - 1], blkSz), LeftBy(chunks[i], blkSz));
    }
  }

  lemma LeftFirst(c: Chunk, rest: seq<Chunk>, blkSz: nat)
    requires GoodChunk(c, blkSz) && GoodChunks(rest, blkSz)
    ensures GoodChunks([c] + rest, blkSz) && LeftByAll([c] + rest, blkSz) == LeftBy(c, blkSz) + LeftByAll(rest, blkSz)
  {
    assert ([c] + rest)[1..] == rest;
  }

  /** The states before and after chunk `i`, in terms of that chunk. */
  lemma AroundChunk(chunks: seq<Chunk>, blkSz: nat, trailing: seq<byte>, i: nat)
      returns (s: State, t: State, later: seq<byte>, done: seq<byte>, left: nat)
    requires Readable(chunks, blkSz) && i < |chunks|
    ensures s == StateAt(chunks, blkSz, trailing, i) && t == StateAt(chunks, blkSz, trailing, i + 1)
    ensures s == State(EncodeChunk(chunks[i], blkSz) + later, s.cur, done + Zeros(|LeftBy(chunks[i], blkSz)| + left))
    ensures t == State(later, s.cur + Blocks(chunks[i]), done + LeftBy(chunks[i], blkSz) + Zeros(left))
    ensures |done| == s.cur * blkSz
  {
    var c := chunks[i];
    ReadableFrom(chunks, blkSz, i);
    ReadableFrom(chunks, blkSz, i + 1);
    LeftUpTo(chunks, blkSz, i);
    BlocksUpTo(chunks, i);
    LeftSize(chunks[..i], blkSz);
    s, t := StateAt(chunks, blkSz, trailing, i), StateAt(chunks, blkSz, trailing, i + 1);
    later := EncodeChunks(chunks[i + 1..], blkSz) + trailing;
    done := LeftByAll(chunks[..i], blkSz);
    left := |LeftByAll(chunks[i + 1..], blkSz)|;
    Regroup(EncodeChunk(c, blkSz), EncodeChunks(chunks[i + 1..], blkSz), trailing);
  }

  /** One chunk brings the decoder one chunk further. */
  lemma StepAt(chunks: seq<Chunk>, blkSz: nat, trailing: seq<byte>, i: nat)
    requires Readable(chunks, blkSz) && i < |chunks|
    ensures DecodeChunk(StateAt(chunks, blkSz, trailing, i), 12, blkSz) == Next(StateAt(chunks, blkSz, trailing, i + 1))
  {
    var s, t, later, done, left := AroundChunk(chunks, blkSz, trailing, i);
    FirstDecodes(s, t, chunks[i], blkSz, EncodeChunk(chunks[i], blkSz), later, done, LeftBy(chunks[i], blkSz), left);
  }

  lemma FirstDecodes(s: State, t: State, c: Chunk, blkSz: nat, e: seq<byte>, later: seq<byte>, done: seq<byte>, now: seq<byte>, left: nat)
    requires GoodChunk(c, blkSz) && c.extra == []
    requires e == EncodeChunk(c, blkSz) && now == LeftBy(c, blkSz)
    requires s == State(e + later, s.cur, done + Zeros(|now| + left)) && |done| == s.cur * blkSz
    requires t == State(later, s.cur + Blocks(c), done + now + Zeros(left))
    ensures DecodeChunk(s, 12, blkSz) == Next(t)
  {
    ChunkDecodes(c, blkSz, later, s.cur, done, now, left);
  }

  /** In `n` chunks the decoder gets from `s` to `t`, whatever is announced to come after them. */
  ghost predicate Leads(s: State, n: nat, t: State, blkSz: nat) {
    forall more: nat :: DecodeChunks(s, n + more, 12, blkSz) == DecodeChunks(t, more, 12, blkSz)
  }

  lemma LeadsNowhere(s: State, blkSz: nat)
    ensures Leads(s, 0, s, blkSz)
  {
  }

  lemma LeadsOn(s: State, t: State, n: nat, u: State, blkSz: nat)
    requires DecodeChunk(s, 12, blkSz) == Next(t) && Leads(t, n, u, blkSz)
    ensures Leads(s, n + 1, u, blkSz)
  {
    forall more: nat
      ensures DecodeChunks(s, n + 1 + more, 12, blkSz) == DecodeChunks(u, more, 12, blkSz)
    {
      StepsOn(s, t, n + 1 + more, blkSz);
      assert DecodeChunks(t, n + more, 12, blkSz) == DecodeChunks(u, more, 12, blkSz);
    }
  }

  lemma StepsOn(s: State, t: State, n: nat, blkSz: nat)
    requires n > 0 && DecodeChunk(s, 12, blkSz) == Next(t)
    ensures DecodeChunks(s, n, 12, blkSz) == DecodeChunks(t, n - 1, 12, blkSz)
  {
  }

  /** The chunks listed lead the decoder to their end. */
  lemma {:induction false} ListLeads(chunks: seq<Chunk>, blkSz: nat, trailing: seq<byte>, i: nat, s: State, t: State)
    requires Readable(chunks, blkSz) && i <= |chunks|
    requires s == StateAt(chunks, blkSz, trailing, i) && t == StateAt(chunks, blkSz, trailing, |chunks|)
    ensures Leads(s, |chunks| - i, t, blkSz)
    decreases |chunks| - i
  {
    if i == |chunks| {
      LeadsNowhere(s, blkSz);
    } else {
      var next := StateAt(chunks, blkSz, trailing, i + 1);
      StepAt(chunks, blkSz, trailing, i);
      ListLeads(chunks, blkSz, trailing, i + 1, next, t);
      LeadsOn(s, next, |chunks| - i - 1, t, blkSz);
    }
  }

  lemma StateAtEnd(chunks: seq<Chunk>, blkSz: nat, trailing: seq<byte>)
    requires Readable(chunks, blkSz)
    ensures StateAt(chunks, blkSz, trailing, |chunks|) == State(trailing, TotalBlocks(chunks), LeftByAll(chunks, blkSz))
  {
    var n := |chunks|;
    assert chunks[..n] == chunks && chunks[n..] == [];
    assert [] + trailing == trailing;
    assert LeftByAll(chunks, blkSz) + Zeros(0) == LeftByAll(chunks, blkSz);
  }

  lemma Regroup(a: seq<byte>, b: seq<byte>, c: seq<byte>)
    ensures a + b + c == a + (b + c)
  {
  }

  // ----- Whole images

  lemma AfterHeader(header: seq<byte>, v: seq<Value>, extra: seq<byte>, chunks: seq<byte>, n: nat, hdr: nat, blkSz: nat, total: nat)
    requires |header| == 28 && |v| == 9 && FileFields(header) == v
    requires v[0] == Number(MAGIC) && v[3] == Number(28 + |extra|) && v[4] == Number(hdr)
    requires v[5] == Number(blkSz) && v[6] == Number(total) && v[7] == Number(n)
    ensures DecodeImage(header + (extra + chunks)) == DecodeChunks(State(chunks, 0, Zeros(total * blkSz)), n, hdr, blkSz)
  {
    CutFront(header, extra + chunks);
    CutFront(extra, chunks);
    assert extra == [] ==> extra + chunks == chunks;
  }

  lemma DecodeStarts(img: Image, count: nat) returns (s: State)
    requires WellFormed(img) && count < 0x1_0000_0000
    ensures s == StartOf(img)
    ensures DecodeImage(SerializeCounting(img, count)) == DecodeChunks(s, count, img.chunkHdrSz, img.blkSz)
  {
    s := StartOf(img);
    HeaderIsRead(img, count);
    AfterHeader(FileHeader(img, count), HeaderValues(img, count), img.extra, s.rest, count, img.chunkHdrSz, img.blkSz,
      TotalBlocks(img.chunks));
  }

  /** The decoder behind the file header, and behind the chunks listed. */
  function StartOf(img: Image): State
    requires WellFormed(img)
  {
    State(EncodeChunks(img.chunks, img.blkSz) + img.trailing, 0, Zeros(TotalBlocks(img.chunks) * img.blkSz))
  }

  function EndOf(img: Image): State
    requires WellFormed(img)
  {
    State(img.trailing, TotalBlocks(img.chunks), LeftByAll(img.chunks, img.blkSz))
  }

  lemma HeaderIsRead(img: Image, count: nat)
    requires WellFormed(img) && count < 0x1_0000_0000
    ensures FileFields(FileHeader(img, count)) == HeaderValues(img, count)
  {
    HeaderSuits(img, count);
    FileHeaderIsPacked(img, count);
    UnpackPack(FILE_HEADER, HeaderValues(img, count));
  }

  lemma FromStartToEnd(img: Image)
    requires WellFormed(img) && img.chunkHdrSz == 12
    ensures Leads(StartOf(img), |img.chunks|, EndOf(img), img.blkSz)
  {
    EndsAre(img, StartOf(img), EndOf(img));
    ListLeads(img.chunks, img.blkSz, img.trailing, 0, StartOf(img), EndOf(img));
  }

  lemma LeadsFor(s: State, n: nat, t: State, blkSz: nat, more: nat)
    requires Leads(s, n, t, blkSz)
    ensures DecodeChunks(s, n + more, 12, blkSz) == DecodeChunks(t, more, 12, blkSz)
  {
  }

  lemma EndsAre(img: Image, s: State, t: State)
    requires WellFormed(img) && img.chunkHdrSz == 12 && s == StartOf(img) && t == EndOf(img)
    ensures Readable(img.chunks, img.blkSz)
    ensures s == StateAt(img.chunks, img.blkSz, img.trailing, 0)
    ensures t == StateAt(img.chunks, img.blkSz, img.trailing, |img.chunks|)
  {
    StartsAtZero(img.chunks, img.blkSz, img.trailing);
    StateAtEnd(img.chunks, img.blkSz, img.trailing);
  }

  /** However many chunks the header announces beyond those listed, the decoder gets to the end of the list with what
      the script leaves for each of them. */
  lemma DecodesTheList(img: Image, more: nat)
    requires WellFormed(img) && img.chunkHdrSz == 12 && |img.chunks| + more < 0x1_0000_0000
    ensures DecodeImage(SerializeCounting(img, |img.chunks| + more)) == DecodeChunks(EndOf(img), more, 12, img.blkSz)
  {
    var s := DecodeStarts(img, |img.chunks| + more);
    FromStartToEnd(img);
    LeadsFor(s, |img.chunks|, EndOf(img), img.blkSz, more);
  }

  /** Every image is decoded to the end, into what the script leaves for each chunk. */
  lemma EveryImageDecodes(img: Image)
    requires WellFormed(img) && img.chunkHdrSz == 12
    ensures DecodeImage(Serialize(img)) == Done(LeftByAll(img.chunks, img.blkSz))
    ensures |LeftByAll(img.chunks, img.blkSz)| == TotalBlocks(img.chunks) * img.blkSz
  {
    DecodesTheList(img, 0);
    LeftSize(img.chunks, img.blkSz);
  }

  lemma StartsAtZero(chunks: seq<Chunk>, blkSz: nat, trailing: seq<byte>)
    requires Readable(chunks, blkSz)
    ensures StateAt(chunks, blkSz, trailing, 0)
         == State(EncodeChunks(chunks, blkSz) + trailing, 0, Zeros(TotalBlocks(chunks) * blkSz))
  {
    LeftSize(chunks, blkSz);
    assert chunks[0..] == chunks && chunks[..0] == [];
    assert [] + Zeros(TotalBlocks(chunks) * blkSz) == Zeros(TotalBlocks(chunks) * blkSz);
  }

  // ----- What is not an image of this kind

  /** Whether data begins with the four magic bytes decides whether it is taken for a sparse image at all. */
  lemma NotSparseIff(data: seq<byte>)
    ensures DecodeImage(data) == Failed(NotSparse, []) <==> |data| >= 28 && data[..4] != [0x3A, 0xFF, 0x26, 0xED]
    ensures |data| < 28 ==> DecodeImage(data) == Failed(UnexpectedEof, [])
  {
    if |data| >= 28 {
      MagicBytes(data[..28]);
      var v := FileFields(data[..28]);
      NeverNotSparse(State(if NumberIn(v[3]) > 28 then Skip(Skip(data, 28), NumberIn(v[3]) - 28) else Skip(data, 28), 0,
        Zeros(NumberIn(v[6]) * NumberIn(v[5]))), NumberIn(v[7]), NumberIn(v[4]), NumberIn(v[5]));
    }
  }

  lemma MagicBytes(header: seq<byte>)
    requires |header| == 28
    ensures FileFields(header)[0] == Number(MAGIC) <==> header[..4] == [0x3A, 0xFF, 0x26, 0xED]
  {
    FileHeaderSize();
    FromLEIs(header[..4]);
    assert FileFields(header)[0] == Number(FromLE(header[..4]));
  }

  lemma {:induction false} NeverNotSparse(s: State, n: nat, chunkHdrSz: nat, blkSz: nat)
    ensures DecodeChunks(s, n, chunkHdrSz, blkSz).Failed? ==> DecodeChunks(s, n, chunkHdrSz, blkSz).why != NotSparse
    decreases n
  {
    if n > 0 {
      var step := DecodeChunk(s, chunkHdrSz, blkSz);
      if step.Next? {
        NeverNotSparse(step.s, n - 1, chunkHdrSz, blkSz);
      }
    }
  }

  /** A chunk of any other type stops the decoder where it stands, with what the chunks before it left. */
  lemma OtherTypeStops(img: Image, a: byte, b: byte, more: nat)
    requires WellFormed(img) && img.chunkHdrSz == 12 && more > 0 && |img.chunks| + more < 0x1_0000_0000
    requires |img.trailing| >= 12 && img.trailing[..2] == [a, b]
    requires [a, b] != [0xC1, 0xCA] && [a, b] != [0xC2, 0xCA] && [a, b] != [0xC3, 0xCA] && [a, b] != [0xC4, 0xCA]
    ensures DecodeImage(SerializeCounting(img, |img.chunks| + more))
         == Failed(UnknownChunk(a + 256 * b), LeftByAll(img.chunks, img.blkSz))
  {
    DecodesTheList(img, more);
    StopsAtOnce(EndOf(img), a, b, more, img.blkSz);
  }

  lemma StopsAtOnce(s: State, a: byte, b: byte, more: nat, blkSz: nat)
    requires more > 0 && |s.rest| >= 12 && s.rest[..2] == [a, b]
    requires [a, b] != [0xC1, 0xCA] && [a, b] != [0xC2, 0xCA] && [a, b] != [0xC3, 0xCA] && [a, b] != [0xC4, 0xCA]
    ensures DecodeChunks(s, more, 12, blkSz) == Failed(UnknownChunk(a + 256 * b), s.out)
  {
    TypeRead(s.rest[..12], a, b);
  }

  lemma TypeRead(header: seq<byte>, a: byte, b: byte)
    requires |header| == 12 && header[..2] == [a, b]
    ensures ChunkFields(header)[0] == Number(a + 256 * b)
  {
    assert Size(CHUNK_HEADER) == 12;
    FromLEIs(header[..2]);
    assert ChunkFields(header)[0] == Number(FromLE(header[..2]));
  }

  // ----- Which images come out as is meant

  /** A fill chunk is a whole number of words in every block, or has zeros where that matters. */
  predicate Completes(c: Chunk, blkSz: nat)
    requires GoodChunk(c, blkSz)
  {
    c.Fill? ==> FillCompletes(c.word, blkSz, c.blocks)
  }

  predicate AllComplete(chunks: seq<Chunk>, blkSz: nat)
    requires GoodChunks(chunks, blkSz)
  {
    forall i :: 0 <= i < |chunks| ==> Completes(chunks[i], blkSz)
  }

  lemma ChunkLeftRightIff(c: Chunk, blkSz: nat)
    requires GoodChunk(c, blkSz)
    ensures LeftBy(c, blkSz) == ExpandChunk(c, blkSz) <==> Completes(c, blkSz)
  {
    if c.Fill? {
      FillsRightIff(c.word, blkSz, c.blocks);
    }
  }

  lemma SameHalves(a: seq<byte>, b: seq<byte>, c: seq<byte>, d: seq<byte>)
    requires |a| == |c|
    ensures a + b == c + d <==> a == c && b == d
  {
    assert (a + b)[..|a|] == a && (a + b)[|a|..] == b;
    assert (c + d)[..|c|] == c && (c + d)[|c|..] == d;
  }

  lemma {:induction false} LeftRightIff(chunks: seq<Chunk>, blkSz: nat)
    requires GoodChunks(chunks, blkSz)
    ensures LeftByAll(chunks, blkSz) == Expand(chunks, blkSz) <==> AllComplete(chunks, blkSz)
  {
    if chunks != [] {
      ChunkLeftRightIff(chunks[0], blkSz);
      LeftRightIff(chunks[1..], blkSz);
      SameHalves(LeftBy(chunks[0], blkSz), LeftByAll(chunks[1..], blkSz), ExpandChunk(chunks[0], blkSz), Expand(chunks[1..], blkSz));
      FirstAndRest(chunks, blkSz);
    }
  }

  lemma FirstAndRest(chunks: seq<Chunk>, blkSz: nat)
    requires GoodChunks(chunks, blkSz) && chunks != []
    ensures AllComplete(chunks, blkSz) <==> Completes(chunks[0], blkSz) && AllComplete(chunks[1..], blkSz)
  {
    if Completes(chunks[0], blkSz) && AllComplete(chunks[1..], blkSz) {
      forall i | 0 <= i < |chunks|
        ensures Completes(chunks[i], blkSz)
      {
        assert i > 0 ==> chunks[i] == chunks[1..][i - 1];
      }
    }
  }

  /** An image with 12-byte chunk headers is decoded right exactly when every fill chunk completes. */
  lemma ImageDecodesRightIff(img: Image)
    requires WellFormed(img) && img.chunkHdrSz == 12
    ensures DecodeImage(Serialize(img)) == Done(Expand(img.chunks, img.blkSz)) <==> AllComplete(img.chunks, img.blkSz)
  {
    EveryImageDecodes(img);
    LeftRightIff(img.chunks, img.blkSz);
  }

  /** With blocks of whole words, decoding what was serialised gives the simple expansion, of exactly the size
      the header states. */
  lemma DecodeInvertsSerialize(img: Image)
    requires WellFormed(img) && img.chunkHdrSz == 12
    requires img.blkSz % 4 == 0 || forall i :: 0 <= i < |img.chunks| ==> !img.chunks[i].Fill?
    ensures DecodeImage(Serialize(img)) == Done(Expand(img.chunks, img.blkSz))
    ensures |Expand(img.chunks, img.blkSz)| == TotalBlocks(img.chunks) * img.blkSz
  {
    ImageDecodesRightIff(img);
    ExpandSize(img.chunks, img.blkSz);
  }

  /** One block of ones. */
  function OneFill(blkSz: nat): Image {
    Image(12, blkSz, [Fill([], 1, [1, 1, 1, 1])], 1, 0, 0, [], [])
  }

  lemma OneFillIsGood(blkSz: nat)
    requires blkSz < 0x1_0000_0000
    ensures WellFormed(OneFill(blkSz))
  {
    var chunks := OneFill(blkSz).chunks;
    assert Pow256(2) == 0x1_0000 && Pow256(4) == 0x1_0000_0000;
    assert chunks[1..] == [] && TotalBlocks(chunks[1..]) == 0;
  }

  /** The fill stops short of the chunk's end, and the bytes it missed stay zero. */
  lemma FillFallsShort(blkSz: nat)
    requires blkSz % 4 != 0 && blkSz < 0x1_0000_0000
    ensures WellFormed(OneFill(blkSz))
    ensures DecodeImage(Serialize(OneFill(blkSz))) != Done(Expand(OneFill(blkSz).chunks, blkSz))
  {
    OneFillIsGood(blkSz);
    OneFillFails(blkSz, OneFill(blkSz));
  }

  lemma OneFillFails(blkSz: nat, img: Image)
    requires blkSz % 4 != 0 && WellFormed(img)
    requires img.chunkHdrSz == 12 && img.blkSz == blkSz && img.chunks == [Fill([], 1, [1, 1, 1, 1])]
    ensures DecodeImage(Serialize(img)) != Done(Expand(img.chunks, blkSz))
  {
    ImageDecodesRightIff(img);
    assert img.chunks[0].word[0] == 1;
    assert !Completes(img.chunks[0], blkSz);
  }

  // ----- When chunk headers are longer than the script's

  /** The script unpacks a chunk header as 12 bytes and fails on the first chunk of any other size. */
  lemma LongChunkHeaderFails(img: Image)
    requires WellFormed(img) && img.chunkHdrSz != 12 && img.chunks != []
    ensures DecodeImage(Serialize(img)) == Failed(BadChunkHeader, Zeros(TotalBlocks(img.chunks) * img.blkSz))
  {
    var s := DecodeStarts(img, |img.chunks|);
    var c := img.chunks[0];
    assert |c.extra| == img.chunkHdrSz - 12;
    assert |EncodeChunk(c, img.blkSz)| >= img.chunkHdrSz;
    FirstHeaderFails(EncodeChunks(img.chunks, img.blkSz) + img.trailing, |img.chunks|, img.chunkHdrSz, img.blkSz,
      Zeros(TotalBlocks(img.chunks) * img.blkSz));
  }

  lemma FirstHeaderFails(rest: seq<byte>, n: nat, hdr: nat, blkSz: nat, out: seq<byte>)
    requires |rest| >= hdr && hdr != 12 && n > 0
    ensures DecodeChunks(State(rest, 0, out), n, hdr, blkSz) == Failed(BadChunkHeader, out)
  {
  }

  function OneSkip(hdr: nat, blkSz: nat): Image
    requires hdr >= 12
  {
    Image(hdr, blkSz, [DontCare(Zeros(hdr - 12), 0)], 1, 0, 0, [], [])
  }

  ghost predicate DecodesRight(hdr: nat, blkSz: nat) {
    forall img: Image :: WellFormed(img) && img.chunkHdrSz == hdr && img.blkSz == blkSz ==>
      DecodeImage(Serialize(img)) == Done(Expand(img.chunks, blkSz))
  }

  /** Images with chunk headers of one size and blocks of one size are all decoded right exactly when the
      headers have 12 bytes and the block size is a multiple of four. */
  lemma DecodesRightIff(hdr: nat, blkSz: nat)
    requires 12 <= hdr < 0x1_0000 && blkSz < 0x1_0000_0000
    ensures DecodesRight(hdr, blkSz) <==> hdr == 12 && blkSz % 4 == 0
  {
    if hdr != 12 {
      LongChunkHeaderFails(OneSkip(hdr, blkSz));
    } else if blkSz % 4 == 0 {
      forall img: Image | WellFormed(img) && img.chunkHdrSz == hdr && img.blkSz == blkSz
        ensures DecodeImage(Serialize(img)) == Done(Expand(img.chunks, blkSz))
      {
        DecodeInvertsSerialize(img);
      }
    } else {
      FillFallsShort(blkSz);
    }
  }
}
