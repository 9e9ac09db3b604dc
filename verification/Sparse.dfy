/** Decoding Android sparse images: the chunk loop, and what it does to any input.

    The method follows the script; `DecodeImage` is the same as a function, of which the theorems speak. */
module Sparse {
  import opened Wrappers
  import opened ByteFile

  const MAGIC := 0xED26FF3A
  const CHUNK_RAW := 0xCAC1
  const CHUNK_FILL := 0xCAC2
  const CHUNK_DONT_CARE := 0xCAC3
  const CHUNK_CRC32 := 0xCAC4

  const FILE_HEADER := [Num(4), Num(2), Num(2), Num(2), Num(2), Num(4), Num(4), Num(4), Num(4)]
  const CHUNK_HEADER := [Num(2), Num(2), Num(4), Num(4)]

  /** How a run ends.  A failure after the file header leaves a partial output behind. */
  datatype Failure = UnexpectedEof | NotSparse | BadChunkHeader | UnknownChunk(kind: nat)

  datatype Outcome = Done(output: seq<byte>) | Failed(why: Failure, partial: seq<byte>)

  // ----- Reading

  /** `read_exact`: asking for a negative number of bytes reads everything, and so never exactly that many. */
  function ReadExact(rest: seq<byte>, n: int): Option<seq<byte>> {
    if 0 <= n <= |rest| then Some(rest[..n]) else None
  }

  function Skip(rest: seq<byte>, n: nat): seq<byte> {
    if n <= |rest| then rest[n..] else []
  }

  /** A file opened for reading.  Seeking past the end is allowed; reading there finds nothing. */
  class InFile {
    const data: seq<byte>
    var pos: nat

    constructor (data: seq<byte>)
      ensures this.data == data && Rest() == data
    {
      this.data := data;
      pos := 0;
    }

    function Rest(): seq<byte>
      reads this
    {
      Skip(data, pos)
    }

    method Read(n: int) returns (s: seq<byte>)
      modifies this
      ensures s == if 0 <= n <= |old(Rest())| then old(Rest())[..n] else old(Rest())
      ensures Rest() == old(Rest())[|s|..]
    {
      var left := |data| - pos;
      var k := if left < 0 then 0 else if 0 <= n <= left then n else left;
      s := if k == 0 then [] else data[pos..pos + k];
      pos := pos + k;
    }

    method DoReadExact(n: int) returns (s: Option<seq<byte>>)
      modifies this
      ensures s == ReadExact(old(Rest()), n)
      ensures s.Some? ==> Rest() == Skip(old(Rest()), n)
    {
      var got := Read(n);
      s := if |got| != n then None else Some(got);
    }

    method SeekForward(n: nat)
      modifies this
      ensures Rest() == Skip(old(Rest()), n)
    {
      pos := pos + n;
    }
  }

  // ----- Filling

  function Repeat(s: seq<byte>, n: nat): (r: seq<byte>)
    ensures |r| == |s| * n
  {
    if n == 0 then [] else Repeat(s, n - 1) + s
  }

  /** `fill_val * (blk_sz // 4)`, once per block. */
  function FillBytes(word: seq<byte>, blkSz: nat, blocks: nat): seq<byte> {
    Repeat(Repeat(word, blkSz / 4), blocks)
  }

  lemma WriteTwice(content: seq<byte>, pos: nat, a: seq<byte>, b: seq<byte>)
    ensures WriteAt(WriteAt(content, pos, a), pos + |a|, b) == WriteAt(content, pos, a + b)
  {
    if a == [] {
      assert [] + b == b;
    } else if b == [] {
      assert a + [] == a;
    } else {
      WriteBoth(content, pos, a, b);
    }
  }

  lemma WriteBoth(content: seq<byte>, pos: nat, a: seq<byte>, b: seq<byte>)
    requires a != [] && b != []
    ensures WriteAt(WriteAt(content, pos, a), pos + |a|, b) == WriteAt(content, pos, a + b)
  {
    var once, twice := WriteAt(content, pos, a + b), WriteAt(WriteAt(content, pos, a), pos + |a|, b);
    WriteSize(content, pos, a);
    WriteSize(WriteAt(content, pos, a), pos + |a|, b);
    WriteSize(content, pos, a + b);
    forall k | 0 <= k < |twice|
      ensures twice[k] == once[k]
    {
      WriteBothAt(content, pos, a, b, k);
    }
  }

  lemma WriteBothAt(content: seq<byte>, pos: nat, a: seq<byte>, b: seq<byte>, k: nat)
    requires a != [] && b != []
    requires k < |WriteAt(WriteAt(content, pos, a), pos + |a|, b)| && k < |WriteAt(content, pos, a + b)|
    ensures WriteAt(WriteAt(content, pos, a), pos + |a|, b)[k] == WriteAt(content, pos, a + b)[k]
  {
    var first := WriteAt(content, pos, a);
    WriteSize(content, pos, a);
    WriteIndex(first, pos + |a|, b, k);
    WriteIndex(content, pos, a + b, k);
    if k < |first| {
      WriteIndex(content, pos, a, k);
    }
    SameByte(content, first, pos, a, b, k);
  }

  lemma SameByte(content: seq<byte>, first: seq<byte>, pos: nat, a: seq<byte>, b: seq<byte>, k: nat)
    requires |first| == if pos + |a| <= |content| then |content| else pos + |a|
    requires k < |first| ==> first[k] == ByteAfter(content, pos, a, k)
    ensures ByteAfter(first, pos + |a|, b, k) == ByteAfter(content, pos, a + b, k)
  {
  }

  // ----- Decoding, for any input

  datatype State = State(rest: seq<byte>, cur: nat, out: seq<byte>)

  datatype Step = Next(s: State) | Stop(why: Failure)

  function ChunkFields(header: seq<byte>): (v: seq<Value>)
    requires |header| == 12
    ensures |v| == 4
  {
    assert Size(CHUNK_HEADER) == 12;
    Unpack(CHUNK_HEADER, header)
  }

  function DecodeChunk(s: State, chunkHdrSz: nat, blkSz: nat): Step {
    match ReadExact(s.rest, chunkHdrSz)
    case None => Stop(UnexpectedEof)
    case Some(header) =>
      if chunkHdrSz != 12 then Stop(BadChunkHeader)
      else
        var v := ChunkFields(header);
        DecodeBody(s.(rest := Skip(s.rest, 12)), NumberIn(v[0]), NumberIn(v[2]), NumberIn(v[3]) - 12, blkSz)
  }

  /** What follows a chunk header. */
  function DecodeBody(s: State, kind: nat, blocks: nat, size: int, blkSz: nat): Step {
    if kind == CHUNK_RAW then
      match ReadExact(s.rest, size)
      case None => Stop(UnexpectedEof)
      case Some(bytes) => Next(State(Skip(s.rest, size), s.cur + blocks, WriteAt(s.out, s.cur * blkSz, bytes)))
    else if kind == CHUNK_FILL then
      match ReadExact(s.rest, 4)
      case None => Stop(UnexpectedEof)
      case Some(word) =>
        Next(State(Skip(s.rest, 4), s.cur + blocks, WriteAt(s.out, s.cur * blkSz, FillBytes(word, blkSz, blocks))))
    else if kind == CHUNK_DONT_CARE then Next(s.(cur := s.cur + blocks))
    else if kind == CHUNK_CRC32 then Next(s.(rest := Skip(s.rest, 4), cur := s.cur + blocks))
    else Stop(UnknownChunk(kind))
  }

  function DecodeChunks(s: State, n: nat, chunkHdrSz: nat, blkSz: nat): Outcome
    decreases n
  {
    if n == 0 then Done(s.out)
    else
      match DecodeChunk(s, chunkHdrSz, blkSz)
      case Stop(why) => Failed(why, s.out)
      case Next(t) => DecodeChunks(t, n - 1, chunkHdrSz, blkSz)
  }

  function FileFields(header: seq<byte>): (v: seq<Value>)
    requires |header| == 28
    ensures |v| == 9
  {
    FileHeaderSize();
    Unpack(FILE_HEADER, header)
  }

  lemma FileHeaderSize()
    ensures Size(FILE_HEADER) == 28
  {
    var front, back := [Num(4), Num(2), Num(2), Num(2), Num(2)], [Num(4), Num(4), Num(4), Num(4)];
    assert Size(front) == 12 && Size(back) == 16;
    SizeOfBoth(front, back);
    assert front + back == FILE_HEADER;
  }

  function DecodeImage(data: seq<byte>): Outcome {
    match ReadExact(data, 28)
    case None => Failed(UnexpectedEof, [])
    case Some(header) =>
      var v := FileFields(header);
      if v[0] != Number(MAGIC) then Failed(NotSparse, [])
      else DecodeRest(Skip(data, 28), NumberIn(v[3]), NumberIn(v[4]), NumberIn(v[5]), NumberIn(v[6]), NumberIn(v[7]))
  }

  /** What follows the first 28 bytes. */
  function DecodeRest(rest: seq<byte>, fileHdrSz: nat, chunkHdrSz: nat, blkSz: nat, totalBlks: nat, totalChunks: nat): Outcome {
    var body := if fileHdrSz > 28 then Skip(rest, fileHdrSz - 28) else rest;
    DecodeChunks(State(body, 0, Zeros(totalBlks * blkSz)), totalChunks, chunkHdrSz, blkSz)
  }

  // ----- The script

  /** The inner loop: `block` goes out until nothing of the chunk remains. */
  method WriteFill(out: OutFile, word: seq<byte>, at: nat, blkSz: nat, blocks: nat)
    requires |word| == 4
    modifies out
    ensures out.content == WriteAt(old(out.content), at, FillBytes(word, blkSz, blocks))
  {
    out.Seek(at);
    var remaining := blocks * blkSz;
    var block := Repeat(word, blkSz / 4);
    ghost var written: nat := 0;
    ghost var before := out.content;
    assert Repeat(block, 0) == [];
    if blkSz == 0 {
      NothingToRepeat(block, blocks);
    }
    while remaining > 0
      invariant written <= blocks && (blkSz > 0 ==> remaining == (blocks - written) * blkSz)
      invariant blkSz == 0 ==> remaining == 0
      invariant out.content == WriteAt(before, at, Repeat(block, written))
      invariant out.pos == at + |Repeat(block, written)|
    {
      OneBlockLess(blocks - written, blkSz);
      var take := if remaining < blkSz then remaining else blkSz;
      assert block[..if take < |block| then take else |block|] == block;
      WriteTwice(before, at, Repeat(block, written), block);
      out.Write(block[..if take < |block| then take else |block|]);
      written := written + 1;
      remaining := remaining - take;
    }
    if blkSz > 0 && written < blocks {
      OneBlockLess(blocks - written, blkSz);
    }
  }

  lemma NothingToRepeat(s: seq<byte>, n: nat)
    requires s == []
    ensures Repeat(s, n) == []
  {
  }

  lemma OneBlockLess(n: nat, blkSz: nat)
    requires n > 0
    ensures n * blkSz == (n - 1) * blkSz + blkSz && n * blkSz >= blkSz
  {
  }

  method DecodeFile(data: seq<byte>) returns (outcome: Outcome)
    ensures outcome == DecodeImage(data)
  {
    var f := new InFile(data);
    var header := f.DoReadExact(28);
    if header.None? {
      return Failed(UnexpectedEof, []);
    }
    var v := FileFields(header.value);
    if v[0] != Number(MAGIC) {
      return Failed(NotSparse, []);
    }
    outcome := DecodeBlocks(f, NumberIn(v[3]), NumberIn(v[4]), NumberIn(v[5]), NumberIn(v[6]), NumberIn(v[7]));
  }

  method DecodeBlocks(f: InFile, fileHdrSz: nat, chunkHdrSz: nat, blkSz: nat, totalBlks: nat, totalChunks: nat)
      returns (outcome: Outcome)
    modifies f
    ensures outcome == DecodeRest(old(f.Rest()), fileHdrSz, chunkHdrSz, blkSz, totalBlks, totalChunks)
  {
    if fileHdrSz > 28 {
      var _ := f.Read(fileHdrSz - 28);
    }
    var out := new OutFile();
    out.Truncate(totalBlks * blkSz);
    assert out.content == Zeros(totalBlks * blkSz);
    outcome := DecodeAll(f, out, totalChunks, chunkHdrSz, blkSz);
  }

  /** The chunk loop. */
  method DecodeAll(f: InFile, out: OutFile, totalChunks: nat, chunkHdrSz: nat, blkSz: nat) returns (outcome: Outcome)
    modifies f, out
    ensures outcome == DecodeChunks(State(old(f.Rest()), 0, old(out.content)), totalChunks, chunkHdrSz, blkSz)
  {
    ghost var start := State(f.Rest(), 0, out.content);
    var curBlock: nat := 0;
    for i := 0 to totalChunks
      invariant DecodeChunks(start, totalChunks, chunkHdrSz, blkSz)
             == DecodeChunks(State(f.Rest(), curBlock, out.content), totalChunks - i, chunkHdrSz, blkSz)
    {
      ghost var s := State(f.Rest(), curBlock, out.content);
      var why;
      why, curBlock := DecodeNext(f, out, curBlock, chunkHdrSz, blkSz);
      if why.Some? {
        return Failed(why.value, out.content);
      }
      assert DecodeChunk(s, chunkHdrSz, blkSz) == Next(State(f.Rest(), curBlock, out.content));
    }
    outcome := Done(out.content);
  }

  /** One turn of the chunk loop. */
  method DecodeNext(f: InFile, out: OutFile, curBlock: nat, chunkHdrSz: nat, blkSz: nat)
      returns (why: Option<Failure>, next: nat)
    modifies f, out
    ensures match DecodeChunk(State(old(f.Rest()), curBlock, old(out.content)), chunkHdrSz, blkSz)
      case Stop(w) => why == Some(w) && out.content == old(out.content)
      case Next(t) => why == None && State(f.Rest(), next, out.content) == t
  {
    next := curBlock;
    var header := f.DoReadExact(chunkHdrSz);
    if header.None? {
      return Some(UnexpectedEof), next;
    }
    if chunkHdrSz != 12 {
      return Some(BadChunkHeader), next;
    }
    var v := ChunkFields(header.value);
    why := DecodeOne(f, out, NumberIn(v[0]), curBlock, NumberIn(v[2]), NumberIn(v[3]) - chunkHdrSz, blkSz);
    next := curBlock + NumberIn(v[2]);
  }

  /** The body of the chunk loop after the header. */
  method DecodeOne(f: InFile, out: OutFile, kind: nat, curBlock: nat, blocks: nat, size: int, blkSz: nat)
      returns (why: Option<Failure>)
    modifies f, out
    ensures match DecodeBody(State(old(f.Rest()), curBlock, old(out.content)), kind, blocks, size, blkSz)
      case Stop(w) => why == Some(w) && out.content == old(out.content)
      case Next(t) => why == None && f.Rest() == t.rest && out.content == t.out && curBlock + blocks == t.cur
  {
    why := None;
    if kind == CHUNK_RAW {
      var bytes := f.DoReadExact(size);
      if bytes.None? {
        return Some(UnexpectedEof);
      }
      out.Seek(curBlock * blkSz);
      out.Write(bytes.value);
    } else if kind == CHUNK_FILL {
      var word := f.DoReadExact(4);
      if word.None? {
        return Some(UnexpectedEof);
      }
      WriteFill(out, word.value, curBlock * blkSz, blkSz, blocks);
    } else if kind == CHUNK_DONT_CARE {
    } else if kind == CHUNK_CRC32 {
      f.SeekForward(4);
    } else {
      why := Some(UnknownChunk(kind));
    }
  }
}
