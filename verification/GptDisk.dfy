/** Writing the parts of a GPT disk one after another, and which of their bytes last. */
module GptDisk {
  import opened ByteFile
  import opened Gpt

  const HEADER_LBA := 1
  const ENTRY_LBA := 2

  /** What goes onto the disk. */
  datatype Contents = Contents(
    mbr: seq<byte>, primary: seq<byte>, table: seq<byte>, backup: seq<byte>, images: seq<seq<byte>>)

  function SizesOf(images: seq<seq<byte>>): (sizes: seq<nat>)
    ensures |sizes| == |images|
  {
    seq(|images|, i requires 0 <= i < |images| => |images[i]|)
  }

  // ----- The write sequence

  datatype Write = Write(pos: nat, data: seq<byte>)

  function Perform(content: seq<byte>, ws: seq<Write>): seq<byte> {
    if ws == [] then content
    else WriteAt(Perform(content, ws[..|ws| - 1]), ws[|ws| - 1].pos, ws[|ws| - 1].data)
  }

  lemma PerformOne(content: seq<byte>, ws: seq<Write>, w: Write)
    ensures Perform(content, ws + [w]) == WriteAt(Perform(content, ws), w.pos, w.data)
  {
    assert (ws + [w])[..|ws|] == ws;
  }

  function FrontWrites(c: Contents): seq<Write> {
    [Write(0, c.mbr), Write(SECTOR_SIZE * HEADER_LBA, c.primary), Write(SECTOR_SIZE * ENTRY_LBA, c.table)]
  }

  function ImageWrite(images: seq<seq<byte>>, k: nat): Write
    requires k < |images|
  {
    Write(Start(SizesOf(images), k) * SECTOR_SIZE, images[k])
  }

  function ImageWrites(images: seq<seq<byte>>, n: nat): (ws: seq<Write>)
    requires n <= |images|
    ensures |ws| == n
  {
    seq(n, k requires 0 <= k < n => ImageWrite(images, k))
  }

  function BackWrites(c: Contents): seq<Write>
    requires c.images != []
  {
    [Write(BackupEntryLba(SizesOf(c.images)) * SECTOR_SIZE, c.table),
     Write((BackupEntryLba(SizesOf(c.images)) + 32) * SECTOR_SIZE, c.backup)]
  }

  function Writes(c: Contents): seq<Write>
    requires c.images != []
  {
    FrontWrites(c) + ImageWrites(c.images, |c.images|) + BackWrites(c)
  }

  /** The finished file. */
  function FileOf(c: Contents): seq<byte>
    requires c.images != []
  {
    Perform(Zeros(DiskSectors(SizesOf(c.images)) * SECTOR_SIZE), Writes(c))
  }

  /** The file operations of the script, from `truncate` on. */
  method WriteDisk(out: OutFile, c: Contents, layout: seq<(nat, nat)>, diskSectors: nat)
    requires c.images != [] && out.content == [] && diskSectors == DiskSectors(SizesOf(c.images))
    requires |layout| == |c.images|
    requires forall k :: 0 <= k < |layout| ==> layout[k] == (Start(SizesOf(c.images), k), End(SizesOf(c.images), k))
    modifies out
    ensures out.content == FileOf(c)
  {
    ghost var blank := Zeros(diskSectors * SECTOR_SIZE);
    BackWritesAre(c, diskSectors);
    MakeBlank(out, diskSectors);
    WriteThree(out, c.mbr, c.primary, c.table);
    WriteImages(out, c.images, layout, blank, FrontWrites(c));
    WriteTwo(out, diskSectors - 33, c.table, diskSectors - 1, c.backup,
      blank, FrontWrites(c) + ImageWrites(c.images, |c.images|));
  }

  method MakeBlank(out: OutFile, diskSectors: nat)
    requires out.content == []
    modifies out
    ensures out.content == Zeros(diskSectors * SECTOR_SIZE)
  {
    out.Truncate(diskSectors * SECTOR_SIZE);
    assert out.content == Zeros(diskSectors * SECTOR_SIZE);
  }

  lemma BackWritesAre(c: Contents, diskSectors: nat)
    requires c.images != [] && diskSectors == DiskSectors(SizesOf(c.images))
    ensures diskSectors >= 33
    ensures BackWrites(c) == [Write((diskSectors - 33) * SECTOR_SIZE, c.table), Write((diskSectors - 1) * SECTOR_SIZE, c.backup)]
  {
  }

  /** Seek and write. */
  method Emit(out: OutFile, pos: nat, data: seq<byte>, ghost blank: seq<byte>, ghost ws: seq<Write>)
    requires out.content == Perform(blank, ws)
    modifies out
    ensures out.content == Perform(blank, ws + [Write(pos, data)])
  {
    PerformOne(blank, ws, Write(pos, data));
    out.Seek(pos);
    out.Write(data);
  }

  method WriteThree(out: OutFile, mbr: seq<byte>, primary: seq<byte>, entries: seq<byte>)
    modifies out
    ensures out.content == Perform(old(out.content),
      [Write(0, mbr), Write(SECTOR_SIZE * HEADER_LBA, primary), Write(SECTOR_SIZE * ENTRY_LBA, entries)])
  {
    ghost var blank := out.content;
    Emit(out, 0, mbr, blank, []);
    Emit(out, SECTOR_SIZE * HEADER_LBA, primary, blank, [Write(0, mbr)]);
    assert [Write(0, mbr)] + [Write(SECTOR_SIZE * HEADER_LBA, primary)] == [Write(0, mbr), Write(SECTOR_SIZE * HEADER_LBA, primary)];
    Emit(out, SECTOR_SIZE * ENTRY_LBA, entries, blank, [Write(0, mbr), Write(SECTOR_SIZE * HEADER_LBA, primary)]);
    assert [Write(0, mbr), Write(SECTOR_SIZE * HEADER_LBA, primary)] + [Write(SECTOR_SIZE * ENTRY_LBA, entries)]
        == [Write(0, mbr), Write(SECTOR_SIZE * HEADER_LBA, primary), Write(SECTOR_SIZE * ENTRY_LBA, entries)];
  }

  method WriteTwo(out: OutFile, entryLba: nat, entries: seq<byte>, headerLba: nat, header: seq<byte>, ghost blank: seq<byte>, ghost ws: seq<Write>)
    requires out.content == Perform(blank, ws)
    modifies out
    ensures out.content == Perform(blank, ws + [Write(entryLba * SECTOR_SIZE, entries), Write(headerLba * SECTOR_SIZE, header)])
  {
    Emit(out, entryLba * SECTOR_SIZE, entries, blank, ws);
    Emit(out, headerLba * SECTOR_SIZE, header, blank, ws + [Write(entryLba * SECTOR_SIZE, entries)]);
    assert ws + [Write(entryLba * SECTOR_SIZE, entries)] + [Write(headerLba * SECTOR_SIZE, header)]
        == ws + [Write(entryLba * SECTOR_SIZE, entries), Write(headerLba * SECTOR_SIZE, header)];
  }

  method WriteImages(out: OutFile, images: seq<seq<byte>>, layout: seq<(nat, nat)>, ghost blank: seq<byte>, ghost front: seq<Write>)
    requires |layout| == |images|
    requires forall k :: 0 <= k < |images| ==> layout[k] == (Start(SizesOf(images), k), End(SizesOf(images), k))
    requires out.content == Perform(blank, front)
    modifies out
    ensures out.content == Perform(blank, front + ImageWrites(images, |images|))
  {
    assert front + ImageWrites(images, 0) == front;
    for k := 0 to |images|
      invariant out.content == Perform(blank, front + ImageWrites(images, k))
    {
      Emit(out, layout[k].0 * SECTOR_SIZE, images[k], blank, front + ImageWrites(images, k));
      NextImage(images, front, k);
      assert Write(layout[k].0 * SECTOR_SIZE, images[k]) == ImageWrite(images, k);
    }
  }

  lemma NextImage(images: seq<seq<byte>>, front: seq<Write>, k: nat)
    requires k < |images|
    ensures front + ImageWrites(images, k) + [ImageWrite(images, k)] == front + ImageWrites(images, k + 1)
  {
  }

  // ----- Which bytes of a write sequence last

  predicate Apart(w: Write, at: nat, len: nat) {
    w.data == [] || at + len <= w.pos || w.pos + |w.data| <= at
  }

  predicate AllApart(ws: seq<Write>, at: nat, len: nat) {
    forall j :: 0 <= j < |ws| ==> Apart(ws[j], at, len)
  }

  lemma {:induction false} PerformGrows(content: seq<byte>, ws: seq<Write>)
    ensures |Perform(content, ws)| >= |content|
    decreases |ws|
  {
    if ws != [] {
      var last := |ws| - 1;
      PerformGrows(content, ws[..last]);
      WriteSize(Perform(content, ws[..last]), ws[last].pos, ws[last].data);
    }
  }

  lemma {:induction false} Survives(content: seq<byte>, ws: seq<Write>, at: nat, len: nat)
    requires at + len <= |content| && AllApart(ws, at, len)
    ensures at + len <= |Perform(content, ws)|
    ensures Slice(Perform(content, ws), at, len) == Slice(content, at, len)
    decreases |ws|
  {
    if ws != [] {
      var last := |ws| - 1;
      Survives(content, ws[..last], at, len);
      assert Apart(ws[last], at, len);
      if ws[last].data != [] {
        WrittenElsewhere(Perform(content, ws[..last]), ws[last].pos, ws[last].data, at, len);
      }
    }
  }

  lemma {:induction false} PerformBoth(content: seq<byte>, a: seq<Write>, b: seq<Write>)
    ensures Perform(content, a + b) == Perform(Perform(content, a), b)
    decreases |b|
  {
    if b == [] {
      assert a + b == a;
    } else {
      var last := |b| - 1;
      assert a + b == (a + b[..last]) + [b[last]];
      PerformOne(content, a + b[..last], b[last]);
      PerformBoth(content, a, b[..last]);
    }
  }

  /** Bytes of write `i` that no later write touches are there at the end. */
  lemma LastWriter(content: seq<byte>, ws: seq<Write>, i: nat, at: nat, len: nat)
    requires i < |ws|
    requires ws[i].pos <= at && at + len <= ws[i].pos + |ws[i].data| <= |content|
    requires AllApart(ws[i + 1..], at, len)
    ensures at + len <= |Perform(content, ws)|
    ensures Slice(Perform(content, ws), at, len) == Slice(ws[i].data, at - ws[i].pos, len)
  {
    var before := Perform(content, ws[..i]);
    var w := ws[i];
    PerformGrows(content, ws[..i]);
    PerformOne(content, ws[..i], w);
    var now := WriteAt(before, w.pos, w.data);
    WrittenHere(before, w.pos, w.data);
    SliceOfSlice(now, w.pos, |w.data|, at, len);
    assert ws == (ws[..i] + [w]) + ws[i + 1..];
    PerformBoth(content, ws[..i] + [w], ws[i + 1..]);
    Survives(now, ws[i + 1..], at, len);
  }

  lemma SliceOfSlice(content: seq<byte>, pos: nat, size: nat, at: nat, len: nat)
    requires pos <= at && at + len <= pos + size <= |content|
    ensures Slice(content, at, len) == Slice(Slice(content, pos, size), at - pos, len)
  {
    var inner := Slice(content, pos, size);
    forall k | 0 <= k < len
      ensures Slice(content, at, len)[k] == Slice(inner, at - pos, len)[k]
    {
      assert inner[at - pos + k] == content[at + k];
    }
  }

  // ----- Where the writes of a GPT disk fall

  /** One sector each for the MBR and the headers, 32 for a table of 128 entries. */
  predicate Sound(c: Contents) {
    && c.images != []
    && |c.mbr| == |c.primary| == |c.backup| == SECTOR_SIZE && |c.table| == 32 * SECTOR_SIZE
  }

  lemma ThreeParts(a: seq<Write>, b: seq<Write>, c: seq<Write>, i: nat)
    requires i < |a| + |b| + |c|
    ensures (a + b + c)[i] ==
      if i < |a| then a[i] else if i < |a| + |b| then b[i - |a|] else c[i - |a| - |b|]
  {
  }

  function Region(c: Contents, i: nat): Write
    requires c.images != [] && i < |c.images| + 5
  {
    if i < 3 then FrontWrites(c)[i]
    else if i < |c.images| + 3 then ImageWrite(c.images, i - 3)
    else BackWrites(c)[i - 3 - |c.images|]
  }

  lemma WritesAt(c: Contents, i: nat)
    requires c.images != [] && i < |c.images| + 5
    ensures |Writes(c)| == |c.images| + 5
    ensures Writes(c)[i] == Region(c, i)
  {
    ThreeParts(FrontWrites(c), ImageWrites(c.images, |c.images|), BackWrites(c), i);
  }

  /** The sectors set aside for write `i`. */
  function Lo(c: Contents, i: nat): nat
    requires c.images != [] && i < |c.images| + 5
  {
    if i < 3 then i
    else if i < |c.images| + 3 then Start(SizesOf(c.images), i - 3)
    else if i == |c.images| + 3 then BackupEntryLba(SizesOf(c.images))
    else BackupEntryLba(SizesOf(c.images)) + 32
  }

  function Hi(c: Contents, i: nat): nat
    requires c.images != [] && i < |c.images| + 5
  {
    if i < 2 then i + 1
    else if i == 2 then 34
    else if i < |c.images| + 3 then Past(SizesOf(c.images), i - 3)
    else if i == |c.images| + 3 then BackupEntryLba(SizesOf(c.images)) + 32
    else BackupEntryLba(SizesOf(c.images)) + 33
  }

  lemma RegionBounds(c: Contents, i: nat)
    requires Sound(c) && i < |c.images| + 5
    ensures var w := Region(c, i);
      w.pos == Lo(c, i) * SECTOR_SIZE && w.pos + |w.data| <= Hi(c, i) * SECTOR_SIZE
  {
    if 3 <= i < |c.images| + 3 {
      RoomForImage(SizesOf(c.images), i - 3);
    } else {
      TableBounds(c, i);
    }
  }

  /** The structures other than the images fill the sectors set aside for them. */
  lemma TableBounds(c: Contents, i: nat)
    requires Sound(c) && i < |c.images| + 5 && (i < 3 || i >= |c.images| + 3)
    ensures var w := Region(c, i);
      w.pos == Lo(c, i) * SECTOR_SIZE && w.pos + |w.data| == Hi(c, i) * SECTOR_SIZE
  {
    if i < 3 {
      assert |FrontWrites(c)[i].data| == if i == 2 then 32 * SECTOR_SIZE else SECTOR_SIZE;
    } else {
      assert |BackWrites(c)[i - 3 - |c.images|].data| == if i == |c.images| + 3 then 32 * SECTOR_SIZE else SECTOR_SIZE;
    }
  }

  lemma InDiskOrder(c: Contents, i: nat, j: nat)
    requires c.images != [] && i < j < |c.images| + 5
    requires !(Collides(SizesOf(c.images)) && i == |c.images| + 2 && j == |c.images| + 3)
    ensures Hi(c, i) <= Lo(c, j)
  {
    var sizes := SizesOf(c.images);
    if 3 <= i < |c.images| + 3 {
      CollidesIff(sizes, i - 3);
      if j < |c.images| + 3 {
        InOrder(sizes, i - 3, j - 3);
      }
    } else if 3 <= j < |c.images| + 3 {
      StartIsAligned(sizes, j - 3);
    }
    StartIsAligned(sizes, |c.images| - 1);
    AlignUpIsLeast(End(sizes, |c.images| - 1) + LAST_RESERVED_LBAS);
  }

  lemma WithinDisk(c: Contents, i: nat)
    requires c.images != [] && i < |c.images| + 5
    ensures Hi(c, i) <= DiskSectors(SizesOf(c.images))
  {
    if i < |c.images| + 4 {
      InDiskOrder(c, i, |c.images| + 4);
    }
  }

  /** Bytes of write `i` are there in the finished file, those of the last image as far as the
      backup table does not cover them. */
  lemma Stays(c: Contents, i: nat, at: nat, len: nat)
    requires Sound(c) && i < |c.images| + 5
    requires var w := Region(c, i);
      w.pos <= at && at + len <= w.pos + |w.data|
    requires i == |c.images| + 2 && Collides(SizesOf(c.images)) ==> at + len <= BackupEntryLba(SizesOf(c.images)) * SECTOR_SIZE
    ensures at + len <= |FileOf(c)|
    ensures var w := Region(c, i);
      Slice(FileOf(c), at, len) == Slice(w.data, at - w.pos, len)
  {
    var ws := Writes(c);
    WritesAt(c, i);
    RegionBounds(c, i);
    WithinDisk(c, i);
    var later := ws[i + 1..];
    forall j | 0 <= j < |later|
      ensures Apart(later[j], at, len)
    {
      LaterIsApart(c, i, i + 1 + j, at, len);
    }
    LastWriter(Zeros(DiskSectors(SizesOf(c.images)) * SECTOR_SIZE), ws, i, at, len);
  }

  lemma LaterIsApart(c: Contents, i: nat, j: nat, at: nat, len: nat)
    requires Sound(c) && i < j < |c.images| + 5
    requires at + len <= Hi(c, i) * SECTOR_SIZE
    requires i == |c.images| + 2 && Collides(SizesOf(c.images)) ==> at + len <= BackupEntryLba(SizesOf(c.images)) * SECTOR_SIZE
    ensures j < |Writes(c)| && Apart(Writes(c)[j], at, len)
  {
    WritesAt(c, j);
    RegionBounds(c, j);
    if !(Collides(SizesOf(c.images)) && i == |c.images| + 2 && j == |c.images| + 3) {
      InDiskOrder(c, i, j);
    }
  }

  predicate Holds(file: seq<byte>, at: nat, data: seq<byte>) {
    at + |data| <= |file| && Slice(file, at, |data|) == data
  }

  /** The MBR, both headers and both tables read back as written, whatever the images. */
  lemma StructuresStay(c: Contents)
    requires Sound(c)
    ensures Holds(FileOf(c), 0, c.mbr)
    ensures Holds(FileOf(c), SECTOR_SIZE * HEADER_LBA, c.primary)
    ensures Holds(FileOf(c), SECTOR_SIZE * ENTRY_LBA, c.table)
    ensures Holds(FileOf(c), BackupEntryLba(SizesOf(c.images)) * SECTOR_SIZE, c.table)
    ensures Holds(FileOf(c), (BackupEntryLba(SizesOf(c.images)) + 32) * SECTOR_SIZE, c.backup)
  {
    Stays(c, 0, 0, SECTOR_SIZE);
    Stays(c, 1, SECTOR_SIZE * HEADER_LBA, SECTOR_SIZE);
    Stays(c, 2, SECTOR_SIZE * ENTRY_LBA, 32 * SECTOR_SIZE);
    Stays(c, |c.images| + 3, BackupEntryLba(SizesOf(c.images)) * SECTOR_SIZE, 32 * SECTOR_SIZE);
    Stays(c, |c.images| + 4, (BackupEntryLba(SizesOf(c.images)) + 32) * SECTOR_SIZE, SECTOR_SIZE);
  }

  lemma {:induction false} PerformSize(content: seq<byte>, ws: seq<Write>)
    requires forall j :: 0 <= j < |ws| ==> ws[j].pos + |ws[j].data| <= |content|
    ensures |Perform(content, ws)| == |content|
    decreases |ws|
  {
    if ws != [] {
      var last := |ws| - 1;
      PerformSize(content, ws[..last]);
      WriteSize(Perform(content, ws[..last]), ws[last].pos, ws[last].data);
    }
  }

  /** No write reaches past the size the file was given first. */
  lemma FileSize(c: Contents)
    requires Sound(c)
    ensures |FileOf(c)| == DiskSectors(SizesOf(c.images)) * SECTOR_SIZE
  {
    var size := DiskSectors(SizesOf(c.images)) * SECTOR_SIZE;
    var ws := Writes(c);
    WritesAt(c, 0);
    forall j | 0 <= j < |ws|
      ensures ws[j].pos + |ws[j].data| <= size
    {
      WritesAt(c, j);
      RegionBounds(c, j);
      WithinDisk(c, j);
    }
    PerformSize(Zeros(size), ws);
  }

  // ----- The images

  /** How much of image `k` lies in the first sector of the backup table. */
  function Covered(images: seq<seq<byte>>, k: nat): nat
    requires k < |images|
  {
    var end := Start(SizesOf(images), k) * SECTOR_SIZE + |images[k]|;
    var table := BackupEntryLba(SizesOf(images)) * SECTOR_SIZE;
    if end > table then end - table else 0
  }

  lemma CoveredIff(images: seq<seq<byte>>, k: nat)
    requires k < |images|
    ensures Covered(images, k) > 0 <==> k == |images| - 1 && Collides(SizesOf(images))
    ensures Covered(images, k) <= SECTOR_SIZE && Covered(images, k) <= |images[k]|
  {
    var sizes := SizesOf(images);
    CollidesIff(sizes, k);
    RoomForImage(sizes, k);
    StartBelowBackup(sizes, k);
  }

  /** Where image `k` was written. */
  function Place(images: seq<seq<byte>>, k: nat): nat
    requires k < |images|
  {
    Start(SizesOf(images), k) * SECTOR_SIZE
  }

  /** What a reader finds where image `k` was written: the image, its covered end replaced. */
  lemma ImageAsFound(c: Contents, k: nat)
    requires Sound(c) && k < |c.images|
    ensures Covered(c.images, k) <= |c.images[k]| && Covered(c.images, k) <= |c.table|
    ensures Holds(FileOf(c), Place(c.images, k),
      c.images[k][..|c.images[k]| - Covered(c.images, k)] + c.table[..Covered(c.images, k)])
  {
    CoveredIff(c.images, k);
    ImageStart(c, k);
    if Covered(c.images, k) > 0 {
      CoveredEnd(c, k);
    }
    TwoHolds(FileOf(c), Place(c.images, k),
      c.images[k][..|c.images[k]| - Covered(c.images, k)], c.table[..Covered(c.images, k)]);
  }

  lemma ImageStart(c: Contents, k: nat)
    requires Sound(c) && k < |c.images|
    requires Covered(c.images, k) <= |c.images[k]|
    ensures Holds(FileOf(c), Place(c.images, k), c.images[k][..|c.images[k]| - Covered(c.images, k)])
  {
    CoveredIff(c.images, k);
    Stays(c, 3 + k, Place(c.images, k), |c.images[k]| - Covered(c.images, k));
  }

  lemma CoveredEnd(c: Contents, k: nat)
    requires Sound(c) && k < |c.images|
    requires 0 < Covered(c.images, k) <= |c.table|
    ensures Holds(FileOf(c), Place(c.images, k) + |c.images[k]| - Covered(c.images, k),
      c.table[..Covered(c.images, k)])
  {
    Stays(c, |c.images| + 3, BackupEntryLba(SizesOf(c.images)) * SECTOR_SIZE, Covered(c.images, k));
  }

  lemma TwoHolds(file: seq<byte>, at: nat, a: seq<byte>, b: seq<byte>)
    requires Holds(file, at, a) && (b != [] ==> Holds(file, at + |a|, b))
    ensures Holds(file, at, a + b)
  {
    TwoSlices(file, at, |a|, |b|);
  }

  lemma TwoSlices(content: seq<byte>, at: nat, a: nat, b: nat)
    requires at + a + b <= |content|
    ensures Slice(content, at, a + b) == Slice(content, at, a) + Slice(content, at + a, b)
  {
  }

  /** An image reads back as written, except the last one when its last sector is the first of the
      backup table: that one reads back only if it happens to end in the table's first bytes. */
  lemma ImageReadsBackIff(c: Contents, k: nat)
    requires Sound(c) && k < |c.images|
    ensures Covered(c.images, k) > 0 <==> k == |c.images| - 1 && (End(SizesOf(c.images), k) + 33) % 2048 == 0
    ensures Covered(c.images, k) <= |c.images[k]| && Covered(c.images, k) <= |c.table|
    ensures Holds(FileOf(c), Place(c.images, k), c.images[k]) <==>
      c.images[k][|c.images[k]| - Covered(c.images, k)..] == c.table[..Covered(c.images, k)]
  {
    CoveredIff(c.images, k);
    ImageAsFound(c, k);
    var image, tail := c.images[k], c.table[..Covered(c.images, k)];
    HoldsOneOnly(FileOf(c), Place(c.images, k), image[..|image| - |tail|] + tail, image);
    EndReplaced(image, tail);
  }

  lemma HoldsOneOnly(file: seq<byte>, at: nat, found: seq<byte>, s: seq<byte>)
    requires Holds(file, at, found) && |found| == |s|
    ensures Holds(file, at, s) <==> found == s
  {
  }

  lemma EndReplaced(image: seq<byte>, tail: seq<byte>)
    requires |tail| <= |image|
    ensures image[..|image| - |tail|] + tail == image <==> image[|image| - |tail|..] == tail
  {
    var kept := |image| - |tail|;
    assert image == image[..kept] + image[kept..];
    if image[..kept] + tail == image {
      assert (image[..kept] + tail)[kept..] == tail;
    }
  }
}
