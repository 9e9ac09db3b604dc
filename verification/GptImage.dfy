/** The bytes of a GPT disk image as the script packs them: partition entries, headers and the protective MBR.

    Every structure is a format and a list of values; what their bytes are is stated without either. */
module GptImage {
  import opened ByteFile
  import opened Gpt
  import opened GptDisk

  const ENTRY_SIZE := 128
  const ENTRY_COUNT := 128

  type Guid = g: seq<byte> | |g| == 16 witness Zeros(16)

  /** The Linux filesystem type, with its first three fields little-endian. */
  const LINUX_FS: Guid := [0xAF, 0x3D, 0xC6, 0x0F, 0x83, 0x84, 0x72, 0x47, 0x8E, 0x79, 0x3D, 0x69, 0xD8, 0x47, 0x7D, 0xE4]

  /** One input: the image, the GUID derived for it, and its name in UTF-16LE. */
  datatype Part = Part(image: seq<byte>, guid: Guid, name: seq<byte>)

  function ImagesOf(parts: seq<Part>): (images: seq<seq<byte>>)
    ensures |images| == |parts|
  {
    seq(|parts|, i requires 0 <= i < |parts| => parts[i].image)
  }

  function Sizes(parts: seq<Part>): (sizes: seq<nat>)
    ensures |sizes| == |parts|
  {
    SizesOf(ImagesOf(parts))
  }

  type Crc = seq<byte> -> nat

  function Crc32(crc: Crc, s: seq<byte>): nat { crc(s) % 0x1_0000_0000 }

  // ----- Entries

  const ENTRY_FORMAT := [Str(16), Str(16), Num(8), Num(8), Num(8), Str(72)]

  function NameField(name: seq<byte>): (s: seq<byte>)
    ensures |s| == 72
  {
    Resize(name, 72)
  }

  /** A used entry of the partition table. */
  datatype Entry = Entry(kind: Guid, guid: Guid, first: nat, last: nat, name: seq<byte>)

  function EntryValues(e: Entry): seq<Value> {
    [Bytes(e.kind), Bytes(e.guid), Number(e.first), Number(e.last), Number(0), Bytes(NameField(e.name))]
  }

  function PackEntry(e: Entry): (s: seq<byte>)
    requires e.first < Pow256(8) && e.last < Pow256(8)
    ensures |s| == ENTRY_SIZE
  {
    assert Size(ENTRY_FORMAT) == 128;
    Pack(ENTRY_FORMAT, EntryValues(e))
  }

  function EntryOf(parts: seq<Part>, k: nat): Entry
    requires k < |parts|
  {
    Entry(LINUX_FS, parts[k].guid, Start(Sizes(parts), k), End(Sizes(parts), k), parts[k].name)
  }

  /** Every number the script packs fits its field. */
  predicate Packable(parts: seq<Part>) {
    parts != [] && DiskSectors(Sizes(parts)) <= Pow256(8)
  }

  lemma EntryFits(parts: seq<Part>, k: nat)
    requires Packable(parts) && k < |parts|
    ensures EntryOf(parts, k).first < Pow256(8) && EntryOf(parts, k).last < Pow256(8)
  {
    var sizes := Sizes(parts);
    EndsBeforeBackup(sizes, k);
    StartIsAligned(sizes, |parts| - 1);
    if k < |parts| - 1 {
      InOrder(sizes, k, |parts| - 1);
    }
    AlignUpIsLeast(End(sizes, |parts| - 1) + LAST_RESERVED_LBAS);
    assert Start(sizes, k) <= End(sizes, k) + 1;
  }

  function EntryBytes(parts: seq<Part>, k: nat): (s: seq<byte>)
    requires Packable(parts) && k < |parts|
    ensures |s| == ENTRY_SIZE
  {
    EntryFits(parts, k);
    PackEntry(EntryOf(parts, k))
  }

  function Entries(parts: seq<Part>): (entries: seq<seq<byte>>)
    requires Packable(parts)
    ensures |entries| == |parts| && forall k :: 0 <= k < |parts| ==> |entries[k]| == ENTRY_SIZE
  {
    seq(|parts|, k requires 0 <= k < |parts| => EntryBytes(parts, k))
  }

  /** The table once the first `n` entries are in. */
  function Table(entries: seq<seq<byte>>, n: nat): seq<byte>
    requires n <= |entries|
  {
    if n == 0 then Zeros(ENTRY_SIZE * ENTRY_COUNT)
    else WriteAt(Table(entries, n - 1), (n - 1) * ENTRY_SIZE, entries[n - 1])
  }

  lemma {:induction false} TableSize(entries: seq<seq<byte>>, n: nat)
    requires n <= |entries| && n <= ENTRY_COUNT
    requires forall k :: 0 <= k < |entries| ==> |entries[k]| == ENTRY_SIZE
    ensures |Table(entries, n)| == ENTRY_SIZE * ENTRY_COUNT
  {
    if n > 0 {
      TableSize(entries, n - 1);
      WriteSize(Table(entries, n - 1), (n - 1) * ENTRY_SIZE, entries[n - 1]);
    }
  }

  /** Slot `k` holds entry `k`, and zeros where there is none. */
  lemma {:induction false} TableSlot(entries: seq<seq<byte>>, n: nat, k: nat)
    requires n <= |entries| && n <= ENTRY_COUNT && k < ENTRY_COUNT
    requires forall k :: 0 <= k < |entries| ==> |entries[k]| == ENTRY_SIZE
    ensures |Table(entries, n)| == ENTRY_SIZE * ENTRY_COUNT
    ensures Slice(Table(entries, n), k * ENTRY_SIZE, ENTRY_SIZE) == if k < n then entries[k] else Zeros(ENTRY_SIZE)
  {
    TableSize(entries, n);
    if n > 0 {
      TableSlot(entries, n - 1, k);
      if k == n - 1 {
        WrittenHere(Table(entries, n - 1), (n - 1) * ENTRY_SIZE, entries[n - 1]);
      } else {
        WrittenElsewhere(Table(entries, n - 1), (n - 1) * ENTRY_SIZE, entries[n - 1], k * ENTRY_SIZE, ENTRY_SIZE);
      }
    }
  }

  // ----- Headers

  const HEADER_FORMAT := [Str(8), Num(4), Num(4), Num(4), Num(4), Num(8), Num(8), Num(8), Num(8), Str(16), Num(8), Num(4), Num(4), Num(4)]

  const SIGNATURE: seq<byte> := [0x45, 0x46, 0x49, 0x20, 0x50, 0x41, 0x52, 0x54]   // "EFI PART"

  datatype Header = Header(
    current: nat, backup: nat, firstUsable: nat, lastUsable: nat, disk: Guid, entryLba: nat, entryCrc: nat)

  predicate HeaderFits(h: Header) {
    && h.current < Pow256(8) && h.backup < Pow256(8) && h.firstUsable < Pow256(8) && h.lastUsable < Pow256(8)
    && h.entryLba < Pow256(8) && h.entryCrc < Pow256(4)
  }

  function HeaderValues(h: Header, crc: nat): seq<Value> {
    [Bytes(SIGNATURE), Number(0x0001_0000), Number(92), Number(crc), Number(0),
     Number(h.current), Number(h.backup), Number(h.firstUsable), Number(h.lastUsable),
     Bytes(h.disk), Number(h.entryLba), Number(ENTRY_COUNT), Number(ENTRY_SIZE), Number(h.entryCrc)]
  }

  lemma HeaderSuits(h: Header, crc: nat)
    requires HeaderFits(h) && crc < Pow256(4)
    ensures AllSuit(HEADER_FORMAT, HeaderValues(h, crc))
  {
    assert Pow256(4) == 0x1_0000_0000;
  }

  lemma HeaderSize()
    ensures Size(HEADER_FORMAT) == 92
  {
    var front := [Str(8), Num(4), Num(4), Num(4), Num(4)];
    var middle := [Num(8), Num(8), Num(8), Num(8)];
    var back := [Str(16), Num(8), Num(4), Num(4), Num(4)];
    FiveSizes(Str(8), Num(4), Num(4), Num(4), Num(4));
    FourSizes(Num(8), Num(8), Num(8), Num(8));
    FiveSizes(Str(16), Num(8), Num(4), Num(4), Num(4));
    SizeOfBoth(front, middle);
    SizeOfBoth(front + middle, back);
    assert front + middle + back == HEADER_FORMAT;
  }

  lemma FiveSizes(a: Code, b: Code, c: Code, d: Code, e: Code)
    ensures Size([a, b, c, d, e]) == Width(a) + Width(b) + Width(c) + Width(d) + Width(e)
  {
    assert [a, b, c, d, e] == [a] + [b, c, d, e];
    FourSizes(b, c, d, e);
    SizeOfBoth([a], [b, c, d, e]);
  }

  lemma FourSizes(a: Code, b: Code, c: Code, d: Code)
    ensures Size([a, b, c, d]) == Width(a) + Width(b) + Width(c) + Width(d)
  {
    TwoSizes(a, b);
    TwoSizes(c, d);
    assert [a, b, c, d] == [a, b] + [c, d];
    SizeOfBoth([a, b], [c, d]);
  }

  lemma TwoSizes(a: Code, b: Code)
    ensures Size([a, b]) == Width(a) + Width(b)
  {
    assert [a, b] == [a] + [b];
    SizeOfBoth([a], [b]);
  }

  function PackHeader(h: Header, sum: nat): (s: seq<byte>)
    requires HeaderFits(h) && sum < Pow256(4)
    ensures |s| == 92
  {
    HeaderSize();
    HeaderSuits(h, sum);
    Pack(HEADER_FORMAT, HeaderValues(h, sum))
  }

  /** The checksum is taken with its own field zero, then filled in. */
  function BuildHeader(crc: Crc, h: Header): (s: seq<byte>)
    requires HeaderFits(h)
    ensures |s| == SECTOR_SIZE
  {
    NumbersFit();
    Resize(PackHeader(h, Crc32(crc, PackHeader(h, 0))), SECTOR_SIZE)
  }

  function TableOf(parts: seq<Part>): seq<byte>
    requires Packable(parts)
  {
    Table(Entries(parts), |parts|)
  }

  function HeaderAt(parts: seq<Part>, disk: Guid, crc: Crc, current: nat, backup: nat, entryLba: nat): Header
    requires Packable(parts)
  {
    Header(current, backup, FIRST_USABLE_LBA, BackupEntryLba(Sizes(parts)), disk, entryLba, Crc32(crc, TableOf(parts)))
  }

  function Primary(parts: seq<Part>, disk: Guid, crc: Crc): (h: Header)
    requires Packable(parts)
    ensures HeaderFits(h)
  {
    NumbersFit();
    HeaderAt(parts, disk, crc, HEADER_LBA, BackupEntryLba(Sizes(parts)) + 32, ENTRY_LBA)
  }

  function Backup(parts: seq<Part>, disk: Guid, crc: Crc): (h: Header)
    requires Packable(parts)
    ensures HeaderFits(h)
  {
    NumbersFit();
    HeaderAt(parts, disk, crc, BackupEntryLba(Sizes(parts)) + 32, HEADER_LBA, BackupEntryLba(Sizes(parts)))
  }

  lemma NumbersFit()
    ensures Pow256(4) == 0x1_0000_0000 && Pow256(8) == 0x1_0000_0000_0000_0000
  {
  }

  const MBR_FORMAT := [Num(1), Str(3), Num(1), Str(3), Num(4), Num(4)]

  /** Sectors the protective entry covers. */
  function Protected(diskSectors: nat): nat
    requires diskSectors > 0
  {
    if diskSectors - 1 < 0xFFFFFFFF then diskSectors - 1 else 0xFFFFFFFF
  }

  function MbrValues(diskSectors: nat): (xs: seq<Value>)
    requires diskSectors > 0
    ensures AllSuit(MBR_FORMAT, xs)
  {
    NumbersFit();
    assert Pow256(1) == 256;
    [Number(0), Bytes([0, 2, 0]), Number(0xEE), Bytes([255, 255, 255]), Number(1), Number(Protected(diskSectors))]
  }

  function MbrEntry(diskSectors: nat): (s: seq<byte>)
    requires diskSectors > 0
    ensures |s| == 16
  {
    assert Size(MBR_FORMAT) == 16;
    Pack(MBR_FORMAT, MbrValues(diskSectors))
  }

  function Mbr(diskSectors: nat): (s: seq<byte>)
    requires diskSectors > 0
    ensures |s| == SECTOR_SIZE
  {
    WriteAt(WriteAt(Zeros(512), 446, MbrEntry(diskSectors)), 510, [0x55, 0xAA])
  }

  lemma MbrOffsets()
    ensures Offset(MBR_FORMAT, 0, 0) == 0 && Offset(MBR_FORMAT, 0, 1) == 1 && Offset(MBR_FORMAT, 0, 2) == 4
    ensures Offset(MBR_FORMAT, 0, 3) == 5 && Offset(MBR_FORMAT, 0, 4) == 8 && Offset(MBR_FORMAT, 0, 5) == 12
  {
    OffsetOfNext(MBR_FORMAT, 0, 0);
    OffsetOfNext(MBR_FORMAT, 0, 1);
    OffsetOfNext(MBR_FORMAT, 0, 2);
    OffsetOfNext(MBR_FORMAT, 0, 3);
    OffsetOfNext(MBR_FORMAT, 0, 4);
  }

  lemma MbrField(diskSectors: nat, i: nat, at: nat)
    requires diskSectors > 0 && i < |MBR_FORMAT| && at == Offset(MBR_FORMAT, 0, i)
    ensures Reads(MbrEntry(diskSectors), MBR_FORMAT[i], MbrValues(diskSectors)[i], at)
    ensures Slice(MbrEntry(diskSectors), at, Width(MBR_FORMAT[i])) == Encode(MbrValues(diskSectors)[i], MBR_FORMAT[i])
  {
    FieldAt(MBR_FORMAT, MbrValues(diskSectors), i);
    ReadAt(MBR_FORMAT, MbrValues(diskSectors), i, at);
  }

  /** The bytes of the protective entry: not bootable, from head 0, sector 2, cylinder 0 on, type EE, to the last
      address of that kind, from sector 1 on, as many sectors as there are behind it or fit. */
  predicate IsProtective(e: seq<byte>, diskSectors: nat) {
    && |e| == 16 && e[0] == 0 && e[1..4] == [0, 2, 0] && e[4] == 0xEE && e[5..8] == [255, 255, 255]
    && Num32(e, 8) == 1
    && Num32(e, 12) == if diskSectors - 1 < 0xFFFF_FFFF then diskSectors - 1 else 0xFFFF_FFFF
  }

  lemma MbrEntryIs(diskSectors: nat)
    requires diskSectors > 0
    ensures IsProtective(MbrEntry(diskSectors), diskSectors)
  {
    var e := MbrEntry(diskSectors);
    MbrOffsets();
    MbrField(diskSectors, 0, 0);
    MbrField(diskSectors, 1, 1);
    MbrField(diskSectors, 2, 4);
    MbrField(diskSectors, 3, 5);
    MbrField(diskSectors, 4, 8);
    MbrField(diskSectors, 5, 12);
    assert e[0] == Slice(e, 0, 1)[0] && e[4] == Slice(e, 4, 1)[0];
  }

  /** A reader of the MBR finds its signature, the protective entry, covering the disk from sector 1 as far as
      32 bits reach, and otherwise zeros. */
  lemma MbrReadsBack(diskSectors: nat)
    requires diskSectors > 0
    ensures var mbr := Mbr(diskSectors);
      && mbr[510..] == [0x55, 0xAA] && IsProtective(mbr[446..462], diskSectors)
      && (forall i :: 0 <= i < 446 || 462 <= i < 510 ==> mbr[i] == 0)
  {
    MbrEntryIs(diskSectors);
    var blank, entry := Zeros(512), MbrEntry(diskSectors);
    WrittenHere(blank, 446, entry);
    WrittenHere(WriteAt(blank, 446, entry), 510, [0x55, 0xAA]);
    WrittenElsewhere(WriteAt(blank, 446, entry), 510, [0x55, 0xAA], 446, 16);
    MbrElsewhere(entry);
    var mbr := Mbr(diskSectors);
    assert mbr[446..462] == Slice(mbr, 446, 16) && mbr[510..] == Slice(mbr, 510, 2);
  }

  lemma MbrElsewhere(entry: seq<byte>)
    requires |entry| == 16
    ensures var mbr := WriteAt(WriteAt(Zeros(512), 446, entry), 510, [0x55, 0xAA]);
      |mbr| == 512 && forall i :: 0 <= i < 446 || 462 <= i < 510 ==> mbr[i] == 0
  {
    WriteSize(Zeros(512), 446, entry);
    WriteSize(WriteAt(Zeros(512), 446, entry), 510, [0x55, 0xAA]);
  }

  // ----- The script

  function ContentsOf(parts: seq<Part>, disk: Guid, crc: Crc): Contents
    requires Packable(parts)
  {
    Contents(
      Mbr(BackupEntryLba(Sizes(parts)) + 33),
      BuildHeader(crc, Primary(parts, disk, crc)),
      TableOf(parts),
      BuildHeader(crc, Backup(parts, disk, crc)),
      ImagesOf(parts))
  }

  function GptFile(parts: seq<Part>, disk: Guid, crc: Crc): seq<byte>
    requires Packable(parts)
  {
    FileOf(ContentsOf(parts, disk, crc))
  }

  /** The script, from the images to the file.  `struct.pack` refuses a disk of more than 2^64
      sectors, and then no file is opened. */
  method MakeGpt(parts: seq<Part>, disk: Guid, crc: Crc) returns (out: OutFile?)
    requires parts != []
    ensures out == null <==> !Packable(parts)
    ensures out != null ==> fresh(out) && out.content == GptFile(parts, disk, crc)
  {
    var layout := PlanLayout(Sizes(parts));
    var diskSectors := AlignUp(layout[|parts| - 1].1 + LAST_RESERVED_LBAS, FIRST_USABLE_LBA);
    AlignUpIsLeast(layout[|parts| - 1].1 + LAST_RESERVED_LBAS);
    PackableBelow(parts);
    if diskSectors > 0x1_0000_0000_0000_0000 {
      return null;
    }
    var contents := BuildContents(parts, layout, diskSectors, disk, crc);
    out := new OutFile();
    WriteDisk(out, contents, layout, diskSectors);
  }

  lemma PackableBelow(parts: seq<Part>)
    requires parts != []
    ensures Packable(parts) <==> DiskSectors(Sizes(parts)) <= 0x1_0000_0000_0000_0000
  {
    NumbersFit();
  }

  method BuildContents(parts: seq<Part>, layout: seq<(nat, nat)>, diskSectors: nat, disk: Guid, crc: Crc) returns (c: Contents)
    requires Packable(parts) && |layout| == |parts| && diskSectors == DiskSectors(Sizes(parts))
    requires forall k :: 0 <= k < |parts| ==> layout[k] == (Start(Sizes(parts), k), End(Sizes(parts), k))
    ensures c == ContentsOf(parts, disk, crc)
  {
    var entries := PackEntries(parts, layout);
    var mbr := MakeMbr(parts, diskSectors);
    var primary, backup := MakeHeaders(parts, diskSectors, disk, Crc32(crc, entries), crc);
    c := Contents(mbr, BuildHeader(crc, primary), entries, BuildHeader(crc, backup), ImagesOf(parts));
  }

  method MakeMbr(ghost parts: seq<Part>, diskSectors: nat) returns (mbr: seq<byte>)
    requires Packable(parts) && diskSectors == DiskSectors(Sizes(parts))
    ensures mbr == Mbr(BackupEntryLba(Sizes(parts)) + 33)
  {
    mbr := Mbr(diskSectors);
  }

  method MakeHeaders(ghost parts: seq<Part>, diskSectors: nat, disk: Guid, entryCrc: nat, ghost crc: Crc)
    returns (primary: Header, backup: Header)
    requires Packable(parts) && diskSectors == DiskSectors(Sizes(parts)) && entryCrc == Crc32(crc, TableOf(parts))
    ensures primary == Primary(parts, disk, crc) && backup == Backup(parts, disk, crc)
  {
    AlignUpIsLeast(End(Sizes(parts), |parts| - 1) + LAST_RESERVED_LBAS);
    var backupEntryLba := diskSectors - 33;
    var backupHeaderLba := diskSectors - 1;
    var lastUsable := diskSectors - LAST_RESERVED_LBAS;
    primary := Header(HEADER_LBA, backupHeaderLba, FIRST_USABLE_LBA, lastUsable, disk, ENTRY_LBA, entryCrc);
    backup := Header(backupHeaderLba, HEADER_LBA, FIRST_USABLE_LBA, lastUsable, disk, backupEntryLba, entryCrc);
  }

  method PackEntries(parts: seq<Part>, layout: seq<(nat, nat)>) returns (table: seq<byte>)
    requires Packable(parts) && |layout| == |parts|
    requires forall k :: 0 <= k < |parts| ==> layout[k] == (Start(Sizes(parts), k), End(Sizes(parts), k))
    ensures table == TableOf(parts)
  {
    ghost var entries := Entries(parts);
    table := Zeros(ENTRY_SIZE * ENTRY_COUNT);
    for idx := 0 to |parts|
      invariant table == Table(entries, idx)
    {
      var entry := PackPart(parts, layout[idx], idx);
      assert entry == entries[idx];
      table := WriteAt(table, idx * ENTRY_SIZE, entry);
    }
  }

  method PackPart(parts: seq<Part>, place: (nat, nat), idx: nat) returns (entry: seq<byte>)
    requires Packable(parts) && idx < |parts| && place == (Start(Sizes(parts), idx), End(Sizes(parts), idx))
    ensures entry == EntryBytes(parts, idx)
  {
    EntryFits(parts, idx);
    entry := PackEntry(Entry(LINUX_FS, parts[idx].guid, place.0, place.1, parts[idx].name));
  }
}
