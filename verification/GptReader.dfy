/** A GPT reader after section 5.3 of the UEFI Specification, and what it makes of a finished disk. */
module GptReader {
  import opened Wrappers
  import opened ByteFile
  import opened Gpt
  import opened GptDisk
  import opened GptImage

  // ----- The reader, by the places the specification gives

  /** The header's bytes with its checksum field cleared, as the checksum is taken. */
  function Unsummed(b: seq<byte>): seq<byte>
    requires |b| == 92
  {
    b[..16] + [0, 0, 0, 0] + b[20..]
  }

  /** Signature "EFI PART", revision, size, checksum, own location and the shape of the table are right. */
  predicate HeaderIsValid(b: seq<byte>, lba: nat, crc: Crc)
    requires |b| == 92
  {
    && b[..8] == [0x45, 0x46, 0x49, 0x20, 0x50, 0x41, 0x52, 0x54]
    && Num32(b, 8) == 0x1_0000 && Num32(b, 12) == 92
    && Num32(b, 16) == Crc32(crc, Unsummed(b)) && Num64(b, 24) == lba
    && Num32(b, 80) == 128 && Num32(b, 84) == 128
  }

  function ToHeader(b: seq<byte>): Header
    requires |b| == 92
  {
    Header(Num64(b, 24), Num64(b, 32), Num64(b, 40), Num64(b, 48), b[56..72], Num64(b, 72), Num32(b, 88))
  }

  function ReadHeader(file: seq<byte>, lba: nat, crc: Crc): Option<Header> {
    if |file| < lba * SECTOR_SIZE + 92 then None
    else
      var b := Slice(file, lba * SECTOR_SIZE, 92);
      if HeaderIsValid(b, lba, crc) then Some(ToHeader(b)) else None
  }

  /** An entry of the table; an all-zero type marks an unused one. */
  function ReadEntry(b: seq<byte>): Option<Entry>
    requires |b| == 128
  {
    if b[..16] == Zeros(16) then None
    else Some(Entry(b[..16], b[16..32], Num64(b, 32), Num64(b, 40), b[56..]))
  }

  datatype Found = Found(header: Header, entries: seq<Option<Entry>>)

  function ReadEntries(table: seq<byte>): (entries: seq<Option<Entry>>)
    requires |table| == ENTRY_COUNT * ENTRY_SIZE
    ensures |entries| == ENTRY_COUNT
  {
    seq(ENTRY_COUNT, k requires 0 <= k < ENTRY_COUNT => ReadEntry(Slice(table, k * ENTRY_SIZE, ENTRY_SIZE)))
  }

  function ReadGpt(file: seq<byte>, lba: nat, crc: Crc): Option<Found> {
    match ReadHeader(file, lba, crc)
    case None => None
    case Some(h) =>
      if |file| < h.entryLba * SECTOR_SIZE + ENTRY_COUNT * ENTRY_SIZE then None
      else
        var table := Slice(file, h.entryLba * SECTOR_SIZE, ENTRY_COUNT * ENTRY_SIZE);
        if Crc32(crc, table) != h.entryCrc then None
        else Some(Found(h, ReadEntries(table)))
  }

  // ----- Headers and entries read back

  lemma FrontOffsets()
    ensures Offset(HEADER_FORMAT, 0, 0) == 0 && Offset(HEADER_FORMAT, 0, 1) == 8 && Offset(HEADER_FORMAT, 0, 2) == 12
    ensures Offset(HEADER_FORMAT, 0, 3) == 16 && Offset(HEADER_FORMAT, 0, 4) == 20 && Offset(HEADER_FORMAT, 0, 5) == 24
  {
    OffsetOfNext(HEADER_FORMAT, 0, 0);
    OffsetOfNext(HEADER_FORMAT, 0, 1);
    OffsetOfNext(HEADER_FORMAT, 0, 2);
    OffsetOfNext(HEADER_FORMAT, 0, 3);
    OffsetOfNext(HEADER_FORMAT, 0, 4);
  }

  lemma MiddleOffsets()
    ensures Offset(HEADER_FORMAT, 0, 6) == 32 && Offset(HEADER_FORMAT, 0, 7) == 40 && Offset(HEADER_FORMAT, 0, 8) == 48
    ensures Offset(HEADER_FORMAT, 0, 9) == 56 && Offset(HEADER_FORMAT, 0, 10) == 72
  {
    FrontOffsets();
    OffsetOfNext(HEADER_FORMAT, 0, 5);
    OffsetOfNext(HEADER_FORMAT, 0, 6);
    OffsetOfNext(HEADER_FORMAT, 0, 7);
    OffsetOfNext(HEADER_FORMAT, 0, 8);
    OffsetOfNext(HEADER_FORMAT, 0, 9);
  }

  lemma BackOffsets()
    ensures Offset(HEADER_FORMAT, 0, 11) == 80 && Offset(HEADER_FORMAT, 0, 12) == 84 && Offset(HEADER_FORMAT, 0, 13) == 88
  {
    MiddleOffsets();
    OffsetOfNext(HEADER_FORMAT, 0, 10);
    OffsetOfNext(HEADER_FORMAT, 0, 11);
    OffsetOfNext(HEADER_FORMAT, 0, 12);
  }

  lemma HeaderField(h: Header, sum: nat, i: nat, at: nat)
    requires HeaderFits(h) && sum < Pow256(4) && i < |HEADER_FORMAT| && at == Offset(HEADER_FORMAT, 0, i)
    ensures AllSuit(HEADER_FORMAT, HeaderValues(h, sum))
    ensures Reads(PackHeader(h, sum), HEADER_FORMAT[i], HeaderValues(h, sum)[i], at)
  {
    HeaderSuits(h, sum);
    ReadAt(HEADER_FORMAT, HeaderValues(h, sum), i, at);
  }

  /** The first fields of a header, as far as its location. */
  predicate HasFront(b: seq<byte>, h: Header, sum: nat) {
    && |b| == 92 && b[..8] == [0x45, 0x46, 0x49, 0x20, 0x50, 0x41, 0x52, 0x54]
    && Num32(b, 8) == 0x1_0000 && Num32(b, 12) == 92 && Num32(b, 16) == sum && Num64(b, 24) == h.current
  }

  predicate HasMiddle(b: seq<byte>, h: Header) {
    && |b| == 92 && Num64(b, 32) == h.backup && Num64(b, 40) == h.firstUsable && Num64(b, 48) == h.lastUsable
    && b[56..72] == h.disk && Num64(b, 72) == h.entryLba
  }

  predicate HasBack(b: seq<byte>, h: Header) {
    |b| == 92 && Num32(b, 80) == 128 && Num32(b, 84) == 128 && Num32(b, 88) == h.entryCrc
  }

  lemma FrontFields(h: Header, sum: nat)
    requires HeaderFits(h) && sum < Pow256(4)
    ensures HasFront(PackHeader(h, sum), h, sum)
  {
    FrontOffsets();
    HeaderField(h, sum, 0, 0);
    HeaderField(h, sum, 1, 8);
    HeaderField(h, sum, 2, 12);
    HeaderField(h, sum, 3, 16);
    HeaderField(h, sum, 5, 24);
    FrontIs(PackHeader(h, sum), h, sum);
  }

  lemma FrontIs(b: seq<byte>, h: Header, sum: nat)
    requires |b| == 92 && AllSuit(HEADER_FORMAT, HeaderValues(h, sum))
    requires Reads(b, HEADER_FORMAT[0], HeaderValues(h, sum)[0], 0) && Reads(b, HEADER_FORMAT[1], HeaderValues(h, sum)[1], 8)
    requires Reads(b, HEADER_FORMAT[2], HeaderValues(h, sum)[2], 12) && Reads(b, HEADER_FORMAT[3], HeaderValues(h, sum)[3], 16)
    requires Reads(b, HEADER_FORMAT[5], HeaderValues(h, sum)[5], 24)
    ensures HasFront(b, h, sum)
  {
  }

  lemma MiddleFields(h: Header, sum: nat)
    requires HeaderFits(h) && sum < Pow256(4)
    ensures HasMiddle(PackHeader(h, sum), h)
  {
    MiddleOffsets();
    HeaderField(h, sum, 6, 32);
    HeaderField(h, sum, 7, 40);
    HeaderField(h, sum, 8, 48);
    HeaderField(h, sum, 9, 56);
    HeaderField(h, sum, 10, 72);
    MiddleIs(PackHeader(h, sum), h, sum);
  }

  lemma MiddleIs(b: seq<byte>, h: Header, sum: nat)
    requires |b| == 92 && AllSuit(HEADER_FORMAT, HeaderValues(h, sum))
    requires Reads(b, HEADER_FORMAT[6], HeaderValues(h, sum)[6], 32) && Reads(b, HEADER_FORMAT[7], HeaderValues(h, sum)[7], 40)
    requires Reads(b, HEADER_FORMAT[8], HeaderValues(h, sum)[8], 48) && Reads(b, HEADER_FORMAT[9], HeaderValues(h, sum)[9], 56)
    requires Reads(b, HEADER_FORMAT[10], HeaderValues(h, sum)[10], 72)
    ensures HasMiddle(b, h)
  {
  }

  lemma BackFields(h: Header, sum: nat)
    requires HeaderFits(h) && sum < Pow256(4)
    ensures HasBack(PackHeader(h, sum), h)
  {
    BackOffsets();
    HeaderField(h, sum, 11, 80);
    HeaderField(h, sum, 12, 84);
    HeaderField(h, sum, 13, 88);
    BackIs(PackHeader(h, sum), h, sum);
  }

  lemma BackIs(b: seq<byte>, h: Header, sum: nat)
    requires |b| == 92 && AllSuit(HEADER_FORMAT, HeaderValues(h, sum))
    requires Reads(b, HEADER_FORMAT[11], HeaderValues(h, sum)[11], 80) && Reads(b, HEADER_FORMAT[12], HeaderValues(h, sum)[12], 84)
    requires Reads(b, HEADER_FORMAT[13], HeaderValues(h, sum)[13], 88)
    ensures HasBack(b, h)
  {
  }

  /** What stands behind the checksum. */
  function BehindSum(h: Header, sum: nat): seq<byte>
    requires HeaderFits(h) && sum < Pow256(4)
  {
    HeaderSuits(h, sum);
    PackFrom(HEADER_FORMAT, HeaderValues(h, sum), 4)
  }

  /** What stands before the checksum. */
  function BeforeSum(): (s: seq<byte>)
    ensures |s| == 16
  {
    SIGNATURE + LE(0x1_0000, 4) + LE(92, 4)
  }

  lemma UpToSum(h: Header, sum: nat)
    requires HeaderFits(h) && sum < Pow256(4)
    ensures PackHeader(h, sum) == BeforeSum() + LE(sum, 4) + BehindSum(h, sum)
  {
    HeaderSuits(h, sum);
    var xs := HeaderValues(h, sum);
    FromNext(HEADER_FORMAT, xs, 0);
    FromNext(HEADER_FORMAT, xs, 1);
    FromNext(HEADER_FORMAT, xs, 2);
    FromNext(HEADER_FORMAT, xs, 3);
    assert HEADER_FORMAT[0..] == HEADER_FORMAT && xs[0..] == xs;
    Flattened(SIGNATURE, LE(0x1_0000, 4), LE(92, 4), LE(sum, 4), BehindSum(h, sum));
  }

  lemma Flattened(a: seq<byte>, b: seq<byte>, c: seq<byte>, d: seq<byte>, e: seq<byte>)
    ensures a + (b + (c + (d + e))) == a + b + c + d + e
  {
  }

  lemma SameBehindSum(h: Header, sum: nat)
    requires HeaderFits(h) && sum < Pow256(4)
    ensures BehindSum(h, sum) == BehindSum(h, 0)
  {
    assert HeaderValues(h, sum)[4..] == HeaderValues(h, 0)[4..];
  }

  /** Clearing the checksum field gives the header the checksum was taken of. */
  lemma ClearedSum(h: Header, sum: nat)
    requires HeaderFits(h) && sum < Pow256(4)
    ensures Unsummed(PackHeader(h, sum)) == PackHeader(h, 0)
  {
    UpToSum(h, sum);
    UpToSum(h, 0);
    SameBehindSum(h, sum);
    Cleared(PackHeader(h, sum), PackHeader(h, 0), BeforeSum(), LE(sum, 4), BehindSum(h, sum));
  }

  lemma Cleared(b: seq<byte>, b0: seq<byte>, front: seq<byte>, sum: seq<byte>, back: seq<byte>)
    requires |b| == 92 && b == front + sum + back && |front| == 16 && |sum| == 4
    requires b0 == front + LE(0, 4) + back
    ensures Unsummed(b) == b0
  {
    FourZeros();
  }

  lemma FourZeros()
    ensures LE(0, 4) == [0, 0, 0, 0]
  {
    assert LE(0, 1) == [0] && LE(0, 2) == [0, 0];
  }

  lemma HeaderReadsBack(file: seq<byte>, lba: nat, crc: Crc, h: Header)
    requires HeaderFits(h) && h.current == lba
    requires Holds(file, lba * SECTOR_SIZE, BuildHeader(crc, h))
    ensures ReadHeader(file, lba, crc) == Some(h)
  {
    NumbersFit();
    var sum := Crc32(crc, PackHeader(h, 0));
    SliceOfSlice(file, lba * SECTOR_SIZE, SECTOR_SIZE, lba * SECTOR_SIZE, 92);
    assert Slice(BuildHeader(crc, h), 0, 92) == PackHeader(h, sum);
    ClearedSum(h, sum);
    FrontFields(h, sum);
    MiddleFields(h, sum);
    BackFields(h, sum);
  }

  lemma EntryOffsets()
    ensures Offset(ENTRY_FORMAT, 0, 0) == 0 && Offset(ENTRY_FORMAT, 0, 1) == 16 && Offset(ENTRY_FORMAT, 0, 2) == 32
    ensures Offset(ENTRY_FORMAT, 0, 3) == 40 && Offset(ENTRY_FORMAT, 0, 5) == 56
  {
    OffsetOfNext(ENTRY_FORMAT, 0, 0);
    OffsetOfNext(ENTRY_FORMAT, 0, 1);
    OffsetOfNext(ENTRY_FORMAT, 0, 2);
    OffsetOfNext(ENTRY_FORMAT, 0, 3);
    OffsetOfNext(ENTRY_FORMAT, 0, 4);
  }

  lemma EntryField(e: Entry, i: nat, at: nat)
    requires e.first < Pow256(8) && e.last < Pow256(8) && i < |ENTRY_FORMAT| && at == Offset(ENTRY_FORMAT, 0, i)
    ensures AllSuit(ENTRY_FORMAT, EntryValues(e))
    ensures Reads(PackEntry(e), ENTRY_FORMAT[i], EntryValues(e)[i], at)
  {
    ReadAt(ENTRY_FORMAT, EntryValues(e), i, at);
  }

  lemma EntryReadsBack(e: Entry)
    requires e.first < Pow256(8) && e.last < Pow256(8) && e.kind != Zeros(16)
    ensures ReadEntry(PackEntry(e)) == Some(e.(name := NameField(e.name)))
  {
    EntryOffsets();
    EntryField(e, 0, 0);
    EntryField(e, 1, 16);
    EntryField(e, 2, 32);
    EntryField(e, 3, 40);
    EntryField(e, 5, 56);
    EntryIs(PackEntry(e), e);
  }

  lemma EntryIs(b: seq<byte>, e: Entry)
    requires |b| == 128 && AllSuit(ENTRY_FORMAT, EntryValues(e)) && e.kind != Zeros(16)
    requires Reads(b, ENTRY_FORMAT[0], EntryValues(e)[0], 0) && Reads(b, ENTRY_FORMAT[1], EntryValues(e)[1], 16)
    requires Reads(b, ENTRY_FORMAT[2], EntryValues(e)[2], 32) && Reads(b, ENTRY_FORMAT[3], EntryValues(e)[3], 40)
    requires Reads(b, ENTRY_FORMAT[5], EntryValues(e)[5], 56)
    ensures ReadEntry(b) == Some(e.(name := NameField(e.name)))
  {
    assert b[..16] == Slice(b, 0, 16) && b[56..] == Slice(b, 56, 72);
  }

  /** What a reader of the table should see in slot `k`. */
  function Expected(parts: seq<Part>, k: nat): Option<Entry> {
    if k < |parts| then Some(EntryOf(parts, k).(name := NameField(parts[k].name))) else None
  }

  lemma UnusedReadsBack()
    ensures ReadEntry(Zeros(ENTRY_SIZE)) == None
  {
    assert Zeros(ENTRY_SIZE)[..16] == Zeros(16);
  }

  lemma TableReadsBack(parts: seq<Part>)
    requires Packable(parts) && |parts| <= ENTRY_COUNT
    ensures |TableOf(parts)| == ENTRY_COUNT * ENTRY_SIZE
    ensures forall k :: 0 <= k < ENTRY_COUNT ==> ReadEntries(TableOf(parts))[k] == Expected(parts, k)
  {
    TableSize(Entries(parts), |parts|);
    forall k | 0 <= k < ENTRY_COUNT
      ensures ReadEntries(TableOf(parts))[k] == Expected(parts, k)
    {
      TableSlot(Entries(parts), |parts|, k);
      UnusedReadsBack();
      if k < |parts| {
        EntryFits(parts, k);
        NonzeroType();
        EntryReadsBack(EntryOf(parts, k));
      }
    }
  }

  lemma NonzeroType()
    ensures LINUX_FS != Zeros(16)
  {
    assert LINUX_FS[0] != Zeros(16)[0];
  }

  lemma ContentsAreSound(parts: seq<Part>, disk: Guid, crc: Crc)
    requires Packable(parts) && |parts| <= ENTRY_COUNT
    ensures Sound(ContentsOf(parts, disk, crc))
  {
    TableSize(Entries(parts), |parts|);
  }

  lemma FoundAt(file: seq<byte>, h: Header, table: seq<byte>, crc: Crc)
    requires HeaderFits(h) && Holds(file, h.current * SECTOR_SIZE, BuildHeader(crc, h))
    requires |table| == ENTRY_COUNT * ENTRY_SIZE && Holds(file, h.entryLba * SECTOR_SIZE, table)
    requires h.entryCrc == Crc32(crc, table)
    ensures ReadGpt(file, h.current, crc) == Some(Found(h, ReadEntries(table)))
  {
    HeaderReadsBack(file, h.current, crc, h);
  }

  function Listing(parts: seq<Part>): seq<Option<Entry>> {
    seq(ENTRY_COUNT, k requires 0 <= k < ENTRY_COUNT => Expected(parts, k))
  }

  lemma ListingReadsBack(parts: seq<Part>)
    requires Packable(parts) && |parts| <= ENTRY_COUNT
    ensures |TableOf(parts)| == ENTRY_COUNT * ENTRY_SIZE && ReadEntries(TableOf(parts)) == Listing(parts)
  {
    TableReadsBack(parts);
  }

  /** From sector 1 and from the last sector of the finished disk a reader finds valid headers and
      the same table: the layout, in order, with its names and GUIDs. */
  lemma GptReadsBack(parts: seq<Part>, disk: Guid, crc: Crc)
    requires Packable(parts) && |parts| <= ENTRY_COUNT
    ensures ReadGpt(GptFile(parts, disk, crc), 1, crc) == Some(Found(Primary(parts, disk, crc), Listing(parts)))
    ensures ReadGpt(GptFile(parts, disk, crc), BackupEntryLba(Sizes(parts)) + 32, crc)
         == Some(Found(Backup(parts, disk, crc), Listing(parts)))
  {
    var c := ContentsOf(parts, disk, crc);
    ContentsAreSound(parts, disk, crc);
    StructuresStay(c);
    ListingReadsBack(parts);
    FoundAt(FileOf(c), Primary(parts, disk, crc), c.table, crc);
    FoundAt(FileOf(c), Backup(parts, disk, crc), c.table, crc);
  }

  // ----- What the reader finds, in terms of the images

  /** The entry is of the Linux filesystem type (0FC63DAF-8483-4772-8E79-3D69D8477DE4, the first three groups little-
      endian), carries the part's GUID and the first 72 bytes of its name, filled up with zeros, and spans whole
      sectors for the image with less than one to spare, from a multiple of 2048 on. */
  predicate Describes(e: Entry, part: Part) {
    && e.kind == [0xAF, 0x3D, 0xC6, 0x0F, 0x83, 0x84, 0x72, 0x47, 0x8E, 0x79, 0x3D, 0x69, 0xD8, 0x47, 0x7D, 0xE4]
    && e.guid == part.guid
    && |e.name| == 72
    && (forall i :: 0 <= i < 72 ==> e.name[i] == if i < |part.name| then part.name[i] else 0)
    && e.first >= 2048 && e.first % 2048 == 0
    && 0 <= (e.last + 1 - e.first) * 512 - |part.image| < 512
  }

  /** One entry for each part, in order and apart, and none besides. */
  predicate IsListing(entries: seq<Option<Entry>>, parts: seq<Part>) {
    && |entries| == 128 && |parts| <= 128
    && (forall k :: 0 <= k < |parts| ==> entries[k].Some? && Describes(entries[k].value, parts[k]))
    && (forall k :: |parts| <= k < 128 ==> entries[k].None?)
    && (forall i, j :: 0 <= i < j < |parts| ==> entries[i].value.last < entries[j].value.first)
  }

  lemma EntryDescribes(parts: seq<Part>, k: nat)
    requires k < |parts|
    ensures Describes(EntryOf(parts, k).(name := NameField(parts[k].name)), parts[k])
  {
    StartIsAligned(Sizes(parts), k);
    RoomForImage(Sizes(parts), k);
    NameIs(parts[k].name);
    assert Sizes(parts)[k] == |parts[k].image|;
  }

  lemma NameIs(name: seq<byte>)
    ensures forall i :: 0 <= i < 72 ==> NameField(name)[i] == if i < |name| then name[i] else 0
  {
  }

  lemma ListingIs(parts: seq<Part>)
    requires |parts| <= ENTRY_COUNT
    ensures IsListing(Listing(parts), parts)
  {
    forall k | 0 <= k < |parts|
      ensures Describes(Listing(parts)[k].value, parts[k])
    {
      EntryDescribes(parts, k);
    }
    forall i, j | 0 <= i < j < |parts|
      ensures Listing(parts)[i].value.last < Listing(parts)[j].value.first
    {
      InOrder(Sizes(parts), i, j);
    }
  }

  /** What is found from sector 1 and from the last sector of a disk of `n` sectors.  The disk is a multiple of 2048
      sectors, the least that holds 33 beyond the last sector of the last partition; the headers stand in sector 1
      and in the last sector and name each other, the tables follow the one and precede the other, and the sectors
      from 2048 to 33 before the end are declared usable.  Both tables list the parts. */
  predicate IsDisk(n: nat, front: Found, back: Found, parts: seq<Part>, disk: Guid)
    requires parts != []
  {
    && n % 2048 == 0 && n > 33
    && front.header == Header(1, n - 1, 2048, n - 33, disk, 2, front.header.entryCrc)
    && back.header == Header(n - 1, 1, 2048, n - 33, disk, n - 33, front.header.entryCrc)
    && IsListing(front.entries, parts) && back.entries == front.entries
    && (var last := front.entries[|parts| - 1].value.last; last + 33 <= n < last + 33 + 2048)
  }

  lemma HeadersAre(parts: seq<Part>, disk: Guid, crc: Crc, n: nat)
    requires Packable(parts) && n == DiskSectors(Sizes(parts))
    ensures n % 2048 == 0 && n > 33 && BackupEntryLba(Sizes(parts)) + 32 == n - 1
    ensures End(Sizes(parts), |parts| - 1) + 33 <= n < End(Sizes(parts), |parts| - 1) + 33 + 2048
    ensures Primary(parts, disk, crc) == Header(1, n - 1, 2048, n - 33, disk, 2, Crc32(crc, TableOf(parts)))
    ensures Backup(parts, disk, crc) == Header(n - 1, 1, 2048, n - 33, disk, n - 33, Crc32(crc, TableOf(parts)))
  {
    StartIsAligned(Sizes(parts), |parts| - 1);
    AlignUpIsLeast(End(Sizes(parts), |parts| - 1) + LAST_RESERVED_LBAS);
  }

  /** What a reader finds on the finished disk, starting from sector 1 and from the last sector. */
  lemma DiskAsFound(parts: seq<Part>, disk: Guid, crc: Crc) returns (n: nat, front: Found, back: Found)
    requires Packable(parts) && |parts| <= ENTRY_COUNT
    ensures n > 0 && |GptFile(parts, disk, crc)| == n * 512
    ensures ReadGpt(GptFile(parts, disk, crc), 1, crc) == Some(front)
    ensures ReadGpt(GptFile(parts, disk, crc), n - 1, crc) == Some(back)
    ensures IsDisk(n, front, back, parts, disk)
  {
    n := DiskSectors(Sizes(parts));
    front := Found(Primary(parts, disk, crc), Listing(parts));
    back := Found(Backup(parts, disk, crc), Listing(parts));
    GptReadsBack(parts, disk, crc);
    HeadersPair(parts, disk, crc);
    HeadersAre(parts, disk, crc, n);
    DiskIs(n, front, back, parts, disk);
  }

  lemma DiskIs(n: nat, front: Found, back: Found, parts: seq<Part>, disk: Guid)
    requires 0 < |parts| <= ENTRY_COUNT && front.entries == back.entries == Listing(parts)
    requires n % 2048 == 0 && n > 33
    requires End(Sizes(parts), |parts| - 1) + 33 <= n < End(Sizes(parts), |parts| - 1) + 33 + 2048
    requires front.header == Header(1, n - 1, 2048, n - 33, disk, 2, front.header.entryCrc)
    requires back.header == Header(n - 1, 1, 2048, n - 33, disk, n - 33, front.header.entryCrc)
    ensures IsDisk(n, front, back, parts, disk)
  {
    ListingIs(parts);
    LastOfListing(parts);
  }

  lemma LastOfListing(parts: seq<Part>)
    requires parts != [] && |parts| <= ENTRY_COUNT
    ensures Listing(parts)[|parts| - 1].Some? && Listing(parts)[|parts| - 1].value.last == End(Sizes(parts), |parts| - 1)
  {
  }

  /** The file has the size the layout calls for, its last sector is the backup header, and each
      header names the other. */
  lemma HeadersPair(parts: seq<Part>, disk: Guid, crc: Crc)
    requires Packable(parts) && |parts| <= ENTRY_COUNT
    ensures |GptFile(parts, disk, crc)| == DiskSectors(Sizes(parts)) * SECTOR_SIZE
    ensures Primary(parts, disk, crc).backup == Backup(parts, disk, crc).current == DiskSectors(Sizes(parts)) - 1
    ensures Backup(parts, disk, crc).backup == Primary(parts, disk, crc).current == 1
  {
    ContentsAreSound(parts, disk, crc);
    FileSize(ContentsOf(parts, disk, crc));
  }

  /** Image `k` is covered in part exactly when it is the last one and its partition ends 33 sectors
      short of a multiple of 2048; and it reads back exactly when its covered end, if any, happens to
      be the beginning of the partition table. */
  predicate ReadsBackIffSpared(file: seq<byte>, at: nat, images: seq<seq<byte>>, table: seq<byte>, k: nat)
    requires k < |images|
  {
    var image, covered := images[k], Covered(images, k);
    && (covered > 0 <==> k == |images| - 1 && (End(SizesOf(images), k) + 33) % 2048 == 0)
    && covered <= |image| && covered <= |table|
    && (Holds(file, at, image) <==> image[|image| - covered..] == table[..covered])
  }

  /** At the place the reader finds for partition `k`, image `k` reads back unless it is covered. */
  lemma PartitionReadsBackIff(parts: seq<Part>, disk: Guid, crc: Crc, k: nat) returns (found: Found, images: seq<seq<byte>>)
    requires Packable(parts) && |parts| <= ENTRY_COUNT && k < |parts|
    ensures ReadGpt(GptFile(parts, disk, crc), 1, crc) == Some(found) && k < |found.entries| && found.entries[k].Some?
    ensures |images| == |parts| && forall i :: 0 <= i < |parts| ==> images[i] == parts[i].image
    ensures ReadsBackIffSpared(GptFile(parts, disk, crc), found.entries[k].value.first * 512, images, TableOf(parts), k)
  {
    images := ImagesOf(parts);
    found := Found(Primary(parts, disk, crc), Listing(parts));
    GptReadsBack(parts, disk, crc);
    var c := ContentsOf(parts, disk, crc);
    ContentsAreSound(parts, disk, crc);
    ImagesAreRead(c, k);
    ListedFirst(parts, k);
  }

  lemma ListedFirst(parts: seq<Part>, k: nat)
    requires k < |parts| <= ENTRY_COUNT
    ensures Listing(parts)[k].Some? && Listing(parts)[k].value.first * 512 == Place(ImagesOf(parts), k)
  {
  }

  lemma ImagesAreRead(c: Contents, k: nat)
    requires Sound(c) && k < |c.images|
    ensures ReadsBackIffSpared(FileOf(c), Place(c.images, k), c.images, c.table, k)
  {
    ImageReadsBackIff(c, k);
  }

  /** The headers declare usable the very sector where the backup table begins. */
  lemma LastUsableIsTaken(parts: seq<Part>, disk: Guid, crc: Crc)
    requires Packable(parts)
    ensures Primary(parts, disk, crc).lastUsable == Backup(parts, disk, crc).lastUsable
         == Backup(parts, disk, crc).entryLba
  {
  }

  /** A covered image is lost unless the byte at which it is cut happens to be the first one of the
      partition type. */
  lemma CoveredImageIsLost(parts: seq<Part>, disk: Guid, crc: Crc, k: nat)
    requires Packable(parts) && |parts| <= ENTRY_COUNT && k < |parts|
    requires 0 < Covered(ImagesOf(parts), k) <= |ImagesOf(parts)[k]|
    requires ImagesOf(parts)[k][|ImagesOf(parts)[k]| - Covered(ImagesOf(parts), k)] != LINUX_FS[0]
    ensures !Holds(GptFile(parts, disk, crc), Place(ImagesOf(parts), k), ImagesOf(parts)[k])
  {
    var c := ContentsOf(parts, disk, crc);
    ContentsAreSound(parts, disk, crc);
    ImagesAreRead(c, k);
    TableStartsWithType(parts);
    CutDiffers(FileOf(c), c.images, c.table, k);
  }

  lemma CutDiffers(file: seq<byte>, images: seq<seq<byte>>, table: seq<byte>, k: nat)
    requires k < |images| && ReadsBackIffSpared(file, Place(images, k), images, table, k)
    requires 0 < Covered(images, k) && images[k][|images[k]| - Covered(images, k)] != table[0]
    ensures !Holds(file, Place(images, k), images[k])
  {
    var image, covered := images[k], Covered(images, k);
    assert image[|image| - covered..][0] != table[..covered][0];
  }

  /** The smallest image that is cut: 2016 sectors on a disk of its own. */
  lemma SingleImageIsCut(part: Part)
    requires |part.image| == 2016 * SECTOR_SIZE
    ensures Packable([part]) && Covered(ImagesOf([part]), 0) == SECTOR_SIZE
  {
    assert Sizes([part])[0] == 2016 * SECTOR_SIZE;
    NumbersFit();
  }

  lemma TableStartsWithType(parts: seq<Part>)
    requires Packable(parts) && |parts| <= ENTRY_COUNT
    ensures |TableOf(parts)| > SECTOR_SIZE && TableOf(parts)[0] == 0xAF
  {
    TableSlot(Entries(parts), |parts|, 0);
    EntryFits(parts, 0);
    assert Slice(TableOf(parts), 0, ENTRY_SIZE) == PackEntry(EntryOf(parts, 0));
    EntryStarts(PackEntry(EntryOf(parts, 0)), EntryOf(parts, 0));
    assert Slice(TableOf(parts), 0, ENTRY_SIZE)[0] == TableOf(parts)[0];
  }

  lemma EntryStarts(b: seq<byte>, e: Entry)
    requires e.first < Pow256(8) && e.last < Pow256(8) && b == PackEntry(e) && e.kind == LINUX_FS
    ensures |b| == 128 && b[0] == 0xAF
  {
    EntryOffsets();
    EntryField(e, 0, 0);
    assert b[0] == Slice(b, 0, 16)[0];
  }
}
